/** The per-family network configuration (`@network` in
    lib/guest_config.rb): the file to write, its content as a format
    string, and the shell command that applies it. */
module Registry {
  import opened OsResolver
  import Text
  import opened RubyFormat
  import opened Heredocs

  /** Where the configuration goes and what it says, before rendering. */
  datatype ConfigFile = ConfigFile(path: string, content: string)

  datatype Entry = Entry(configFile: ConfigFile, applyCmd: string)

  const RedhatPath: string := "/etc/sysconfig/network-scripts/ifcfg-eth0"

  /** The lines of the ifcfg heredoc, verbatim, written in pieces split
      at the references. Both DNS lines carry the label DNS1. */
  const RedhatLines: seq<string> := [
    "BOOTPROTO=none",
    "DEFROUTE=yes",
    "DEVICE=eth0",
    "DNS1=" + "%<dns1>s",
    "DNS1=" + "%<dns2>s",
    "GATEWAY=" + "%<gateway_ip>s",
    "IPADDR=" + "%<ip>s",
    "NAME=eth0",
    "ONBOOT=yes",
    "PREFIX=" + "%<prefix_length>d",
    "TYPE=Ethernet"
  ]

  /** A single non-blocking restart of the network service. */
  const Redhat7ApplyCmd: string := "sudo systemctl restart network --no-block"

  /** Reload NetworkManager, then cycle eth0 in a detached background job
      whose output goes to a log file. */
  const Redhat8ApplyCmd: string :=
    "sudo nmcli con reload && " +
    "{ nohup sh -c \"sudo nmcli con down eth0 && sudo nmcli con up eth0\" > /tmp/vagrant-network-apply.log 2>&1 & }"

  const UbuntuPath: string := "/etc/netplan/01-netcfg.yaml"

  /** The lines of the netplan heredoc, verbatim after the common
      four-space indent is stripped, written in pieces split at the
      references. */
  const UbuntuLines: seq<string> := [
    "network:",
    "  version: 2",
    "  ethernets:",
    "    eth0:",
    "      dhcp4: no",
    "      addresses: [" + "%<ip>s" + "/" + "%<prefix_length>d" + "]",
    "      gateway4: " + "%<gateway_ip>s",
    "      nameservers:",
    "        addresses: [" + "%<dns1>s" + ", " + "%<dns2>s" + "]"
  ]

  /** `netplan apply`, run in the background. */
  const UbuntuApplyCmd: string := "sudo netplan apply &"

  function Redhat7Entry(): Entry {
    Entry(ConfigFile(RedhatPath, Text.Unlines(RedhatLines)), Redhat7ApplyCmd)
  }

  function UbuntuEntry(): Entry {
    Entry(ConfigFile(UbuntuPath, Text.Unlines(UbuntuLines)), UbuntuApplyCmd)
  }

  /** The registry: RHEL 7 and Ubuntu given outright, RHEL 8 a copy of
      RHEL 7 whose apply command is then replaced. As values, the copy and
      the original cannot affect each other. */
  function Build(redhat7: Entry, redhat8Cmd: string, ubuntu: Entry): (network: map<OsTag, Entry>)
    ensures network.Keys == {Redhat7, Redhat8, Ubuntu}
    ensures network[Redhat7] == redhat7 && network[Ubuntu] == ubuntu
    ensures network[Redhat8].configFile == redhat7.configFile
    ensures network[Redhat8].applyCmd == redhat8Cmd
  {
    map[Redhat7 := redhat7]
      [Redhat8 := redhat7.(applyCmd := redhat8Cmd)]
      [Ubuntu := ubuntu]
  }

  /** `@network`. Every family has an entry, so looking up a resolved tag
      cannot miss. RHEL 8 writes the same file as RHEL 7 and applies it
      differently. */
  function Network(): (network: map<OsTag, Entry>)
    ensures forall t: OsTag :: t in network
    ensures network[Redhat8].configFile == network[Redhat7].configFile
    ensures network[Redhat8].applyCmd != network[Redhat7].applyCmd
  {
    assert |Redhat7ApplyCmd| < |Redhat8ApplyCmd|;
    var network := Build(Redhat7Entry(), Redhat8ApplyCmd, UbuntuEntry());
    assert forall t: OsTag :: t in network by {
      forall t: OsTag ensures t in network {
        if t != Redhat7 && t != Redhat8 {
          assert t == Ubuntu;
        }
      }
    }
    network
  }

  /** The heredoc lines of the ifcfg file as templates. */
  function RedhatTemplate(): seq<seq<Segment>> {
    [ [Lit("BOOTPROTO=none")],
      [Lit("DEFROUTE=yes")],
      [Lit("DEVICE=eth0")],
      [Lit("DNS1="), StrField("dns1")],
      [Lit("DNS1="), StrField("dns2")],
      [Lit("GATEWAY="), StrField("gateway_ip")],
      [Lit("IPADDR="), StrField("ip")],
      [Lit("NAME=eth0")],
      [Lit("ONBOOT=yes")],
      [Lit("PREFIX="), IntField("prefix_length")],
      [Lit("TYPE=Ethernet")] ]
  }

  /** The heredoc lines of the netplan file as templates. */
  function UbuntuTemplate(): seq<seq<Segment>> {
    [ [Lit("network:")],
      [Lit("  version: 2")],
      [Lit("  ethernets:")],
      [Lit("    eth0:")],
      [Lit("      dhcp4: no")],
      [Lit("      addresses: ["), StrField("ip"), Lit("/"), IntField("prefix_length"), Lit("]")],
      [Lit("      gateway4: "), StrField("gateway_ip")],
      [Lit("      nameservers:")],
      [Lit("        addresses: ["), StrField("dns1"), Lit(", "), StrField("dns2"), Lit("]")] ]
  }

  lemma ShowOne(g: Segment)
    ensures Show([g]) == ShowSegment(g)
  {
    assert [g][1..] == [];
  }

  lemma ShowPair(g0: Segment, g1: Segment)
    ensures Show([g0, g1]) == ShowSegment(g0) + ShowSegment(g1)
  {
    assert [g0, g1][1..] == [g1];
    ShowOne(g1);
  }

  lemma FiveSplit(g0: Segment, g1: Segment, g2: Segment, g3: Segment, g4: Segment)
    ensures [g0, g1, g2, g3, g4] == [g0, g1] + ([g2, g3] + [g4])
  {
  }

  /** The text of a five-segment line is the text of its segments. */
  lemma ShowFive(g0: Segment, g1: Segment, g2: Segment, g3: Segment, g4: Segment)
    ensures Show([g0, g1, g2, g3, g4])
         == ShowSegment(g0) + ShowSegment(g1) + ShowSegment(g2) + ShowSegment(g3) + ShowSegment(g4)
  {
    FiveSplit(g0, g1, g2, g3, g4);
    ShowAppend([g0, g1], [g2, g3] + [g4]);
    ShowAppend([g2, g3], [g4]);
    ShowPair(g0, g1);
    ShowPair(g2, g3);
    ShowOne(g4);
    Regroup(ShowSegment(g0), ShowSegment(g1), ShowSegment(g2), ShowSegment(g3), ShowSegment(g4));
  }

  lemma Regroup(a: string, b: string, c: string, d: string, e: string)
    ensures (a + b) + ((c + d) + e) == a + b + c + d + e
  {
  }

  lemma FiveWellFormed(g0: Segment, g1: Segment, g2: Segment, g3: Segment, g4: Segment)
    requires WellFormedSegment(g0) && WellFormedSegment(g1) && WellFormedSegment(g2)
    requires WellFormedSegment(g3) && WellFormedSegment(g4)
    ensures WellFormed([g0, g1, g2, g3, g4])
  {
  }

  /** The printed form of each reference the templates use. */
  lemma ReferenceTexts()
    ensures ShowSegment(StrField("ip")) == "%<ip>s"
    ensures ShowSegment(StrField("gateway_ip")) == "%<gateway_ip>s"
    ensures ShowSegment(StrField("dns1")) == "%<dns1>s"
    ensures ShowSegment(StrField("dns2")) == "%<dns2>s"
  {
  }

  lemma PrefixReferenceText()
    ensures ShowSegment(IntField("prefix_length")) == "%<prefix_length>d"
  {
  }

  // One lemma per ifcfg line keeps each literal comparison small.
  lemma RedhatLineText0() ensures Show(RedhatTemplate()[0]) == RedhatLines[0] { }
  lemma RedhatLineText1() ensures Show(RedhatTemplate()[1]) == RedhatLines[1] { }
  lemma RedhatLineText2() ensures Show(RedhatTemplate()[2]) == RedhatLines[2] { }
  lemma RedhatLineText3()
    ensures Show(RedhatTemplate()[3]) == RedhatLines[3]
  {
    ShowPair(Lit("DNS1="), StrField("dns1"));
    ReferenceTexts();
  }
  lemma RedhatLineText4()
    ensures Show(RedhatTemplate()[4]) == RedhatLines[4]
  {
    ShowPair(Lit("DNS1="), StrField("dns2"));
    ReferenceTexts();
  }
  lemma RedhatLineText5()
    ensures Show(RedhatTemplate()[5]) == RedhatLines[5]
  {
    ShowPair(Lit("GATEWAY="), StrField("gateway_ip"));
    ReferenceTexts();
  }
  lemma RedhatLineText6()
    ensures Show(RedhatTemplate()[6]) == RedhatLines[6]
  {
    ShowPair(Lit("IPADDR="), StrField("ip"));
    ReferenceTexts();
  }
  lemma RedhatLineText7() ensures Show(RedhatTemplate()[7]) == RedhatLines[7] { }
  lemma RedhatLineText8() ensures Show(RedhatTemplate()[8]) == RedhatLines[8] { }
  lemma RedhatLineText9()
    ensures Show(RedhatTemplate()[9]) == RedhatLines[9]
  {
    ShowPair(Lit("PREFIX="), IntField("prefix_length"));
    PrefixReferenceText();
  }
  lemma RedhatLineText10() ensures Show(RedhatTemplate()[10]) == RedhatLines[10] { }

  lemma RedhatLineWellFormed0() ensures WellFormed(RedhatTemplate()[0]) { }
  lemma RedhatLineWellFormed1() ensures WellFormed(RedhatTemplate()[1]) { }
  lemma RedhatLineWellFormed2() ensures WellFormed(RedhatTemplate()[2]) { }
  lemma RedhatLineWellFormed3() ensures WellFormed(RedhatTemplate()[3]) { }
  lemma RedhatLineWellFormed4() ensures WellFormed(RedhatTemplate()[4]) { }
  lemma RedhatLineWellFormed5() ensures WellFormed(RedhatTemplate()[5]) { }
  lemma RedhatLineWellFormed6() ensures WellFormed(RedhatTemplate()[6]) { }
  lemma RedhatLineWellFormed7() ensures WellFormed(RedhatTemplate()[7]) { }
  lemma RedhatLineWellFormed8() ensures WellFormed(RedhatTemplate()[8]) { }
  lemma RedhatLineWellFormed9() ensures WellFormed(RedhatTemplate()[9]) { }
  lemma RedhatLineWellFormed10() ensures WellFormed(RedhatTemplate()[10]) { }

  /** The ifcfg template reads back as the verbatim heredoc lines. */
  lemma RedhatTemplateText()
    ensures ShowLines(RedhatTemplate()) == RedhatLines
  {
    RedhatLineText0(); RedhatLineText1(); RedhatLineText2(); RedhatLineText3();
    RedhatLineText4(); RedhatLineText5(); RedhatLineText6(); RedhatLineText7();
    RedhatLineText8(); RedhatLineText9(); RedhatLineText10();
  }

  /** Every line of the ifcfg template is well formed. */
  lemma RedhatTemplateWellFormed()
    ensures WellFormedLines(RedhatTemplate())
  {
    RedhatLineWellFormed0(); RedhatLineWellFormed1(); RedhatLineWellFormed2();
    RedhatLineWellFormed3(); RedhatLineWellFormed4(); RedhatLineWellFormed5();
    RedhatLineWellFormed6(); RedhatLineWellFormed7(); RedhatLineWellFormed8();
    RedhatLineWellFormed9(); RedhatLineWellFormed10();
  }

  // One lemma per netplan line keeps each literal comparison small.
  lemma UbuntuLineText0() ensures Show(UbuntuTemplate()[0]) == UbuntuLines[0] { }
  lemma UbuntuLineText1() ensures Show(UbuntuTemplate()[1]) == UbuntuLines[1] { }
  lemma UbuntuLineText2() ensures Show(UbuntuTemplate()[2]) == UbuntuLines[2] { }
  lemma UbuntuLineText3() ensures Show(UbuntuTemplate()[3]) == UbuntuLines[3] { }
  lemma UbuntuLineText4() ensures Show(UbuntuTemplate()[4]) == UbuntuLines[4] { }
  lemma UbuntuLineText5()
    ensures Show(UbuntuTemplate()[5]) == UbuntuLines[5]
  {
    ShowFive(Lit("      addresses: ["), StrField("ip"), Lit("/"), IntField("prefix_length"), Lit("]"));
    ReferenceTexts();
    PrefixReferenceText();
  }

  lemma UbuntuLineText6()
    ensures Show(UbuntuTemplate()[6]) == UbuntuLines[6]
  {
    ShowPair(Lit("      gateway4: "), StrField("gateway_ip"));
    ReferenceTexts();
  }
  lemma UbuntuLineText7() ensures Show(UbuntuTemplate()[7]) == UbuntuLines[7] { }
  lemma UbuntuLineText8()
    ensures Show(UbuntuTemplate()[8]) == UbuntuLines[8]
  {
    ShowFive(Lit("        addresses: ["), StrField("dns1"), Lit(", "), StrField("dns2"), Lit("]"));
    ReferenceTexts();
  }

  lemma UbuntuLineWellFormed0() ensures WellFormed(UbuntuTemplate()[0]) { }
  lemma UbuntuLineWellFormed1() ensures WellFormed(UbuntuTemplate()[1]) { }
  lemma UbuntuLineWellFormed2() ensures WellFormed(UbuntuTemplate()[2]) { }
  lemma UbuntuLineWellFormed3() ensures WellFormed(UbuntuTemplate()[3]) { }
  lemma UbuntuLineWellFormed4() ensures WellFormed(UbuntuTemplate()[4]) { }
  lemma UbuntuLineWellFormed5()
    ensures WellFormed(UbuntuTemplate()[5])
  {
    FiveWellFormed(Lit("      addresses: ["), StrField("ip"), Lit("/"), IntField("prefix_length"), Lit("]"));
  }
  lemma UbuntuLineWellFormed6() ensures WellFormed(UbuntuTemplate()[6]) { }
  lemma UbuntuLineWellFormed7() ensures WellFormed(UbuntuTemplate()[7]) { }
  lemma UbuntuLineWellFormed8()
    ensures WellFormed(UbuntuTemplate()[8])
  {
    FiveWellFormed(Lit("        addresses: ["), StrField("dns1"), Lit(", "), StrField("dns2"), Lit("]"));
  }

  /** The netplan template reads back as the verbatim heredoc lines. */
  lemma UbuntuTemplateText()
    ensures ShowLines(UbuntuTemplate()) == UbuntuLines
  {
    UbuntuLineText0(); UbuntuLineText1(); UbuntuLineText2(); UbuntuLineText3();
    UbuntuLineText4(); UbuntuLineText5(); UbuntuLineText6(); UbuntuLineText7();
    UbuntuLineText8();
  }

  /** Every line of the netplan template is well formed. */
  lemma UbuntuTemplateWellFormed()
    ensures WellFormedLines(UbuntuTemplate())
  {
    UbuntuLineWellFormed0(); UbuntuLineWellFormed1(); UbuntuLineWellFormed2();
    UbuntuLineWellFormed3(); UbuntuLineWellFormed4(); UbuntuLineWellFormed5();
    UbuntuLineWellFormed6(); UbuntuLineWellFormed7(); UbuntuLineWellFormed8();
  }

  /** The template behind each family's content. */
  function TemplateOf(tag: OsTag): seq<seq<Segment>> {
    match tag
    case Redhat7 => RedhatTemplate()
    case Redhat8 => RedhatTemplate()
    case Ubuntu => UbuntuTemplate()
  }

  /** Every registered content is the text of a well-formed heredoc
      template, so formatting it is rendering that template. */
  lemma EntryTemplate(tag: OsTag)
    ensures tag in Network()
    ensures Network()[tag].configFile.content == Text.Unlines(ShowLines(TemplateOf(tag)))
    ensures WellFormedLines(TemplateOf(tag))
  {
    RedhatTemplateText();
    RedhatTemplateWellFormed();
    UbuntuTemplateText();
    UbuntuTemplateWellFormed();
  }
}
