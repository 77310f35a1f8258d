/** The facade `get_network_config` of lib/guest_config.rb: resolve the box
    to a family, bind the network parameters to the template names, and
    return the family's path, rendered content and apply command. */
module GuestConfig {
  import opened Results
  import Text
  import Decimal
  import opened RubyFormat
  import opened Heredocs
  import opened OsResolver
  import opened Registry

  /** The virtual NIC part of a network spec: the gateway address and the
      prefix length of the subnet. */
  datatype Vnic = Vnic(ip: string, prefixLength: int)

  datatype Dns = Dns(dns1: string, dns2: string)

  datatype NetworkSpec = NetworkSpec(vnic: Vnic, dns: Dns)

  /** What the provisioning layer writes and runs inside the guest. */
  datatype NetworkConfig = NetworkConfig(configFilePath: string, configFileContent: string, applyCmd: string)

  datatype ConfigError =
    | ResolveFailed(resolveError: ResolveError)
    | RenderFailed(formatError: FormatError)

  /** The names the templates refer to, bound from the caller's inputs.
      The gateway is the virtual NIC's own address; the prefix length is
      the only number, so it is the one name `%<...>d` may use. */
  function TemplateValues(targetIp: string, spec: NetworkSpec): (values: map<string, Value>)
    ensures values.Keys == {"ip", "prefix_length", "gateway_ip", "dns1", "dns2"}
    ensures forall n :: n in values ==> (values[n].Int? <==> n == "prefix_length")
  {
    map[
      "ip" := Str(targetIp),
      "prefix_length" := Int(spec.vnic.prefixLength),
      "gateway_ip" := Str(spec.vnic.ip),
      "dns1" := Str(spec.dns.dns1),
      "dns2" := Str(spec.dns.dns2)
    ]
  }

  /** The ifcfg file as it should come out, written line by line. */
  function RedhatRendered(targetIp: string, spec: NetworkSpec): seq<string> {
    [ "BOOTPROTO=none",
      "DEFROUTE=yes",
      "DEVICE=eth0",
      "DNS1=" + spec.dns.dns1,
      "DNS1=" + spec.dns.dns2,
      "GATEWAY=" + spec.vnic.ip,
      "IPADDR=" + targetIp,
      "NAME=eth0",
      "ONBOOT=yes",
      "PREFIX=" + Decimal.FromInt(spec.vnic.prefixLength),
      "TYPE=Ethernet" ]
  }

  /** The netplan file as it should come out, written line by line. */
  function UbuntuRendered(targetIp: string, spec: NetworkSpec): seq<string> {
    [ "network:",
      "  version: 2",
      "  ethernets:",
      "    eth0:",
      "      dhcp4: no",
      "      addresses: [" + targetIp + "/" + Decimal.FromInt(spec.vnic.prefixLength) + "]",
      "      gateway4: " + spec.vnic.ip,
      "      nameservers:",
      "        addresses: [" + spec.dns.dns1 + ", " + spec.dns.dns2 + "]" ]
  }

  /** The expected result for a family, stated with the registry's
      constants rather than through the registry map. */
  function Expected(tag: OsTag, targetIp: string, spec: NetworkSpec): NetworkConfig {
    match tag
    case Redhat7 => NetworkConfig(RedhatPath, Text.Unlines(RedhatRendered(targetIp, spec)), Redhat7ApplyCmd)
    case Redhat8 => NetworkConfig(RedhatPath, Text.Unlines(RedhatRendered(targetIp, spec)), Redhat8ApplyCmd)
    case Ubuntu => NetworkConfig(UbuntuPath, Text.Unlines(UbuntuRendered(targetIp, spec)), UbuntuApplyCmd)
  }

  /** `get_network_config(target_ip, network_spec, box)`. Only an
      unrecognized box fails; the registry's templates always render. */
  function GetNetworkConfig(targetIp: string, spec: NetworkSpec, box: string): (r: Result<NetworkConfig, ConfigError>)
    ensures r.Failure? <==> Resolve(box).Failure?
    ensures r.Failure? ==> r.error == ResolveFailed(UnrecognizedBox(box))
    ensures r.Success? ==> r.value == Expected(Resolve(box).value, targetIp, spec)
  {
    var tag :- Resolve(box).MapFailure(e => ResolveFailed(e));
    var entry := (EntryTemplate(tag); Network()[tag]);
    var rendered := (RenderEntry(tag, targetIp, spec);
                     Format(entry.configFile.content, TemplateValues(targetIp, spec)));
    match rendered
    case Failure(e) => Failure(RenderFailed(e))
    case Success(content) => Success(NetworkConfig(entry.configFile.path, content, entry.applyCmd))
  }

  /** Formatting a family's content with the bound values yields the
      expected text. */
  lemma RenderEntry(tag: OsTag, targetIp: string, spec: NetworkSpec)
    ensures tag in Network()
    ensures Format(Network()[tag].configFile.content, TemplateValues(targetIp, spec))
         == Success(Expected(tag, targetIp, spec).configFileContent)
  {
    var values := TemplateValues(targetIp, spec);
    EntryTemplate(tag);
    FormatHeredoc(TemplateOf(tag), values);
    if tag == Ubuntu {
      UbuntuRenderLines(targetIp, spec);
    } else {
      RedhatRenderLines(targetIp, spec);
    }
  }

  /** The five bindings, each under its own name. */
  lemma ValuesLookup(targetIp: string, spec: NetworkSpec)
    ensures "ip" in TemplateValues(targetIp, spec) && TemplateValues(targetIp, spec)["ip"] == Str(targetIp)
    ensures "prefix_length" in TemplateValues(targetIp, spec)
    ensures TemplateValues(targetIp, spec)["prefix_length"] == Int(spec.vnic.prefixLength)
    ensures "gateway_ip" in TemplateValues(targetIp, spec)
    ensures TemplateValues(targetIp, spec)["gateway_ip"] == Str(spec.vnic.ip)
    ensures "dns1" in TemplateValues(targetIp, spec) && TemplateValues(targetIp, spec)["dns1"] == Str(spec.dns.dns1)
    ensures "dns2" in TemplateValues(targetIp, spec) && TemplateValues(targetIp, spec)["dns2"] == Str(spec.dns.dns2)
  {
  }

  lemma RenderLit(x: string, values: map<string, Value>)
    ensures Render([Lit(x)], values) == Success(x)
  {
    RenderCons([Lit(x)], values);
    assert [Lit(x)][1..] == [];
    assert x + "" == x;
  }

  lemma RenderLitStr(x: string, n: string, v: string, values: map<string, Value>)
    requires n in values && values[n] == Str(v)
    ensures Render([Lit(x), StrField(n)], values) == Success(x + v)
  {
    RenderCons([Lit(x), StrField(n)], values);
    assert [Lit(x), StrField(n)][1..] == [StrField(n)];
    RenderCons([StrField(n)], values);
    assert [StrField(n)][1..] == [];
    assert RenderSegment(StrField(n), values) == Success(v);
    assert v + "" == v;
  }

  lemma RenderLitInt(x: string, n: string, i: int, values: map<string, Value>)
    requires n in values && values[n] == Int(i)
    ensures Render([Lit(x), IntField(n)], values) == Success(x + Decimal.FromInt(i))
  {
    RenderCons([Lit(x), IntField(n)], values);
    assert [Lit(x), IntField(n)][1..] == [IntField(n)];
    RenderCons([IntField(n)], values);
    assert [IntField(n)][1..] == [];
    assert RenderSegment(IntField(n), values) == Success(Decimal.FromInt(i));
    assert Decimal.FromInt(i) + "" == Decimal.FromInt(i);
  }

  /** `[a, %<n>s, b, %<m>d, c]`: an address in CIDR form. */
  lemma RenderAddress(a: string, n: string, b: string, m: string, c: string, v: string, i: int, values: map<string, Value>)
    requires n in values && values[n] == Str(v)
    requires m in values && values[m] == Int(i)
    ensures Render([Lit(a), StrField(n), Lit(b), IntField(m), Lit(c)], values)
         == Success(a + v + b + Decimal.FromInt(i) + c)
  {
    assert [Lit(a), StrField(n), Lit(b), IntField(m), Lit(c)]
        == [Lit(a), StrField(n)] + [Lit(b), IntField(m)] + [Lit(c)];
    RenderLitStr(a, n, v, values);
    RenderLitInt(b, m, i, values);
    RenderLit(c, values);
    RenderAppend([Lit(a), StrField(n)], [Lit(b), IntField(m)], values);
    RenderAppend([Lit(a), StrField(n)] + [Lit(b), IntField(m)], [Lit(c)], values);
    assert (a + v) + (b + Decimal.FromInt(i)) + c == a + v + b + Decimal.FromInt(i) + c;
  }

  /** `[a, %<n>s, b, %<m>s, c]`: a two-element list. */
  lemma RenderNameservers(a: string, n: string, b: string, m: string, c: string, v: string, w: string, values: map<string, Value>)
    requires n in values && values[n] == Str(v)
    requires m in values && values[m] == Str(w)
    ensures Render([Lit(a), StrField(n), Lit(b), StrField(m), Lit(c)], values) == Success(a + v + b + w + c)
  {
    assert [Lit(a), StrField(n), Lit(b), StrField(m), Lit(c)]
        == [Lit(a), StrField(n)] + [Lit(b), StrField(m)] + [Lit(c)];
    RenderLitStr(a, n, v, values);
    RenderLitStr(b, m, w, values);
    RenderLit(c, values);
    RenderAppend([Lit(a), StrField(n)], [Lit(b), StrField(m)], values);
    RenderAppend([Lit(a), StrField(n)] + [Lit(b), StrField(m)], [Lit(c)], values);
    assert (a + v) + (b + w) + c == a + v + b + w + c;
  }


  // Line k of the ifcfg template renders to line k of the expected file.
  lemma RedhatLineRenders0(targetIp: string, spec: NetworkSpec)
    ensures Render(RedhatTemplate()[0], TemplateValues(targetIp, spec)) == Success(RedhatRendered(targetIp, spec)[0])
  { RenderLit("BOOTPROTO=none", TemplateValues(targetIp, spec)); }
  lemma RedhatLineRenders1(targetIp: string, spec: NetworkSpec)
    ensures Render(RedhatTemplate()[1], TemplateValues(targetIp, spec)) == Success(RedhatRendered(targetIp, spec)[1])
  { RenderLit("DEFROUTE=yes", TemplateValues(targetIp, spec)); }
  lemma RedhatLineRenders2(targetIp: string, spec: NetworkSpec)
    ensures Render(RedhatTemplate()[2], TemplateValues(targetIp, spec)) == Success(RedhatRendered(targetIp, spec)[2])
  { RenderLit("DEVICE=eth0", TemplateValues(targetIp, spec)); }
  lemma RedhatLineRenders3(targetIp: string, spec: NetworkSpec)
    ensures Render(RedhatTemplate()[3], TemplateValues(targetIp, spec)) == Success(RedhatRendered(targetIp, spec)[3])
  { ValuesLookup(targetIp, spec); RenderLitStr("DNS1=", "dns1", spec.dns.dns1, TemplateValues(targetIp, spec)); }
  lemma RedhatLineRenders4(targetIp: string, spec: NetworkSpec)
    ensures Render(RedhatTemplate()[4], TemplateValues(targetIp, spec)) == Success(RedhatRendered(targetIp, spec)[4])
  { ValuesLookup(targetIp, spec); RenderLitStr("DNS1=", "dns2", spec.dns.dns2, TemplateValues(targetIp, spec)); }
  lemma RedhatLineRenders5(targetIp: string, spec: NetworkSpec)
    ensures Render(RedhatTemplate()[5], TemplateValues(targetIp, spec)) == Success(RedhatRendered(targetIp, spec)[5])
  { ValuesLookup(targetIp, spec); RenderLitStr("GATEWAY=", "gateway_ip", spec.vnic.ip, TemplateValues(targetIp, spec)); }
  lemma RedhatLineRenders6(targetIp: string, spec: NetworkSpec)
    ensures Render(RedhatTemplate()[6], TemplateValues(targetIp, spec)) == Success(RedhatRendered(targetIp, spec)[6])
  { ValuesLookup(targetIp, spec); RenderLitStr("IPADDR=", "ip", targetIp, TemplateValues(targetIp, spec)); }
  lemma RedhatLineRenders7(targetIp: string, spec: NetworkSpec)
    ensures Render(RedhatTemplate()[7], TemplateValues(targetIp, spec)) == Success(RedhatRendered(targetIp, spec)[7])
  { RenderLit("NAME=eth0", TemplateValues(targetIp, spec)); }
  lemma RedhatLineRenders8(targetIp: string, spec: NetworkSpec)
    ensures Render(RedhatTemplate()[8], TemplateValues(targetIp, spec)) == Success(RedhatRendered(targetIp, spec)[8])
  { RenderLit("ONBOOT=yes", TemplateValues(targetIp, spec)); }
  lemma RedhatLineRenders9(targetIp: string, spec: NetworkSpec)
    ensures Render(RedhatTemplate()[9], TemplateValues(targetIp, spec)) == Success(RedhatRendered(targetIp, spec)[9])
  { ValuesLookup(targetIp, spec); RenderLitInt("PREFIX=", "prefix_length", spec.vnic.prefixLength, TemplateValues(targetIp, spec)); }
  lemma RedhatLineRenders10(targetIp: string, spec: NetworkSpec)
    ensures Render(RedhatTemplate()[10], TemplateValues(targetIp, spec)) == Success(RedhatRendered(targetIp, spec)[10])
  { RenderLit("TYPE=Ethernet", TemplateValues(targetIp, spec)); }

  /** Every line of the ifcfg template renders to the expected line. */
  lemma RedhatRenderLines(targetIp: string, spec: NetworkSpec)
    ensures RenderLines(RedhatTemplate(), TemplateValues(targetIp, spec)) == Success(RedhatRendered(targetIp, spec))
  {
    var values := TemplateValues(targetIp, spec);
    var expected := RedhatRendered(targetIp, spec);
    forall k | 0 <= k < 11
      ensures Render(RedhatTemplate()[k], values) == Success(expected[k])
    {
      if k == 0 { RedhatLineRenders0(targetIp, spec); }
      else if k == 1 { RedhatLineRenders1(targetIp, spec); }
      else if k == 2 { RedhatLineRenders2(targetIp, spec); }
      else if k == 3 { RedhatLineRenders3(targetIp, spec); }
      else if k == 4 { RedhatLineRenders4(targetIp, spec); }
      else if k == 5 { RedhatLineRenders5(targetIp, spec); }
      else if k == 6 { RedhatLineRenders6(targetIp, spec); }
      else if k == 7 { RedhatLineRenders7(targetIp, spec); }
      else if k == 8 { RedhatLineRenders8(targetIp, spec); }
      else if k == 9 { RedhatLineRenders9(targetIp, spec); }
      else { RedhatLineRenders10(targetIp, spec); }
    }
    RenderLinesAre(RedhatTemplate(), values, expected);
  }

  // Line k of the netplan template renders to line k of the expected file.
  lemma UbuntuLineRenders0(targetIp: string, spec: NetworkSpec)
    ensures Render(UbuntuTemplate()[0], TemplateValues(targetIp, spec)) == Success(UbuntuRendered(targetIp, spec)[0])
  { RenderLit("network:", TemplateValues(targetIp, spec)); }
  lemma UbuntuLineRenders1(targetIp: string, spec: NetworkSpec)
    ensures Render(UbuntuTemplate()[1], TemplateValues(targetIp, spec)) == Success(UbuntuRendered(targetIp, spec)[1])
  { RenderLit("  version: 2", TemplateValues(targetIp, spec)); }
  lemma UbuntuLineRenders2(targetIp: string, spec: NetworkSpec)
    ensures Render(UbuntuTemplate()[2], TemplateValues(targetIp, spec)) == Success(UbuntuRendered(targetIp, spec)[2])
  { RenderLit("  ethernets:", TemplateValues(targetIp, spec)); }
  lemma UbuntuLineRenders3(targetIp: string, spec: NetworkSpec)
    ensures Render(UbuntuTemplate()[3], TemplateValues(targetIp, spec)) == Success(UbuntuRendered(targetIp, spec)[3])
  { RenderLit("    eth0:", TemplateValues(targetIp, spec)); }
  lemma UbuntuLineRenders4(targetIp: string, spec: NetworkSpec)
    ensures Render(UbuntuTemplate()[4], TemplateValues(targetIp, spec)) == Success(UbuntuRendered(targetIp, spec)[4])
  { RenderLit("      dhcp4: no", TemplateValues(targetIp, spec)); }
  lemma UbuntuLineRenders5(targetIp: string, spec: NetworkSpec)
    ensures Render(UbuntuTemplate()[5], TemplateValues(targetIp, spec)) == Success(UbuntuRendered(targetIp, spec)[5])
  { ValuesLookup(targetIp, spec); RenderAddress("      addresses: [", "ip", "/", "prefix_length", "]", targetIp, spec.vnic.prefixLength, TemplateValues(targetIp, spec)); }
  lemma UbuntuLineRenders6(targetIp: string, spec: NetworkSpec)
    ensures Render(UbuntuTemplate()[6], TemplateValues(targetIp, spec)) == Success(UbuntuRendered(targetIp, spec)[6])
  { ValuesLookup(targetIp, spec); RenderLitStr("      gateway4: ", "gateway_ip", spec.vnic.ip, TemplateValues(targetIp, spec)); }
  lemma UbuntuLineRenders7(targetIp: string, spec: NetworkSpec)
    ensures Render(UbuntuTemplate()[7], TemplateValues(targetIp, spec)) == Success(UbuntuRendered(targetIp, spec)[7])
  { RenderLit("      nameservers:", TemplateValues(targetIp, spec)); }
  lemma UbuntuLineRenders8(targetIp: string, spec: NetworkSpec)
    ensures Render(UbuntuTemplate()[8], TemplateValues(targetIp, spec)) == Success(UbuntuRendered(targetIp, spec)[8])
  { ValuesLookup(targetIp, spec); RenderNameservers("        addresses: [", "dns1", ", ", "dns2", "]", spec.dns.dns1, spec.dns.dns2, TemplateValues(targetIp, spec)); }

  /** Every line of the netplan template renders to the expected line. */
  lemma UbuntuRenderLines(targetIp: string, spec: NetworkSpec)
    ensures RenderLines(UbuntuTemplate(), TemplateValues(targetIp, spec)) == Success(UbuntuRendered(targetIp, spec))
  {
    var values := TemplateValues(targetIp, spec);
    var expected := UbuntuRendered(targetIp, spec);
    forall k | 0 <= k < 9
      ensures Render(UbuntuTemplate()[k], values) == Success(expected[k])
    {
      if k == 0 { UbuntuLineRenders0(targetIp, spec); }
      else if k == 1 { UbuntuLineRenders1(targetIp, spec); }
      else if k == 2 { UbuntuLineRenders2(targetIp, spec); }
      else if k == 3 { UbuntuLineRenders3(targetIp, spec); }
      else if k == 4 { UbuntuLineRenders4(targetIp, spec); }
      else if k == 5 { UbuntuLineRenders5(targetIp, spec); }
      else if k == 6 { UbuntuLineRenders6(targetIp, spec); }
      else if k == 7 { UbuntuLineRenders7(targetIp, spec); }
      else { UbuntuLineRenders8(targetIp, spec); }
    }
    RenderLinesAre(UbuntuTemplate(), values, expected);
  }
}
