/** The worked examples of the facade: one RHEL 8 box and one Ubuntu box
    with the same network parameters. */
module Scenarios {
  import opened Results
  import Text
  import Decimal
  import opened OsResolver
  import opened Registry
  import opened GuestConfig

  function SampleSpec(): NetworkSpec {
    NetworkSpec(Vnic("10.0.0.1", 24), Dns("8.8.8.8", "8.8.4.4"))
  }

  lemma PrefixText()
    ensures Decimal.FromInt(24) == "24"
  {
  }

  lemma ResolveRhel8(box: string)
    requires box == "generic/rhel8"
    ensures Resolve(box) == Success(Redhat8)
  {
    Rhel8Misses(box);
    RuleAt(box, 4, "generic/", "");
    ResolvesTo(box, 4);
  }

  lemma Rhel8Misses(box: string)
    requires box == "generic/rhel8"
    ensures forall j :: 0 <= j < 4 ==> !Matches(Rules(), j, box)
  {
    RulesOut(box, "ut7a");
  }

  /** The facade's answer once the box is known to resolve to `tag`. */
  lemma Resolved(box: string, tag: OsTag, targetIp: string, spec: NetworkSpec)
    requires Resolve(box) == Success(tag)
    ensures GetNetworkConfig(targetIp, spec, box) == Success(Expected(tag, targetIp, spec))
  {
  }

  lemma SampleRedhatLines(targetIp: string, spec: NetworkSpec)
    requires targetIp == "10.0.0.5" && spec == SampleSpec()
    ensures RedhatRendered(targetIp, spec) == [
      "BOOTPROTO=none", "DEFROUTE=yes", "DEVICE=eth0",
      "DNS1=8.8.8.8", "DNS1=8.8.4.4", "GATEWAY=10.0.0.1", "IPADDR=10.0.0.5",
      "NAME=eth0", "ONBOOT=yes", "PREFIX=24", "TYPE=Ethernet"]
  {
    PrefixText();
    assert "DNS1=" + "8.8.8.8" == "DNS1=8.8.8.8";
    assert "DNS1=" + "8.8.4.4" == "DNS1=8.8.4.4";
    assert "GATEWAY=" + "10.0.0.1" == "GATEWAY=10.0.0.1";
    assert "IPADDR=" + "10.0.0.5" == "IPADDR=10.0.0.5";
    assert "PREFIX=" + "24" == "PREFIX=24";
  }

  lemma SampleUbuntuLines(targetIp: string, spec: NetworkSpec)
    requires targetIp == "10.0.0.5" && spec == SampleSpec()
    ensures UbuntuRendered(targetIp, spec) == [
      "network:", "  version: 2", "  ethernets:", "    eth0:", "      dhcp4: no",
      "      addresses: [10.0.0.5/24]", "      gateway4: 10.0.0.1", "      nameservers:",
      "        addresses: [8.8.8.8, 8.8.4.4]"]
  {
    PrefixText();
    assert "      addresses: [" + "10.0.0.5" + "/" + "24" + "]" == "      addresses: [10.0.0.5/24]";
    assert "      gateway4: " + "10.0.0.1" == "      gateway4: 10.0.0.1";
    assert "        addresses: [" + "8.8.8.8" + ", " + "8.8.4.4" + "]" == "        addresses: [8.8.8.8, 8.8.4.4]";
  }

  /** A RHEL 8 box: the ifcfg file with both DNS1 lines, applied through
      NetworkManager. */
  lemma Rhel8Scenario(box: string, targetIp: string, spec: NetworkSpec, lines: seq<string>)
    requires box == "generic/rhel8" && targetIp == "10.0.0.5" && spec == SampleSpec()
    requires lines == [
      "BOOTPROTO=none", "DEFROUTE=yes", "DEVICE=eth0",
      "DNS1=8.8.8.8", "DNS1=8.8.4.4", "GATEWAY=10.0.0.1", "IPADDR=10.0.0.5",
      "NAME=eth0", "ONBOOT=yes", "PREFIX=24", "TYPE=Ethernet"]
    ensures GetNetworkConfig(targetIp, spec, box) == Success(NetworkConfig(
      "/etc/sysconfig/network-scripts/ifcfg-eth0", Text.Unlines(lines),
      "sudo nmcli con reload && " +
      "{ nohup sh -c \"sudo nmcli con down eth0 && sudo nmcli con up eth0\" > /tmp/vagrant-network-apply.log 2>&1 & }"))
  {
    ResolveRhel8(box);
    SampleRedhatLines(targetIp, spec);
    Resolved(box, Redhat8, targetIp, spec);
  }

  /** An Ubuntu box: the netplan file, applied by netplan in the
      background. */
  lemma UbuntuScenario(box: string, targetIp: string, spec: NetworkSpec, lines: seq<string>)
    requires box == "bento/ubuntu-20.04" && targetIp == "10.0.0.5" && spec == SampleSpec()
    requires lines == [
      "network:", "  version: 2", "  ethernets:", "    eth0:", "      dhcp4: no",
      "      addresses: [10.0.0.5/24]", "      gateway4: 10.0.0.1", "      nameservers:",
      "        addresses: [8.8.8.8, 8.8.4.4]"]
    ensures GetNetworkConfig(targetIp, spec, box) == Success(NetworkConfig(
      "/etc/netplan/01-netcfg.yaml", Text.Unlines(lines), "sudo netplan apply &"))
  {
    ResolveUbuntu(box);
    SampleUbuntuLines(targetIp, spec);
    Resolved(box, Ubuntu, targetIp, spec);
  }

}
