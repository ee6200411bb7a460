/** pkg/driver/create.go: what a machine's VM looks like, from its settings and its template. */
module Machine {
  import opened Text
  import opened Protocol
  import opened Clone
  import opened Flags
  import Validate

  /** What resolvePlacement found out before anything is created. */
  datatype Placement = Placement(template: Vm, targetNode: string, bootDiskKey: string, templateGB: int)

  function Itoa(n: int): string {
    if n < 0 then "-" + Decimal(0 - n) else Decimal(n)
  }

  /** The trimmed, non-empty ones of the texts, in order. */
  function NonEmpty(texts: seq<string>): seq<string> {
    if texts == [] then []
    else (if TrimSpace(texts[0]) != "" then [TrimSpace(texts[0])] else []) + NonEmpty(texts[1..])
  }

  lemma NonEmptyStep(texts: seq<string>, i: nat)
    requires i < |texts|
    ensures var tag := TrimSpace(texts[i]);
            NonEmpty(texts[i..]) == (if tag != "" then [tag] else []) + NonEmpty(texts[i + 1..])
  {
    assert texts[i..][0] == texts[i] && texts[i..][1..] == texts[i + 1..];
  }

  method TrimParts(parts: seq<string>) returns (tags: seq<string>)
    ensures tags == NonEmpty(parts)
  {
    tags := [];
    for i := 0 to |parts|
      invariant tags + NonEmpty(parts[i..]) == NonEmpty(parts)
    {
      var tag := TrimSpace(parts[i]);
      NonEmptyStep(parts, i);
      if tag != "" {
        tags := tags + [tag];
      }
    }
  }

  function TagsOf(s: Settings): seq<string> {
    [MACHINE_TAG] + if s.extraTags == "" then [] else NonEmpty(Split(s.extraTags, ','))
  }

  /** The network option: a bridge rewrites net0, with the VLAN tag if there is one. */
  function NetworkValue(s: Settings): string {
    var net0 := "virtio,bridge=" + s.bridge;
    if s.vlanTag > 0 then net0 + ",tag=" + Itoa(s.vlanTag) else net0
  }

  function AlwaysSet(s: Settings, sshKeys: string): Options {
    [(Cores, Itoa(s.cores)), (Memory, Itoa(s.memoryMB)), (Agent, "1"), (OnBoot, if s.onBoot then "1" else "0"),
     (CiUser, s.sshUser), (SshKeys, sshKeys), (IpConfig0, "ip=dhcp")]
  }

  function With(options: Options, key: Key, value: string): Options {
    if value != "" then options + [(key, value)] else options
  }

  /** All options that provisioning sets, in order. */
  function OptionsOf(s: Settings, sshKeys: string): Options {
    var o := AlwaysSet(s, sshKeys);
    var o := With(With(o, Cpu, s.cpuType), CiPassword, s.ciPassword);
    var o := With(With(o, Nameserver, s.nameserver), Searchdomain, s.searchdomain);
    if s.bridge != "" then o + [(Net0, NetworkValue(s))] else o
  }

  lemma OptionsHaveNoTags(s: Settings, sshKeys: string)
    ensures NoTags(OptionsOf(s, sshKeys))
  {
    var o := AlwaysSet(s, sshKeys);
    assert NoTags(o);
  }

  /** What provisioning wants an option to be; None if it leaves the option alone. */
  function Wanted(s: Settings, sshKeys: string, key: Key): Option<string> {
    match key
    case Cores => Some(Itoa(s.cores))
    case Memory => Some(Itoa(s.memoryMB))
    case Agent => Some("1")
    case OnBoot => Some(if s.onBoot then "1" else "0")
    case CiUser => Some(s.sshUser)
    case SshKeys => Some(sshKeys)
    case IpConfig0 => Some("ip=dhcp")
    case Cpu => IfSet(s.cpuType)
    case CiPassword => IfSet(s.ciPassword)
    case Nameserver => IfSet(s.nameserver)
    case Searchdomain => IfSet(s.searchdomain)
    case Net0 => if s.bridge != "" then Some(NetworkValue(s)) else None
    case _ => None
  }

  function IfSet(value: string): Option<string> {
    if value != "" then Some(value) else None
  }

  /** The last value that a list of options gives to a key. */
  function Given(options: Options, key: Key): Option<string> {
    if options == [] then None
    else if options[|options| - 1].0 == key then Some(options[|options| - 1].1)
    else Given(options[..|options| - 1], key)
  }

  lemma {:induction false} ConfiguredAppend(config: map<Key, string>, options: Options, option: (Key, string),
                                              mac: string)
    ensures Configured(config, options + [option], mac) ==
              Configured(config, options, mac)[option.0 := Entry(option, mac)]
    decreases |options|
  {
    var all := options + [option];
    if options == [] {
      assert all[1..] == [];
    } else {
      assert all[1..] == options[1..] + [option];
      ConfiguredAppend(config[options[0].0 := Entry(options[0], mac)], options[1..], option, mac);
    }
  }

  /** Setting options overrides what they give, and keeps everything else. */
  lemma {:induction false} ConfiguredGives(config: map<Key, string>, options: Options, mac: string, key: Key)
    ensures var after := Configured(config, options, mac);
            match Given(options, key)
            case Some(value) => key in after && after[key] == Entry((key, value), mac)
            case None => (key in after <==> key in config) && (key in config ==> after[key] == config[key])
    decreases |options|
  {
    if options != [] {
      var before, last := options[..|options| - 1], options[|options| - 1];
      assert options == before + [last];
      ConfiguredAppend(config, before, last, mac);
      ConfiguredGives(config, before, mac, key);
    }
  }

  lemma GivenMore(options: Options, key: Key, value: string, other: Key)
    ensures Given(options + [(key, value)], other) == if other == key then Some(value) else Given(options, other)
    ensures Given(With(options, key, value), other) ==
            if other == key && value != "" then Some(value) else Given(options, other)
  {
    assert (options + [(key, value)])[..|options|] == options;
  }

  lemma AlwaysGiven(s: Settings, sshKeys: string, key: Key)
    ensures Given(AlwaysSet(s, sshKeys), key) ==
            if key in {Cores, Memory, Agent, OnBoot, CiUser, SshKeys, IpConfig0} then Wanted(s, sshKeys, key) else None
  {
    var a := [(Cores, Itoa(s.cores))];
    var b := a + [(Memory, Itoa(s.memoryMB))];
    var d := b + [(Agent, "1")];
    var e := d + [(OnBoot, if s.onBoot then "1" else "0")];
    var f := e + [(CiUser, s.sshUser)];
    var g := f + [(SshKeys, sshKeys)];
    assert AlwaysSet(s, sshKeys) == g + [(IpConfig0, "ip=dhcp")];
    GivenMore([], Cores, Itoa(s.cores), key);
    assert [] + a == a;
    GivenMore(a, Memory, Itoa(s.memoryMB), key);
    GivenMore(b, Agent, "1", key);
    GivenMore(d, OnBoot, if s.onBoot then "1" else "0", key);
    GivenMore(e, CiUser, s.sshUser, key);
    GivenMore(f, SshKeys, sshKeys, key);
    GivenMore(g, IpConfig0, "ip=dhcp", key);
  }

  /** Each option is given the value that the settings want, no other is touched, and none is given twice
      with different values. */
  lemma OptionsGive(s: Settings, sshKeys: string, key: Key)
    ensures Given(OptionsOf(s, sshKeys), key) == Wanted(s, sshKeys, key)
  {
    var a := AlwaysSet(s, sshKeys);
    var b := With(a, Cpu, s.cpuType);
    var d := With(b, CiPassword, s.ciPassword);
    var e := With(d, Nameserver, s.nameserver);
    var f := With(e, Searchdomain, s.searchdomain);
    AlwaysGiven(s, sshKeys, key);
    GivenMore(a, Cpu, s.cpuType, key);
    GivenMore(b, CiPassword, s.ciPassword, key);
    GivenMore(d, Nameserver, s.nameserver, key);
    GivenMore(e, Searchdomain, s.searchdomain, key);
    GivenMore(f, Net0, NetworkValue(s), key);
  }

  /** The configuration of the machine after provisioning: what the settings want, with an address filled
      into a network device, and apart from that what it was. */
  lemma ConfigAfter(vm: Vm, s: Settings, sshKeys: string, disk: string, grow: bool, gb: int, key: Key)
    ensures var after := Provisioned(vm, OptionsOf(s, sshKeys), disk, grow, gb).config;
            match Wanted(s, sshKeys, key)
            case Some(value) => key in after && after[key] == Entry((key, value), vm.nic.mac)
            case None => (key in after <==> key in vm.config) && (key in vm.config ==> after[key] == vm.config[key])
  {
    OptionsGive(s, sshKeys, key);
    ConfiguredGives(vm.config, OptionsOf(s, sshKeys), vm.nic.mac, key);
  }

  /** In accepted settings a VLAN tag is never dropped: it ends up in the network option, with its bridge. */
  lemma VlanIsApplied(s: Settings, sshKeys: string)
    requires Acceptable(s) && s.vlanTag != 0
    ensures Given(OptionsOf(s, sshKeys), Net0) == Some("virtio,bridge=" + s.bridge + ",tag=" + Decimal(s.vlanTag)) &&
              s.bridge != ""
  {
    OptionsGive(s, sshKeys, Net0);
  }

  /** The machine's tags: the ownership tag, and every extra tag that is not blank, trimmed. */
  lemma TagsAreThese(s: Settings, tag: string)
    ensures tag in TagsOf(s) <==>
              || tag == MACHINE_TAG
              || (tag != "" && exists part | part in Split(s.extraTags, ',') :: TrimSpace(part) == tag)
  {
    var parts := Split(s.extraTags, ',');
    NonEmptyHolds(parts, tag);
    if s.extraTags == "" {
      SplitWhole("", ',');
      assert TrimSpace("") == "";
    }
  }

  lemma {:induction false} NonEmptyHolds(texts: seq<string>, tag: string)
    ensures tag in NonEmpty(texts) <==> tag != "" && exists part | part in texts :: TrimSpace(part) == tag
  {
    if texts != [] {
      NonEmptyHolds(texts[1..], tag);
      assert texts == [texts[0]] + texts[1..];
    }
  }

  function GrownAndStarted(vm: Vm, disk: string, grow: bool, gb: int): Vm {
    Changed(if grow then Changed(vm, Resize(disk, gb)) else vm, Start)
  }

  /** The driver's changes to a VM: the options set, the boot disk grown if asked to, the VM started. */
  function Provisioned(vm: Vm, options: Options, disk: string, grow: bool, gb: int): Vm {
    GrownAndStarted(Changed(vm, Config(options)), disk, grow, gb)
  }

  /** The machine's VM when CloneFromTemplate hands it over. */
  function TaggedClone(s: Settings, place: Placement, me: nat, nic: Nic): Vm {
    Stamped(Cloned(place.template, s.machineName, TargetNode(place.template, s.nodeName), me, nic), TagsOf(s))
  }

  /** The machine's VM after a successful Create. */
  function FinishedVm(s: Settings, place: Placement, sshKeys: string, me: nat, nic: Nic): Vm {
    Provisioned(TaggedClone(s, place, me, nic), OptionsOf(s, sshKeys), place.bootDiskKey,
                s.diskSizeGB > place.templateGB, s.diskSizeGB)
  }

  /** The finished machine: it runs under its name on its node, and carries every tag asked for that has no
      semicolon, the ownership tag among them. */
  lemma MachineIsReady(s: Settings, place: Placement, sshKeys: string, me: nat, nic: Nic, tag: string)
    ensures var vm := FinishedVm(s, place, sshKeys, me, nic);
            && vm.running && !vm.template && vm.kind == Qemu && vm.name == s.machineName && vm.maker == me
            && (tag in TagsOf(s) && ';' !in tag ==> HasTag(vm, tag))
  {
    var tagged := TaggedClone(s, place, me, nic);
    ConfigAfter(tagged, s, sshKeys, place.bootDiskKey, s.diskSizeGB > place.templateGB, s.diskSizeGB, Tags);
    if tag in TagsOf(s) && ';' !in tag {
      var copy := Cloned(place.template, s.machineName, TargetNode(place.template, s.nodeName), me, nic);
      StampedHasTag(copy, TagsOf(s), tag);
    }
  }

  /** The boot disk of the finished machine. */
  lemma MachineDisk(s: Settings, place: Placement, sshKeys: string, me: nat, nic: Nic, mb: nat)
    requires place.bootDiskKey in place.template.disks && place.template.disks[place.bootDiskKey] == mb
    ensures var disks := FinishedVm(s, place, sshKeys, me, nic).disks;
            && disks.Keys == place.template.disks.Keys
            && disks[place.bootDiskKey] == Validate.FinalMB(s.diskSizeGB, place.templateGB, mb)
            && forall key | key in disks && key != place.bootDiskKey :: disks[key] == place.template.disks[key]
  {
  }

  // ---- The network device ------------------------------------------------------------------

  /** The network devices in a VM's configuration, as far as the driver looks at them. */
  function NetsOf(vm: Vm): map<string, string> {
    if Net0 in vm.config then map["net0" := vm.config[Net0]] else map[]
  }

  /** An address as PVE makes one up: not empty, and without commas or white space. */
  predicate PlainMac(mac: string) {
    mac != "" && ',' !in mac && forall i | 0 <= i < |mac| :: !IsSpace(mac[i])
  }

  lemma StoredAs(model: string, rest: string, mac: string)
    requires ',' !in model && '=' !in model
    ensures WithMac(model + "," + rest, mac) == (model + "=" + mac) + "," + rest
  {
    var value := model + "," + rest;
    assert value[..|model|] == model && value[|model| + 1..] == rest;
    IndexAt(value, ',', |model|);
  }

  /** What follows the model in the network option. */
  function NetworkRest(s: Settings): string {
    "bridge=" + s.bridge + if s.vlanTag > 0 then ",tag=" + Itoa(s.vlanTag) else ""
  }

  lemma NetworkParts(s: Settings)
    ensures NetworkValue(s) == "virtio" + "," + NetworkRest(s)
  {
    var tag := if s.vlanTag > 0 then ",tag=" + Itoa(s.vlanTag) else "";
    assert "virtio,bridge=" == "virtio" + "," + "bridge=";
    assert NetworkValue(s) == "virtio,bridge=" + s.bridge + tag;
    Associate("virtio" + ",", "bridge=", s.bridge);
    Associate("virtio" + ",", "bridge=" + s.bridge, tag);
  }

  lemma ModelPart(mac: string)
    requires PlainMac(mac)
    ensures Validate.HoldsMac("virtio=" + mac) && Validate.MacIn("virtio=" + mac) == ToUpper(mac)
  {
    var part := "virtio=" + mac;
    assert [] + part + [] == part;
    TrimPadded([], part, []);
    assert part[..6] == "virtio" && part[7..] == mac;
    IndexAt(part, '=', 6);
    assert Cut(part, '=') == ("virtio", mac, true);
  }

  lemma MacOfValue(vm: Vm, rest: string, given: string, mac: string)
    requires PlainMac(given) && Net0 in vm.config && vm.config[Net0] == ("virtio=" + given) + "," + rest
    ensures Validate.IsMacOf(NetsOf(vm), "net0", mac) <==> mac == ToUpper(given)
  {
    ModelPart(given);
    FirstPartDecides(NetsOf(vm), "virtio=" + given, rest, mac);
  }

  /** What PVE stores of the network option. */
  function NetworkStored(s: Settings, mac: string): string {
    Entry((Net0, NetworkValue(s)), mac)
  }

  lemma CloneNet(s: Settings, place: Placement, me: nat, nic: Nic)
    ensures var vm := TaggedClone(s, place, me, nic);
            && vm.nic == nic && (Net0 in vm.config <==> Net0 in place.template.config)
            && (Net0 in vm.config ==> vm.config[Net0] == nic.copied)
  {
  }

  /** The network device of the machine: rewritten with a bridge, and otherwise the copy's own, whatever the
      template's was. */
  lemma NetAfter(s: Settings, place: Placement, sshKeys: string, me: nat, nic: Nic, vm: Vm)
    requires vm == FinishedVm(s, place, sshKeys, me, nic)
    ensures if s.bridge != "" then Net0 in vm.config && vm.config[Net0] == NetworkStored(s, nic.mac)
            else
              && (Net0 in vm.config <==> Net0 in place.template.config)
              && (Net0 in vm.config ==> vm.config[Net0] == nic.copied)
  {
    var tagged := TaggedClone(s, place, me, nic);
    CloneNet(s, place, me, nic);
    ConfigAfter(tagged, s, sshKeys, place.bootDiskKey, s.diskSizeGB > place.templateGB, s.diskSizeGB, Net0);
  }

  lemma StoredParts(s: Settings, mac: string)
    ensures NetworkStored(s, mac) == ("virtio=" + mac) + "," + NetworkRest(s)
  {
    NetworkParts(s);
    StoredAs("virtio", NetworkRest(s), mac);
    assert "virtio" + "=" == "virtio=";
  }

  /** Rewriting net0 gives the machine a new address, and that is the one that net0 then has. */
  lemma RewrittenMac(s: Settings, place: Placement, sshKeys: string, me: nat, nic: Nic, vm: Vm, mac: string)
    requires vm == FinishedVm(s, place, sshKeys, me, nic) && s.bridge != "" && PlainMac(nic.mac)
    ensures Validate.IsMacOf(NetsOf(vm), "net0", mac) <==> mac == ToUpper(nic.mac)
  {
    NetAfter(s, place, sshKeys, me, nic, vm);
    StoredParts(s, nic.mac);
    MacOfValue(vm, NetworkRest(s), nic.mac, mac);
  }

  lemma FirstPartDecides(nets: map<string, string>, part: string, rest: string, mac: string)
    requires nets == map["net0" := part + "," + rest] && ',' !in part && Validate.HoldsMac(part)
    ensures Validate.IsMacOf(nets, "net0", mac) <==> mac == Validate.MacIn(part)
  {
    SplitHead(part, rest, ',');
    var parts := Validate.NicParts(nets, "net0");
    assert parts[0] == part;
    assert Validate.FirstMac(parts, 0);
  }
}
