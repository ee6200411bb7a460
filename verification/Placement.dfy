/** pkg/driver/precreate.go, resolvePlacement: what has to be right before a VM is made, and what Create
    is told about the template. */
module Placement {
  import opened Text
  import opened Protocol
  import opened Flags
  import Validate
  import Machine
  import Clone

  datatype Storage = Storage(name: string, kind: string, content: string, shared: bool)

  /** The check that a template or a setting did not pass. */
  datatype Refusal =
    | NotATemplate | AgentOff | NoCloudInit | NoNic | NoBootDisk | DiskTooSmall | StoragesUnreadable
    | StorageMissing | StorageHoldsNoImages | StorageIgnored | StorageNotShared | CannotLink
    | BridgesUnreadable | BridgeMissing

  datatype Outcome = Placed(placement: Machine.Placement) | Refused(why: Refusal)

  const LINKABLE: set<string> := {"lvmthin", "zfspool", "rbd", "btrfs"}

  // ---- The template ------------------------------------------------------------------------

  /** EnsureTemplate's view of the agent option. */
  predicate AgentEnabled(agent: string) {
    agent != "" && agent[0] != '0' && !Contains(agent, "enabled=0")
  }

  predicate AnyCloudInit(devices: map<string, string>) {
    exists key | key in devices :: Contains(devices[key], "cloudinit")
  }

  /** CloudInitDrive; it does not look at virtio disks. */
  predicate HasCloudInit(cfg: Validate.VmConfig) {
    AnyCloudInit(cfg.ides) || AnyCloudInit(cfg.scsis) || AnyCloudInit(cfg.satas)
  }

  // ---- Storage -----------------------------------------------------------------------------

  /** The last storage of that name in a list. */
  ghost predicate LastNamed(storages: seq<Storage>, name: string, found: Option<Storage>) {
    match found
    case Some(st) => exists i | 0 <= i < |storages| ::
                       storages[i] == st && st.name == name && forall j | i < j < |storages| :: storages[j].name != name
    case None => forall i | 0 <= i < |storages| :: storages[i].name != name
  }

  lemma LastNamedIsUnique(storages: seq<Storage>, name: string, a: Option<Storage>, b: Option<Storage>)
    requires LastNamed(storages, name, a) && LastNamed(storages, name, b)
    ensures a == b
  {
  }

  method FindStorages(storages: seq<Storage>, onDisk: string, requested: string)
    returns (templateStorage: Option<Storage>, requestedStorage: Option<Storage>)
    ensures LastNamed(storages, onDisk, templateStorage)
    ensures if requested == "" then requestedStorage == None else LastNamed(storages, requested, requestedStorage)
  {
    templateStorage, requestedStorage := None, None;
    for i := 0 to |storages|
      invariant LastNamed(storages[..i], onDisk, templateStorage)
      invariant if requested == "" then requestedStorage == None
                else LastNamed(storages[..i], requested, requestedStorage)
    {
      OneMoreStorage(storages, i, onDisk, templateStorage);
      if requested != "" {
        OneMoreStorage(storages, i, requested, requestedStorage);
      }
      if storages[i].name == onDisk {
        templateStorage := Some(storages[i]);
      }
      if requested != "" && storages[i].name == requested {
        requestedStorage := Some(storages[i]);
      }
    }
    assert storages[..|storages|] == storages;
  }

  lemma OneMoreStorage(storages: seq<Storage>, i: nat, name: string, found: Option<Storage>)
    requires i < |storages| && LastNamed(storages[..i], name, found)
    ensures LastNamed(storages[..i + 1], name, if storages[i].name == name then Some(storages[i]) else found)
  {
    var before, after := storages[..i], storages[..i + 1];
    assert forall j | 0 <= j < i :: after[j] == before[j];
    assert after[i] == storages[i];
  }

  // ---- The checks --------------------------------------------------------------------------

  /** The storage that a disk's value names. */
  function StorageId(value: string): string {
    Cut(value, ':').0
  }

  /** ValidateCloneMode lets a clone stay on its node, and leave it only with shared storage. */
  predicate MayLeaveNode(s: Settings, tmpl: Vm, on: Option<Storage>) {
    s.nodeName == "" || s.nodeName == tmpl.node || (on.Some? && on.value.shared)
  }

  predicate CanBackLinkedClone(value: string, kind: string) {
    kind in LINKABLE || Contains(value, ".qcow2")
  }

  /** What is known when the checks begin: the template, its configuration, and the target node's
      storages and bridges, unless they cannot be read. */
  datatype Facts = Facts(tmpl: Vm, cfg: Validate.VmConfig, storages: Option<seq<Storage>>, bridges: Option<seq<string>>)

  ghost predicate BootsFrom(f: Facts, value: string, gb: int) {
    exists key :: Validate.IsBoot(f.cfg, Validate.Disk(key, gb, value))
  }

  /** The template's disk lies on a storage that the target node lists, as far as `on` says. */
  ghost predicate LiesOn(f: Facts, value: string, on: Option<Storage>) {
    (exists gb :: BootsFrom(f, value, gb)) && f.storages.Some? && LastNamed(f.storages.value, StorageId(value), on)
  }

  /** When each check fails, whatever the others say. */
  ghost predicate Fails(why: Refusal, s: Settings, f: Facts) {
    match why
    case NotATemplate => !f.tmpl.template
    case AgentOff => !AgentEnabled(f.cfg.agent)
    case NoCloudInit => !HasCloudInit(f.cfg)
    case NoNic => forall part | part in Validate.NicParts(f.cfg.nets, "net0") :: !Validate.HoldsMac(part)
    case NoBootDisk => forall value, gb :: !BootsFrom(f, value, gb)
    case DiskTooSmall => exists value, gb :: BootsFrom(f, value, gb) && s.diskSizeGB != 0 && s.diskSizeGB < gb
    case StoragesUnreadable => f.storages == None
    case StorageMissing => s.storage != "" && f.storages.Some? && LastNamed(f.storages.value, s.storage, None)
    case StorageHoldsNoImages => s.storage != "" && f.storages.Some? && exists st ::
                                   LastNamed(f.storages.value, s.storage, Some(st)) && !Contains(st.content, "images")
    case StorageIgnored => s.linkedClone && s.storage != ""
    case StorageNotShared => exists value, on :: LiesOn(f, value, on) && !MayLeaveNode(s, f.tmpl, on)
    case CannotLink =>
      s.linkedClone && exists value, st :: LiesOn(f, value, Some(st)) && !CanBackLinkedClone(value, st.kind)
    case BridgesUnreadable => s.bridge != "" && f.bridges == None
    case BridgeMissing => s.bridge != "" && f.bridges.Some? && s.bridge !in f.bridges.value
  }

  /** The boot disk and its storage are what they are. */
  lemma FactsAreUnique(f: Facts, a: string, b: string, m: int, n: int)
    requires BootsFrom(f, a, m) && BootsFrom(f, b, n)
    ensures a == b && m == n
  {
    var k :| Validate.IsBoot(f.cfg, Validate.Disk(k, m, a));
    var l :| Validate.IsBoot(f.cfg, Validate.Disk(l, n, b));
    Validate.BootIsUnique(f.cfg, Validate.Disk(k, m, a), Validate.Disk(l, n, b));
  }

  lemma LiesOnOne(f: Facts, a: string, b: string, on: Option<Storage>, other: Option<Storage>)
    requires LiesOn(f, a, on) && LiesOn(f, b, other)
    ensures a == b && on == other
  {
    var m :| BootsFrom(f, a, m);
    var n :| BootsFrom(f, b, n);
    FactsAreUnique(f, a, b, m, n);
    LastNamedIsUnique(f.storages.value, StorageId(a), on, other);
  }

  // ---- What is accepted --------------------------------------------------------------------

  ghost predicate TemplateOk(s: Settings, f: Facts) {
    && f.tmpl.template && AgentEnabled(f.cfg.agent) && HasCloudInit(f.cfg)
    && (exists part | part in Validate.NicParts(f.cfg.nets, "net0") :: Validate.HoldsMac(part))
    && exists value, gb :: BootsFrom(f, value, gb) && (s.diskSizeGB == 0 || s.diskSizeGB >= gb)
  }

  ghost predicate StorageOk(s: Settings, f: Facts) {
    && f.storages.Some?
    && (s.storage != "" ==>
          && !s.linkedClone
          && exists st :: LastNamed(f.storages.value, s.storage, Some(st)) && Contains(st.content, "images"))
    && exists value, on :: LiesOn(f, value, on) && DiskMayBeCloned(s, f, value, on)
  }

  predicate DiskMayBeCloned(s: Settings, f: Facts, value: string, on: Option<Storage>) {
    && MayLeaveNode(s, f.tmpl, on)
    && (s.linkedClone && on.Some? ==> CanBackLinkedClone(value, on.value.kind))
  }

  predicate BridgeOk(s: Settings, f: Facts) {
    s.bridge != "" ==> f.bridges.Some? && s.bridge in f.bridges.value
  }

  /** The template itself, its boot disk, and the disk size asked for. */
  method CheckTemplate(s: Settings, f: Facts) returns (why: Option<Refusal>, boot: Validate.Boot)
    ensures Validate.IsBoot(f.cfg, boot)
    ensures why.Some? ==> Fails(why.value, s, f)
    ensures why == None <==> TemplateOk(s, f)
    ensures why == None ==> boot.Disk?
  {
    boot := Validate.BootDisk(f.cfg);
    BootDecides(s, f, boot);
    if !f.tmpl.template {
      return Some(NotATemplate), boot;
    }
    if !AgentEnabled(f.cfg.agent) {
      return Some(AgentOff), boot;
    }
    if !HasCloudInit(f.cfg) {
      return Some(NoCloudInit), boot;
    }
    var mac := Validate.NICMAC(f.cfg.nets, "net0");
    if mac == None {
      return Some(NoNic), boot;
    }
    if !boot.Disk? {
      return Some(NoBootDisk), boot;
    }
    return if Validate.ValidateDiskSize(s.diskSizeGB, boot.gb) then None else Some(DiskTooSmall), boot;
  }

  lemma BootDecides(s: Settings, f: Facts, boot: Validate.Boot)
    requires Validate.IsBoot(f.cfg, boot)
    ensures Fails(NoBootDisk, s, f) <==> !boot.Disk?
    ensures boot.Disk? ==> BootsFrom(f, boot.value, boot.gb)
    ensures boot.Disk? ==> (Fails(DiskTooSmall, s, f) <==> !Validate.ValidateDiskSize(s.diskSizeGB, boot.gb))
    ensures (exists value, gb :: BootsFrom(f, value, gb) && (s.diskSizeGB == 0 || s.diskSizeGB >= gb))
            <==> boot.Disk? && Validate.ValidateDiskSize(s.diskSizeGB, boot.gb)
  {
    forall key, gb, value | Validate.IsBoot(f.cfg, Validate.Disk(key, gb, value))
      ensures boot == Validate.Disk(key, gb, value)
    {
      Validate.BootIsUnique(f.cfg, boot, Validate.Disk(key, gb, value));
    }
    if boot.Disk? {
      assert Validate.IsBoot(f.cfg, Validate.Disk(boot.key, boot.gb, boot.value));
      assert BootsFrom(f, boot.value, boot.gb);
    }
  }

  /** The storages of the target node, and whether the kind of clone asked for is possible. */
  method CheckStorage(s: Settings, f: Facts, boot: Validate.Boot) returns (why: Option<Refusal>)
    requires boot.Disk? && BootsFrom(f, boot.value, boot.gb)
    ensures why.Some? ==> Fails(why.value, s, f)
    ensures why == None <==> StorageOk(s, f)
  {
    if f.storages == None {
      return Some(StoragesUnreadable);
    }
    var on, requested := FindStorages(f.storages.value, StorageId(boot.value), s.storage);
    RequestDecides(s, f, requested);
    DiskDecides(s, f, boot.value, boot.gb, on);
    if s.storage != "" {
      if requested == None {
        return Some(StorageMissing);
      }
      if !Contains(requested.value.content, "images") {
        return Some(StorageHoldsNoImages);
      }
    }
    if s.linkedClone && s.storage != "" {
      return Some(StorageIgnored);
    }
    if !MayLeaveNode(s, f.tmpl, on) {
      return Some(StorageNotShared);
    }
    if s.linkedClone && on.Some? && !CanBackLinkedClone(boot.value, on.value.kind) {
      return Some(CannotLink);
    }
    return None;
  }

  lemma RequestDecides(s: Settings, f: Facts, requested: Option<Storage>)
    requires f.storages.Some?
    requires if s.storage == "" then requested == None else LastNamed(f.storages.value, s.storage, requested)
    ensures s.storage != "" ==>
              ((exists st :: LastNamed(f.storages.value, s.storage, Some(st)) && Contains(st.content, "images"))
               <==> requested.Some? && Contains(requested.value.content, "images"))
  {
    forall st | s.storage != "" && LastNamed(f.storages.value, s.storage, Some(st))
      ensures Some(st) == requested
    {
      LastNamedIsUnique(f.storages.value, s.storage, Some(st), requested);
    }
  }

  lemma DiskDecides(s: Settings, f: Facts, value: string, gb: int, on: Option<Storage>)
    requires BootsFrom(f, value, gb) && f.storages.Some? && LastNamed(f.storages.value, StorageId(value), on)
    ensures LiesOn(f, value, on)
    ensures (exists other, there :: LiesOn(f, other, there) && DiskMayBeCloned(s, f, other, there))
            <==> DiskMayBeCloned(s, f, value, on)
  {
    assert LiesOn(f, value, on);
    forall other, there | LiesOn(f, other, there)
      ensures other == value && there == on
    {
      LiesOnOne(f, other, value, there, on);
    }
  }

  method CheckBridge(s: Settings, f: Facts) returns (why: Option<Refusal>)
    ensures why.Some? ==> Fails(why.value, s, f)
    ensures why == None <==> BridgeOk(s, f)
  {
    if s.bridge != "" {
      if f.bridges == None {
        return Some(BridgesUnreadable);
      }
      var bridges := f.bridges.value;
      var found := false;
      for i := 0 to |bridges|
        invariant !found && s.bridge !in bridges[..i]
      {
        if bridges[i] == s.bridge {
          found := true;
          break;
        }
      }
      if !found {
        return Some(BridgeMissing);
      }
    }
    return None;
  }

  /** resolvePlacement. It accepts exactly what passes all checks, refuses for a reason that holds, and
      otherwise says where the machine goes and which disk it boots from. */
  method ResolvePlacement(s: Settings, f: Facts) returns (r: Outcome)
    ensures r.Placed? <==> TemplateOk(s, f) && StorageOk(s, f) && BridgeOk(s, f)
    ensures r.Refused? ==> Fails(r.why, s, f)
    ensures r.Placed? ==> PlacementOf(r.placement, s, f)
  {
    var why, boot := CheckTemplate(s, f);
    if why.Some? {
      return Refused(why.value);
    }
    BootDecides(s, f, boot);
    why := CheckStorage(s, f, boot);
    if why.Some? {
      return Refused(why.value);
    }
    why := CheckBridge(s, f);
    if why.Some? {
      return Refused(why.value);
    }
    var targetNode := if s.nodeName == "" then f.tmpl.node else s.nodeName;
    return Placed(Machine.Placement(f.tmpl, targetNode, boot.key, boot.gb));
  }

  /** What Create is told. */
  ghost predicate PlacementOf(p: Machine.Placement, s: Settings, f: Facts) {
    && p.template == f.tmpl && p.targetNode == Clone.TargetNode(f.tmpl, s.nodeName)
    && exists value :: Validate.IsBoot(f.cfg, Validate.Disk(p.bootDiskKey, p.templateGB, value))
  }

  // ---- What the checks mean ----------------------------------------------------------------

  /** The agent option must be there, must not begin with 0, and must not hold "enabled=0". */
  lemma AgentEnabledExactly(agent: string)
    ensures AgentEnabled(agent) <==>
              agent != "" && (forall rest :: agent != "0" + rest) && Validate.Lacks(agent, "enabled=0")
  {
    Validate.LacksExactly(agent, "enabled=0");
    if agent != "" && agent[0] == '0' {
      assert agent == "0" + agent[1..];
    }
  }

  /** A cloud-init drive is an IDE, SCSI or SATA device, whatever else its value says. */
  lemma HasCloudInitExactly(cfg: Validate.VmConfig)
    ensures HasCloudInit(cfg) <==>
              exists key ::
                || (key in cfg.ides && !Validate.Lacks(cfg.ides[key], "cloudinit"))
                || (key in cfg.scsis && !Validate.Lacks(cfg.scsis[key], "cloudinit"))
                || (key in cfg.satas && !Validate.Lacks(cfg.satas[key], "cloudinit"))
  {
    forall value: string
      ensures Validate.Lacks(value, "cloudinit") <==> !Contains(value, "cloudinit")
    {
      Validate.LacksExactly(value, "cloudinit");
    }
  }

  lemma CanBackLinkedCloneExactly(value: string, kind: string)
    ensures CanBackLinkedClone(value, kind) <==>
              || kind == "lvmthin" || kind == "zfspool" || kind == "rbd" || kind == "btrfs"
              || !Validate.Lacks(value, ".qcow2")
  {
    Validate.LacksExactly(value, ".qcow2");
  }

  /** The storage of a disk is what stands before the first colon. */
  lemma StorageIdIs(id: string, rest: string)
    requires ':' !in id
    ensures StorageId(id + ":" + rest) == id && StorageId(id) == id
  {
    assert (id + ":" + rest)[..|id|] == id;
    IndexAt(id + ":" + rest, ':', |id|);
    IndexAt(id, ':', |id|);
    assert id[..|id|] == id;
  }

  /** A storage that the target node lists under the name of the disk's storage. */
  ghost predicate DisksStorage(f: Facts, value: string, st: Storage) {
    && f.storages.Some? && st in f.storages.value && st.name == StorageId(value)
    && exists gb :: BootsFrom(f, value, gb)
  }

  /** An accepted machine is made on the node asked for, and else next to its template. It leaves the template's
      node only if the boot disk lies on shared storage. */
  lemma AcceptedGoes(p: Machine.Placement, s: Settings, f: Facts, sshKeys: string, me: nat, nic: Nic)
    requires PlacementOf(p, s, f) && StorageOk(s, f)
    ensures var node := Machine.FinishedVm(s, p, sshKeys, me, nic).node;
            && node == (if s.nodeName == "" then f.tmpl.node else s.nodeName)
            && (node != f.tmpl.node ==> exists value, st :: DisksStorage(f, value, st) && st.shared)
  {
    PersistedNodeIsRight(p, s, f, sshKeys, me, nic);
    if s.nodeName != "" && s.nodeName != f.tmpl.node {
      LeavesOnlyShared(s, f);
    }
  }

  lemma LeavesOnlyShared(s: Settings, f: Facts)
    requires StorageOk(s, f) && s.nodeName != "" && s.nodeName != f.tmpl.node
    ensures exists value, st :: DisksStorage(f, value, st) && st.shared
  {
    var value, on :| LiesOn(f, value, on) && DiskMayBeCloned(s, f, value, on);
    assert DisksStorage(f, value, on.value);
  }

  /** An accepted linked clone asks for no storage of its own, since it stays on the template's; and where the
      target node lists that, it can hold linked clones. */
  lemma AcceptedLinks(s: Settings, f: Facts)
    requires StorageOk(s, f) && s.linkedClone
    ensures s.storage == ""
    ensures (exists value, st :: DisksStorage(f, value, st)) ==>
              exists value, st :: DisksStorage(f, value, st) && CanBackLinkedClone(value, st.kind)
  {
    var value, on :| LiesOn(f, value, on) && DiskMayBeCloned(s, f, value, on);
    if on.Some? {
      assert DisksStorage(f, value, on.value);
    } else if other, st :| DisksStorage(f, other, st) {
      NotListed(f, value, other, st);
    }
  }

  lemma NotListed(f: Facts, value: string, other: string, st: Storage)
    requires LiesOn(f, value, None)
    ensures !DisksStorage(f, other, st)
  {
    if DisksStorage(f, other, st) {
      var m :| BootsFrom(f, value, m);
      var n :| BootsFrom(f, other, n);
      FactsAreUnique(f, value, other, m, n);
    }
  }

  // ---- What Create can rely on -------------------------------------------------------------

  /** The node that Create persists for Remove is the node on which the machine's VM is made. */
  lemma PersistedNodeIsRight(p: Machine.Placement, s: Settings, f: Facts, sshKeys: string, me: nat, nic: Nic)
    requires PlacementOf(p, s, f)
    ensures Machine.FinishedVm(s, p, sshKeys, me, nic).node == p.targetNode
  {
  }

  /** The boot disk as the template's configuration describes it. */
  ghost predicate BootDiskIs(p: Machine.Placement, f: Facts, digits: string, unit: char) {
    exists value, q: nat ::
      && Validate.IsBoot(f.cfg, Validate.Disk(p.bootDiskKey, p.templateGB, value))
      && Validate.Leftmost(value, 0, q, digits, unit)
  }

  /** A machine whose placement was accepted never has a smaller boot disk than its template: the disk grows
      strictly or stays as it is, and ends less than one GB short of what was asked for. The template's disk
      has the size its configuration gives, and that size does not overflow. */
  lemma MachineIsLargeEnough(p: Machine.Placement, s: Settings, f: Facts, sshKeys: string, me: nat, nic: Nic,
                             digits: string, unit: char)
    requires PlacementOf(p, s, f) && TemplateOk(s, f) && s.diskSizeGB >= 0
    requires BootDiskIs(p, f, digits, unit) && AllDigits(digits) && unit in {'M', 'G', 'T'} &&
              Validate.Fits(digits, unit)
    requires p.bootDiskKey in p.template.disks && p.template.disks[p.bootDiskKey] == Validate.TrueMB(digits, unit)
    ensures var disks := Machine.FinishedVm(s, p, sshKeys, me, nic).disks;
            var before := Validate.TrueMB(digits, unit);
            && p.bootDiskKey in disks
            && disks[p.bootDiskKey] >= before
            && (s.diskSizeGB > p.templateGB ==> disks[p.bootDiskKey] > before)
            && (s.diskSizeGB != 0 ==> disks[p.bootDiskKey] > s.diskSizeGB * 1024 - 1024)
  {
    SizeIsRead(p, s, f, digits, unit);
    Validate.ResizeNeverShrinks(digits, unit, s.diskSizeGB);
    Machine.MachineDisk(s, p, sshKeys, me, nic, Validate.TrueMB(digits, unit));
  }

  lemma SizeIsRead(p: Machine.Placement, s: Settings, f: Facts, digits: string, unit: char)
    requires TemplateOk(s, f) && BootDiskIs(p, f, digits, unit) && AllDigits(digits)
    ensures p.templateGB == Validate.SizeGB(digits, unit) && Validate.ValidateDiskSize(s.diskSizeGB, p.templateGB)
  {
    var value, q: nat :|
      && Validate.IsBoot(f.cfg, Validate.Disk(p.bootDiskKey, p.templateGB, value))
      && Validate.Leftmost(value, 0, q, digits, unit);
    assert Validate.HasSize(value, Validate.SizeGB(digits, unit));
    Validate.SizeIsUnique(value, p.templateGB, Validate.SizeGB(digits, unit));
    BootDecides(s, f, Validate.Disk(p.bootDiskKey, p.templateGB, value));
  }
}
