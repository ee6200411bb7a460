/** What a driver process and the PVE cluster say to each other: the cluster's virtual machines, the
    API calls with their outcomes, and the order in which a driver process may issue them. */
module Protocol {
  import opened Text

  type PlainTag = tag: string | ';' !in tag witness "rancher-pvenode"

  /** Marks every VM the driver creates (pkg/driver/driver.go). Of its text, the source's witness
      above, everything here uses only that it has no semicolon. */
  const MACHINE_TAG: PlainTag

  datatype Kind = Qemu | Lxc

  /** The options of a VM's configuration, by their PVE names: tags, cores, memory and so on. */
  datatype Key =
    | Tags | Cores | Memory | Agent | OnBoot | CiUser | SshKeys | IpConfig0
    | Cpu | CiPassword | Nameserver | Searchdomain | Net0 | Other(name: string)

  type Options = seq<(Key, string)>

  /** What PVE makes up for a VM's network device: its value in a fresh copy of a template, and the
      address it fills in when the device is set without one. */
  datatype Nic = Nic(copied: string, mac: string)

  /** A VM, template or container. `maker` is 0 for outsiders and otherwise the driver run that
      cloned it; the driver can read neither it nor `nic`. Disk sizes are in MB. */
  datatype Vm = Vm(name: string, node: string, kind: Kind, template: bool, running: bool,
                   config: map<Key, string>, disks: map<string, int>, maker: nat, nic: Nic)

  type Vms = map<int, Vm>

  /** One row of the cluster-wide listing. */
  datatype Row = Row(vmid: int, name: string, node: string, kind: Kind, template: bool)

  predicate HasTag(vm: Vm, tag: string) {
    Tags in vm.config && tag in Split(vm.config[Tags], ';')
  }

  /** The tag stands between two semicolons of the tags option, or between one and an end. */
  lemma HasTagExactly(vm: Vm, tag: string)
    requires ';' !in tag
    ensures HasTag(vm, tag) <==> Tags in vm.config && StandsIn(vm.config[Tags], ';', tag)
  {
    if Tags in vm.config {
      SplitHolds(vm.config[Tags], ';', tag);
    }
  }

  function RowOf(id: int, vm: Vm): Row {
    Row(id, vm.name, vm.node, vm.kind, vm.template)
  }

  /** The listing shows what is there, all of it, in any order and possibly with repeated rows. */
  predicate Lists(rows: seq<Row>, vms: Vms) {
    && (forall i | 0 <= i < |rows| :: rows[i].vmid in vms && rows[i] == RowOf(rows[i].vmid, vms[rows[i].vmid]))
    && (forall id | id in vms :: RowOf(id, vms[id]) in rows)
  }

  /** No VM is in it twice. */
  predicate ShowsOnce(rows: seq<Row>) {
    forall i, j | 0 <= i < j < |rows| :: rows[i].vmid != rows[j].vmid
  }

  /** A mutation of one VM that is submitted to PVE and ends with a task. */
  datatype Op =
    | CloneTask
    | Config(options: Options)
    | Resize(disk: string, gb: int)
    | Start
    | Shutdown
    | Stop
    | Delete

  /** A network device as PVE stores it: "virtio,bridge=vmbr0" gets an address after its model. */
  function WithMac(value: string, mac: string): string {
    var (model, rest, more) := Cut(value, ',');
    if '=' in model then value else model + "=" + mac + if more then "," + rest else ""
  }

  function Entry(option: (Key, string), mac: string): string {
    if option.0 == Net0 then WithMac(option.1, mac) else option.1
  }

  function Configured(config: map<Key, string>, options: Options, mac: string): map<Key, string>
    decreases |options|
  {
    if options == [] then config
    else Configured(config[options[0].0 := Entry(options[0], mac)], options[1..], mac)
  }

  predicate NoTags(options: Options) {
    forall i | 0 <= i < |options| :: options[i].0 != Tags
  }

  lemma {:induction false} ConfiguredKeepsTags(config: map<Key, string>, options: Options, mac: string)
    requires NoTags(options)
    ensures Tags in Configured(config, options, mac) <==> Tags in config
    ensures Tags in config ==> Configured(config, options, mac)[Tags] == config[Tags]
    decreases |options|
  {
    if options != [] {
      ConfiguredKeepsTags(config[options[0].0 := Entry(options[0], mac)], options[1..], mac);
    }
  }

  /** The VM after the operation has been carried out on it. */
  function Changed(vm: Vm, op: Op): Vm {
    match op
    case Config(options) => vm.(config := Configured(vm.config, options, vm.nic.mac))
    case Resize(disk, gb) => vm.(disks := vm.disks[disk := gb * 1024])
    case Start => vm.(running := true)
    case Shutdown => vm.(running := false)
    case Stop => vm.(running := false)
    case _ => vm
  }

  /** The cluster after the operation has been carried out on VM `id`. */
  function Applied(vms: Vms, id: int, op: Op): Vms {
    if id !in vms then vms
    else if op == Delete then vms - {id}
    else vms[id := Changed(vms[id], op)]
  }

  /** What an operation that ended can have done. One that failed may still have taken effect, and
      a failed clone may have taken its partial VM away with it. */
  predicate Ended(before: Vms, id: int, op: Op, ok: bool, after: Vms) {
    if ok then after == Applied(before, id, op)
    else after == before || after == Applied(before, id, op) || (op.CloneTask? && after == before - {id})
  }

  /** The VM an accepted clone reserves: the template's copy under its new name, made by run `maker`,
      with a network device of its own if the template has one. */
  function Cloned(tmpl: Vm, name: string, node: string, maker: nat, nic: Nic): Vm {
    tmpl.(name := name, node := node, kind := Qemu, template := false, running := false, maker := maker, nic := nic,
          config := if Net0 in tmpl.config then tmpl.config[Net0 := nic.copied] else tmpl.config)
  }

  /** Whatever PVE chose for the network device. */
  predicate IsCopy(vm: Vm, tmpl: Vm, name: string, node: string, maker: nat) {
    vm == Cloned(tmpl, name, node, maker, vm.nic)
  }

  /** The cluster has gained such a copy as VM `id`, and is otherwise the same. */
  predicate HasGained(before: Vms, after: Vms, id: int, tmpl: Vm, name: string, node: string, maker: nat) {
    && id !in before && id in after && after == before[id := after[id]]
    && IsCopy(after[id], tmpl, name, node, maker)
  }

  /** An API call together with what the caller saw of its outcome. */
  datatype Event =
    | Listed(rows: Option<seq<Row>>)
    | Got(id: int, vm: Option<Vm>)
    | ClonePost(id: int, accepted: bool)
    | Did(id: int, op: Op, ok: bool)

  const CLONE_ATTEMPTS: nat := 10
  const DELETE_ATTEMPTS: nat := 5

  /** Where a driver process is. The first nine states belong to CloneFromTemplate, the next five to
      provisioning, the rest to Remove, which a failed Create also enters. */
  datatype Pc =
    | Drawing(left: nat)
    | Posting(left: nat, taken: set<int>)
    | Cloning(id: int, left: nat)
    | Scrapping(id: int, left: nat)
    | ScrapDeleting(id: int, left: nat)
    | Reading(id: int)
    | Tagging(id: int)
    | Configuring(id: int)
    | Sizing(id: int)
    | Starting(id: int)
    | Booted(id: int)
    | Ready(id: int)
    | Looking(want: int, name: string)
    | Searching(want: int, candidates: set<int>)
    | Halting(id: int)
    | Stopping(id: int)
    | Deleting(id: int, left: nat)
    | Stopped
    | Astray

  predicate IsTagging(op: Op) {
    op.Config? && |op.options| == 1 && op.options[0].0 == Tags && MACHINE_TAG in Split(op.options[0].1, ';')
  }

  predicate IsConfiguring(op: Op) {
    op.Config? && NoTags(op.options)
  }

  /** The rows Remove looks at: the persisted VMID's, or without one those with the machine's name. */
  function Candidates(rows: seq<Row>, want: int, name: string): set<int> {
    set i | 0 <= i < |rows| && rows[i].kind.Qemu?
            && (if want != 0 then rows[i].vmid == want else !rows[i].template && rows[i].name == name)
          :: rows[i].vmid
  }

  /** Where Remove goes with a VM it has just fetched: on only if the VM carries the tag. */
  function Fetched(id: int, vm: Vm, otherwise: Pc): Pc {
    if !HasTag(vm, MACHINE_TAG) then otherwise
    else if vm.running then Halting(id)
    else Deleting(id, DELETE_ATTEMPTS)
  }

  function AfterLooking(want: int, name: string, ev: Event): Pc {
    match ev
    case Got(id, Some(vm)) => if want != 0 && id == want then Fetched(id, vm, Stopped) else Astray
    case Got(id, None) => if want != 0 && id == want then Looking(want, name) else Astray
    case Listed(Some(rows)) => Searching(want, Candidates(rows, want, name))
    case Listed(None) => Stopped
    case _ => Astray
  }

  function Ids(rows: seq<Row>): set<int> {
    set i | 0 <= i < |rows| :: rows[i].vmid
  }

  /** The protocol: the next state of a driver process, and Astray for a call it must not make here, or
      an outcome there cannot be: no VM has VMID 0. */
  function Next(pc: Pc, ev: Event): Pc {
    match pc
    case Drawing(left) =>
      (match ev
       case Listed(Some(rows)) => if left > 0 then Posting(left, Ids(rows)) else Astray
       case Listed(None) => if left > 0 then Drawing(left - 1) else Astray
       case _ => Astray)
    case Posting(left, taken) =>
      (match ev
       case ClonePost(id, accepted) =>
         if left == 0 || id in taken || (accepted && id == 0) then Astray
         else if accepted then Cloning(id, left - 1)
         else Drawing(left - 1)
       case Listed(Some(rows)) => if left > 1 then Posting(left - 1, Ids(rows)) else Astray
       case Listed(None) => if left > 1 then Drawing(left - 2) else Astray
       case _ => Astray)
    case Cloning(id, left) =>
      if ev == Did(id, CloneTask, true) then Reading(id)
      else if ev == Did(id, CloneTask, false) then Scrapping(id, left)
      else Astray
    case Scrapping(id, left) =>
      if ev.Got? && ev.id == id then (if ev.vm.Some? then ScrapDeleting(id, left) else Drawing(left)) else Astray
    case ScrapDeleting(id, left) =>
      if ev.Did? && ev.id == id && ev.op == Delete then Drawing(left) else Astray
    case Reading(id) =>
      if ev.Got? && ev.id == id then (if ev.vm.Some? then Tagging(id) else Scrapping(id, 0)) else Astray
    case Tagging(id) =>
      if ev.Did? && ev.id == id && IsTagging(ev.op) then (if ev.ok then Configuring(id) else Scrapping(id, 0))
      else Astray
    case Configuring(id) =>
      if ev.Did? && ev.id == id && IsConfiguring(ev.op) then (if ev.ok then Sizing(id) else Looking(id, "")) else Astray
    case Sizing(id) =>
      if ev.Did? && ev.id == id && ev.op.Resize? then (if ev.ok then Starting(id) else Looking(id, ""))
      else if ev.Did? && ev.id == id && ev.op == Start then (if ev.ok then Booted(id) else Looking(id, ""))
      else Astray
    case Starting(id) =>
      if ev.Did? && ev.id == id && ev.op == Start then (if ev.ok then Booted(id) else Looking(id, "")) else Astray
    case Booted(id) =>
      if ev.Got? && ev.id == id then (if ev.vm.Some? then Ready(id) else Looking(id, "")) else Astray
    case Ready(id) => AfterLooking(id, "", ev)
    case Looking(want, name) => AfterLooking(want, name, ev)
    case Searching(want, candidates) =>
      if ev.Got? && ev.id in candidates then
        (if ev.vm.Some? then Fetched(ev.id, ev.vm.value, if want == 0 then pc else Stopped) else pc)
      else Astray
    case Halting(id) =>
      if ev == Did(id, Shutdown, true) then Deleting(id, DELETE_ATTEMPTS)
      else if ev == Did(id, Shutdown, false) then Stopping(id)
      else Astray
    case Stopping(id) =>
      if ev == Did(id, Stop, true) then Deleting(id, DELETE_ATTEMPTS)
      else if ev == Did(id, Stop, false) then Stopped
      else Astray
    case Deleting(id, left) =>
      if ev.Did? && ev.id == id && ev.op == Delete && left > 0 then (if ev.ok then Stopped else Deleting(id, left - 1))
      else Astray
    case Stopped => Astray
    case Astray => Astray
  }

  /** The state a process is in after making the calls of `trace` in order. */
  function Run(pc: Pc, trace: seq<Event>): Pc
    decreases |trace|
  {
    if trace == [] then pc else Run(Next(pc, trace[0]), trace[1..])
  }

  lemma {:induction false} RunOn(pc: Pc, trace: seq<Event>, ev: Event)
    ensures Run(pc, trace + [ev]) == Next(Run(pc, trace), ev)
    decreases |trace|
  {
    if trace == [] {
      assert [ev][1..] == [];
    } else {
      assert (trace + [ev])[1..] == trace[1..] + [ev];
      RunOn(Next(pc, trace[0]), trace[1..], ev);
    }
  }
}
