/** Any number of driver processes on one cluster: creates and removes that interleave call by call
    with each other and with outsiders, and that crash between any two calls. Every process follows
    the protocol of module Protocol, which is also the one the driver's methods are proved to keep. */
module Fleet {
  import opened Text
  import opened Protocol

  /** Why a live VM of a driver run may be beyond the reach of Remove. */
  datatype Excuse =
    | LostResponse   // its clone was carried out although the call returned an error
    | Abandoned      // the process stopped between the accepted clone and the end of tagging
    | CleanupFailed  // a clean-up call for it failed

  /** A process runs Create, or Remove with the persisted VMID `want` (0 if none was persisted). */
  datatype Role = Creator | Remover(want: int)

  /** `current` remembers the VMID of the last clone call that was accepted. */
  datatype Proc = Proc(name: string, role: Role, pc: Pc, current: Option<int>)

  /** A VM that process `issuer` applied a delete to; `scrap` if that was a clean-up while cloning. */
  datatype Victim = Victim(issuer: nat, scrap: bool, id: int, vm: Vm)

  /** Process number k makes VMs with maker k + 1. */
  datatype State = State(vms: Vms, procs: seq<Proc>, excuses: map<int, Excuse>, victims: seq<Victim>)

  // ---- Who holds which VMID ----------------------------------------------------------------

  /** The clone phase: from the accepted call to the end of tagging. */
  function WindowId(pc: Pc): Option<int> {
    match pc
    case Cloning(id, _) => Some(id)
    case Scrapping(id, _) => Some(id)
    case ScrapDeleting(id, _) => Some(id)
    case Reading(id) => Some(id)
    case Tagging(id) => Some(id)
    case _ => None
  }

  /** Provisioning, after the VM has been tagged. */
  function TaggedId(pc: Pc): Option<int> {
    match pc
    case Configuring(id) => Some(id)
    case Sizing(id) => Some(id)
    case Starting(id) => Some(id)
    case Booted(id) => Some(id)
    case Ready(id) => Some(id)
    case _ => None
  }

  /** A VM that was looked up, carried the tag, and is to be deleted. */
  function TargetId(pc: Pc): Option<int> {
    match pc
    case Halting(id) => Some(id)
    case Stopping(id) => Some(id)
    case Deleting(id, _) => Some(id)
    case _ => None
  }

  predicate Holds(pc: Pc, id: int) {
    || WindowId(pc) == Some(id) || TaggedId(pc) == Some(id) || TargetId(pc) == Some(id)
    || (pc.Searching? && id in pc.candidates)
  }

  /** The assumption about the environment: nobody is given a VMID while a driver process holds it,
      from its own accepted clone or from a lookup to the delete that follows. */
  ghost predicate Free(s: State, id: int) {
    id !in s.vms && forall k | 0 <= k < |s.procs| :: !Holds(s.procs[k].pc, id)
  }

  // ---- Steps -------------------------------------------------------------------------------

  ghost predicate Spawn(s: State, s': State, p: Proc) {
    && (if p.role.Creator? then p.pc == Drawing(CLONE_ATTEMPTS) else p.pc == Looking(p.role.want, p.name))
    && p.current == None
    && s' == s.(procs := s.procs + [p])
  }

  /** An outsider's VM appears. Only driver runs set the tag. */
  ghost predicate Allocate(s: State, s': State, id: int, vm: Vm) {
    Free(s, id) && vm.maker == 0 && !HasTag(vm, MACHINE_TAG) && s' == s.(vms := s.vms[id := vm])
  }

  /** A VM changes: it migrates, is reconfigured or switched, or a task of the past takes effect late. */
  ghost predicate Alter(s: State, s': State, id: int, vm: Vm) {
    && id in s.vms && vm.maker == s.vms[id].maker
    && (if vm.maker == 0 then !HasTag(vm, MACHINE_TAG)
        else vm.name == s.vms[id].name && vm.kind == s.vms[id].kind && vm.template == s.vms[id].template
             && (HasTag(s.vms[id], MACHINE_TAG) ==> HasTag(vm, MACHINE_TAG)))
    && s' == s.(vms := s.vms[id := vm])
  }

  /** A VM disappears. */
  ghost predicate Destroy(s: State, s': State, id: int) {
    s' == s.(vms := s.vms - {id}, excuses := s.excuses - {id})
  }

  /** A process returns or crashes. What it holds in the clone phase is abandoned. */
  ghost predicate Exit(s: State, s': State, k: nat) {
    && k < |s.procs|
    && var pc := s.procs[k].pc;
       s' == s.(procs := s.procs[k := s.procs[k].(pc := Stopped)],
                excuses := match WindowId(pc)
                           case Some(id) => Excused(s, k, id, Abandoned)
                           case None => s.excuses)
  }

  /** The excuses with one more, if there is a VM of run k to excuse. */
  function Excused(s: State, k: nat, id: int, why: Excuse): map<int, Excuse> {
    if id in s.vms && s.vms[id].maker == k + 1 then s.excuses[id := why] else s.excuses
  }

  ghost predicate IsClone(vm: Vm, name: string, maker: nat) {
    vm.name == name && vm.kind == Qemu && !vm.template && vm.maker == maker
  }

  /** The new state of process k after a call. */
  function Moved(p: Proc, ev: Event): Proc {
    p.(pc := Next(p.pc, ev), current := if ev.ClonePost? && ev.accepted then Some(ev.id) else p.current)
  }

  /** A read: nothing changes but the process, and a clean-up that finds nothing to delete while the
      VM is there has failed. */
  ghost predicate Read(s: State, s': State, k: nat, ev: Event) {
    && k < |s.procs| && Next(s.procs[k].pc, ev) != Astray
    && (match ev
        case Listed(Some(rows)) => Lists(rows, s.vms)
        case Listed(None) => true
        case Got(id, Some(vm)) => id in s.vms && s.vms[id] == vm && vm.kind == Qemu
        case Got(_, None) => true
        case _ => false)
    && s' == s.(procs := s.procs[k := Moved(s.procs[k], ev)],
                excuses := if ev.Got? && ev.vm == None && s.procs[k].pc.Scrapping?
                           then Excused(s, k, ev.id, CleanupFailed) else s.excuses)
  }

  /** A clone call that is accepted, is refused, or is carried out while its response gets lost. */
  ghost predicate Clone(s: State, s': State, k: nat, id: int, accepted: bool, done: bool, vm: Vm) {
    && k < |s.procs| && Next(s.procs[k].pc, ClonePost(id, accepted)) != Astray
    && (accepted ==> done)
    && (done ==> id != 0 && Free(s, id) && IsClone(vm, s.procs[k].name, k + 1))
    && s' == s.(procs := s.procs[k := Moved(s.procs[k], ClonePost(id, accepted))],
                vms := if done then s.vms[id := vm] else s.vms,
                excuses := if done && !accepted then s.excuses[id := LostResponse] else s.excuses)
  }

  /** An operation on a VM ends, with the effect its outcome allows. */
  ghost predicate Operate(s: State, s': State, k: nat, id: int, op: Op, ok: bool) {
    && k < |s.procs| && Next(s.procs[k].pc, Did(id, op, ok)) != Astray
    && Ended(s.vms, id, op, ok, s'.vms)
    && s'.procs == s.procs[k := Moved(s.procs[k], Did(id, op, ok))]
    && s'.excuses == (if id !in s'.vms then s.excuses - {id}
                      else if s.procs[k].pc.ScrapDeleting? then Excused(s, k, id, CleanupFailed)
                      else s.excuses)
    && s'.victims == (if op == Delete && id in s.vms
                      then s.victims + [Victim(k, s.procs[k].pc.ScrapDeleting?, id, s.vms[id])] else s.victims)
  }

  ghost predicate Step(s: State, s': State) {
    || (exists p :: Spawn(s, s', p))
    || (exists id, vm :: Allocate(s, s', id, vm))
    || (exists id, vm :: Alter(s, s', id, vm))
    || (exists id :: Destroy(s, s', id))
    || (exists k :: Exit(s, s', k))
    || (exists k, ev :: Read(s, s', k, ev))
    || (exists k, id, accepted, done, vm :: Clone(s, s', k, id, accepted, done, vm))
    || (exists k, id, op, ok :: Operate(s, s', k, id, op, ok))
  }

  /** Before the first driver process: any cluster of untagged VMs. */
  ghost predicate Initial(s: State) {
    && s.procs == [] && s.excuses == map[] && s.victims == []
    && forall id | id in s.vms :: s.vms[id].maker == 0 && !HasTag(s.vms[id], MACHINE_TAG)
  }

  ghost predicate IsRun(states: seq<State>) {
    states != [] && Initial(states[0]) && forall i | 0 <= i < |states| - 1 :: Step(states[i], states[i + 1])
  }

  // ---- The invariant -----------------------------------------------------------------------

  /** A VM is an outsider's, without the tag, or a creator's, under its machine's name. */
  ghost predicate VmOk(s: State, id: int)
    requires id in s.vms
  {
    var vm := s.vms[id];
    if vm.maker == 0 then !HasTag(vm, MACHINE_TAG)
    else
      && vm.maker <= |s.procs|
      && var p := s.procs[vm.maker - 1];
         p.role.Creator? && vm.name == p.name && vm.kind == Qemu && !vm.template
         && (id in s.excuses
             || (p.current == Some(id) && !p.pc.Drawing? && !p.pc.Posting?
                 && (HasTag(vm, MACHINE_TAG) || WindowId(p.pc) == Some(id))))
  }

  /** What a process holds is its own, is tagged, or carries the name that was searched for. */
  ghost predicate ProcOk(s: State, k: nat)
    requires k < |s.procs|
  {
    var p := s.procs[k];
    && p.pc != Astray
    && (WindowId(p.pc).Some? ==> p.role.Creator? && WindowId(p.pc).value != 0 && p.current == WindowId(p.pc))
    && (TaggedId(p.pc).Some? ==> p.role.Creator? && TaggedId(p.pc).value != 0)
    && (p.pc.Drawing? || p.pc.Posting? ==> p.role.Creator?)
    && (forall id | id in s.vms && WindowId(p.pc) == Some(id) :: s.vms[id].maker == k + 1)
    && (forall id | id in s.vms && TaggedId(p.pc) == Some(id) ::
          s.vms[id].maker == k + 1 && HasTag(s.vms[id], MACHINE_TAG))
    && (forall id | id in s.vms && TargetId(p.pc) == Some(id) ::
          HasTag(s.vms[id], MACHINE_TAG) && (p.role == Remover(0) ==> s.vms[id].name == p.name))
    && (p.pc.Looking? ==> if p.role.Creator? then p.pc.want != 0 else p.pc.want == p.role.want && p.pc.name == p.name)
    && (p.pc.Searching? ==> if p.role.Creator? then p.pc.want != 0 else p.pc.want == p.role.want)
    && (p.role.Remover? && p.role.want != 0 && TargetId(p.pc).Some? ==> TargetId(p.pc) == Some(p.role.want))
    && (p.pc.Searching? && p.pc.want != 0 ==> p.pc.candidates <= {p.pc.want})
    && (p.pc.Searching? && p.role == Remover(0) ==>
          forall id | id in p.pc.candidates && id in s.vms && s.vms[id].maker != 0 :: s.vms[id].name == p.name)
  }

  /** A victim was the VM of a create with its machine's name; it was the issuer's own, or carried the tag;
      and a Remover deletes the persisted VMID, or what bears its machine's name. */
  ghost predicate VictimOk(s: State, v: Victim) {
    && v.issuer < |s.procs| && 0 < v.vm.maker <= |s.procs|
    && s.procs[v.vm.maker - 1].role.Creator? && v.vm.name == s.procs[v.vm.maker - 1].name
    && (v.scrap ==> v.vm.maker == v.issuer + 1)
    && (!v.scrap ==> HasTag(v.vm, MACHINE_TAG))
    && var issuer := s.procs[v.issuer];
       issuer.role.Remover? ==> if issuer.role.want != 0 then v.id == issuer.role.want else v.vm.name == issuer.name
  }

  ghost predicate Inv(s: State) {
    && (forall id | id in s.vms :: VmOk(s, id))
    && (forall k | 0 <= k < |s.procs| :: ProcOk(s, k))
    && (forall i | 0 <= i < |s.victims| :: VictimOk(s, s.victims[i]))
    && (forall id | id in s.excuses :: id in s.vms)
  }

  lemma SpawnKeeps(s: State, s': State, p: Proc)
    requires Inv(s) && Spawn(s, s', p)
    ensures Inv(s')
  {
    forall k | 0 <= k < |s'.procs|
      ensures ProcOk(s', k)
    {
      if k < |s.procs| {
        assert ProcOk(s, k);
      }
    }
    forall id | id in s'.vms
      ensures VmOk(s', id)
    {
      assert VmOk(s, id);
    }
  }

  lemma AllocateKeeps(s: State, s': State, id: int, vm: Vm)
    requires Inv(s) && Allocate(s, s', id, vm)
    ensures Inv(s')
  {
    forall k | 0 <= k < |s'.procs|
      ensures ProcOk(s', k)
    {
      assert ProcOk(s, k) && !Holds(s.procs[k].pc, id);
    }
    forall i | i in s'.vms
      ensures VmOk(s', i)
    {
      assert i != id ==> VmOk(s, i);
    }
  }

  lemma AlterKeeps(s: State, s': State, id: int, vm: Vm)
    requires Inv(s) && Alter(s, s', id, vm)
    ensures Inv(s')
  {
    assert VmOk(s, id);
    forall k | 0 <= k < |s'.procs|
      ensures ProcOk(s', k)
    {
      assert ProcOk(s, k);
    }
    forall i | i in s'.vms
      ensures VmOk(s', i)
    {
      assert VmOk(s, i);
    }
  }

  lemma DestroyKeeps(s: State, s': State, id: int)
    requires Inv(s) && Destroy(s, s', id)
    ensures Inv(s')
  {
    forall k | 0 <= k < |s'.procs|
      ensures ProcOk(s', k)
    {
      assert ProcOk(s, k);
    }
    forall i | i in s'.vms
      ensures VmOk(s', i)
    {
      assert VmOk(s, i);
    }
  }

  lemma ExitKeeps(s: State, s': State, k: nat)
    requires Inv(s) && Exit(s, s', k)
    ensures Inv(s')
  {
    forall j | 0 <= j < |s'.procs|
      ensures ProcOk(s', j)
    {
      assert ProcOk(s, j);
    }
    forall i | i in s'.vms
      ensures VmOk(s', i)
    {
      assert VmOk(s, i);
    }
  }

  /** What process k holds after a listing. */
  lemma ListedProc(s: State, s': State, k: nat, rows: Option<seq<Row>>)
    requires Inv(s) && Read(s, s', k, Listed(rows))
    ensures ProcOk(s', k)
  {
    assert ProcOk(s, k);
    var p := s.procs[k];
    if p.pc.Looking? && rows.Some? && p.role == Remover(0) {
      forall id | id in Candidates(rows.value, 0, p.name) && id in s.vms
        ensures s.vms[id].name == p.name
      {
        var i :| 0 <= i < |rows.value| && rows.value[i].vmid == id && rows.value[i].name == p.name;
        assert rows.value[i] == RowOf(id, s.vms[id]);
      }
    }
  }

  /** Where a fetch can lead the process that made it. */
  lemma GotMoves(pc: Pc, id: int, vm: Option<Vm>)
    requires Next(pc, Got(id, vm)) != Astray
    ensures var pc' := Next(pc, Got(id, vm));
            && !pc'.Posting?
            && (WindowId(pc').Some? ==> WindowId(pc') == WindowId(pc))
            && (TaggedId(pc').Some? ==> TaggedId(pc') == TaggedId(pc))
            && (TargetId(pc').Some? ==>
                  && TargetId(pc') == Some(id) && vm.Some? && HasTag(vm.value, MACHINE_TAG)
                  && (pc == Ready(id) || (pc.Looking? && pc.want == id != 0) || (pc.Searching? && id in pc.candidates)))
            && (pc'.Looking? ==> pc' == pc || (pc' == Looking(id, "") && TaggedId(pc) == Some(id)))
            && (pc'.Searching? ==> pc' == pc)
            && (pc'.Drawing? ==> WindowId(pc) == Some(id))
  {
  }

  /** What process k holds after a fetch. */
  lemma GotProc(s: State, s': State, k: nat, id: int, vm: Option<Vm>)
    requires Inv(s) && Read(s, s', k, Got(id, vm))
    ensures ProcOk(s', k)
  {
    assert ProcOk(s, k);
    if id in s.vms {
      assert VmOk(s, id);
    }
    GotMoves(s.procs[k].pc, id, vm);
    assert s'.procs[k] == s.procs[k].(pc := Next(s.procs[k].pc, Got(id, vm)));
  }

  lemma ReadVm(s: State, s': State, k: nat, ev: Event, id: int)
    requires Inv(s) && Read(s, s', k, ev) && id in s'.vms
    ensures VmOk(s', id)
  {
    assert VmOk(s, id) && ProcOk(s, k);
  }

  lemma ReadKeeps(s: State, s': State, k: nat, ev: Event)
    requires Inv(s) && Read(s, s', k, ev)
    ensures Inv(s')
  {
    forall j | 0 <= j < |s'.procs|
      ensures ProcOk(s', j)
    {
      assert ProcOk(s, j);
      if j == k {
        match ev {
          case Listed(rows) => ListedProc(s, s', k, rows);
          case Got(id, vm) => GotProc(s, s', k, id, vm);
        }
      }
    }
    forall i | i in s'.vms
      ensures VmOk(s', i)
    {
      ReadVm(s, s', k, ev, i);
    }
  }

  /** What process j holds after a clone call of process k. */
  lemma CloneProc(s: State, s': State, k: nat, id: int, accepted: bool, done: bool, vm: Vm, j: nat)
    requires Inv(s) && Clone(s, s', k, id, accepted, done, vm) && j < |s'.procs|
    ensures ProcOk(s', j)
  {
    assert ProcOk(s, j) && (done ==> !Holds(s.procs[j].pc, id));
    if j == k {
      assert s.procs[k].pc.Posting?;
    } else {
      assert s'.procs[j] == s.procs[j];
    }
  }

  lemma CloneVm(s: State, s': State, k: nat, id: int, accepted: bool, done: bool, vm: Vm, i: int)
    requires Inv(s) && Clone(s, s', k, id, accepted, done, vm) && i in s'.vms
    ensures VmOk(s', i)
  {
    assert ProcOk(s, k) && s.procs[k].pc.Posting?;
    if i in s.vms {
      assert VmOk(s, i);
    }
  }

  lemma CloneKeeps(s: State, s': State, k: nat, id: int, accepted: bool, done: bool, vm: Vm)
    requires Inv(s) && Clone(s, s', k, id, accepted, done, vm)
    ensures Inv(s')
  {
    forall j | 0 <= j < |s'.procs|
      ensures ProcOk(s', j)
    {
      CloneProc(s, s', k, id, accepted, done, vm, j);
    }
    forall i | i in s'.vms
      ensures VmOk(s', i)
    {
      CloneVm(s, s', k, id, accepted, done, vm, i);
    }
    forall i | 0 <= i < |s'.victims|
      ensures VictimOk(s', s'.victims[i])
    {
      assert VictimOk(s, s.victims[i]);
    }
  }

  /** Which operations a process may issue, and on which VM. */
  lemma AllowedOps(pc: Pc, id: int, op: Op, ok: bool)
    requires Next(pc, Did(id, op, ok)) != Astray
    ensures Holds(pc, id) && !pc.Searching?
    ensures op.Config? ==> (pc == Tagging(id) && IsTagging(op)) || (pc == Configuring(id) && NoTags(op.options))
    ensures op == Delete ==> pc.ScrapDeleting? || pc.Deleting?
    ensures op == CloneTask ==> pc.Cloning?
  {
  }

  /** An operation neither renames a VM nor changes its maker; only tagging touches its tags, and
      tagging leaves it with the ownership tag. */
  lemma OpKeepsIdentity(vm: Vm, op: Op)
    ensures var w := Changed(vm, op);
            w.name == vm.name && w.kind == vm.kind && w.template == vm.template && w.maker == vm.maker
    ensures !op.Config? || NoTags(op.options) ==> HasTag(Changed(vm, op), MACHINE_TAG) == HasTag(vm, MACHINE_TAG)
    ensures IsTagging(op) ==> HasTag(Changed(vm, op), MACHINE_TAG)
  {
    if op.Config? {
      if NoTags(op.options) {
        ConfiguredKeepsTags(vm.config, op.options, vm.nic.mac);
      } else if IsTagging(op) {
        var rest := op.options[1..];
        assert Configured(vm.config, op.options, vm.nic.mac) ==
            Configured(vm.config[Tags := op.options[0].1], rest, vm.nic.mac);
      }
    }
  }

  /** What happens to any VM during an operation of process k. */
  lemma OperateOnVm(s: State, s': State, k: nat, id: int, op: Op, ok: bool, i: int)
    requires Operate(s, s', k, id, op, ok) && i in s'.vms
    ensures i in s.vms && s'.vms[i].maker == s.vms[i].maker && s'.vms[i].name == s.vms[i].name
    ensures s'.vms[i].kind == s.vms[i].kind && s'.vms[i].template == s.vms[i].template
    ensures HasTag(s.vms[i], MACHINE_TAG) ==> HasTag(s'.vms[i], MACHINE_TAG)
    ensures !IsTagging(op) ==> HasTag(s'.vms[i], MACHINE_TAG) == HasTag(s.vms[i], MACHINE_TAG)
    ensures IsTagging(op) && ok && i == id ==> HasTag(s'.vms[i], MACHINE_TAG)
    ensures i != id ==> s'.vms[i] == s.vms[i]
  {
    AllowedOps(s.procs[k].pc, id, op, ok);
    if id in s.vms {
      OpKeepsIdentity(s.vms[id], op);
    }
  }

  /** Where an operation can lead the process that issued it. */
  lemma OpMoves(pc: Pc, id: int, op: Op, ok: bool)
    requires Next(pc, Did(id, op, ok)) != Astray
    ensures var pc' := Next(pc, Did(id, op, ok));
            && !pc'.Posting? && !pc'.Searching?
            && (WindowId(pc').Some? ==> WindowId(pc') == WindowId(pc) == Some(id))
            && (TaggedId(pc').Some? ==>
                  && TaggedId(pc') == Some(id)
                  && (TaggedId(pc) == Some(id) || (pc == Tagging(id) && IsTagging(op) && ok)))
            && (TargetId(pc').Some? ==> TargetId(pc') == TargetId(pc) == Some(id))
            && (pc'.Looking? ==> pc' == Looking(id, "") && TaggedId(pc) == Some(id))
            && (pc'.Drawing? ==> pc == ScrapDeleting(id, pc'.left) && op == Delete)
            && (WindowId(pc).Some? && WindowId(pc') == None ==>
                pc'.Drawing? || (pc == Tagging(id) && pc' == Configuring(id)))
  {
  }

  lemma OperateOther(s: State, s': State, k: nat, id: int, op: Op, ok: bool, j: nat)
    requires Inv(s) && Operate(s, s', k, id, op, ok) && j < |s'.procs| && j != k
    ensures ProcOk(s', j)
  {
    assert ProcOk(s, j);
    forall i | i in s'.vms
      ensures i in s.vms && s'.vms[i].maker == s.vms[i].maker && s'.vms[i].name == s.vms[i].name
      ensures HasTag(s.vms[i], MACHINE_TAG) ==> HasTag(s'.vms[i], MACHINE_TAG)
    {
      OperateOnVm(s, s', k, id, op, ok, i);
    }
  }

  lemma OperateSelf(s: State, s': State, k: nat, id: int, op: Op, ok: bool)
    requires Inv(s) && Operate(s, s', k, id, op, ok)
    ensures ProcOk(s', k)
  {
    assert ProcOk(s, k);
    var p' := s'.procs[k];
    assert p' == s.procs[k].(pc := Next(s.procs[k].pc, Did(id, op, ok)));
    OpMoves(s.procs[k].pc, id, op, ok);
    if id in s'.vms {
      OperateOnVm(s, s', k, id, op, ok, id);
    }
  }

  /** An outsider's VM is never tagged by an operation. */
  lemma OperateOutsider(s: State, s': State, k: nat, id: int, op: Op, ok: bool, i: int)
    requires Inv(s) && Operate(s, s', k, id, op, ok) && i in s'.vms && i in s.vms && s.vms[i].maker == 0
    ensures VmOk(s', i)
  {
    OperateOnVm(s, s', k, id, op, ok, i);
    AllowedOps(s.procs[k].pc, id, op, ok);
    assert VmOk(s, i) && ProcOk(s, k);
  }

  lemma OperateForeignVm(s: State, s': State, k: nat, id: int, op: Op, ok: bool, i: int)
    requires Inv(s) && Operate(s, s', k, id, op, ok) && i in s'.vms && i in s.vms && s.vms[i].maker !in {0, k + 1}
    ensures VmOk(s', i)
  {
    OperateOnVm(s, s', k, id, op, ok, i);
    assert VmOk(s, i);
    var m := s.vms[i].maker;
    assert s'.procs[m - 1] == s.procs[m - 1];
    assert i in s.excuses ==> i in s'.excuses;
  }

  lemma OperateVm(s: State, s': State, k: nat, id: int, op: Op, ok: bool, i: int)
    requires Inv(s) && Operate(s, s', k, id, op, ok) && i in s'.vms
    ensures VmOk(s', i)
  {
    assert i in s.vms;
    if s.vms[i].maker == k + 1 {
      OperateOwnVm(s, s', k, id, op, ok, i);
    } else if s.vms[i].maker == 0 {
      OperateOutsider(s, s', k, id, op, ok, i);
    } else {
      OperateForeignVm(s, s', k, id, op, ok, i);
    }
  }

  lemma OperateOwnVm(s: State, s': State, k: nat, id: int, op: Op, ok: bool, i: int)
    requires Inv(s) && Operate(s, s', k, id, op, ok) && i in s'.vms && i in s.vms && s.vms[i].maker == k + 1
    ensures VmOk(s', i)
  {
    OperateOnVm(s, s', k, id, op, ok, i);
    AllowedOps(s.procs[k].pc, id, op, ok);
    OpMoves(s.procs[k].pc, id, op, ok);
    assert VmOk(s, i) && ProcOk(s, k);
    var p, p' := s.procs[k], s'.procs[k];
    assert p' == p.(pc := Next(p.pc, Did(id, op, ok)));
    assert i in s.excuses ==> i in s'.excuses;
  }

  lemma DeleteStates(pc: Pc, id: int, ok: bool)
    requires Next(pc, Did(id, Delete, ok)) != Astray
    ensures if pc.ScrapDeleting? then WindowId(pc) == Some(id) else pc.Deleting? && TargetId(pc) == Some(id)
  {
  }

  lemma NewVictim(s: State, s': State, k: nat, v: Victim)
    requires Inv(s) && k < |s.procs| && v.issuer == k && v.id in s.vms && s.vms[v.id] == v.vm
    requires if v.scrap then WindowId(s.procs[k].pc) == Some(v.id) else TargetId(s.procs[k].pc) == Some(v.id)
    requires |s'.procs| == |s.procs|
    requires forall j | 0 <= j < |s.procs| :: s'.procs[j].role == s.procs[j].role && s'.procs[j].name == s.procs[j].name
    ensures VictimOk(s', v)
  {
    assert ProcOk(s, k) && VmOk(s, v.id);
  }

  lemma OperateVictims(s: State, s': State, k: nat, id: int, op: Op, ok: bool, v: Victim)
    requires Inv(s) && Operate(s, s', k, id, op, ok) && v in s'.victims
    ensures VictimOk(s', v)
  {
    if v in s.victims {
      assert VictimOk(s, v);
    } else {
      DeleteStates(s.procs[k].pc, id, ok);
      NewVictim(s, s', k, v);
    }
  }

  lemma OperateKeeps(s: State, s': State, k: nat, id: int, op: Op, ok: bool)
    requires Inv(s) && Operate(s, s', k, id, op, ok)
    ensures Inv(s')
  {
    forall j | 0 <= j < |s'.procs|
      ensures ProcOk(s', j)
    {
      if j == k {
        OperateSelf(s, s', k, id, op, ok);
      } else {
        OperateOther(s, s', k, id, op, ok, j);
      }
    }
    forall i | i in s'.vms
      ensures VmOk(s', i)
    {
      OperateVm(s, s', k, id, op, ok, i);
    }
    forall i | 0 <= i < |s'.victims|
      ensures VictimOk(s', s'.victims[i])
    {
      OperateVictims(s, s', k, id, op, ok, s'.victims[i]);
    }
  }
}
