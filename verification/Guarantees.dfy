/** What holds in every reachable state of the fleet, and which assumptions it needs. */
module Guarantees {
  import opened Text
  import opened Protocol
  import opened Fleet
  import opened Remove

  lemma InitialOk(s: State)
    requires Initial(s)
    ensures Inv(s)
  {
  }

  lemma StepKeeps(s: State, s': State)
    requires Inv(s) && Step(s, s')
    ensures Inv(s')
  {
    if p :| Spawn(s, s', p) {
      SpawnKeeps(s, s', p);
    } else if id, vm :| Allocate(s, s', id, vm) {
      AllocateKeeps(s, s', id, vm);
    } else if id, vm :| Alter(s, s', id, vm) {
      AlterKeeps(s, s', id, vm);
    } else if id :| Destroy(s, s', id) {
      DestroyKeeps(s, s', id);
    } else if k :| Exit(s, s', k) {
      ExitKeeps(s, s', k);
    } else if k, ev :| Read(s, s', k, ev) {
      ReadKeeps(s, s', k, ev);
    } else if k, id, accepted, done, vm :| Clone(s, s', k, id, accepted, done, vm) {
      CloneKeeps(s, s', k, id, accepted, done, vm);
    } else {
      var k, id, op, ok :| Operate(s, s', k, id, op, ok);
      OperateKeeps(s, s', k, id, op, ok);
    }
  }

  function Last(states: seq<State>): State
    requires states != []
  {
    states[|states| - 1]
  }

  lemma {:induction false} RunKeeps(states: seq<State>)
    requires IsRun(states)
    ensures Inv(Last(states))
  {
    if |states| == 1 {
      InitialOk(states[0]);
    } else {
      var before := states[..|states| - 1];
      RunKeeps(before);
      StepKeeps(Last(before), Last(states));
    }
  }

  ghost predicate Reachable(s: State) {
    exists states :: IsRun(states) && Last(states) == s
  }

  lemma ReachableOk(s: State)
    requires Reachable(s)
    ensures Inv(s)
  {
    var states :| IsRun(states) && Last(states) == s;
    RunKeeps(states);
  }

  /** The process that made the VM is past its clone phase, by success, failure or crash. */
  predicate MakerAtRest(s: State, id: int) {
    id in s.vms && 0 < s.vms[id].maker <= |s.procs| && WindowId(s.procs[s.vms[id].maker - 1].pc) != Some(id)
  }

  /** Orphans. In every reachable state, however many creates crashed wherever they were, a VM whose maker
      is not (or no longer) in its clone phase is found by a Remove that knows only the machine's name
      exactly if it has been tagged, and it has unless its clone's response was lost, its maker stopped in
      the clone phase, or a clean-up of it failed. */
  lemma OrphanCharacterisation(s: State, id: int)
    requires Reachable(s) && MakerAtRest(s, id)
    ensures Named(s.vms, id, s.procs[s.vms[id].maker - 1].name, MACHINE_TAG) <==> HasTag(s.vms[id], MACHINE_TAG)
    ensures !HasTag(s.vms[id], MACHINE_TAG) ==> id in s.excuses
  {
    ReachableOk(s);
    assert VmOk(s, id);
  }

  /** Zero orphans as the Remove of a machine sees it: if its orphan search matches nothing, every VM
      that creates of this machine left behind is excused. */
  lemma NothingFoundMeansNoOrphan(s: State, name: string, id: int)
    requires Reachable(s) && MakerAtRest(s, id)
    requires s.procs[s.vms[id].maker - 1].name == name && Matching(s.vms, name) == {}
    ensures id in s.excuses
  {
    OrphanCharacterisation(s, id);
    assert id !in Matching(s.vms, name);
  }

  /** What process number k did, or what happened to it, in the step that earned the VM its excuse. */
  ghost predicate EarnedBy(s: State, s': State, k: nat, id: int, why: Excuse) {
    && k < |s.procs| && id in s'.vms && s'.vms[id].maker == k + 1
    && match why
       case LostResponse => exists vm :: Clone(s, s', k, id, false, true, vm)
       case Abandoned => Exit(s, s', k) && WindowId(s.procs[k].pc) == Some(id)
       case CleanupFailed =>
         || (Read(s, s', k, Got(id, None)) && s.procs[k].pc.Scrapping?)
         || (s.procs[k].pc.ScrapDeleting? && exists ok :: Operate(s, s', k, id, Delete, ok))
  }

  lemma EarnedByRead(s: State, s': State, k: nat, ev: Event, id: int)
    requires Inv(s) && Read(s, s', k, ev) && id in s'.excuses && (id in s.excuses ==> s'.excuses[id] != s.excuses[id])
    ensures EarnedBy(s, s', k, id, s'.excuses[id])
  {
  }

  lemma EarnedByOperation(s: State, s': State, k: nat, i: int, op: Op, ok: bool, id: int)
    requires Inv(s) && Operate(s, s', k, i, op, ok)
    requires id in s'.excuses && (id in s.excuses ==> s'.excuses[id] != s.excuses[id])
    ensures EarnedBy(s, s', k, id, s'.excuses[id])
  {
    ScrapsOnlyDelete(s.procs[k].pc, id, op, ok);
    OperateOnVm(s, s', k, id, op, ok, id);
    assert ProcOk(s, k);
  }

  /** An excuse is never a driver process's own free choice: it belongs to a live VM that the process made,
      and the step shows what went wrong. */
  lemma ExcusesAreEarned(s: State, s': State, id: int) returns (k: nat)
    requires Inv(s) && Step(s, s') && id in s'.excuses && (id in s.excuses ==> s'.excuses[id] != s.excuses[id])
    ensures EarnedBy(s, s', k, id, s'.excuses[id])
  {
    if j: nat, ev :| Read(s, s', j, ev) {
      k := j;
      EarnedByRead(s, s', k, ev, id);
    } else if j: nat, i, accepted, done, vm :| Clone(s, s', j, i, accepted, done, vm) {
      k := j;
      assert Clone(s, s', k, id, false, true, vm);
    } else if j: nat :| Exit(s, s', j) {
      k := j;
    } else {
      var j: nat, i, op, ok :| Operate(s, s', j, i, op, ok);
      k := j;
      EarnedByOperation(s, s', k, i, op, ok, id);
    }
  }

  ghost predicate Stands(s: State, k: nat, id: int, why: Excuse) {
    id in s.excuses && s.excuses[id] == why && id in s.vms && s.vms[id].maker == k + 1
  }

  lemma ExcuseStands(s: State, s': State, id: int)
    requires Inv(s) && Inv(s') && Step(s, s') && id in s.excuses && id in s'.excuses
    ensures id in s.vms && id in s'.vms && s'.vms[id].maker == s.vms[id].maker
  {
    if k: nat, j, op, ok :| Operate(s, s', k, j, op, ok) {
      OperateOnVm(s, s', k, j, op, ok, id);
    }
  }

  lemma StandsOn(states: seq<State>, i: nat, k: nat, id: int, why: Excuse)
    requires |states| > 1 && i + 1 < |states| - 1 && Stands(Last(states), k, id, why)
    requires var before := states[..|states| - 1]; forall j | i < j < |before| :: Stands(before[j], k, id, why)
    ensures forall j | i < j < |states| :: Stands(states[j], k, id, why)
  {
    var before := states[..|states| - 1];
    forall j | i < j < |states|
      ensures Stands(states[j], k, id, why)
    {
      if j < |before| {
        assert before[j] == states[j];
      }
    }
  }

  /** One more step leaves an earned excuse as it is. */
  lemma EarnedStill(states: seq<State>, i: nat, k: nat, id: int, why: Excuse)
    requires |states| > 1 && IsRun(states)
    requires var before := states[..|states| - 1];
             && i + 1 < |before| && EarnedBy(before[i], before[i + 1], k, id, why)
             && forall j | i < j < |before| :: Stands(before[j], k, id, why)
    requires id in Last(states).excuses && Last(states).excuses[id] == why
    ensures EarnedBy(states[i], states[i + 1], k, id, why)
    ensures forall j | i < j < |states| :: Stands(states[j], k, id, why)
  {
    var before := states[..|states| - 1];
    var s, s' := Last(before), Last(states);
    RunKeeps(before);
    RunKeeps(states);
    assert Stands(before[|before| - 1], k, id, why);
    ExcuseStands(s, s', id);
    StandsOn(states, i, k, id, why);
  }

  /** What an excuse in a reachable state means: some step of the run earned it for the VM that is there
      now, and it has stood since. */
  lemma {:induction false} ExcusesWereEarned(states: seq<State>, id: int) returns (i: nat, k: nat)
    requires IsRun(states) && id in Last(states).excuses
    ensures i + 1 < |states| && EarnedBy(states[i], states[i + 1], k, id, Last(states).excuses[id])
    ensures forall j | i < j < |states| :: Stands(states[j], k, id, Last(states).excuses[id])
  {
    var before := states[..|states| - 1];
    if |states| == 1 {
      assert false;
    } else {
      var s, s' := Last(before), Last(states);
      RunKeeps(before);
      RunKeeps(states);
      if id in s.excuses && s.excuses[id] == s'.excuses[id] {
        i, k := ExcusesWereEarned(before, id);
        EarnedStill(states, i, k, id, s'.excuses[id]);
      } else {
        i := |states| - 2;
        k := ExcusesAreEarned(s, s', id);
      }
    }
  }

  lemma ScrapsOnlyDelete(pc: Pc, id: int, op: Op, ok: bool)
    requires pc.ScrapDeleting? && Next(pc, Did(id, op, ok)) != Astray
    ensures op == Delete
  {
  }

  /** Ownership. Whatever crashes and races there were, no driver process ever applied a delete to a VM
      that no driver run made; a clean-up while cloning only hit the run's own VM; every other delete
      hit a VM that carried the tag; and a Remove hit only the VMID that it was started with, or without
      one only VMs with its machine's name. */
  lemma OnlyDriverVmsAreDeleted(s: State, v: Victim)
    requires Reachable(s) && v in s.victims
    ensures 0 < v.vm.maker <= |s.procs| && v.issuer < |s.procs|
    ensures s.procs[v.vm.maker - 1].role.Creator? && v.vm.name == s.procs[v.vm.maker - 1].name
    ensures v.scrap ==> v.vm.maker == v.issuer + 1
    ensures !v.scrap ==> HasTag(v.vm, MACHINE_TAG)
    ensures var issuer := s.procs[v.issuer];
            issuer.role.Remover? ==>
              if issuer.role.want != 0 then v.id == issuer.role.want else v.vm.name == issuer.name
  {
    ReachableOk(s);
    assert VictimOk(s, v);
  }

  /** A victim was there under its VMID when the delete hit it, and the process that issued it was at work. */
  lemma StepVictims(s: State, s': State, v: Victim)
    requires Inv(s) && Step(s, s') && v in s'.victims
    ensures v in s.victims || (v.id in s.vms && s.vms[v.id] == v.vm && v.issuer < |s.procs|)
  {
  }

  lemma {:induction false} VictimsWereThere(states: seq<State>, v: Victim) returns (i: nat)
    requires IsRun(states) && v in Last(states).victims
    ensures i < |states| && v.id in states[i].vms && states[i].vms[v.id] == v.vm && v.issuer < |states[i].procs|
  {
    var before := states[..|states| - 1];
    if |states| == 1 {
      assert false;
    } else if v in Last(before).victims {
      i := VictimsWereThere(before, v);
    } else {
      RunKeeps(before);
      i := |states| - 2;
      StepVictims(states[i], states[i + 1], v);
    }
  }

  /** From the start of process number k on, a VM with this VMID is the one that process number maker - 1
      made. */
  ghost predicate NoReuse(states: seq<State>, k: nat, id: int, maker: nat) {
    forall i | 0 <= i < |states| && k < |states[i].procs| && id in states[i].vms :: states[i].vms[id].maker == maker
  }

  /** Its own VM. A Remove that was started with the VMID of a create for the same machine deletes nothing
      but the VM of that create, provided that the VMID does not belong to another VM from its start on. */
  lemma RemoveTakesOnlyItsOwn(states: seq<State>, v: Victim, maker: nat)
    requires IsRun(states) && v in Last(states).victims && v.issuer < |Last(states).procs|
    requires var issuer := Last(states).procs[v.issuer];
             && issuer.role.Remover? && issuer.role.want != 0 && NoReuse(states, v.issuer, issuer.role.want, maker)
             && 0 < maker <= |Last(states).procs| && Last(states).procs[maker - 1].name == issuer.name
    ensures v.id == Last(states).procs[v.issuer].role.want && v.vm.maker == maker
    ensures v.vm.name == Last(states).procs[v.issuer].name
  {
    assert Reachable(Last(states));
    OnlyDriverVmsAreDeleted(Last(states), v);
    var i := VictimsWereThere(states, v);
  }

  predicate Creating(pc: Pc, id: int) {
    WindowId(pc) == Some(id) || TaggedId(pc) == Some(id)
  }

  /** Exclusivity. A live VM that a create works on is the one its own accepted clone reserved, so no
      two creates ever work on the same live VM, although each drew its VMID from a stale listing. */
  lemma VmidsAreExclusive(s: State, j: nat, k: nat, id: int)
    requires Reachable(s) && j < |s.procs| && k < |s.procs| && id in s.vms
    requires Creating(s.procs[j].pc, id) && Creating(s.procs[k].pc, id)
    ensures j == k && s.vms[id].maker == k + 1
  {
    ReachableOk(s);
    assert ProcOk(s, j) && ProcOk(s, k);
  }

  /** Over all attempts of a create, at most one of the VMs it made is live, apart from excused ones. */
  lemma AtMostOneVmPerCreate(s: State, a: int, b: int)
    requires Reachable(s) && a in s.vms && b in s.vms && s.vms[a].maker == s.vms[b].maker != 0
    requires a !in s.excuses && b !in s.excuses
    ensures a == b
  {
    ReachableOk(s);
    assert VmOk(s, a) && VmOk(s, b);
  }

  lemma Reach(s: State, s': State)
    requires Reachable(s) && Step(s, s')
    ensures Reachable(s')
  {
    var states :| IsRun(states) && Last(states) == s;
    var longer := states + [s'];
    forall i | 0 <= i < |longer| - 1
      ensures Step(longer[i], longer[i + 1])
    {
      if i < |states| - 1 {
        assert longer[i] == states[i] && longer[i + 1] == states[i + 1];
      }
    }
    assert IsRun(longer) && Last(longer) == s';
  }
}
