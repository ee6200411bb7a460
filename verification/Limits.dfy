/** Where the guarantees stop: runs of the fleet in which something goes wrong that Create and Remove do not
    mend, and what an error or a nil result of an operation does not mean. */
module Limits {
  import opened Text
  import opened Protocol
  import opened Fleet
  import opened Remove
  import opened Guarantees
  import Pve

  // ---- Steps of one process from a reachable state -----------------------------------------

  lemma Spawned(s: State, name: string, role: Role) returns (s': State)
    requires Reachable(s)
    ensures var pc := if role.Creator? then Drawing(CLONE_ATTEMPTS) else Looking(role.want, name);
            Reachable(s') && s' == s.(procs := s.procs + [Proc(name, role, pc, None)])
  {
    var p := Proc(name, role, if role.Creator? then Drawing(CLONE_ATTEMPTS) else Looking(role.want, name), None);
    s' := s.(procs := s.procs + [p]);
    assert Spawn(s, s', p);
    Reach(s, s');
  }

  lemma Fetches(s: State, k: nat, ev: Event) returns (s': State)
    requires Reachable(s) && k < |s.procs| && Next(s.procs[k].pc, ev) != Astray && !s.procs[k].pc.Scrapping?
    requires ev.Got? && (ev.vm.Some? ==> ev.id in s.vms && s.vms[ev.id] == ev.vm.value && ev.vm.value.kind == Qemu)
    ensures Reachable(s') && s' == s.(procs := s.procs[k := s.procs[k].(pc := Next(s.procs[k].pc, ev))])
  {
    s' := s.(procs := s.procs[k := Moved(s.procs[k], ev)]);
    assert Read(s, s', k, ev);
    Reach(s, s');
  }

  lemma ListsAll(s: State, k: nat, rows: seq<Row>) returns (s': State)
    requires Reachable(s) && k < |s.procs| && Next(s.procs[k].pc, Listed(Some(rows))) != Astray && Lists(rows, s.vms)
    ensures Reachable(s')
    ensures s' == s.(procs := s.procs[k := s.procs[k].(pc := Next(s.procs[k].pc, Listed(Some(rows))))])
  {
    var ev := Listed(Some(rows));
    s' := s.(procs := s.procs[k := Moved(s.procs[k], ev)]);
    assert Read(s, s', k, ev);
    Reach(s, s');
  }

  lemma Operates(s: State, k: nat, id: int, op: Op) returns (s': State)
    requires Reachable(s) && k < |s.procs| && id in s.vms && op != Delete && !s.procs[k].pc.ScrapDeleting?
    requires Next(s.procs[k].pc, Did(id, op, true)) != Astray
    ensures Reachable(s')
    ensures s' == s.(vms := s.vms[id := Changed(s.vms[id], op)],
                     procs := s.procs[k := s.procs[k].(pc := Next(s.procs[k].pc, Did(id, op, true)))])
  {
    var ev := Did(id, op, true);
    s' := s.(vms := s.vms[id := Changed(s.vms[id], op)], procs := s.procs[k := Moved(s.procs[k], ev)]);
    assert Operate(s, s', k, id, op, true);
    Reach(s, s');
  }

  /** A delete that is carried out, whether or not the caller learns of it. */
  lemma Deletes(s: State, k: nat, id: int, ok: bool) returns (s': State)
    requires Reachable(s) && k < |s.procs| && s.procs[k].pc.Deleting? && s.procs[k].pc.id == id &&
              s.procs[k].pc.left > 0
    requires id in s.vms
    ensures Reachable(s')
    ensures s' == State(s.vms - {id}, s.procs[k := s.procs[k].(pc := Next(s.procs[k].pc, Did(id, Delete, ok)))],
                        s.excuses - {id}, s.victims + [Victim(k, false, id, s.vms[id])])
  {
    var ev := Did(id, Delete, ok);
    s' := State(s.vms - {id}, s.procs[k := Moved(s.procs[k], ev)], s.excuses - {id},
                s.victims + [Victim(k, false, id, s.vms[id])]);
    assert Operate(s, s', k, id, Delete, ok);
    Reach(s, s');
  }

  lemma Exits(s: State, k: nat) returns (s': State)
    requires Reachable(s) && k < |s.procs|
    ensures Reachable(s') && s'.procs == s.procs[k := s.procs[k].(pc := Stopped)]
    ensures s'.vms == s.vms && s'.victims == s.victims
    ensures s'.excuses == match WindowId(s.procs[k].pc)
                          case Some(id) => Excused(s, k, id, Abandoned)
                          case None => s.excuses
  {
    s' := s.(procs := s.procs[k := s.procs[k].(pc := Stopped)],
             excuses := match WindowId(s.procs[k].pc)
                        case Some(id) => Excused(s, k, id, Abandoned)
                        case None => s.excuses);
    assert Exit(s, s', k);
    Reach(s, s');
  }

  /** A create lists an empty cluster. */
  lemma Listing(s: State, name: string) returns (s': State)
    requires Reachable(s) && s.vms == map[]
    ensures Reachable(s') && s' == s.(procs := s.procs + [Proc(name, Creator, Posting(CLONE_ATTEMPTS, {}), None)])
  {
    var s1 := Spawned(s, name, Creator);
    assert Ids([]) == {};
    s' := ListsAll(s1, |s.procs|, []);
  }

  ghost predicate AllStopped(s: State) {
    forall k | 0 <= k < |s.procs| :: s.procs[k].pc == Stopped
  }

  /** And its clone call is accepted. */
  lemma Accepted(s: State, name: string, id: int, vm: Vm) returns (s': State)
    requires Reachable(s) && s.vms == map[] && AllStopped(s) && id != 0 && IsClone(vm, name, |s.procs| + 1)
    ensures Reachable(s')
    ensures s' == s.(vms := map[id := vm], procs := s.procs + [Proc(name, Creator, Cloning(id, 9), Some(id))])
  {
    var s1 := Listing(s, name);
    var k := |s.procs|;
    s' := s.(vms := map[id := vm], procs := s.procs + [Proc(name, Creator, Cloning(id, 9), Some(id))]);
    assert Moved(s1.procs[k], ClonePost(id, true)) == s'.procs[k];
    assert s'.procs == s1.procs[k := s'.procs[k]];
    assert Clone(s1, s', k, id, true, true, vm);
    Reach(s1, s');
  }

  lemma Empty() returns (s: State)
    ensures Reachable(s) && s == State(map[], [], map[], [])
  {
    s := State(map[], [], map[], []);
    assert IsRun([s]) && Last([s]) == s;
  }

  /** Each of the three excuses is real: an untagged VM that no Remove can find, although the process that
      made it is no longer at work. The create stopped while its clone was running; or the response to its
      clone call was lost; or its clone failed and the clean-up could not read the VM. */
  lemma EveryExcuseIsReal(name: string, vm: Vm, why: Excuse) returns (s: State)
    requires IsClone(vm, name, 1) && !HasTag(vm, MACHINE_TAG)
    ensures Reachable(s) && MakerAtRest(s, 100) && AllStopped(s)
    ensures s.vms == map[100 := vm] && s.excuses == map[100 := why] && Matching(s.vms, name) == {}
  {
    var s0 := Empty();
    if why == LostResponse {
      var s1 := Listing(s0, name);
      var s2 := LosesResponse(s1, 100, vm);
      s := Exits(s2, 0);
    } else {
      var s1 := Accepted(s0, name, 100, vm);
      if why == Abandoned {
        s := Exits(s1, 0);
      } else {
        var s2 := CleanupFails(s1, 100);
        s := Exits(s2, 0);
      }
    }
  }

  lemma LosesResponse(s: State, id: int, vm: Vm) returns (s': State)
    requires Reachable(s) && s.vms == map[] && |s.procs| == 1 && s.procs[0].pc == Posting(CLONE_ATTEMPTS, {}) && id != 0
    requires IsClone(vm, s.procs[0].name, 1)
    ensures Reachable(s') && s' == s.(vms := map[id := vm], excuses := s.excuses[id := LostResponse],
                                      procs := [s.procs[0].(pc := Drawing(9))])
  {
    s' := s.(vms := map[id := vm], excuses := s.excuses[id := LostResponse], procs := [s.procs[0].(pc := Drawing(9))]);
    assert Clone(s, s', 0, id, false, true, vm);
    Reach(s, s');
  }

  lemma CleanupFails(s: State, id: int) returns (s': State)
    requires Reachable(s) && |s.procs| == 1 && s.procs[0].pc == Cloning(id, 9) && id in s.vms && s.vms[id].maker == 1
    ensures Reachable(s')
    ensures s' == s.(excuses := s.excuses[id := CleanupFailed], procs := [s.procs[0].(pc := Drawing(9))])
  {
    var s1 := s.(procs := [s.procs[0].(pc := Scrapping(id, 9))]);
    assert Operate(s, s1, 0, id, CloneTask, false);
    Reach(s, s1);
    s' := s.(excuses := s.excuses[id := CleanupFailed], procs := [s.procs[0].(pc := Drawing(9))]);
    assert Read(s1, s', 0, Got(id, None));
    Reach(s1, s');
  }

  // ---- A VMID that passes to another machine -----------------------------------------------

  function StampTag(): Op {
    Config([(Tags, MACHINE_TAG)])
  }

  lemma TaggingTags(vm: Vm)
    ensures IsTagging(StampTag()) && HasTag(Changed(vm, StampTag()), MACHINE_TAG)
  {
    SplitWhole(MACHINE_TAG, ';');
    OpKeepsIdentity(vm, StampTag());
  }

  /** A machine's running, tagged VM. */
  ghost predicate IsMachine(vm: Vm, name: string, maker: nat) {
    IsClone(vm, name, maker) && HasTag(vm, MACHINE_TAG) && vm.running
  }

  /** A whole create on an empty cluster: it ends with its machine running under the VMID it got. */
  lemma CreateRuns(s: State, name: string, id: int, vm: Vm) returns (s': State, made: Vm)
    requires Reachable(s) && s.vms == map[] && AllStopped(s) && id != 0 && IsClone(vm, name, |s.procs| + 1)
    ensures Reachable(s') && AllStopped(s') && IsMachine(made, name, |s.procs| + 1)
    ensures s' == s.(vms := map[id := made], procs := s.procs + [Proc(name, Creator, Stopped, Some(id))])
  {
    var k := |s.procs|;
    var s1 := Accepted(s, name, id, vm);
    var s2 := TagsClone(s1, k, id);
    TaggingTags(vm);
    var s3;
    s3, made := Provisions(s2, k, id);
    s' := Exits(s3, k);
    assert s'.procs == s.procs + [Proc(name, Creator, Stopped, Some(id))];
    assert s'.vms == map[id := made];
  }

  lemma TagsClone(s: State, k: nat, id: int) returns (s': State)
    requires Reachable(s) && k < |s.procs| && s.procs[k].pc == Cloning(id, 9) && id in s.vms && s.vms[id].kind == Qemu
    ensures Reachable(s')
    ensures s' == s.(vms := s.vms[id := Changed(s.vms[id], StampTag())],
                     procs := s.procs[k := s.procs[k].(pc := Configuring(id))])
  {
    var s1 := Operates(s, k, id, CloneTask);
    var s2 := Fetches(s1, k, Got(id, Some(s1.vms[id])));
    TaggingTags(s.vms[id]);
    s' := Operates(s2, k, id, StampTag());
  }

  lemma Provisions(s: State, k: nat, id: int) returns (s': State, made: Vm)
    requires Reachable(s) && k < |s.procs| && s.procs[k].pc == Configuring(id) && id in s.vms && s.vms[id].kind == Qemu
    ensures made == Changed(Changed(s.vms[id], Config([])), Start) && made == s.vms[id].(running := true)
    ensures Reachable(s') && s' == s.(vms := s.vms[id := made], procs := s.procs[k := s.procs[k].(pc := Ready(id))])
  {
    var s1 := Operates(s, k, id, Config([]));
    var s2 := Operates(s1, k, id, Start);
    made := s2.vms[id];
    s' := Fetches(s2, k, Got(id, Some(made)));
  }

  /** A whole Remove with a persisted VMID, on a running machine. */
  lemma RemoveRuns(s: State, name: string, want: int) returns (s': State)
    requires Reachable(s) && want != 0 && want in s.vms && s.vms[want].kind.Qemu? && HasTag(s.vms[want], MACHINE_TAG)
    ensures Reachable(s') && s'.vms == s.vms - {want} && s'.excuses == s.excuses - {want}
    ensures s'.procs == s.procs + [Proc(name, Remover(want), Stopped, None)]
    ensures s'.victims == s.victims + [Victim(|s.procs|, false, want, s.vms[want].(running := false))]
  {
    var k := |s.procs|;
    var s1 := AboutToDelete(s, name, want);
    s' := Deletes(s1, k, want, true);
    assert s'.procs == s.procs + [Proc(name, Remover(want), Stopped, None)];
    assert s'.vms == s.vms - {want};
  }

  lemma AboutToDelete(s: State, name: string, want: int) returns (s': State)
    requires Reachable(s) && want != 0 && want in s.vms && s.vms[want].kind.Qemu? && HasTag(s.vms[want], MACHINE_TAG)
    ensures Reachable(s')
    ensures s' == s.(vms := s.vms[want := s.vms[want].(running := false)],
                     procs := s.procs + [Proc(name, Remover(want), Deleting(want, DELETE_ATTEMPTS), None)])
  {
    var k := |s.procs|;
    var s1 := Spawned(s, name, Remover(want));
    var s2 := Fetches(s1, k, Got(want, Some(s.vms[want])));
    if s.vms[want].running {
      s' := Operates(s2, k, want, Shutdown);
    } else {
      s' := s2;
    }
  }

  /** Remove checks the tag but not the name. From every reachable state in which a persisted VMID belongs
      to another machine's VM, a Remove for the old machine can go on to delete that VM. */
  lemma RemoveHitsAnotherMachine(s: State, want: int, name: string) returns (s': State)
    requires Reachable(s) && want != 0 && want in s.vms && s.vms[want].kind.Qemu? && HasTag(s.vms[want], MACHINE_TAG)
    requires s.vms[want].name != name
    ensures Reachable(s') && want !in s'.vms && s'.procs == s.procs + [Proc(name, Remover(want), Stopped, None)]
    ensures s'.victims == s.victims + [Victim(|s.procs|, false, want, s.vms[want].(running := false))]
  {
    s' := RemoveRuns(s, name, want);
  }

  /** Such a state is reachable. Machine a is created and gets a VMID; its Remove deletes it, but the VMID
      stays persisted; machine b is created and gets the same VMID; and a's second Remove deletes b. */
  lemma ReusedVmidIsHit(a: string, b: string, first: Vm, second: Vm) returns (s: State)
    requires IsClone(first, a, 1) && IsClone(second, b, 3)
    ensures Reachable(s) && s.vms == map[]
    ensures s.procs == [Proc(a, Creator, Stopped, Some(100)), Proc(a, Remover(100), Stopped, None),
                        Proc(b, Creator, Stopped, Some(100)), Proc(a, Remover(100), Stopped, None)]
    ensures |s.victims| == 2 && s.victims[1].issuer == 3 && s.victims[1].id == 100
    ensures s.victims[0].vm.name == a && s.victims[1].vm.name == b && s.victims[1].vm.maker == 3
  {
    var s0 := Empty();
    var s1, madeA := CreateRuns(s0, a, 100, first);
    var s2 := RemoveRuns(s1, a, 100);
    var s3, madeB := CreateRuns(s2, b, 100, second);
    s := RemoveRuns(s3, a, 100);
  }

  // ---- What a caller cannot conclude -------------------------------------------------------

  /** An error of DeleteVM does not mean that the VM is still there: the first delete is carried out, but
      waiting for it fails, and the Remove returns the error. */
  lemma DeleteErrsThoughGone(name: string, vm: Vm) returns (s: State, s': State)
    requires IsClone(vm, name, 1)
    ensures Reachable(s) && 100 in s.vms && |s.procs| == 2 && s.procs[1].pc == Deleting(100, DELETE_ATTEMPTS)
    ensures Operate(s, s', 1, 100, Delete, false) && Reachable(s')
    ensures 100 !in s'.vms && s'.procs[1].pc == Deleting(100, DELETE_ATTEMPTS - 1)
  {
    var s0 := Empty();
    var s1, made := CreateRuns(s0, name, 100, vm);
    s := AboutToDelete(s1, name, 100);
    s' := Deletes(s, 1, 100, false);
  }

  /** A VM that migrates after the listing is not found on the node that the listing shows, so that the
      search is over (`s'`) although the machine's VM is there. */
  lemma MigratedIsReportedGone(name: string, vm: Vm, elsewhere: string) returns (row: Row, s: State, s': State)
    requires IsClone(vm, name, 1) && vm.node != elsewhere
    ensures Reachable(s) && |s.procs| == 2 && s.procs[1].pc == Searching(100, {100})
    ensures row.vmid == 100 && !Pve.Has(s.vms, row.node, 100)
    ensures Read(s, s', 1, Got(100, None)) && Reachable(s') && s'.procs[1].pc == Searching(100, {100})
    ensures Named(s'.vms, 100, name, MACHINE_TAG)
  {
    var s0 := Empty();
    var s1, made := CreateRuns(s0, name, 100, vm);
    var s2 := Spawned(s1, name, Remover(100));
    row := RowOf(100, made);
    var rows := [row];
    assert rows[0] == row;
    assert Candidates(rows, 100, name) == {100};
    var s3 := ListsAll(s2, 1, rows);
    s := Migrates(s3, 100, if made.node == elsewhere then vm.node else elsewhere);
    s' := Fetches(s, 1, Got(100, None));
    assert Read(s, s', 1, Got(100, None));
  }

  lemma Migrates(s: State, id: int, node: string) returns (s': State)
    requires Reachable(s) && id in s.vms
    ensures Reachable(s') && s' == s.(vms := s.vms[id := s.vms[id].(node := node)])
  {
    ReachableOk(s);
    assert VmOk(s, id);
    s' := s.(vms := s.vms[id := s.vms[id].(node := node)]);
    assert Alter(s, s', id, s.vms[id].(node := node));
    Reach(s, s');
  }

  /** A create whose clone has failed and left nothing behind, just before its clean-up looks. */
  lemma ScrapsNothing(name: string, vm: Vm) returns (s: State)
    requires IsClone(vm, name, 1)
    ensures Reachable(s) && s == State(map[], [Proc(name, Creator, Scrapping(100, 9), Some(100))], map[], [])
  {
    var s0 := Empty();
    var s1 := Accepted(s0, name, 100, vm);
    s := State(map[], [Proc(name, Creator, Scrapping(100, 9), Some(100))], map[], []);
    assert Operate(s1, s, 0, 100, CloneTask, false);
    Reach(s1, s);
  }

  /** The environment assumption is needed: were a VMID given to an outsider while a failed clone still
      holds it, the clean-up, which checks no tag, would delete the outsider's VM. */
  lemma SnatchedVmidIsDeleted(s: State, k: nat, left: nat, id: int, vm: Vm)
      returns (snatched: State, fetched: State, deleted: State)
    requires Reachable(s) && k < |s.procs| && s.procs[k].pc == Scrapping(id, left) && id !in s.vms
    requires vm.maker == 0 && !HasTag(vm, MACHINE_TAG) && vm.kind.Qemu?
    ensures snatched == s.(vms := s.vms[id := vm]) && !Free(s, id)
    ensures Step(snatched, fetched) && Step(fetched, deleted)
    ensures deleted.victims == s.victims + [Victim(k, true, id, vm)]
  {
    ReachableOk(s);
    assert Holds(s.procs[k].pc, id);
    snatched := s.(vms := s.vms[id := vm]);
    var p := s.procs[k];
    var got := Got(id, Some(vm));
    fetched := snatched.(procs := snatched.procs[k := Moved(p, got)]);
    assert Read(snatched, fetched, k, got);
    var gone := Did(id, Delete, true);
    deleted := State(fetched.vms - {id}, fetched.procs[k := Moved(fetched.procs[k], gone)], fetched.excuses - {id},
                     fetched.victims + [Victim(k, true, id, vm)]);
    assert Operate(fetched, deleted, k, id, Delete, true);
  }

  /** The next taker can be another create as well: it lists an empty cluster, draws the VMID that the first
      one's failed clone had, and has its clone accepted; and the first one's clean-up deletes its VM. */
  lemma SnatchedByCreate(name: string, other: string, vm: Vm, theirs: Vm)
      returns (s: State, snatched: State, fetched: State, deleted: State)
    requires IsClone(vm, name, 1) && IsClone(theirs, other, 2)
    ensures Reachable(s) && s.vms == map[] && |s.procs| == 2 && s.procs[0].pc == Scrapping(100, 9)
    ensures Next(s.procs[1].pc, ClonePost(100, true)) == Cloning(100, 9) && Snatch(s, snatched, 0, 100)
    ensures snatched == s.(vms := map[100 := theirs], procs := s.procs[1 := Moved(s.procs[1], ClonePost(100, true))])
    ensures Step(snatched, fetched) && Step(fetched, deleted)
    ensures deleted.vms == map[] && deleted.victims == [Victim(0, true, 100, theirs)]
  {
    var s0 := ScrapsNothing(name, vm);
    s := Listing(s0, other);
    snatched := s.(vms := map[100 := theirs], procs := s.procs[1 := Moved(s.procs[1], ClonePost(100, true))]);
    var got := Got(100, Some(theirs));
    fetched := snatched.(procs := snatched.procs[0 := Moved(snatched.procs[0], got)]);
    assert Read(snatched, fetched, 0, got);
    var gone := Did(100, Delete, true);
    deleted := State(map[], fetched.procs[0 := Moved(fetched.procs[0], gone)], map[], [Victim(0, true, 100, theirs)]);
    assert Operate(fetched, deleted, 0, 100, Delete, true);
  }

  // ---- The window of a clean-up ------------------------------------------------------------

  /** Against the assumption, somebody other than process k is given the VMID that k holds. */
  ghost predicate Snatch(s: State, s': State, k: nat, id: int) {
    && k < |s.procs| && k < |s'.procs| && s'.procs[k] == s.procs[k]
    && id !in s.vms && id in s'.vms && s'.vms[id].maker != k + 1
  }

  /** A stretch in which process k is in the clone phase of VMID `id`, and that VMID may be snatched. */
  ghost predicate IsWindow(states: seq<State>, k: nat, id: int) {
    && states != []
    && (forall i | 0 <= i < |states| :: InWindow(states[i], k, id))
    && (id in states[0].vms ==> states[0].vms[id].maker == k + 1)
    && (forall i | 0 <= i < |states| - 1 ::
          Step(states[i], states[i + 1]) || Snatch(states[i], states[i + 1], k, id))
  }

  predicate InWindow(s: State, k: nat, id: int) {
    k < |s.procs| && WindowId(s.procs[k].pc) == Some(id)
  }

  ghost predicate Taken(states: seq<State>, k: nat, id: int) {
    exists i | 0 <= i < |states| - 1 :: Snatch(states[i], states[i + 1], k, id)
  }

  /** While the VMID is held, no step of the fleet puts a VM under it or changes whose it is. */
  lemma HeldKeepsMaker(s: State, s': State, k: nat, id: int)
    requires Step(s, s') && InWindow(s, k, id) && id in s'.vms
    ensures id in s.vms && s'.vms[id].maker == s.vms[id].maker
  {
    assert Holds(s.procs[k].pc, id);
    if j: nat, i, op, ok :| Operate(s, s', j, i, op, ok) {
      OperateOnVm(s, s', j, i, op, ok, id);
    }
  }

  lemma TakenBefore(states: seq<State>, k: nat, id: int)
    requires |states| > 1
    ensures var before := states[..|states| - 1];
            Taken(states, k, id) <==> Taken(before, k, id) || Snatch(Last(before), Last(states), k, id)
  {
    var before := states[..|states| - 1];
    assert Last(before) == states[|states| - 2];
    if i :| 0 <= i < |before| - 1 && Snatch(before[i], before[i + 1], k, id) {
      assert Snatch(states[i], states[i + 1], k, id);
    }
    if i :| 0 <= i < |states| - 1 && Snatch(states[i], states[i + 1], k, id) {
      assert i < |states| - 2 ==> Snatch(before[i], before[i + 1], k, id);
    }
    if Snatch(Last(before), Last(states), k, id) {
      assert Snatch(states[|states| - 2], states[|states| - 2 + 1], k, id);
    }
  }

  lemma WindowBefore(states: seq<State>, k: nat, id: int)
    requires IsWindow(states, k, id) && |states| > 1
    ensures var before := states[..|states| - 1];
            && IsWindow(before, k, id) && InWindow(Last(before), k, id)
            && (Step(Last(before), Last(states)) || Snatch(Last(before), Last(states), k, id))
  {
    var before := states[..|states| - 1];
    assert Last(before) == states[|states| - 2] && Last(states) == states[|states| - 2 + 1];
    assert forall i | 0 <= i < |before| :: before[i] == states[i];
  }

  lemma {:induction false} WindowOwner(states: seq<State>, k: nat, id: int)
    requires IsWindow(states, k, id) && id in Last(states).vms
    ensures Last(states).vms[id].maker != k + 1 <==> Taken(states, k, id)
  {
    if |states| > 1 {
      var before := states[..|states| - 1];
      TakenBefore(states, k, id);
      WindowBefore(states, k, id);
      if !Snatch(Last(before), Last(states), k, id) {
        HeldKeepsMaker(Last(before), Last(states), k, id);
        WindowOwner(before, k, id);
      }
    }
  }

  /** The clean-up of a failed clone hits another's VM if and only if the VMID was taken since the clone call
      was accepted. */
  lemma CleanupHitsExactly(states: seq<State>, s': State, k: nat, id: int, ok: bool)
    requires IsWindow(states, k, id) && Last(states).procs[k].pc.ScrapDeleting? && id in Last(states).vms
    requires Operate(Last(states), s', k, id, Delete, ok)
    ensures s'.victims == Last(states).victims + [Victim(k, true, id, Last(states).vms[id])]
    ensures Last(states).vms[id].maker != k + 1 <==> Taken(states, k, id)
  {
    WindowOwner(states, k, id);
  }
}
