/** pkg/driver/driver.go (lookupVM), pkg/pve/resources.go (FindVMByNameAndTag), pkg/pve/vmops.go
    (ShutdownVM, StopVM, DeleteVM) and pkg/driver/remove.go (Remove). */
module Remove {
  import opened Text
  import opened Protocol
  import opened Pve
  import Backoff

  /** The orphan search's target: name and tag together, never a template. */
  predicate Named(vms: Vms, id: int, name: string, tag: string) {
    id in vms && vms[id].kind.Qemu? && !vms[id].template && vms[id].name == name && HasTag(vms[id], tag)
  }

  /** The VM that plain search over the whole cluster finds: by VMID, or without one by name and tag. */
  predicate Targets(vms: Vms, id: int, want: int, name: string) {
    if want != 0 then id == want && id in vms && vms[id].kind.Qemu? else Named(vms, id, name, MACHINE_TAG)
  }

  /** Nothing was changed, by this process or to the stable part of the cluster. */
  ghost predicate Undisturbed(c: Cluster, view: Vms, ledger: Ledger)
    reads c
  {
    c.View() == view && c.ledger == ledger
  }

  ghost predicate Within(vms: Vms, listing: Vms) {
    forall id | id in vms :: id in listing && vms[id] == listing[id]
  }

  lemma NoneNamed(rows: seq<Row>, listing: Vms, vms: Vms, name: string, tag: string)
    requires Lists(rows, listing) && Within(vms, listing)
    requires NoneBefore(rows, |rows|, vms, name, tag)
    ensures forall id :: !Named(vms, id, name, tag)
  {
    forall id
      ensures !Named(vms, id, name, tag)
    {
      if id in vms {
        assert RowOf(id, listing[id]) in rows;
      }
    }
  }

  predicate NoneBefore(rows: seq<Row>, i: nat, vms: Vms, name: string, tag: string)
    requires i <= |rows|
  {
    forall j | 0 <= j < i :: !Named(vms, rows[j].vmid, name, tag)
  }

  /** Row `i` is no match: it says so itself, or its VM is gone, or its VM lacks the tag. */
  lemma NoMatchAt(rows: seq<Row>, i: nat, listing: Vms, before: Vms, after: Vms, name: string, tag: string)
    requires Lists(rows, listing) && Within(before, listing) && Within(after, before)
    requires i < |rows| && NoneBefore(rows, i, before, name, tag)
    requires var row := rows[i];
             || row.kind != Qemu || row.template || row.name != name
             || !Has(after, row.node, row.vmid) || !HasTag(after[row.vmid], tag)
    ensures NoneBefore(rows, i + 1, after, name, tag)
  {
    assert rows[i] == RowOf(rows[i].vmid, listing[rows[i].vmid]);
  }

  /** The same for the stable part, and while outsiders only delete for the whole cluster. */
  lemma NoMatchAnywhere(rows: seq<Row>, i: nat, listing: Vms, view: Vms, before: Vms, after: Vms, shrinking: bool,
                        name: string, tag: string)
    requires Lists(rows, listing) && Within(view, listing) && Within(view, after)
    requires i < |rows| && NoneBefore(rows, i, view, name, tag)
    requires shrinking ==> Within(before, listing) && Within(after, before) && NoneBefore(rows, i, before, name, tag)
    requires var row := rows[i];
             || row.kind != Qemu || row.template || row.name != name
             || !Has(after, row.node, row.vmid) || !HasTag(after[row.vmid], tag)
    ensures NoneBefore(rows, i + 1, view, name, tag)
    ensures shrinking ==> NoneBefore(rows, i + 1, after, name, tag)
  {
    NoMatchAt(rows, i, listing, view, view, name, tag);
    if shrinking {
      NoMatchAt(rows, i, listing, before, after, name, tag);
    }
  }

  lemma ListedIsNamed(rows: seq<Row>, i: nat, listing: Vms, view: Vms, vms: Vms, name: string, tag: string)
    requires Lists(rows, listing) && Within(view, listing) && Within(view, vms) && i < |rows|
    requires var row := rows[i]; row.kind.Qemu? && !row.template && row.name == name
    requires rows[i].vmid in vms && HasTag(vms[rows[i].vmid], tag)
    ensures rows[i].vmid in view ==> Named(view, rows[i].vmid, name, tag)
  {
  }

  lemma ViewIsPart(vms: Vms, me: nat, quiet: bool)
    ensures Within(Stable(vms, me, quiet), vms)
  {
  }

  /** One more call went wrong, and it was a read. */
  predicate ReadFailed(before: seq<(Event, Err)>, after: seq<(Event, Err)>) {
    && |after| == |before| + 1 && before <= after
    && (after[|before|].0.Listed? || after[|before|].0.Got?)
  }

  /** One row of the search that shows the name. */
  method FetchNamed(c: Cluster, rows: seq<Row>, i: nat, ghost listing: Vms, name: string, tag: string)
    returns (r: Result<Option<(int, Vm)>>)
    requires c.Valid() && Lists(rows, listing) && i < |rows|
    requires rows[i].kind.Qemu? && !rows[i].template && rows[i].name == name
    requires Within(c.View(), listing) && NoneBefore(rows, i, c.View(), name, tag)
    requires c.shrinking ==> Within(c.vms, listing) && NoneBefore(rows, i, c.vms, name, tag)
    modifies c
    ensures c.Valid() && Undisturbed(c, old(c.View()), old(c.ledger))
    ensures c.Later() && c.faults == old(c.faults) + if r.Ok? then 0 else 1
    ensures if r.Ok? then c.errors == old(c.errors) else ReadFailed(old(c.errors), c.errors)
    ensures r.Ok? && r.value.Some? ==>
              var (id, vm) := r.value.value; id in c.vms && c.vms[id] == vm && HasTag(vm, tag)
    ensures r.Ok? && r.value.Some? && r.value.value.0 in c.View() ==> Named(c.View(), r.value.value.0, name, tag)
    ensures r == Ok(None) ==> NoneBefore(rows, i + 1, c.View(), name, tag)
    ensures r == Ok(None) && c.shrinking ==> Within(c.vms, listing) && NoneBefore(rows, i + 1, c.vms, name, tag)
    ensures old(c.pc) == Searching(0, Candidates(rows, 0, name)) && tag == MACHINE_TAG && r.Ok? ==>
              c.pc == if r.value.Some? then Fetched(r.value.value.0, r.value.value.1, Stopped) else old(c.pc)
    ensures old(c.pc) == Searching(0, Candidates(rows, 0, name)) && r.Fail? ==> c.pc == old(c.pc)
  {
    var row := rows[i];
    ghost var before := c.vms;
    assert row.vmid in Candidates(rows, 0, name);
    var got := c.GetVM(row.node, row.vmid);
    ViewIsPart(c.vms, c.me, c.quiet);
    if got.Fail? && !got.error.notFound {
      return Fail(got.error);
    }
    if got.Ok? && HasTag(got.value, tag) {
      ListedIsNamed(rows, i, listing, c.View(), c.vms, name, tag);
      return Ok(Some((row.vmid, got.value)));
    }
    NoMatchAnywhere(rows, i, listing, c.View(), before, c.vms, c.shrinking, name, tag);
    return Ok(None);
  }

  /** FindVMByNameAndTag. A match carries the tag now. On the stable part of the cluster the search is
      exact: it misses no match, and what it finds there is one; while outsiders only delete, it misses
      none anywhere. It fails only if a call went wrong. */
  method FindVmByNameAndTag(c: Cluster, name: string, tag: string) returns (r: Result<Option<(int, Vm)>>)
    requires c.Valid()
    modifies c
    ensures c.Valid() && Undisturbed(c, old(c.View()), old(c.ledger))
    ensures r.Ok? && r.value.Some? ==>
              var (id, vm) := r.value.value; id in c.vms && c.vms[id] == vm && HasTag(vm, tag)
    ensures r.Ok? && r.value.Some? && r.value.value.0 in c.View() ==> Named(c.View(), r.value.value.0, name, tag)
    ensures r == Ok(None) ==> forall id :: !Named(c.View(), id, name, tag)
    ensures c.shrinking && r == Ok(None) ==> forall id :: !Named(c.vms, id, name, tag)
    ensures c.Later() && c.faults == old(c.faults) + if r.Ok? then 0 else 1
    ensures if r.Ok? then c.errors == old(c.errors) else ReadFailed(old(c.errors), c.errors)
    ensures old(c.pc) == Looking(0, name) && tag == MACHINE_TAG ==>
              if r.Ok? && r.value.Some? then c.pc == Fetched(r.value.value.0, r.value.value.1, Stopped)
              else c.pc.Stopped? || c.pc.Searching?
  {
    var listed := c.ListVMs();
    if listed.Fail? {
      return Fail(listed.error);
    }
    var rows := listed.value;
    ghost var listing := c.vms;
    ViewIsPart(c.vms, c.me, c.quiet);
    for i := 0 to |rows|
      invariant c.Valid() && Undisturbed(c, old(c.View()), old(c.ledger)) && c.errors == old(c.errors)
      invariant c.Later()
      invariant NoneBefore(rows, i, c.View(), name, tag)
      invariant c.shrinking ==> Within(c.vms, listing) && NoneBefore(rows, i, c.vms, name, tag)
      invariant old(c.pc) == Looking(0, name) && tag == MACHINE_TAG ==> c.pc == Searching(0, Candidates(rows, 0, name))
    {
      var row := rows[i];
      if row.kind != Qemu || row.template || row.name != name {
        NoMatchAnywhere(rows, i, listing, c.View(), c.vms, c.vms, c.shrinking, name, tag);
        continue;
      }
      r := FetchNamed(c, rows, i, listing, name, tag);
      if r != Ok(None) {
        return;
      }
    }
    NoneNamed(rows, listing, c.View(), name, tag);
    if c.shrinking {
      NoneNamed(rows, listing, c.vms, name, tag);
    }
    return Ok(None);
  }

  /** The process is about to look up its VM. */
  predicate AtLookup(pc: Pc, want: int, name: string) {
    pc == Looking(want, name) || (want != 0 && (pc == Ready(want) || (pc.Looking? && pc.want == want)))
  }

  /** The second stage of lookupVM: the VM with this id on whichever node the listing shows. */
  method FindById(c: Cluster, want: int, ghost name: string) returns (r: Result<Option<(int, Vm)>>)
    requires c.Valid() && want != 0
    modifies c
    ensures c.Valid() && Undisturbed(c, old(c.View()), old(c.ledger))
    ensures r.Ok? && r.value.Some? ==>
              var (id, vm) := r.value.value; id == want && id in c.vms && c.vms[id] == vm && vm.kind.Qemu?
    ensures r == Ok(None) ==> !Targets(c.View(), want, want, name)
    ensures c.shrinking && r == Ok(None) ==> !Targets(c.vms, want, want, name)
    ensures c.Later() && c.faults == old(c.faults) + if r.Ok? then 0 else 1
    ensures if r.Ok? then c.errors == old(c.errors) else ReadFailed(old(c.errors), c.errors)
    ensures AtLookup(old(c.pc), want, name) ==>
              if r.Ok? && r.value.Some? then c.pc == Fetched(want, r.value.value.1, Stopped)
              else c.pc.Stopped? || c.pc.Searching?
  {
    var listed := c.ListVMs();
    if listed.Fail? {
      return Fail(listed.error);
    }
    var rows := listed.value;
    for i := 0 to |rows|
      invariant forall j | 0 <= j < i :: !(rows[j].vmid == want && rows[j].kind.Qemu?)
    {
      if rows[i].vmid == want && rows[i].kind == Qemu {
        r := FetchListed(c, want, rows, i, name);
        return;
      }
    }
    assert want in c.vms ==> RowOf(want, c.vms[want]) in rows;
    return Ok(None);
  }

  /** The fetch of a listed VM. "Gone" is wrong exactly if the VM has meanwhile moved to another node. */
  method FetchListed(c: Cluster, want: int, rows: seq<Row>, i: nat, ghost name: string)
      returns (r: Result<Option<(int, Vm)>>)
    requires c.Valid() && want != 0 && Lists(rows, c.vms) && i < |rows| && rows[i].vmid == want && rows[i].kind.Qemu?
    modifies c
    ensures c.Valid() && Undisturbed(c, old(c.View()), old(c.ledger))
    ensures r.Ok? && r.value.Some? ==>
              var (id, vm) := r.value.value; id == want && id in c.vms && c.vms[id] == vm && vm.kind.Qemu?
    ensures r == Ok(None) ==> want !in c.View()
    ensures c.shrinking && r == Ok(None) ==> want !in c.vms
    ensures r == Ok(None) ==> (Targets(c.vms, want, want, name) <==>
                               want in c.vms && c.vms[want].kind.Qemu? && c.vms[want].node != rows[i].node)
    ensures c.Later() && c.faults == old(c.faults) + if r.Ok? then 0 else 1
    ensures if r.Ok? then c.errors == old(c.errors) else ReadFailed(old(c.errors), c.errors)
    ensures old(c.pc) == Searching(want, Candidates(rows, want, name)) ==>
              if r.Ok? && r.value.Some? then c.pc == Fetched(want, r.value.value.1, Stopped) else c.pc.Searching?
  {
    assert want in Candidates(rows, want, name);
    var got := c.GetVM(rows[i].node, want);
    if got.Fail? {
      // Deleted between the listing and this fetch.
      return if got.error.notFound then Ok(None) else Fail(got.error);
    }
    return Ok(Some((want, got.value)));
  }

  /** lookupVM. It refines plain search on the stable part of the cluster, whatever node is stored:
      a non-zero VMID finds exactly the VM with that id wherever it now lives. While outsiders only
      delete, "gone" is true of the whole cluster. (A VM that migrates between the listing and the
      fetch can be reported gone.) */
  method LookupVM(c: Cluster, want: int, node: string, name: string) returns (r: Result<Option<(int, Vm)>>)
    requires c.Valid()
    modifies c
    ensures c.Valid() && Undisturbed(c, old(c.View()), old(c.ledger))
    ensures r.Ok? && r.value.Some? ==> var (id, vm) := r.value.value; id in c.vms && c.vms[id] == vm
    ensures r.Ok? && r.value.Some? && want != 0 ==> r.value.value.0 == want && r.value.value.1.kind.Qemu?
    ensures r.Ok? && r.value.Some? && r.value.value.0 in c.View() ==> Targets(c.View(), r.value.value.0, want, name)
    ensures r == Ok(None) ==> forall id :: !Targets(c.View(), id, want, name)
    ensures c.shrinking && r == Ok(None) ==> forall id :: !Targets(c.vms, id, want, name)
    ensures want == 0 && r.Ok? && r.value.Some? ==> HasTag(r.value.value.1, MACHINE_TAG)
    ensures c.Later() && c.faults == old(c.faults) + if r.Ok? then 0 else 1
    ensures if r.Ok? then c.errors == old(c.errors) else ReadFailed(old(c.errors), c.errors)
    ensures AtLookup(old(c.pc), want, name) ==>
              if r.Ok? && r.value.Some? then c.pc == Fetched(r.value.value.0, r.value.value.1, Stopped)
              else c.pc.Stopped? || c.pc.Searching? || c.pc.Looking?
  {
    if want == 0 {
      r := FindVmByNameAndTag(c, name, MACHINE_TAG);
      return;
    }
    if node != "" {
      var got := c.GetVM(node, want);
      if got.Ok? {
        return Ok(Some((want, got.value)));
      }
      if !got.error.notFound {
        return Fail(got.error);
      }
    }
    r := FindById(c, want, name);
  }

  /** Deletes of VM `id`, and nothing else, went wrong from `from` on and before `to`, and each on a lock or in a
      transient way. */
  ghost predicate DeletesRetried(errors: seq<(Event, Err)>, from: nat, to: nat, id: int) {
    forall k | from <= k < to <= |errors| ::
      errors[k].0 == Did(id, Delete, false) && (errors[k].1.lock || errors[k].1.transient)
  }

  /** The last delete of VM `id` failed, and it was the fifth in a row, or failed otherwise than these; and there
      was one wait fewer than deletes. */
  ghost predicate DeleteGivenUp(errors: seq<(Event, Err)>, from: nat, id: int, waits: int) {
    && |errors| == from + waits + 1 > from
    && var last := errors[|errors| - 1];
    && last.0 == Did(id, Delete, false) && DeletesRetried(errors, from, |errors| - 1, id)
    && (|errors| == from + 5 || (!last.1.lock && !last.1.transient))
  }

  /** What deletes of VM `id` may have changed since the cluster had this view, this ledger and these errors. */
  ghost predicate Deleted(c: Cluster, id: int, view: Vms, ledger: Ledger, errors: seq<(Event, Err)>)
    reads c
  {
    && (c.View() == view || c.View() == view - {id})
    && c.ledger == ledger.(victims := c.ledger.victims) && (id in c.ledger.held ==> OwnVictims(ledger, c.ledger, c.me))
    && errors <= c.errors
  }

  /** One delete, and what it comes to with those before it. */
  method DeleteOnce(c: Cluster, id: int, ghost view: Vms, ghost ledger: Ledger, ghost errors: seq<(Event, Err)>)
      returns (e: Option<Err>)
    requires c.Valid() && Deleted(c, id, view, ledger, errors)
    requires DeletesRetried(c.errors, |errors|, |c.errors|, id)
    modifies c
    ensures c.Valid() && Deleted(c, id, view, ledger, errors) && old(c.trace) <= c.trace && c.waits == old(c.waits)
    ensures e == None ==> c.View() == view - {id}
    ensures |c.errors| == |old(c.errors)| + if e == None then 0 else 1
    ensures DeletesRetried(c.errors, |errors|, |c.errors|, id) || (e.Some? && !RetryableDelete(e.value))
    ensures e.Some? && (|c.errors| == |errors| + 5 || !RetryableDelete(e.value)) ==>
              DeleteGivenUp(c.errors, |errors|, id, |c.errors| - |errors| - 1)
    ensures c.pc == Next(old(c.pc), Did(id, Delete, e == None))
  {
    ghost var before, failed := c.View(), c.errors;
    e := Perform(c, id, Delete);
    assert c.View() == before || c.View() == before - {id};
    assert DeletesRetried(c.errors, |errors|, |failed|, id);
  }

  /** One round of DeleteVM's loop: a delete, and what Retry makes of its outcome. */
  method DeleteRound(c: Cluster, id: int, cancelled: nat -> bool, roll: nat -> nat, runs: seq<Option<Err>>,
                     waits: seq<nat>, delay: nat, ghost view: Vms, ghost ledger: Ledger,
                     ghost errors: seq<(Event, Err)>, ghost slept: seq<nat>)
    returns (e: Option<Err>, decision: Option<Backoff.Verdict<Err>>, started: seq<nat>, longer: nat)
    requires c.Valid() && Deleted(c, id, view, ledger, errors) && c.waits == slept + waits
    requires DeletesRetried(c.errors, |errors|, |c.errors|, id) && |c.errors| == |errors| + |runs|
    requires Backoff.Going(DELETE_ATTEMPTS, Backoff.BACKOFF_BASE, RetryableDelete, cancelled, roll, runs, waits, delay)
    modifies c
    ensures c.Valid() && Deleted(c, id, view, ledger, errors) && old(c.trace) <= c.trace && c.waits == slept + started
    ensures e == None ==> c.View() == view - {id}
    ensures |c.errors| == |old(c.errors)| + if e == None then 0 else 1
    ensures decision == None || e == None ==> DeletesRetried(c.errors, |errors|, |c.errors|, id)
    ensures decision == None ==>
              && e != None
              && Backoff.Going(DELETE_ATTEMPTS, Backoff.BACKOFF_BASE, RetryableDelete, cancelled, roll, runs + [e],
                               started, longer)
    ensures decision.Some? ==>
              && Backoff.Finished(DELETE_ATTEMPTS, Backoff.BACKOFF_BASE, RetryableDelete, cancelled, roll, runs + [e],
                                  started, decision.value)
              && (e == None <==> decision.value.Success?)
              && (e != None ==>
                    DeleteGivenUp(c.errors, |errors|, id, |started|) || exists k: nat | k < 4 :: cancelled(k))
    ensures c.pc == Next(old(c.pc), Did(id, Delete, e == None))
  {
    e := DeleteOnce(c, id, view, ledger, errors);
    decision, started, longer :=
      Backoff.Decide(c, DELETE_ATTEMPTS, Backoff.BACKOFF_BASE, RetryableDelete, cancelled, roll, runs, e, waits, delay,
                     slept);
  }

  /** DeleteVM: the delete is retried on lock contention and transient errors, and on no others. An error does
      not mean that the VM is still there; success means that it is gone. */
  method DeleteVM(c: Cluster, id: int, cancelled: nat -> bool, roll: nat -> nat)
    returns (e: Option<Err>, runs: seq<Option<Err>>, waits: seq<nat>, verdict: Backoff.Verdict<Err>)
    requires c.Valid()
    modifies c
    ensures c.Valid() && c.ledger == old(c.ledger).(victims := c.ledger.victims)
    ensures c.View() == old(c.View()) - {id} || (e != None && c.View() == old(c.View()))
    ensures Backoff.Finished(DELETE_ATTEMPTS, Backoff.BACKOFF_BASE, RetryableDelete, cancelled, roll,
                             runs, waits, verdict)
    ensures e == None <==> verdict.Success?
    ensures c.Since() && c.waits == old(c.waits) + waits && c.faults >= old(c.faults) + if e == None then 0 else 1
    ensures if e == None then DeletesRetried(c.errors, |old(c.errors)|, |c.errors|, id)
            else DeleteGivenUp(c.errors, |old(c.errors)|, id, |waits|) || exists k: nat | k < 4 :: cancelled(k)
    ensures id in c.ledger.held ==> OwnVictims(old(c.ledger), c.ledger, c.me)
    ensures old(c.pc) == Deleting(id, DELETE_ATTEMPTS) ==>
              if e == None then c.pc == Stopped else c.pc.Deleting? && c.pc.id == id
  {
    runs, waits := [], [];
    var delay: nat := Backoff.BACKOFF_BASE;
    for i := 1 to DELETE_ATTEMPTS + 1
      invariant c.Valid() && Deleted(c, id, old(c.View()), old(c.ledger), old(c.errors)) && old(c.trace) <= c.trace
      invariant |runs| == i - 1 && |c.errors| == |old(c.errors)| + i - 1 && c.waits == old(c.waits) + waits
      invariant DeletesRetried(c.errors, |old(c.errors)|, |c.errors|, id)
      invariant Backoff.Going(DELETE_ATTEMPTS, Backoff.BACKOFF_BASE, RetryableDelete, cancelled, roll,
                              runs, waits, delay)
      invariant old(c.pc) == Deleting(id, DELETE_ATTEMPTS) ==> c.pc == Deleting(id, DELETE_ATTEMPTS + 1 - i)
    {
      var decision;
      e, decision, waits, delay :=
        DeleteRound(c, id, cancelled, roll, runs, waits, delay, old(c.View()), old(c.ledger), old(c.errors),
                    old(c.waits));
      runs := runs + [e];
      if decision.Some? {
        verdict := decision.value;
        if verdict.Cancelled? {
          var contextError: Err := *;
          e := Some(contextError);
        }
        return;
      }
    }
    assert false;
  }

  function RetryableDelete(e: Err): bool {
    e.lock || e.transient
  }

  /** What Remove does to the stable part of the cluster. Success: the target, which carried the tag,
      is gone and nothing else has changed, or there was no target. Failure: at most the target was
      affected, and only if it carried the tag. */
  ghost predicate Removed(before: Vms, after: Vms, want: int, name: string, ok: bool) {
    if ok then
      || (after == before && forall id :: !Targets(before, id, want, name))
      || (exists id :: Hit(before, after, id, want, name) && after == before - {id})
    else
      || after == before
      || (exists id :: Hit(before, after, id, want, name))
  }

  /** At most VM `id` was affected, and it was the target and carried the tag. */
  predicate Hit(before: Vms, after: Vms, id: int, want: int, name: string) {
    Targets(before, id, want, name) && HasTag(before[id], MACHINE_TAG) && after - {id} == before - {id}
  }

  /** The VM under a persisted VMID lacks the tag: the one reason to fail that is no call's fault. */
  predicate IsForeign(vms: Vms, want: int) {
    want != 0 && want in vms && vms[want].kind.Qemu? && !HasTag(vms[want], MACHINE_TAG)
  }

  /** What Remove does when no call goes wrong: it succeeds, unless it refuses a VM that lacks the tag. */
  ghost predicate RemovedFaultless(before: Vms, after: Vms, want: int, name: string, ok: bool) {
    Removed(before, after, want, name, ok) && (ok <==> !IsForeign(before, want))
  }

  /** The same when another run's VM, which is no part of `before`, may have been the target instead. */
  ghost predicate RemovedHereOrElsewhere(before: Vms, after: Vms, want: int, name: string, ok: bool) {
    after == before || exists id :: Hit(before, after, id, want, name) && (ok ==> after == before - {id})
  }

  /** The last call that went wrong was a read, or the stop of a VM that would not shut down, or the last of the
      deletes that are worth trying. */
  ghost predicate Stuck(errors: seq<(Event, Err)>, from: nat, waits: int) {
    && |errors| > from
    && var last := errors[|errors| - 1].0;
    || last.Listed? || last.Got? || (last.Did? && last.op == Stop)
    || (last.Did? && exists k: nat | k >= from :: DeleteGivenUp(errors, k, last.id, waits))
  }

  /** The second half of Remove, on the VM that was found: stop it if it runs, then delete it. */
  method StopAndDelete(c: Cluster, id: int, vm: Vm, roll: nat -> nat) returns (e: Option<Err>)
    requires c.Valid()
    modifies c
    ensures c.Valid() && c.ledger == old(c.ledger).(victims := c.ledger.victims)
    ensures c.View() - {id} == old(c.View()) - {id}
    ensures e == None ==> c.View() == old(c.View()) - {id}
    ensures id !in old(c.View()) ==> c.View() == old(c.View())
    ensures id in c.ledger.held ==> OwnVictims(old(c.ledger), c.ledger, c.me)
    ensures c.Since() && c.faults >= old(c.faults) + if e == None then 0 else 1
    ensures Backoff.Jittered(Backoff.BACKOFF_BASE, c.waits[|old(c.waits)|..])
    ensures e != None ==> Stuck(c.errors, |old(c.errors)|, |c.waits| - |old(c.waits)|)
    ensures old(c.pc) == (if vm.running then Halting(id) else Deleting(id, DELETE_ATTEMPTS)) ==>
              c.pc.Stopped? || c.pc.Deleting?
  {
    if vm.running {
      var stopped := Halt(c, id);
      if stopped != None {
        return stopped;
      }
    }
    var runs, waits, verdict;
    e, runs, waits, verdict := DeleteVM(c, id, k => false, roll);
    Backoff.WaitsAreJittered(Backoff.BACKOFF_BASE, roll, waits);
  }

  method Halt(c: Cluster, id: int) returns (e: Option<Err>)
    requires c.Valid()
    modifies c
    ensures c.Valid() && c.ledger == old(c.ledger)
    ensures c.View() - {id} == old(c.View()) - {id}
    ensures id !in old(c.View()) ==> c.View() == old(c.View())
    ensures c.Later() && c.faults >= old(c.faults) + if e == None then 0 else 1
    ensures e != None ==> |c.errors| > |old(c.errors)| && c.errors[|c.errors| - 1].0 == Did(id, Stop, false)
    ensures old(c.pc) == Halting(id) ==> c.pc == if e == None then Deleting(id, DELETE_ATTEMPTS) else Stopped
  {
    ghost var before := c.View();
    e := Perform(c, id, Shutdown);
    PowerEffect(before, id, Shutdown, e.None?, c.View());
    if e != None {
      ghost var middle := c.View();
      e := Perform(c, id, Stop);
      PowerEffect(middle, id, Stop, e.None?, c.View());
    }
  }

  lemma PowerEffect(before: Vms, id: int, op: Op, ok: bool, after: Vms)
    requires Ended(before, id, op, ok, after) && (op == Shutdown || op == Stop)
    ensures after - {id} == before - {id} && (id !in before ==> after == before)
  {
  }

  /** Remove. Exact on the whole cluster when nothing interferes, and with a persisted VMID on the VMs of the
      run that holds the cluster handle. Without a VMID another run's VM of the same name may be taken
      instead, so that this run's own VMs stay as they are. It fails only if the VM under the persisted VMID lacks
      the tag, a read failed, the VM could not be stopped, or five deletes failed, or one with an error that is
      not worth another; a VM that is already gone is success. */
  method Remove(c: Cluster, want: int, node: string, name: string, roll: nat -> nat) returns (e: Option<Err>)
    requires c.Valid()
    modifies c
    ensures c.Valid() && c.ledger == old(c.ledger).(victims := c.ledger.victims)
    ensures c.quiet || want != 0 ==> Removed(old(c.View()), c.View(), want, name, e == None)
    ensures RemovedHereOrElsewhere(old(c.View()), c.View(), want, name, e == None)
    ensures c.Since() && Backoff.Jittered(Backoff.BACKOFF_BASE, c.waits[|old(c.waits)|..])
    ensures e != None ==> c.faults > old(c.faults) || (IsForeign(c.vms, want) && c.View() == old(c.View()))
    ensures e != None ==>
              || Stuck(c.errors, |old(c.errors)|, |c.waits| - |old(c.waits)|)
              || (IsForeign(c.vms, want) && c.View() == old(c.View()))
    ensures c.quiet && c.faults == old(c.faults) ==> RemovedFaultless(old(c.View()), c.View(), want, name, e == None)
    ensures want in c.ledger.held && want != 0 ==> OwnVictims(old(c.ledger), c.ledger, c.me)
    ensures AtLookup(old(c.pc), want, name) ==> c.pc.Stopped? || c.pc.Deleting? || c.pc.Searching? || c.pc.Looking?
  {
    var found := LookupVM(c, want, node, name);
    if found.Fail? {
      return Some(found.error);
    }
    if found.value == None {
      assert IsForeign(c.View(), want) ==> Targets(c.View(), want, want, name);
      return None;
    }
    var (id, vm) := found.value.value;
    if !HasTag(vm, MACHINE_TAG) {
      var refusal: Err := *;
      return Some(refusal);
    }
    ghost var before := c.View();
    e := StopAndDelete(c, id, vm, roll);
    if id in before {
      assert before[id] == vm && Hit(before, c.View(), id, want, name);
    }
  }

  /** The VMs that the orphan search matches. */
  ghost function Matching(vms: Vms, name: string): set<int> {
    set id | id in vms && Named(vms, id, name, MACHINE_TAG)
  }

  /** A successful Remove without a VMID takes away exactly one matching VM, and nothing if there is none. */
  lemma RemoveTakesOne(before: Vms, after: Vms, name: string)
    requires Removed(before, after, 0, name, true)
    ensures if Matching(before, name) == {} then after == before
            else exists id | id in Matching(before, name) ::
                after == before - {id} && Matching(after, name) == Matching(before, name) - {id}
  {
    if after == before && forall id :: !Targets(before, id, 0, name) {
      assert forall id :: Named(before, id, name, MACHINE_TAG) ==> Targets(before, id, 0, name);
    } else {
      var id :| Targets(before, id, 0, name) && after == before - {id};
      assert id in Matching(before, name);
      assert Matching(after, name) == Matching(before, name) - {id};
    }
  }

  /** Removes without a VMID, one after the other, in which no call goes wrong; `oks` are their results. */
  ghost predicate Removes(states: seq<Vms>, oks: seq<bool>, name: string) {
    && |states| == |oks| + 1
    && forall i | 0 <= i < |oks| :: RemovedFaultless(states[i], states[i + 1], 0, name, oks[i])
  }

  lemma RemovesFrom(states: seq<Vms>, oks: seq<bool>, name: string)
    requires Removes(states, oks, name) && oks != []
    ensures Removes(states[1..], oks[1..], name) && oks[0] && Removed(states[0], states[1], 0, name, true)
  {
    assert RemovedFaultless(states[0], states[1], 0, name, oks[0]);
    forall i | 0 <= i < |oks[1..]|
      ensures RemovedFaultless(states[1..][i], states[1..][i + 1], 0, name, oks[1..][i])
    {
      assert RemovedFaultless(states[i + 1], states[i + 2], 0, name, oks[i + 1]);
    }
  }

  /** Convergence. Removes in which no call goes wrong all succeed. Once there have been as many as there were
      matches, exactly the matching VMs are gone and every other VM is as it was, and it stays that way. */
  lemma {:induction false} RemovesConverge(states: seq<Vms>, oks: seq<bool>, name: string, n: nat)
    requires Removes(states, oks, name)
    ensures forall i | 0 <= i < |oks| :: oks[i]
    ensures |Matching(states[0], name)| <= n < |states| ==> states[n] == states[0] - Matching(states[0], name)
    decreases |oks|
  {
    var matching := Matching(states[0], name);
    if oks == [] {
    } else {
      RemovesFrom(states, oks, name);
      RemoveTakesOne(states[0], states[1], name);
      assert oks == [oks[0]] + oks[1..];
      if n == 0 {
        RemovesConverge(states[1..], oks[1..], name, 0);
      } else {
        RemovesConverge(states[1..], oks[1..], name, n - 1);
        if matching != {} {
          var id :| id in matching && states[1] == states[0] - {id} && Matching(states[1], name) == matching - {id};
          assert states[0] - {id} - (matching - {id}) == states[0] - matching;
        }
      }
    }
  }

  /** Idempotence. After a Remove of a persisted VMID has succeeded, another one in which no call goes wrong
      succeeds, too, and changes nothing. */
  lemma RemoveIsIdempotent(first: Vms, second: Vms, third: Vms, want: int, name: string, ok: bool)
    requires want != 0 && Removed(first, second, want, name, true) && RemovedFaultless(second, third, want, name, ok)
    ensures ok && third == second && !(want in second && second[want].kind.Qemu?)
    ensures forall id | id != want :: id in first <==> id in second
  {
    assert Targets(second, want, want, name) ==> Targets(first, want, want, name);
  }

  /** The same whenever the VM is gone, whoever took it. */
  lemma GoneIsSuccess(before: Vms, after: Vms, want: int, name: string, ok: bool)
    requires RemovedFaultless(before, after, want, name, ok) && forall id :: !Targets(before, id, want, name)
    ensures ok && after == before
  {
    assert IsForeign(before, want) ==> Targets(before, want, want, name);
  }

  /** Some VM of another machine is gone. */
  ghost predicate AnotherMachinesVmIsGone(before: Vms, after: Vms, name: string) {
    exists id :: id in before && id !in after && before[id].name != name
  }

  /** Remove with a persisted VMID does not look at the name. It takes away another machine's VM if and only
      if the VMID now belongs to one. */
  lemma TakesAnotherMachinesVm(before: Vms, after: Vms, want: int, name: string)
    requires want != 0 && Removed(before, after, want, name, true)
    ensures AnotherMachinesVmIsGone(before, after, name) <==>
              want in before && before[want].kind.Qemu? && before[want].name != name
  {
    if want in before && before[want].kind.Qemu? && before[want].name != name {
      assert Targets(before, want, want, name);
    }
  }

  /** Without a persisted VMID it never does. */
  lemma TakesOnlyItsOwn(before: Vms, after: Vms, name: string, ok: bool)
    requires Removed(before, after, 0, name, ok)
    ensures !AnotherMachinesVmIsGone(before, after, name)
  {
    if id :| Hit(before, after, id, 0, name) {
      assert forall i | i in before && i != id :: i in before - {id};
    }
  }

  /** The tag guard: a persisted VMID that now belongs to a VM without the tag is refused, and the
      cluster stays as it was. */
  lemma UntaggedIsRefused(before: Vms, after: Vms, want: int, name: string, ok: bool)
    requires want != 0 && Targets(before, want, want, name) && !HasTag(before[want], MACHINE_TAG)
    requires Removed(before, after, want, name, ok)
    ensures !ok && after == before
  {
  }
}
