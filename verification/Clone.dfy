/** pkg/pve/clone.go: cloning the template under a random VMID, and cleaning up after every failure. */
module Clone {
  import opened Text
  import opened Protocol
  import opened Pve
  import Backoff
  import TraceOrder
  import Vmid

  datatype CloneSpec = CloneSpec(name: string, targetNode: string, lo: int, hi: int, tags: seq<string>)

  /** The retried errors of CloneFromTemplate. */
  function Retryable(e: Err): bool {
    e.conflict || e.lock || e.transient
  }

  /** The calls by which an attempt to clone can fail; the rest is cleaning up. */
  predicate InAttempt(ev: Event) {
    ev.Listed? || ev.ClonePost? || (ev.Did? && ev.op == CloneTask)
  }

  /** Nothing but cleaning up, and what follows the attempts, has gone wrong since. */
  ghost predicate NoAttemptFailed(before: seq<(Event, Err)>, after: seq<(Event, Err)>) {
    forall k | |before| <= k < |after| :: !InAttempt(after[k].0)
  }

  /** One attempt has failed, with this error; what came after was cleaning up. */
  ghost predicate FailedBy(before: seq<(Event, Err)>, after: seq<(Event, Err)>, e: Err) {
    && |before| < |after| && InAttempt(after[|before|].0) && after[|before|].1 == e
    && forall k | |before| < k < |after| :: !InAttempt(after[k].0)
  }

  /** The errors of attempts from `from` on and before `to` are such that another attempt may mend them. */
  ghost predicate Mendable(errors: seq<(Event, Err)>, from: nat, to: nat) {
    forall k | from <= k < to <= |errors| && InAttempt(errors[k].0) ::
      errors[k].1.conflict || errors[k].1.lock || errors[k].1.transient
  }

  /** An attempt failed with another kind of error, and it was the only such and the last attempt. */
  ghost predicate ForGood(errors: seq<(Event, Err)>, from: nat) {
    exists k | from <= k < |errors| :: ForGoodAt(errors, from, k)
  }

  ghost predicate ForGoodAt(errors: seq<(Event, Err)>, from: nat, k: nat) {
    && from <= k < |errors| && InAttempt(errors[k].0)
    && !errors[k].1.conflict && !errors[k].1.lock && !errors[k].1.transient
    && Mendable(errors, from, k) && forall j | k < j < |errors| :: !InAttempt(errors[j].0)
  }

  /** Why a clone is given up although there are VMIDs: all ten attempts are used up, each with a listing of its
      own and with a wait between any two; or an attempt failed for good; or the VM was cloned, and could not be
      read or tagged then. */
  ghost predicate RightlyGivenUp(trace: seq<Event>, errors: seq<(Event, Err)>, from: nat, waits: int) {
    || (TraceOrder.Listings(trace) == 10 && waits == 9)
    || ForGood(errors, from)
    || exists id :: TraceOrder.CutShort(trace, id)
  }

  /** The context ended one of the nine waits. */
  ghost predicate AnyCancelled(cancelled: nat -> bool) {
    exists k: nat | k < 9 :: cancelled(k)
  }

  /** `after` is `before` with nothing changed or lost, and with new VMs only among `extra`. */
  ghost predicate Keeps(before: Vms, after: Vms, extra: set<int>) {
    && (forall id | id in before :: id in after && after[id] == before[id])
    && (forall id | id in after :: id in before || id in extra)
  }

  /** The process is about to list the VMs and draw, with `left` attempts to go. */
  predicate AtDraw(pc: Pc, left: nat) {
    pc == Drawing(left) || (pc.Posting? && pc.left == left + 1)
  }

  /** Without a node asked for, a clone goes where the template is. */
  function TargetNode(tmpl: Vm, wanted: string): string {
    if wanted == "" then tmpl.node else wanted
  }

  /** There is no VMID left to draw. */
  ghost predicate RangeFull(vms: Vms, lo: int, hi: int) {
    forall id | lo <= id <= hi :: id in vms
  }

  lemma UsedAreThere(rows: seq<Row>, vms: Vms, lo: int, hi: int)
    requires Lists(rows, vms) && forall id | lo <= id <= hi :: Vmid.Uses(rows, id)
    ensures RangeFull(vms, lo, hi)
  {
    forall id | lo <= id <= hi
      ensures id in vms
    {
      assert Vmid.Uses(rows, id);
    }
  }

  /** bestEffortDelete: its errors go nowhere, so a clean-up that failed is only remembered in the
      ledger. The VM is then possibly still there; otherwise it is gone. */
  method BestEffortDelete(c: Cluster, node: string, vmid: int)
    requires c.Valid()
    modifies c
    ensures c.Valid() && c.ledger.held == old(c.ledger.held) && c.ledger.lost == old(c.ledger.lost)
    ensures c.ledger.nics == old(c.ledger.nics) && c.Later() && NoAttemptFailed(old(c.errors), c.errors)
    ensures Blameless(old(c.ledger), old(c.faults), c.ledger, c.faults)
    ensures vmid == 0 ==> c.View() == old(c.View()) && c.ledger == old(c.ledger) && c.pc == old(c.pc)
    ensures c.View() == old(c.View()) || c.View() == old(c.View()) - {vmid}
    ensures old(c.ledger.uncleaned) <= c.ledger.uncleaned <= old(c.ledger.uncleaned) + {vmid}
    ensures vmid != 0 && (vmid in old(c.View()) ==> Has(old(c.View()), node, vmid)) ==>
              vmid !in c.View() || vmid in c.ledger.uncleaned
    ensures forall left | vmid != 0 && old(c.pc) == Scrapping(vmid, left) :: c.pc == Drawing(left)
    ensures vmid in c.ledger.held ==> Extends(old(c.ledger), c.ledger, c.me)
  {
    if vmid == 0 {
      return;
    }
    var got := c.GetVM(node, vmid);
    if got.Fail? {
      if !got.error.notFound {
        c.ledger := c.ledger.(uncleaned := c.ledger.uncleaned + {vmid});
      }
      return;
    }
    var e := Perform(c, vmid, Delete);
    if e != None {
      c.ledger := c.ledger.(uncleaned := c.ledger.uncleaned + {vmid});
    }
  }

  /** The clone call of an attempt. When it is accepted, it has reserved the drawn VMID. */
  method PostAs(c: Cluster, tmpl: Vm, spec: CloneSpec, id: int, ghost left: nat, ghost taken: set<int>)
    returns (r: Result<Task?>)
    requires c.Valid()
    modifies c
    ensures c.Valid() && Extends(old(c.ledger), c.ledger, c.me) && c.Later()
    ensures r.Ok? && r.value != null ==>
              fresh(r.value) && r.value.id == id && r.value.op == CloneTask && !r.value.stopped
    ensures r.Ok? ==> id >= 100 && id in c.ledger.held && c.ledger.Excused() == old(c.ledger.Excused())
    ensures r.Ok? ==> HasGained(old(c.View()), c.View(), id, tmpl, spec.name, TargetNode(tmpl, spec.targetNode), c.me)
    ensures r.Fail? ==> Keeps(old(c.View()), c.View(), c.ledger.Excused())
    ensures if r.Ok? then c.errors == old(c.errors) else FailedBy(old(c.errors), c.errors, r.error)
    ensures old(c.pc) == Posting(left, taken) && id !in taken && left > 0 ==>
              c.pc == if r.Fail? then Drawing(left - 1)
                      else if r.value == null then Reading(id) else Cloning(id, left - 1)
  {
    r := c.PostClone(tmpl, id, spec.name, TargetNode(tmpl, spec.targetNode));
  }

  /** The second half of an attempt: post the clone under a drawn VMID and wait for its task, whose
      failure may leave a partial VM to delete. */
  method CloneAs(c: Cluster, tmpl: Vm, spec: CloneSpec, id: int, ghost left: nat, ghost taken: set<int>)
    returns (r: Result<int>)
    requires c.Valid()
    modifies c
    ensures c.Valid() && Extends(old(c.ledger), c.ledger, c.me)
    ensures r.Ok? ==> r.value == id && id >= 100 && id in c.ledger.held
    ensures r.Ok? ==> HasGained(old(c.View()), c.View(), id, tmpl, spec.name, TargetNode(tmpl, spec.targetNode), c.me)
    ensures r.Fail? ==> Keeps(old(c.View()), c.View(), c.ledger.Excused())
    ensures Blameless(old(c.ledger), old(c.faults), c.ledger, c.faults)
    ensures c.Later()
    ensures if r.Ok? then c.errors == old(c.errors) else FailedBy(old(c.errors), c.errors, r.error)
    ensures old(c.pc) == Posting(left, taken) && id !in taken && left > 0 ==>
              c.pc == if r.Ok? then Reading(id) else Drawing(left - 1)
  {
    var posted := PostAs(c, tmpl, spec, id, left, taken);
    if posted.Fail? {
      return Fail(posted.error);
    }
    var e := AwaitClone(c, TargetNode(tmpl, spec.targetNode), id, posted.value, if left > 0 then left - 1 else 0);
    return if e == None then Ok(id) else Fail(e.value);
  }

  /** Wait until an accepted clone has ended, and delete the partial VM that a failure may leave. */
  method AwaitClone(c: Cluster, node: string, id: int, task: Task?, ghost left: nat) returns (e: Option<Err>)
    requires c.Valid() && id in c.ledger.held && id != 0 && Has(c.View(), node, id)
    requires task != null ==> task.id == id && task.op == CloneTask && !task.stopped
    modifies c, task
    ensures c.Valid() && Extends(old(c.ledger), c.ledger, c.me) && c.ledger.held == old(c.ledger.held)
    ensures e == None ==> c.View() == old(c.View())
    ensures e != None ==> c.View() == old(c.View()) - {id} || (c.View() == old(c.View()) && id in c.ledger.uncleaned)
    ensures task == null ==> e == None && c.Idle()
    ensures Blameless(old(c.ledger), old(c.faults), c.ledger, c.faults)
    ensures c.Later()
    ensures if e == None then c.errors == old(c.errors) else FailedBy(old(c.errors), c.errors, e.value)
    ensures task != null && old(c.pc) == Cloning(id, left) ==>
              c.pc == if e == None then Reading(id) else Drawing(left)
  {
    ghost var reserved := c.View();
    e := WaitTask(c, task);
    if e != None {
      assert c.View() == reserved || c.View() == reserved - {id};
      BestEffortDelete(c, node, id);
    }
  }

  /** The operation that CloneFromTemplate retries. A success leaves exactly one new VM behind; a
      failure leaves none, unless the response was lost or the clean-up failed. */
  method CloneAttempt(c: Cluster, tmpl: Vm, spec: CloneSpec, draws: nat -> nat, from: nat, ghost left: nat)
    returns (r: Result<int>, next: nat)
    requires c.Valid() && Vmid.Fair(draws)
    modifies c
    ensures c.Valid() && Extends(old(c.ledger), c.ledger, c.me)
    ensures r.Ok? ==> spec.lo <= r.value <= spec.hi && r.value >= 100 && r.value in c.ledger.held
    ensures r.Ok? ==>
              HasGained(old(c.View()), c.View(), r.value, tmpl, spec.name, TargetNode(tmpl, spec.targetNode), c.me)
    ensures r.Fail? ==> Keeps(old(c.View()), c.View(), c.ledger.Excused())
    ensures AtDraw(old(c.pc), left) && left > 0 ==> if r.Ok? then c.pc == Reading(r.value) else AtDraw(c.pc, left - 1)
    ensures Blameless(old(c.ledger), old(c.faults), c.ledger, c.faults) && c.Later()
    ensures if r.Ok? then c.errors == old(c.errors)
            else FailedBy(old(c.errors), c.errors, r.error)
                 || (RangeFull(c.vms, spec.lo, spec.hi) && c.errors == old(c.errors))
  {
    next := from;
    var listed := c.ListVMs();
    if listed.Fail? {
      return Fail(listed.error), next;
    }
    var drawn: Option<int>;
    drawn, next := Vmid.RandomFreeVmid(listed.value, spec.lo, spec.hi, draws, from);
    if drawn == None {
      UsedAreThere(listed.value, c.vms, spec.lo, spec.hi);
      var exhausted: Err := *;
      return Fail(exhausted), next;
    }
    assert drawn.value in Ids(listed.value) ==> Vmid.Uses(listed.value, drawn.value);
    r := CloneAs(c, tmpl, spec, drawn.value, left, Ids(listed.value));
  }

  /** The cluster has gained the clone, whose VMID this run holds, and apart from it only excused VMs. */
  ghost predicate HasCloned(before: Vms, after: Vms, ledger: Ledger, id: int, tmpl: Vm, spec: CloneSpec, me: nat) {
    && spec.lo <= id <= spec.hi && id >= 100 && id !in before && id in after && id in ledger.held
    && IsCopy(after[id], tmpl, spec.name, TargetNode(tmpl, spec.targetNode), me)
    && Keeps(before, after - {id}, ledger.Excused())
  }

  /** What attempts may have changed since the cluster had this ledger and these errors. */
  ghost predicate DoneSince(c: Cluster, ledger: Ledger, errors: seq<(Event, Err)>)
    reads c
  {
    Extends(ledger, c.ledger, c.me) && Blameless(ledger, |errors|, c.ledger, c.faults) && errors <= c.errors
  }

  /** One more attempt, and what all of them have come to since the first one. */
  method NextAttempt(c: Cluster, tmpl: Vm, spec: CloneSpec, draws: nat -> nat, start: nat, ghost left: nat,
                     ghost first: Vms, ghost ledger: Ledger, ghost errors: seq<(Event, Err)>)
    returns (r: Result<int>, next: nat)
    requires c.Valid() && Vmid.Fair(draws) && DoneSince(c, ledger, errors)
    requires Keeps(first, c.View(), c.ledger.Excused()) && Mendable(c.errors, |errors|, |c.errors|)
    modifies c
    ensures c.Valid() && DoneSince(c, ledger, errors) && old(c.trace) <= c.trace && c.waits == old(c.waits)
    ensures r.Ok? ==> HasCloned(first, c.View(), c.ledger, r.value, tmpl, spec, c.me)
    ensures r.Fail? ==> Keeps(first, c.View(), c.ledger.Excused())
    ensures AtDraw(old(c.pc), left) && left > 0 ==> if r.Ok? then c.pc == Reading(r.value) else AtDraw(c.pc, left - 1)
    ensures r.Fail? ==> |c.errors| > |errors| || RangeFull(c.vms, spec.lo, spec.hi)
    ensures Mendable(c.errors, |errors|, |c.errors|) || (r.Fail? && !Retryable(r.error) && ForGood(c.errors, |errors|))
    ensures r.Fail? && !Retryable(r.error) ==> ForGood(c.errors, |errors|) || RangeFull(c.vms, spec.lo, spec.hi)
  {
    ghost var view, before := c.View(), c.errors;
    r, next := CloneAttempt(c, tmpl, spec, draws, start, left);
    if r.Ok? {
      assert c.View() - {r.value} == view;
    } else {
      AfterFailure(before, c.errors, |errors|, r.error);
    }
  }

  lemma AfterFailure(before: seq<(Event, Err)>, after: seq<(Event, Err)>, from: nat, e: Err)
    requires from <= |before| && before <= after && Mendable(before, from, |before|)
    ensures FailedBy(before, after, e) ==>
              if e.conflict || e.lock || e.transient then Mendable(after, from, |after|) else ForGood(after, from)
  {
    assert Mendable(after, from, |before|);
    if FailedBy(before, after, e) && !(e.conflict || e.lock || e.transient) {
      assert ForGoodAt(after, from, |before|);
    }
  }

  /** One round of that loop: an attempt, and what Retry makes of its outcome. */
  method RetryOnce(c: Cluster, tmpl: Vm, spec: CloneSpec, cancelled: nat -> bool, draws: nat -> nat, roll: nat -> nat,
                   start: nat, runs: seq<Option<Err>>, waits: seq<nat>, delay: nat,
                   ghost first: Vms, ghost ledger: Ledger, ghost errors: seq<(Event, Err)>, ghost slept: seq<nat>)
    returns (r: Result<int>, next: nat, e: Option<Err>, decision: Option<Backoff.Verdict<Err>>, started: seq<nat>,
             longer: nat)
    requires c.Valid() && Vmid.Fair(draws) && DoneSince(c, ledger, errors) && c.waits == slept + waits
    requires Keeps(first, c.View(), c.ledger.Excused()) && Mendable(c.errors, |errors|, |c.errors|)
    requires Backoff.Going(CLONE_ATTEMPTS, Backoff.BACKOFF_BASE, Retryable, cancelled, roll, runs, waits, delay)
    modifies c
    ensures c.Valid() && DoneSince(c, ledger, errors) && old(c.trace) <= c.trace && c.waits == slept + started
    ensures decision == None ==>
              && r.Fail? && Mendable(c.errors, |errors|, |c.errors|)
              && Backoff.Going(CLONE_ATTEMPTS, Backoff.BACKOFF_BASE, Retryable, cancelled, roll, runs + [e], started,
                               longer)
    ensures decision.Some? ==>
              && Backoff.Finished(CLONE_ATTEMPTS, Backoff.BACKOFF_BASE, Retryable, cancelled, roll, runs + [e], started,
                                  decision.value)
              && (r.Ok? <==> decision.value.Success?)
              && (r.Fail? && !decision.value.Cancelled? ==> Some(r.error) == e)
    ensures if r.Ok? then HasCloned(first, c.View(), c.ledger, r.value, tmpl, spec, c.me)
            else Keeps(first, c.View(), c.ledger.Excused())
    ensures AtDraw(old(c.pc), CLONE_ATTEMPTS - |runs|) ==>
              if r.Ok? then c.pc == Reading(r.value) else AtDraw(c.pc, CLONE_ATTEMPTS - |runs| - 1)
    ensures r.Fail? ==> |c.errors| > |errors| || RangeFull(c.vms, spec.lo, spec.hi)
    ensures Mendable(c.errors, |errors|, |c.errors|) || (r.Fail? && ForGood(c.errors, |errors|))
    ensures decision.Some? && r.Fail? ==>
              || RangeFull(c.vms, spec.lo, spec.hi) || AnyCancelled(cancelled) || ForGood(c.errors, |errors|)
              || |runs| + 1 == CLONE_ATTEMPTS == |started| + 1
  {
    r, next := NextAttempt(c, tmpl, spec, draws, start, CLONE_ATTEMPTS - |runs|, first, ledger, errors);
    e := if r.Ok? then None else Some(r.error);
    decision, started, longer :=
      Backoff.Decide(c, CLONE_ATTEMPTS, Backoff.BACKOFF_BASE, Retryable, cancelled, roll, runs, e, waits, delay, slept);
    if decision == Some(Backoff.Cancelled) {
      var contextError: Err := *;
      r := Fail(contextError);
    }
  }

  /** The call of Retry in CloneFromTemplate, with the attempt above as the retried operation. The
      outcomes of the attempts, in order, and the waits between them are also returned. */
  method CloneWithRetry(c: Cluster, tmpl: Vm, spec: CloneSpec, cancelled: nat -> bool, draws: nat -> nat,
                        roll: nat -> nat)
    returns (r: Result<int>, runs: seq<Option<Err>>, waits: seq<nat>, verdict: Backoff.Verdict<Err>)
    requires c.Valid() && Vmid.Fair(draws)
    modifies c
    ensures c.Valid() && DoneSince(c, old(c.ledger), old(c.errors)) && old(c.trace) <= c.trace
    ensures Backoff.Finished(CLONE_ATTEMPTS, Backoff.BACKOFF_BASE, Retryable, cancelled, roll, runs, waits, verdict)
    ensures r.Ok? <==> verdict.Success?
    ensures r.Fail? && !verdict.Cancelled? ==> Some(r.error) == runs[|runs| - 1]
    ensures if r.Ok? then HasCloned(old(c.View()), c.View(), c.ledger, r.value, tmpl, spec, c.me)
            else Keeps(old(c.View()), c.View(), c.ledger.Excused())
    ensures old(c.pc) == Drawing(CLONE_ATTEMPTS) ==>
              if r.Ok? then c.pc == Reading(r.value) else c.pc.Drawing? || c.pc.Posting?
    ensures c.waits == old(c.waits) + waits
    ensures r.Fail? ==> |c.errors| > |old(c.errors)| || RangeFull(c.vms, spec.lo, spec.hi)
    ensures Mendable(c.errors, |old(c.errors)|, |c.errors|) || (r.Fail? && ForGood(c.errors, |old(c.errors)|))
    ensures r.Fail? ==>
              || RangeFull(c.vms, spec.lo, spec.hi) || AnyCancelled(cancelled) || ForGood(c.errors, |old(c.errors)|)
              || (|waits| == 9 && (old(c.pc) == Drawing(CLONE_ATTEMPTS) ==> AtDraw(c.pc, 0)))
  {
    runs, waits := [], [];
    var next := 0;
    var delay: nat := Backoff.BACKOFF_BASE;
    for i := 1 to CLONE_ATTEMPTS + 1
      invariant c.Valid() && DoneSince(c, old(c.ledger), old(c.errors)) && old(c.trace) <= c.trace
      invariant |runs| == i - 1 && c.waits == old(c.waits) + waits
      invariant Backoff.Going(CLONE_ATTEMPTS, Backoff.BACKOFF_BASE, Retryable, cancelled, roll, runs, waits, delay)
      invariant Keeps(old(c.View()), c.View(), c.ledger.Excused())
      invariant Mendable(c.errors, |old(c.errors)|, |c.errors|)
      invariant old(c.pc) == Drawing(CLONE_ATTEMPTS) ==> AtDraw(c.pc, CLONE_ATTEMPTS + 1 - i)
    {
      var e, decision;
      r, next, e, decision, waits, delay :=
        RetryOnce(c, tmpl, spec, cancelled, draws, roll, next, runs, waits, delay, old(c.View()), old(c.ledger),
                  old(c.errors), old(c.waits));
      runs := runs + [e];
      if decision.Some? {
        verdict := decision.value;
        return;
      }
    }
    assert false;
  }

  function Stamp(tags: seq<string>): Op {
    Config([(Tags, Join(tags, ';'))])
  }

  function Stamped(vm: Vm, tags: seq<string>): Vm {
    vm.(config := vm.config[Tags := Join(tags, ';')])
  }

  lemma StampEffect(before: Vms, id: int, tags: seq<string>, ok: bool, after: Vms)
    requires id in before && Ended(before, id, Stamp(tags), ok, after)
    ensures after == before[id := Stamped(before[id], tags)] || (!ok && after == before)
    ensures after - {id} == before - {id}
  {
    assert Configured(before[id].config, Stamp(tags).options, before[id].nic.mac) ==
        before[id].config[Tags := Join(tags, ';')];
  }

  lemma StampIsTagging(tags: seq<string>)
    requires MACHINE_TAG in tags
    ensures IsTagging(Stamp(tags))
  {
    SplitJoinKeeps(tags, ';', MACHINE_TAG);
  }

  lemma StampNext(id: int, tags: seq<string>, ok: bool)
    requires MACHINE_TAG in tags
    ensures Next(Tagging(id), Did(id, Stamp(tags), ok)) == if ok then Configuring(id) else Scrapping(id, 0)
  {
    StampIsTagging(tags);
  }

  /** The tagging step of CloneFromTemplate: a fresh clone ends up tagged, or is cleaned up. */
  method StampTags(c: Cluster, vmid: int, vm: Vm, node: string, tags: seq<string>) returns (e: Option<Err>)
    requires c.Valid() && vmid in c.ledger.held && vmid != 0 && vmid in c.View() && c.View()[vmid] == vm
    requires vm.node == node && vm.kind.Qemu?
    modifies c
    ensures c.Valid() && Extends(old(c.ledger), c.ledger, c.me) && c.ledger.held == old(c.ledger.held)
    ensures c.View() - {vmid} == old(c.View()) - {vmid}
    ensures e == None ==> vmid in c.View() && c.View()[vmid] == Stamped(vm, tags)
    ensures e != None ==> vmid !in c.View() || vmid in c.ledger.uncleaned
    ensures Blameless(old(c.ledger), old(c.faults), c.ledger, c.faults) && c.Later()
    ensures NoAttemptFailed(old(c.errors), c.errors) && (e != None ==> c.faults > old(c.faults))
    ensures old(c.pc) == Tagging(vmid) && MACHINE_TAG in tags ==>
              c.pc == if e == None then Configuring(vmid) else Drawing(0)
  {
    ghost var before := c.View();
    e := Perform(c, vmid, Stamp(tags));
    StampEffect(before, vmid, tags, e.None?, c.View());
    if MACHINE_TAG in tags {
      StampNext(vmid, tags, e.None?);
    }
    if e != None {
      BestEffortDelete(c, node, vmid);
    }
  }

  /** The second half of CloneFromTemplate: a fresh clone is read and stamped, or cleaned up. */
  method ReadAndStamp(c: Cluster, vmid: int, node: string, tags: seq<string>) returns (r: Result<Vm>)
    requires c.Valid() && vmid in c.ledger.held && vmid != 0 && vmid in c.View()
    requires c.View()[vmid].node == node && c.View()[vmid].kind.Qemu?
    modifies c
    ensures c.Valid() && Extends(old(c.ledger), c.ledger, c.me) && c.ledger.held == old(c.ledger.held)
    ensures c.View() - {vmid} == old(c.View()) - {vmid}
    ensures r.Ok? ==> r.value == old(c.View()[vmid]) && vmid in c.View()
    ensures r.Ok? ==> c.View()[vmid] == if tags == [] then r.value else Stamped(r.value, tags)
    ensures r.Fail? ==> vmid !in c.View() || vmid in c.ledger.uncleaned
    ensures Blameless(old(c.ledger), old(c.faults), c.ledger, c.faults) && c.Later()
    ensures NoAttemptFailed(old(c.errors), c.errors) && (r.Fail? ==> c.faults > old(c.faults))
    ensures old(c.pc) == Reading(vmid) && MACHINE_TAG in tags ==>
              c.pc == if r.Ok? then Configuring(vmid) else Drawing(0)
  {
    r := c.GetVM(node, vmid);
    assert vmid in c.View();
    if r.Fail? {
      BestEffortDelete(c, node, vmid);
    } else if |tags| > 0 {
      var e := StampTags(c, vmid, r.value, node, tags);
      if e != None {
        r := Fail(e.value);
      }
    }
  }

  /** CloneFromTemplate. Whatever outsiders do, a success hands over a VM that this run's own
      accepted clone reserved, in range and with the tags; every other VM it made is accounted for by
      a lost response or a failed clean-up; and it deletes no VM that it did not make. It fails only if
      a call went wrong or the range is full, and in a run of its own with VMIDs left and no wait cancelled
      only after ten attempts, an error that no attempt would mend, or a clone that was made but not tagged. */
  method CloneFromTemplate(c: Cluster, tmpl: Vm, spec: CloneSpec, cancelled: nat -> bool, draws: nat -> nat,
                        roll: nat -> nat)
    returns (r: Result<(int, Vm)>)
    requires c.Valid() && Vmid.Fair(draws)
    modifies c
    ensures c.Valid() && Extends(old(c.ledger), c.ledger, c.me)
    ensures r.Fail? ==> Keeps(old(c.View()), c.View(), c.ledger.Excused())
    ensures r.Ok? ==>
              var (id, vm) := r.value;
              && spec.lo <= id <= spec.hi && id >= 100 && id !in old(c.View()) && id in c.View() && id in c.ledger.held
              && IsCopy(vm, tmpl, spec.name, TargetNode(tmpl, spec.targetNode), c.me)
              && c.View()[id] == (if spec.tags == [] then vm else Stamped(vm, spec.tags))
              && Keeps(old(c.View()), c.View() - {id}, c.ledger.Excused())
    ensures Blameless(old(c.ledger), old(c.faults), c.ledger, c.faults)
    ensures c.Since() && Backoff.Jittered(Backoff.BACKOFF_BASE, c.waits[|old(c.waits)|..])
    ensures r.Fail? ==> c.faults > old(c.faults) || RangeFull(c.vms, spec.lo, spec.hi)
    ensures Mendable(c.errors, |old(c.errors)|, |c.errors|) || (r.Fail? && ForGood(c.errors, |old(c.errors)|))
    ensures c.start == old(c.pc) == Drawing(CLONE_ATTEMPTS) && MACHINE_TAG in spec.tags && r.Fail? ==>
              || RangeFull(c.vms, spec.lo, spec.hi) || AnyCancelled(cancelled)
              || RightlyGivenUp(c.trace, c.errors, |old(c.errors)|, |c.waits| - |old(c.waits)|)
    ensures old(c.pc) == Drawing(CLONE_ATTEMPTS) && MACHINE_TAG in spec.tags ==>
              if r.Ok? then c.pc == Configuring(r.value.0) else c.pc.Drawing? || c.pc.Posting?
  {
    var cloned, runs, waits, verdict := CloneWithRetry(c, tmpl, spec, cancelled, draws, roll);
    Backoff.WaitsAreJittered(Backoff.BACKOFF_BASE, roll, waits);
    if cloned.Fail? {
      if c.start == Drawing(CLONE_ATTEMPTS) && AtDraw(c.pc, 0) {
        TraceOrder.NoAttemptLeft(c.trace);
      }
      return Fail(cloned.error);
    }
    var node := TargetNode(tmpl, spec.targetNode);
    var vmid := cloned.value;
    ghost var trace, pc := c.trace, c.pc;
    var got := ReadAndStamp(c, vmid, node, spec.tags);
    if got.Fail? {
      if c.start == Drawing(CLONE_ATTEMPTS) && pc == Reading(vmid) && c.pc == Drawing(0) {
        TraceOrder.CutShortAfterReading(trace, c.trace, vmid);
      }
      return Fail(got.error);
    }
    return Ok((vmid, got.value));
  }

  /** A VM stamped with a list of tags carries each of them that has no semicolon, whatever the
      others contain; the ownership tag in particular. */
  lemma StampedHasTag(vm: Vm, tags: seq<string>, tag: string)
    requires tag in tags && ';' !in tag
    ensures HasTag(Stamped(vm, tags), tag)
  {
    SplitJoinKeeps(tags, ';', tag);
  }
}
