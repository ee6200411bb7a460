/** The PVE cluster as the driver sees it through its API client: an object whose state outsiders
    change between any two calls, and whose calls fail whenever they like. */
module Pve {
  import opened Text
  import opened Protocol

  /** An error, reduced to what pkg/pve/errors.go can tell about it. Nothing relates the four answers. */
  datatype Err = Err(conflict: bool, lock: bool, transient: bool, notFound: bool)

  datatype Result<+T> = Ok(value: T) | Fail(error: Err)

  /** An asynchronous PVE task. go-proxmox's Wait leaves its verdict in `isFailed` and what it says about
      the failure in `exitStatus`. */
  class Task {
    const id: int
    const op: Op
    var stopped: bool
    var isFailed: bool
    var exitStatus: Err

    constructor (id: int, op: Op)
      ensures this.id == id && this.op == op && !stopped
    {
      this.id, this.op := id, op;
      stopped, isFailed, exitStatus := false, false, Err(false, false, false, false);
    }
  }

  /** The part of the cluster that outsiders leave alone: all of it when nothing interferes, and
      otherwise the VMs that run `me` made. */
  function Stable(vms: Vms, me: nat, quiet: bool): Vms {
    if quiet then vms else map id | id in vms && vms[id].maker == me :: vms[id]
  }

  lemma StableEnded(before: Vms, id: int, op: Op, ok: bool, after: Vms, me: nat, quiet: bool)
    requires Ended(before, id, op, ok, after)
    ensures Ended(Stable(before, me, quiet), id, op, ok, Stable(after, me, quiet))
  {
    assert Stable(Applied(before, id, op), me, quiet) == Applied(Stable(before, me, quiet), id, op);
    assert Stable(before - {id}, me, quiet) == Stable(before, me, quiet) - {id};
  }

  /** No operation creates a VM, or changes who made it or what PVE chose for it. */
  lemma EndedKeepsMakers(before: Vms, id: int, op: Op, ok: bool, after: Vms)
    requires Ended(before, id, op, ok, after)
    ensures forall i | i in after :: i in before && after[i].maker == before[i].maker && after[i].nic == before[i].nic
  {
    assert after == before || after == Applied(before, id, op) || after == before - {id};
  }

  function Outcome(vms: Vms, id: int, op: Op, ok: bool): (after: Vms)
    ensures Ended(vms, id, op, ok, after)
  {
    if ok then Applied(vms, id, op) else vms
  }

  lemma StablePlus(vms: Vms, id: int, vm: Vm, me: nat, quiet: bool)
    requires vm.maker == me
    ensures Stable(vms[id := vm], me, quiet) == Stable(vms, me, quiet)[id := vm]
  {
  }

  lemma RelyKeepsOwn(me: nat, quiet: bool, shrinking: bool, held: set<int>, before: Vms, after: Vms)
    requires Rely(me, quiet, shrinking, held, before, after)
    ensures forall id | id in before && before[id].maker == me :: id in after && after[id] == before[id]
  {
    forall id | id in before && before[id].maker == me
      ensures id in after && after[id] == before[id]
    {
      assert id in Stable(before, me, quiet);
    }
  }

  /** What a driver run has to answer for. `held`: VMIDs that its accepted clone calls reserved, which
      outsiders do not allocate. `lost`: VMIDs whose clone was carried out although the call returned
      an error. `uncleaned`: VMIDs for which a clean-up call failed. `victims`: the VMs on which its
      deletes were, or may have been, carried out. `nics`: what PVE chose for the network device of the
      last VM that was cloned under a VMID. The driver cannot read any of it. */
  datatype Ledger = Ledger(held: set<int>, lost: set<int>, uncleaned: set<int>, victims: set<Vm>, nics: map<int, Nic>) {
    function Excused(): set<int> {
      lost + uncleaned
    }
  }

  /** The ledger after more calls that deleted nothing but VMs that run `me` made. */
  ghost predicate Extends(before: Ledger, after: Ledger, me: nat) {
    && before.held <= after.held && before.lost <= after.lost && before.uncleaned <= after.uncleaned
    && OwnVictims(before, after, me)
  }

  ghost predicate OwnVictims(before: Ledger, after: Ledger, me: nat) {
    before.victims <= after.victims && forall vm | vm in after.victims - before.victims :: vm.maker == me
  }

  /** The ledger after an operation on VM `id`: only deletes have victims, and on a held VMID only a
      VM that run `me` made can be one. */
  ghost predicate Charged(before: Ledger, after: Ledger, id: int, op: Op, me: nat) {
    && after == before.(victims := after.victims)
    && (op != Delete ==> after == before)
    && (id in before.held ==> OwnVictims(before, after, me))
  }

  /** Calls that do not go wrong leave nothing to answer for. */
  predicate Blameless(before: Ledger, faults: nat, after: Ledger, more: nat) {
    faults <= more && (faults == more ==> after.Excused() == before.Excused())
  }

  class Cluster {
    const me: nat
    /** Nothing interferes at all. */
    const quiet: bool
    /** Outsiders do nothing but delete VMs. */
    const shrinking: bool
    var vms: Vms
    var ledger: Ledger
    /** The calls made so far, and where they have taken the process in the protocol from `start`. */
    ghost const start: Pc
    ghost var trace: seq<Event>
    ghost var pc: Pc
    /** How many calls have gone wrong: listings that failed, fetches that failed otherwise than by finding
        no VM, clone calls that were refused or lost their response, and operations that ended badly. */
    ghost var faults: nat
    /** Those calls in order, with the errors that they returned. */
    ghost var errors: seq<(Event, Err)>
    /** How long Retry has slept, each time that it did. */
    ghost var waits: seq<nat>

    ghost predicate Valid()
      reads this`vms, this`ledger, this`trace, this`pc, this`faults, this`errors
    {
      && me > 0 && pc == Run(start, trace) && |errors| == faults
      && (forall id | id in ledger.held && id in vms ::
            vms[id].maker == me && id in ledger.nics && vms[id].nic == ledger.nics[id])
    }

    /** One call has been made, which has gone wrong if there is an error. */
    twostate predicate Called(new ev: Event, new error: Option<Err>)
      reads this
    {
      && pc == Next(old(pc), ev) && trace == old(trace) + [ev]
      && faults == old(faults) + (if error.Some? then 1 else 0)
      && errors == old(errors) + (if error.Some? then [(ev, error.value)] else [])
      && waits == old(waits)
    }

    /** No call has been made. */
    twostate predicate Idle()
      reads this
    {
      pc == old(pc) && trace == old(trace) && faults == old(faults) && errors == old(errors) && waits == old(waits)
    }

    /** Calls have been made without sleeping in between, and none is forgotten. */
    twostate predicate Later()
      reads this
    {
      Since() && waits == old(waits)
    }

    /** Calls have been made, and none is forgotten. */
    twostate predicate Since()
      reads this
    {
      old(trace) <= trace && old(errors) <= errors && old(faults) <= faults && old(waits) <= waits
    }

    ghost function View(): Vms
      reads this`vms
    {
      Stable(vms, me, quiet)
    }

    /** A run of a driver process begins on a cluster in any state. */
    constructor (me: nat, quiet: bool, shrinking: bool, vms: Vms, ghost start: Pc)
      requires me > 0
      ensures Valid() && View() == Stable(vms, me, quiet) && ledger == Ledger({}, {}, {}, {}, map[])
      ensures this.me == me && this.quiet == quiet && this.shrinking == shrinking && this.vms == vms
      ensures this.start == start == pc && trace == [] && faults == 0 && errors == [] && waits == []
    {
      this.me, this.quiet, this.shrinking, this.vms := me, quiet, shrinking, vms;
      this.ledger := Ledger({}, {}, {}, {}, map[]);
      this.start, this.trace, this.pc, this.faults, this.errors, this.waits := start, [], start, 0, [], [];
    }

    ghost method Log(ev: Event, error: Option<Err>)
      requires pc == Run(start, trace)
      modifies this`pc, this`trace, this`faults, this`errors
      ensures pc == Run(start, trace) && Called(ev, error)
    {
      RunOn(start, trace, ev);
      pc, trace := Next(pc, ev), trace + [ev];
      if error.Some? {
        faults, errors := faults + 1, errors + [(ev, error.value)];
      }
    }

    /** Retry's timer. What outsiders do meanwhile shows in the next call. */
    method Sleep(time: nat)
      requires Valid()
      modifies this`waits
      ensures Valid() && waits == old(waits) + [time]
    {
      waits := waits + [time];
    }

    /** Outsiders act between two calls. */
    method Others()
      requires Valid()
      modifies this`vms
      ensures Valid() && Rely(me, quiet, shrinking, ledger.held, old(vms), vms)
    {
      var next: Vms := *;
      if Rely(me, quiet, shrinking, ledger.held, vms, next) {
        RelyKeepsOwn(me, quiet, shrinking, ledger.held, vms, next);
        vms := next;
      }
    }

    /** GET /cluster/resources?type=vm. */
    method ListVMs() returns (r: Result<seq<Row>>)
      requires Valid()
      modifies this
      ensures Valid() && Rely(me, quiet, shrinking, ledger.held, old(vms), vms)
      ensures ledger == old(ledger)
      ensures r.Ok? ==> Lists(r.value, vms) && ShowsOnce(r.value)
      ensures Called(Listed(if r.Ok? then Some(r.value) else None), ErrorOf(r))
    {
      Others();
      var e: Err := *;
      var rows: seq<Row> := *;
      r := if Lists(rows, vms) && ShowsOnce(rows) then Ok(rows) else Fail(e);
      Log(Listed(if r.Ok? then Some(r.value) else None), ErrorOf(r));
    }

    /** GET of one VM's status and configuration. A not-found error is truthful. */
    method GetVM(node: string, id: int) returns (r: Result<Vm>)
      requires Valid()
      modifies this
      ensures Valid() && Rely(me, quiet, shrinking, ledger.held, old(vms), vms)
      ensures ledger == old(ledger)
      ensures r.Ok? ==> Has(vms, node, id) && vms[id] == r.value
      ensures r.Fail? && r.error.notFound ==> !Has(vms, node, id)
      ensures Called(Got(id, if r.Ok? then Some(r.value) else None), FaultOf(r))
    {
      Others();
      var e: Err := *;
      var fails: bool := *;
      if Has(vms, node, id) {
        r := if fails then Fail(e.(notFound := false)) else Ok(vms[id]);
      } else {
        r := Fail(e);
      }
      Log(Got(id, if r.Ok? then Some(r.value) else None), FaultOf(r));
    }

    /** POST of a clone. An accepted call reserves the VMID at once; one that PVE refuses changes
        nothing; and the response of an accepted one may be lost on the way back. */
    method PostClone(tmpl: Vm, id: int, name: string, node: string) returns (r: Result<Task?>)
      requires Valid()
      modifies this
      ensures Valid()
      ensures r.Ok? && r.value != null ==>
                fresh(r.value) && r.value.id == id && r.value.op == CloneTask && !r.value.stopped
      ensures r.Ok? ==> id >= 100 && HasGained(old(View()), View(), id, tmpl, name, node, me)
      ensures r.Ok? ==> id in vms && ledger == old(ledger).(held := old(ledger.held) + {id}, nics := ledger.nics)
      ensures ledger.nics == old(ledger.nics) || (id in vms && ledger.nics == old(ledger.nics)[id := vms[id].nic])
      ensures r.Fail? ==>
                || (View() == old(View()) && ledger == old(ledger))
                || (HasGained(old(View()), View(), id, tmpl, name, node, me)
                    && ledger == old(ledger).(lost := old(ledger.lost) + {id}, nics := ledger.nics))
      ensures r.Ok? && r.value != null ==> Called(ClonePost(id, true), None)
      ensures r.Ok? && r.value == null ==> pc == Next(Next(old(pc), ClonePost(id, true)), Did(id, CloneTask, true))
      ensures r.Ok? && r.value == null ==> Later() && errors == old(errors)
      ensures r.Fail? ==> Called(ClonePost(id, false), Some(r.error))
    {
      Others();
      var e: Err := *;
      var accepted: bool, responseLost: bool, synchronous: bool := *, *, *;
      if id < 100 || id in vms || !accepted {
        Log(ClonePost(id, false), Some(e));
        return Fail(e);
      }
      Reserve(tmpl, id, name, node, if responseLost then Some(e) else None);
      if responseLost {
        return Fail(e);
      }
      if synchronous {
        Log(Did(id, CloneTask, true), None);
        return Ok(null);
      }
      var task := new Task(id, CloneTask);
      r := Ok(task);
    }

    /** A clone call is carried out, whether or not the response arrives. */
    method Reserve(tmpl: Vm, id: int, name: string, node: string, lost: Option<Err>)
      requires Valid() && id !in vms
      modifies this
      ensures Valid() && HasGained(old(View()), View(), id, tmpl, name, node, me)
      ensures id in vms && ledger.nics == old(ledger.nics)[id := vms[id].nic]
      ensures ledger == if lost == None then old(ledger).(held := old(ledger.held) + {id}, nics := ledger.nics)
                        else old(ledger).(lost := old(ledger.lost) + {id}, nics := ledger.nics)
      ensures Called(ClonePost(id, lost == None), lost)
    {
      var nic: Nic := *;
      StablePlus(vms, id, Cloned(tmpl, name, node, me, nic), me, quiet);
      vms := vms[id := Cloned(tmpl, name, node, me, nic)];
      ledger := ledger.(nics := ledger.nics[id := nic]);
      ledger := if lost == None then ledger.(held := ledger.held + {id}) else ledger.(lost := ledger.lost + {id});
      Log(ClonePost(id, lost == None), lost);
    }

    /** POST (or DELETE) that submits an operation on a VM. PVE answers with a task, or with none
        when it has already done the work; a call that fails may still have been carried out. */
    method Submit(id: int, op: Op) returns (r: Result<Task?>)
      requires Valid()
      modifies this
      ensures Valid() && Charged(old(ledger), ledger, id, op, me)
      ensures r.Ok? && r.value != null ==> fresh(r.value) && r.value.id == id && r.value.op == op && !r.value.stopped
      ensures r.Ok? && r.value != null ==> View() == old(View()) && Idle()
      ensures r.Ok? && r.value == null ==> Ended(old(View()), id, op, true, View()) && Called(Did(id, op, true), None)
      ensures r.Fail? ==> Ended(old(View()), id, op, false, View()) && Called(Did(id, op, false), Some(r.error))
    {
      Others();
      var e: Err := *;
      var refused: bool, synchronous: bool := *, *;
      if refused {
        Carry(id, op, Some(e));
        return Fail(e);
      }
      if synchronous {
        Carry(id, op, None);
        return Ok(null);
      }
      var task := new Task(id, op);
      r := Ok(task);
    }

    /** The operation ends on the cluster, with the effect its outcome allows. */
    method Carry(id: int, op: Op, error: Option<Err>)
      requires Valid()
      modifies this
      ensures Valid() && Charged(old(ledger), ledger, id, op, me)
      ensures Ended(old(View()), id, op, error == None, View()) && Called(Did(id, op, error == None), error)
    {
      var after: Vms := *;
      if !Ended(vms, id, op, error == None, after) {
        after := Outcome(vms, id, op, error == None);
      }
      StableEnded(vms, id, op, error == None, after, me, quiet);
      EndedKeepsMakers(vms, id, op, error == None, after);
      if op.Delete? && id in vms {
        ledger := ledger.(victims := ledger.victims + {vms[id]});
      }
      vms := after;
      Log(Did(id, op, error == None), error);
    }

    /** go-proxmox's Wait: no error once a PVE task has stopped, even if it failed. */
    method Wait(task: Task) returns (e: Option<Err>)
      requires Valid() && !task.stopped
      modifies this, task
      ensures Valid() && Charged(old(ledger), ledger, task.id, task.op, me)
      ensures var error := if e == None && task.isFailed then Some(task.exitStatus) else e;
              && Ended(old(View()), task.id, task.op, error == None, View())
              && Called(Did(task.id, task.op, error == None), error)
    {
      Others();
      e := *;
      var fails: bool, exitStatus: Err := *, *;
      if e == None {
        task.stopped, task.isFailed, task.exitStatus := true, fails, exitStatus;
      }
      Carry(task.id, task.op, if e == None && fails then Some(exitStatus) else e);
    }
  }

  /** What went wrong in a call, if anything. */
  function ErrorOf<T>(r: Result<T>): Option<Err> {
    if r.Ok? then None else Some(r.error)
  }

  /** For a fetch, finding no VM does not count. */
  function FaultOf<T>(r: Result<T>): Option<Err> {
    if r.Ok? || r.error.notFound then None else Some(r.error)
  }

  predicate Has(vms: Vms, node: string, id: int) {
    id in vms && vms[id].node == node && vms[id].kind.Qemu?
  }

  /** What outsiders may do between two calls: anything, except to the stable part and except
      allocating a held VMID; or only deletions. */
  predicate Rely(me: nat, quiet: bool, shrinking: bool, held: set<int>, before: Vms, after: Vms) {
    && Stable(after, me, quiet) == Stable(before, me, quiet)
    && (forall id | id in held && id in after :: id in before)
    && (shrinking ==> forall id | id in after :: id in before && after[id] == before[id])
  }

  /** pkg/pve/task.go: a task that stopped but failed is an error, and no task is success. */
  method WaitTask(c: Cluster, task: Task?) returns (e: Option<Err>)
    requires c.Valid() && (task != null ==> !task.stopped)
    modifies c, task
    ensures c.Valid()
    ensures task != null ==> Charged(old(c.ledger), c.ledger, task.id, task.op, c.me)
    ensures task == null ==> e == None && c.ledger == old(c.ledger) && c.View() == old(c.View()) && c.Idle()
    ensures task != null ==> Ended(old(c.View()), task.id, task.op, e.None?, c.View())
                             && c.Called(Did(task.id, task.op, e.None?), e)
  {
    if task == null {
      return None;
    }
    e := c.Wait(task);
    if e == None && task.isFailed {
      return Some(task.exitStatus);
    }
  }

  /** A mutation as every operation of pkg/pve/vmops.go issues it: submit, then wait for its task. */
  method Perform(c: Cluster, id: int, op: Op) returns (e: Option<Err>)
    requires c.Valid()
    modifies c
    ensures c.Valid() && Charged(old(c.ledger), c.ledger, id, op, c.me)
    ensures Ended(old(c.View()), id, op, e.None?, c.View()) && c.Called(Did(id, op, e.None?), e)
  {
    var r := c.Submit(id, op);
    if r.Fail? {
      return Some(r.error);
    }
    e := WaitTask(c, r.value);
  }
}
