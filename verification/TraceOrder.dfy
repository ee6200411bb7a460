/** In which order a driver process changes the cluster, whatever it reads in between and whatever
    the outcomes of its calls are: a grammar of the mutations of Create and of Remove. */
module TraceOrder {
  import opened Text
  import opened Protocol

  type Trace = seq<Event>

  /** The calls that can change something, in order. */
  function Mutations(t: Trace): Trace
    decreases |t|
  {
    if t == [] then []
    else if t[0].ClonePost? || t[0].Did? then [t[0]] + Mutations(t[1..])
    else Mutations(t[1..])
  }

  // ---- The grammar -------------------------------------------------------------------------

  /** At most `n` deletes, of which none follows a successful one. */
  predicate Deletes(id: int, n: nat, m: Trace) {
    |m| <= n && forall i | 0 <= i < |m| :: m[i].Did? && m[i].id == id && m[i].op == Delete && (m[i].ok ==> i == |m| - 1)
  }

  /** Remove's mutations: a running VM is shut down, or else stopped, and a VM at rest is deleted. */
  predicate Teardown(id: int, m: Trace) {
    || Deletes(id, DELETE_ATTEMPTS, m)
    || (m[0] == Did(id, Shutdown, true) && Deletes(id, DELETE_ATTEMPTS, m[1..]))
    || m == [Did(id, Shutdown, false)]
    || m == [Did(id, Shutdown, false), Did(id, Stop, false)]
    || (|m| >= 2 && m[..2] == [Did(id, Shutdown, false), Did(id, Stop, true)] && Deletes(id, DELETE_ATTEMPTS, m[2..]))
  }

  predicate FromStart(id: int, m: Trace) {
    m != [] ==> m[0].Did? && m[0].id == id && m[0].op == Start && Teardown(id, m[1..])
  }

  predicate FromSize(id: int, m: Trace) {
    || FromStart(id, m)
    || (m[0].Did? && m[0].id == id && m[0].op.Resize?
        && if m[0].ok then FromStart(id, m[1..]) else Teardown(id, m[1..]))
  }

  predicate FromConfig(id: int, m: Trace) {
    m != [] ==>
      && m[0].Did? && m[0].id == id && IsConfiguring(m[0].op)
      && if m[0].ok then FromSize(id, m[1..]) else Teardown(id, m[1..])
  }

  /** The clean-up after which CloneFromTemplate returns its error. */
  predicate GivenUp(id: int, m: Trace) {
    m == [] || (|m| == 1 && m[0].Did? && m[0].id == id && m[0].op == Delete)
  }

  predicate FromTag(id: int, m: Trace) {
    || GivenUp(id, m)
    || (m[0].Did? && m[0].id == id && IsTagging(m[0].op)
        && if m[0].ok then FromConfig(id, m[1..]) else GivenUp(id, m[1..]))
  }

  /** From an accepted clone call on. */
  predicate FromTask(id: int, left: nat, m: Trace)
    decreases |m|
  {
    || m == []
    || (m[0] == Did(id, CloneTask, true) && FromTag(id, m[1..]))
    || (m[0] == Did(id, CloneTask, false) && Scrapped(id, left, m[1..]))
  }

  /** At most one clean-up delete, then at most `left` more attempts. */
  predicate Scrapped(id: int, left: nat, m: Trace)
    decreases |m|, 1
  {
    || FromDraw(left, m)
    || (m != [] && m[0].Did? && m[0].id == id && m[0].op == Delete && FromDraw(left, m[1..]))
  }

  /** Create's mutations, with at most `left` attempts to clone. */
  predicate FromDraw(left: nat, m: Trace)
    decreases |m|, 0
  {
    m != [] ==>
      && left > 0 && m[0].ClonePost?
      && if m[0].accepted then FromTask(m[0].id, left - 1, m[1..]) else FromDraw(left - 1, m[1..])
  }

  // ---- Every run follows it ----------------------------------------------------------------

  /** What a process in state `pc` may still change. */
  ghost predicate Allowed(pc: Pc, m: Trace) {
    match pc
    case Drawing(left) => FromDraw(left, m)
    case Posting(left, _) => FromDraw(left, m)
    case Cloning(id, left) => FromTask(id, left, m)
    case Scrapping(id, left) => Scrapped(id, left, m)
    case ScrapDeleting(id, left) => Scrapped(id, left, m)
    case Reading(id) => FromTag(id, m)
    case Tagging(id) => FromTag(id, m)
    case Configuring(id) => FromConfig(id, m)
    case Sizing(id) => FromSize(id, m)
    case Starting(id) => FromStart(id, m)
    case Booted(id) => Teardown(id, m)
    case Ready(id) => Teardown(id, m)
    case Looking(want, _) => Removal(want, m)
    case Searching(want, _) => Removal(want, m)
    case Halting(id) => Teardown(id, m)
    case Stopping(id) =>
      || m == [] || m == [Did(id, Stop, false)]
      || (m[0] == Did(id, Stop, true) && Deletes(id, DELETE_ATTEMPTS, m[1..]))
    case Deleting(id, left) => Deletes(id, left, m)
    case Stopped => m == []
    case Astray => false
  }

  /** The mutations of a Remove: all of them on one VM, the persisted one if there is one. */
  ghost predicate Removal(want: int, m: Trace) {
    exists id :: (want != 0 ==> id == want) && Teardown(id, m)
  }

  /** No VM has VMID 0, and a search for one VMID only has that candidate. */
  predicate Sensible(pc: Pc) {
    match pc
    case Searching(want, candidates) => want != 0 ==> candidates <= {want}
    case Cloning(id, _) => id != 0
    case Reading(id) => id != 0
    case Tagging(id) => id != 0
    case Configuring(id) => id != 0
    case Sizing(id) => id != 0
    case Starting(id) => id != 0
    case Booted(id) => id != 0
    case Ready(id) => id != 0
    case _ => true
  }

  lemma StaysAstray(t: Trace)
    ensures Run(Astray, t) == Astray
    decreases |t|
  {
    if t != [] {
      StaysAstray(t[1..]);
    }
  }

  lemma NextSensible(pc: Pc, ev: Event)
    requires Sensible(pc)
    ensures Sensible(Next(pc, ev))
  {
  }

  /** An attempt less is no more than an attempt that changes nothing. */
  lemma {:induction false} MoreAttempts(less: nat, more: nat, m: Trace)
    requires less <= more && FromDraw(less, m)
    ensures FromDraw(more, m)
    decreases |m|
  {
    if m != [] {
      var id, rest := m[0].id, m[1..];
      if !m[0].accepted {
        MoreAttempts(less - 1, more - 1, rest);
      } else if rest != [] && rest[0] == Did(id, CloneTask, false) {
        assert Scrapped(id, less - 1, rest[1..]);
        if FromDraw(less - 1, rest[1..]) {
          MoreAttempts(less - 1, more - 1, rest[1..]);
        } else {
          MoreAttempts(less - 1, more - 1, rest[1..][1..]);
        }
        assert Scrapped(id, more - 1, rest[1..]);
      }
    }
  }

  lemma DrawAllowed(pc: Pc, ev: Event, m: Trace)
    requires pc.Drawing? || pc.Posting?
    requires (ev.Listed? || ev.Got?) && Allowed(Next(pc, ev), m)
    ensures Allowed(pc, m)
  {
    var next := Next(pc, ev);
    MoreAttempts(next.left, pc.left, m);
  }

  lemma SearchAllowed(pc: Pc, ev: Event, m: Trace)
    requires Sensible(pc) && (pc.Ready? || pc.Looking? || pc.Searching?)
    requires (ev.Listed? || ev.Got?) && Allowed(Next(pc, ev), m)
    ensures Allowed(pc, m)
  {
    var next := Next(pc, ev);
    if next.Halting? || next.Deleting? {
      assert Teardown(next.id, m);
    } else if next.Stopped? {
      NothingToRemove(if pc.Ready? then pc.id else pc.want);
    }
  }

  lemma NothingToRemove(want: int)
    ensures Removal(want, [])
  {
    assert Teardown(want, []);
  }

  lemma LastAttempt(id: int, m: Trace)
    requires Scrapped(id, 0, m)
    ensures GivenUp(id, m)
  {
    if !FromDraw(0, m) {
      assert FromDraw(0, m[1..]);
    }
  }

  lemma ReadAllowed(pc: Pc, ev: Event, m: Trace)
    requires Sensible(pc) && (ev.Listed? || ev.Got?) && Allowed(Next(pc, ev), m)
    ensures Allowed(pc, m)
  {
    if pc.Drawing? || pc.Posting? {
      DrawAllowed(pc, ev, m);
    } else if pc.Ready? || pc.Looking? || pc.Searching? {
      SearchAllowed(pc, ev, m);
    } else if pc.Reading? && Next(pc, ev).Scrapping? {
      LastAttempt(pc.id, m);
    }
  }

  lemma WriteAllowed(pc: Pc, ev: Event, m: Trace)
    requires Sensible(pc) && (ev.ClonePost? || ev.Did?) && Allowed(Next(pc, ev), m)
    ensures Allowed(pc, [ev] + m)
  {
    assert ([ev] + m)[1..] == m;
    if pc.Tagging? && Next(pc, ev).Scrapping? {
      LastAttempt(pc.id, m);
    }
  }

  lemma {:induction false} RunIsAllowed(pc: Pc, t: Trace)
    requires Sensible(pc) && Run(pc, t) != Astray
    ensures Allowed(pc, Mutations(t))
    decreases |t|
  {
    if t == [] {
      if pc.Looking? || pc.Searching? {
        NothingToRemove(pc.want);
      }
    } else {
      StaysAstray(t[1..]);
      NextSensible(pc, t[0]);
      RunIsAllowed(Next(pc, t[0]), t[1..]);
      if t[0].ClonePost? || t[0].Did? {
        WriteAllowed(pc, t[0], Mutations(t[1..]));
      } else {
        ReadAllowed(pc, t[0], Mutations(t[1..]));
      }
    }
  }

  // ---- What it says about a Create ---------------------------------------------------------

  /** An attempt that leaves nothing behind as far as it can tell: the clone call was refused, or the
      clone's task failed and at most one delete followed. */
  predicate Wasted(m: Trace) {
    || (|m| == 1 && m[0].ClonePost? && !m[0].accepted)
    || (2 <= |m| <= 3 && m[0].ClonePost? && m[0].accepted && m[1] == Did(m[0].id, CloneTask, false) &&
        GivenUp(m[0].id, m[2..]))
  }

  function Flat(parts: seq<Trace>): Trace {
    if parts == [] then [] else parts[0] + Flat(parts[1..])
  }

  /** How far a call takes a Create; 0 for calls that only undo. */
  function Stage(ev: Event): nat {
    if ev.ClonePost? then 1
    else if !ev.Did? then 0
    else if ev.op.CloneTask? then 2
    else if IsTagging(ev.op) then 3
    else if IsConfiguring(ev.op) then 4
    else if ev.op.Resize? then 5
    else if ev.op.Start? then 6
    else 0
  }

  predicate Succeeded(ev: Event) {
    (ev.ClonePost? && ev.accepted) || (ev.Did? && ev.ok)
  }

  /** A step that succeeded, and the next one; only resizing may be left out. */
  predicate Follows(id: int, a: Event, b: Event) {
    b.Did? && b.id == id && Succeeded(a) && (Stage(b) == Stage(a) + 1 || (Stage(a) == 4 && Stage(b) == 6))
  }

  /** The stages in their order, from the accepted clone call on, each after the one before has succeeded. */
  predicate Forward(id: int, m: Trace)
    decreases |m|
  {
    && m != []
    && if |m| == 1 then m[0] == ClonePost(id, true)
       else Follows(id, m[|m| - 2], m[|m| - 1]) && Forward(id, m[..|m| - 1])
  }

  /** What follows the last step forward: nothing while there is more to do; one delete if the clone
      could not be read or tagged; and what Remove does if provisioning failed or the machine did not
      come up. */
  predicate Undoes(id: int, last: Event, m: Trace) {
    || m == []
    || (Stage(last) == 2 && last.ok && GivenUp(id, m))
    || (Stage(last) == 3 && !last.ok && GivenUp(id, m))
    || (Stage(last) in {4, 5} && !last.ok && Teardown(id, m))
    || (Stage(last) == 6 && Teardown(id, m))
  }

  predicate Ends(id: int, forward: Trace, undo: Trace) {
    Forward(id, forward) && Undoes(id, forward[|forward| - 1], undo)
  }

  function LastOf(m: Trace): Event
    requires m != []
  {
    m[|m| - 1]
  }

  /** One more step forward. */
  lemma Advance(id: int, done: Trace, m: Trace) returns (more: Trace)
    requires Forward(id, done) && m != [] && Follows(id, LastOf(done), m[0])
    ensures more == done + [m[0]] && Forward(id, more) && LastOf(more) == m[0] && done + m == more + m[1..]
  {
    more := done + [m[0]];
    assert more[..|more| - 1] == done;
  }

  lemma SplitStart(id: int, done: Trace, m: Trace) returns (forward: Trace, undo: Trace)
    requires Forward(id, done) && Succeeded(LastOf(done)) && Stage(LastOf(done)) in {4, 5} && FromStart(id, m)
    ensures done + m == forward + undo && Ends(id, forward, undo)
  {
    forward, undo := done, m;
    if m != [] {
      forward := Advance(id, done, m);
      undo := m[1..];
    }
  }

  lemma SplitSize(id: int, done: Trace, m: Trace) returns (forward: Trace, undo: Trace)
    requires Forward(id, done) && Succeeded(LastOf(done)) && Stage(LastOf(done)) == 4 && FromSize(id, m)
    ensures done + m == forward + undo && Ends(id, forward, undo)
  {
    if FromStart(id, m) {
      forward, undo := SplitStart(id, done, m);
    } else {
      var more := Advance(id, done, m);
      if m[0].ok {
        forward, undo := SplitStart(id, more, m[1..]);
      } else {
        forward, undo := more, m[1..];
      }
    }
  }

  lemma SplitConfig(id: int, done: Trace, m: Trace) returns (forward: Trace, undo: Trace)
    requires Forward(id, done) && Succeeded(LastOf(done)) && Stage(LastOf(done)) == 3 && FromConfig(id, m)
    ensures done + m == forward + undo && Ends(id, forward, undo)
  {
    forward, undo := done, m;
    if m != [] {
      var more := Advance(id, done, m);
      if m[0].ok {
        forward, undo := SplitSize(id, more, m[1..]);
      } else {
        forward, undo := more, m[1..];
      }
    }
  }

  lemma SplitTag(id: int, done: Trace, m: Trace) returns (forward: Trace, undo: Trace)
    requires Forward(id, done) && Succeeded(LastOf(done)) && Stage(LastOf(done)) == 2 && FromTag(id, m)
    ensures done + m == forward + undo && Ends(id, forward, undo)
  {
    forward, undo := done, m;
    if !GivenUp(id, m) {
      var more := Advance(id, done, m);
      if m[0].ok {
        forward, undo := SplitConfig(id, more, m[1..]);
      } else {
        forward, undo := more, m[1..];
      }
    }
  }

  /** The mutations of a Create, from its wasted attempts to clone to its last step forward or back. */
  ghost predicate IsCreate(left: nat, attempts: seq<Trace>, forward: Trace, undo: Trace) {
    && |attempts| <= left
    && (forall i | 0 <= i < |attempts| :: Wasted(attempts[i]))
    && (if forward == [] then undo == [] else exists id :: Ends(id, forward, undo))
  }

  lemma OneMoreAttempt(left: nat, first: Trace, attempts: seq<Trace>, forward: Trace, undo: Trace)
    requires left > 0 && Wasted(first) && IsCreate(left - 1, attempts, forward, undo)
    ensures IsCreate(left, [first] + attempts, forward, undo)
    ensures Flat([first] + attempts) + forward + undo == first + (Flat(attempts) + forward + undo)
  {
    assert ([first] + attempts)[1..] == attempts;
  }

  lemma CleanUp(id: int, left: nat, m: Trace) returns (cleanup: Trace, rest: Trace)
    requires Scrapped(id, left, m)
    ensures m == cleanup + rest && GivenUp(id, cleanup) && FromDraw(left, rest)
  {
    cleanup, rest := [], m;
    if !FromDraw(left, m) {
      cleanup, rest := [m[0]], m[1..];
    }
  }

  /** The first attempt, if it was wasted. */
  lemma FirstAttempt(left: nat, m: Trace) returns (first: Trace, rest: Trace)
    requires FromDraw(left, m) && m != []
    requires m[0].accepted ==> |m| > 1 && m[1] == Did(m[0].id, CloneTask, false)
    ensures m == first + rest && first != [] && Wasted(first) && left > 0 && FromDraw(left - 1, rest)
  {
    first, rest := [m[0]], m[1..];
    if m[0].accepted {
      assert m[1..][1..] == m[2..];
      var cleanup;
      cleanup, rest := CleanUp(m[0].id, left - 1, m[2..]);
      first := m[..2] + cleanup;
      assert first[2..] == cleanup;
    }
  }

  lemma SplitCreate(left: nat, m: Trace) returns (attempts: seq<Trace>, forward: Trace, undo: Trace)
    requires FromDraw(left, m)
    ensures m == Flat(attempts) + forward + undo && IsCreate(left, attempts, forward, undo)
    decreases |m|
  {
    attempts, forward, undo := [], [], [];
    if m == [] {
    } else if !m[0].accepted || (|m| > 1 && m[1] == Did(m[0].id, CloneTask, false)) {
      var first, rest := FirstAttempt(left, m);
      attempts, forward, undo := SplitCreate(left - 1, rest);
      OneMoreAttempt(left, first, attempts, forward, undo);
      attempts := [first] + attempts;
    } else {
      forward, undo := SplitLast(m[0].id, left - 1, m);
    }
  }

  /** The last attempt, which was not wasted. */
  lemma SplitLast(id: int, left: nat, m: Trace) returns (forward: Trace, undo: Trace)
    requires m != [] && m[0] == ClonePost(id, true) && FromTask(id, left, m[1..])
    requires |m| > 1 ==> m[1] != Did(id, CloneTask, false)
    ensures m == forward + undo && Ends(id, forward, undo)
  {
    forward, undo := m, [];
    if |m| > 1 {
      var more := Advance(id, [m[0]], m[1..]);
      forward, undo := SplitTag(id, more, m[1..][1..]);
    }
  }

  ghost predicate CreateOrder(m: Trace) {
    exists attempts, forward, undo ::
      m == Flat(attempts) + forward + undo && IsCreate(CLONE_ATTEMPTS, attempts, forward, undo)
  }

  /** Trace order. Whatever a Create reads and however its calls end: at most ten attempts to clone that
      leave nothing behind but for failed clean-ups, then clone, tag, configure, at most one resize, and
      start, each only after the one before ended well, and then, if at all, the undoing. */
  lemma CreateInOrder(t: Trace)
    requires Run(Drawing(CLONE_ATTEMPTS), t) != Astray
    ensures CreateOrder(Mutations(t))
  {
    RunIsAllowed(Drawing(CLONE_ATTEMPTS), t);
    var attempts, forward, undo := SplitCreate(CLONE_ATTEMPTS, Mutations(t));
  }

  // ---- When nothing is undone --------------------------------------------------------------

  /** Some wasted attempts, then steps forward with VM `id`, and nothing after them. */
  ghost predicate OnlyForward(id: int, m: Trace) {
    exists attempts, forward ::
      m == Flat(attempts) + forward && IsCreate(CLONE_ATTEMPTS, attempts, forward, []) && Forward(id, forward)
  }

  lemma {:induction false} MutationsAppend(t: Trace, u: Trace)
    ensures Mutations(t + u) == Mutations(t) + Mutations(u)
    decreases |t|
  {
    if t == [] {
      assert t + u == u;
    } else {
      assert (t + u)[1..] == t[1..] + u;
      MutationsAppend(t[1..], u);
    }
  }

  lemma {:induction false} RunAppend(pc: Pc, t: Trace, u: Trace)
    ensures Run(pc, t + u) == Run(Run(pc, t), u)
    decreases |t|
  {
    if t == [] {
      assert t + u == u;
    } else {
      assert (t + u)[1..] == t[1..] + u;
      RunAppend(Next(pc, t[0]), t[1..], u);
    }
  }

  /** A running, tagged VM, and what a Remove may see of it: neither shutdown nor stop works. */
  lemma Stuck(id: int) returns (fetch: Event)
    requires id != 0
    ensures fetch.Got? && forall pc | pc == Ready(id) || (pc.Looking? && pc.want == id) ::
              Next(pc, fetch) == Halting(id)
  {
    var vm := Vm("", "", Qemu, false, true, map[Tags := MACHINE_TAG], map[], 1, Nic("", ""));
    SplitWhole(MACHINE_TAG, ';');
    assert HasTag(vm, MACHINE_TAG);
    fetch := Got(id, Some(vm));
  }

  function Failures(id: int): Trace {
    [Did(id, Shutdown, false), Did(id, Stop, false)]
  }

  lemma FailuresRun(pc: Pc, fetch: Event, id: int)
    requires fetch.Got? && Next(pc, fetch) == Halting(id)
    ensures Run(pc, [fetch] + Failures(id)) == Stopped && Mutations([fetch] + Failures(id)) == Failures(id)
  {
    var u := [fetch] + Failures(id);
    assert u[1..] == Failures(id) && Failures(id)[1..] == [Did(id, Stop, false)] && [Did(id, Stop, false)][1..] == [];
    assert Run(Halting(id), Failures(id)) == Run(Stopping(id), [Did(id, Stop, false)]) == Run(Stopped, []);
    assert Mutations([Did(id, Stop, false)]) == [Did(id, Stop, false)] + Mutations([]);
  }

  /** Undoing that ends with a failed stop is nothing but the two failures. */
  lemma UndoneByFailures(id: int, other: int, last: Event, undo: Trace)
    requires Undoes(other, last, undo) && undo != [] && LastOf(undo) == Did(id, Stop, false)
    ensures other == id && undo == Failures(id)
  {
  }

  predicate IsStop(ev: Event) {
    ev.Did? && ev.op == Stop
  }

  lemma {:induction false} AttemptsEnd(attempts: seq<Trace>)
    requires forall i | 0 <= i < |attempts| :: Wasted(attempts[i])
    ensures Flat(attempts) != [] ==> !IsStop(LastOf(Flat(attempts)))
  {
    if attempts != [] {
      AttemptsEnd(attempts[1..]);
    }
  }

  /** Without undoing the last mutation is no stop. */
  lemma EndsOtherwise(attempts: seq<Trace>, forward: Trace)
    requires IsCreate(CLONE_ATTEMPTS, attempts, forward, [])
    ensures var m := Flat(attempts) + forward; m != [] ==> !IsStop(LastOf(m))
  {
    AttemptsEnd(attempts);
    if forward != [] {
      var id :| Ends(id, forward, []);
      assert LastOf(Flat(attempts) + forward) == LastOf(forward);
    } else {
      assert Flat(attempts) + forward == Flat(attempts);
    }
  }

  /** A Create that has its machine ready, or that is about to look it up because provisioning failed, has
      undone nothing: its mutations are wasted attempts and steps forward. */
  lemma NothingUndone(t: Trace, id: int)
    requires id != 0
    requires var pc := Run(Drawing(CLONE_ATTEMPTS), t); pc == Ready(id) || (pc.Looking? && pc.want == id)
    ensures OnlyForward(id, Mutations(t))
  {
    var fetch := Stuck(id);
    var u := [fetch] + Failures(id);
    FailuresRun(Run(Drawing(CLONE_ATTEMPTS), t), fetch, id);
    RunAppend(Drawing(CLONE_ATTEMPTS), t, u);
    MutationsAppend(t, u);
    CreateInOrder(t + u);
    BeforeFailures(Mutations(t), id);
  }

  lemma BeforeFailures(m: Trace, id: int)
    requires CreateOrder(m + Failures(id))
    ensures OnlyForward(id, m)
  {
    var all := m + Failures(id);
    var attempts, forward, undo :|
      all == Flat(attempts) + forward + undo && IsCreate(CLONE_ATTEMPTS, attempts, forward, undo);
    assert LastOf(all) == Did(id, Stop, false);
    IsCreateSoFar(attempts, forward, undo);
    EndsOtherwise(attempts, forward);
    assert undo == [] ==> all == Flat(attempts) + forward;
    assert LastOf(undo) == LastOf(all);
    var other :| Ends(other, forward, undo);
    UndoneByFailures(id, other, LastOf(forward), undo);
    assert m == all[..|all| - 2] == Flat(attempts) + forward;
  }

  lemma IsCreateSoFar(attempts: seq<Trace>, forward: Trace, undo: Trace)
    requires IsCreate(CLONE_ATTEMPTS, attempts, forward, undo)
    ensures IsCreate(CLONE_ATTEMPTS, attempts, forward, [])
  {
    if forward != [] {
      var id :| Ends(id, forward, undo);
      assert Ends(id, forward, []);
    }
  }

  lemma MutationsOne(ev: Event)
    ensures Mutations([ev]) == if ev.ClonePost? || ev.Did? then [ev] else []
  {
    assert [ev][1..] == [];
  }

  lemma ReadyFrom(pc: Pc, ev: Event, id: int)
    requires Next(pc, ev) in {Booted(id), Ready(id)}
    ensures ev == Did(id, Start, true) || (pc == Booted(id) && ev.Got?)
  {
  }

  /** What the machine is ready after. */
  lemma {:induction false} ReadyIsStarted(t: Trace, id: int)
    requires Run(Drawing(CLONE_ATTEMPTS), t) in {Booted(id), Ready(id)}
    ensures Mutations(t) != [] && LastOf(Mutations(t)) == Did(id, Start, true)
    decreases |t|
  {
    var before, ev := t[..|t| - 1], LastOf(t);
    assert before + [ev] == t;
    RunOn(Drawing(CLONE_ATTEMPTS), before, ev);
    MutationsAppend(before, [ev]);
    MutationsOne(ev);
    ReadyFrom(Run(Drawing(CLONE_ATTEMPTS), before), ev, id);
    if ev != Did(id, Start, true) {
      ReadyIsStarted(before, id);
    }
  }

  /** A tagging call that succeeded. */
  predicate Hands(ev: Event) {
    ev.Did? && ev.ok && IsTagging(ev.op)
  }

  /** There was one: CloneFromTemplate has handed its VM over. */
  predicate HandedOver(m: Trace) {
    exists i | 0 <= i < |m| :: Hands(m[i])
  }

  /** And that VM is `id`. */
  predicate HandedAs(m: Trace, id: int) {
    HandedOver(m) && forall i | 0 <= i < |m| && Hands(m[i]) :: m[i].id == id
  }

  predicate InClonePhase(pc: Pc) {
    pc.Drawing? || pc.Posting? || pc.Cloning? || pc.Scrapping? || pc.ScrapDeleting? || pc.Reading? || pc.Tagging?
  }

  /** A Create that is still in its clone phase has tagged nothing. */
  lemma {:induction false} NotHandedOver(t: Trace)
    requires InClonePhase(Run(Drawing(CLONE_ATTEMPTS), t))
    ensures !HandedOver(Mutations(t))
    decreases |t|
  {
    if t != [] {
      var before, ev := t[..|t| - 1], LastOf(t);
      assert before + [ev] == t;
      RunOn(Drawing(CLONE_ATTEMPTS), before, ev);
      MutationsAppend(before, [ev]);
      NotHandedOver(before);
      TaggingLeaves(Run(Drawing(CLONE_ATTEMPTS), before), ev);
      MutationsOne(ev);
    }
  }

  lemma TaggingLeaves(pc: Pc, ev: Event)
    requires InClonePhase(Next(pc, ev))
    ensures InClonePhase(pc) && !Hands(ev)
  {
  }

  /** When it leaves that phase, it has tagged the VM that it goes on with. */
  lemma HandsOver(t: Trace, id: int)
    requires Run(Drawing(CLONE_ATTEMPTS), t) == Configuring(id)
    ensures HandedAs(Mutations(t), id)
  {
    var before, ev := t[..|t| - 1], LastOf(t);
    assert before + [ev] == t;
    RunOn(Drawing(CLONE_ATTEMPTS), before, ev);
    var pc := Run(Drawing(CLONE_ATTEMPTS), before);
    assert pc == Tagging(id) && Hands(ev) && ev.id == id;
    NotHandedOver(before);
    MutationsAppend(before, [ev]);
    MutationsOne(ev);
    var m := Mutations(before);
    assert Mutations(t) == m + [ev] && Hands((m + [ev])[|m|]);
    assert forall i | 0 <= i < |m| :: (m + [ev])[i] == m[i];
  }

  /** And after that it tags nothing any more. */
  lemma {:induction false} StaysHanded(t: Trace, u: Trace, id: int)
    requires Run(Drawing(CLONE_ATTEMPTS), t) == Configuring(id) && Run(Drawing(CLONE_ATTEMPTS), t + u) != Astray
    ensures HandedAs(Mutations(t + u), id)
    decreases |u|
  {
    if u == [] {
      assert t + u == t;
      HandsOver(t, id);
    } else {
      var v, ev := u[..|u| - 1], LastOf(u);
      var before := t + v;
      assert t + u == before + [ev];
      RunOn(Drawing(CLONE_ATTEMPTS), before, ev);
      StaysHanded(t, v, id);
      HandsNoMore(before, ev);
      MutationsAppend(before, [ev]);
      HandedAsMore(Mutations(before), ev, id);
    }
  }

  lemma HandsNoMore(before: Trace, ev: Event)
    requires HandedOver(Mutations(before)) && Next(Run(Drawing(CLONE_ATTEMPTS), before), ev) != Astray
    ensures !Hands(ev)
  {
    if InClonePhase(Run(Drawing(CLONE_ATTEMPTS), before)) {
      NotHandedOver(before);
    }
  }

  lemma HandedAsMore(m: Trace, ev: Event, id: int)
    requires HandedAs(m, id) && !Hands(ev)
    ensures HandedAs(m + Mutations([ev]), id)
  {
    MutationsOne(ev);
    var i :| 0 <= i < |m| && Hands(m[i]);
    assert (m + Mutations([ev]))[i] == m[i];
  }

  // ---- When cloning is given up ------------------------------------------------------------

  function Listings(t: Trace): nat {
    if t == [] then 0 else Listings(t[..|t| - 1]) + if LastOf(t).Listed? then 1 else 0
  }

  /** VM `id` was cloned, but could not be read or tagged then. */
  ghost predicate CutShort(t: Trace, id: int) {
    Did(id, CloneTask, true) in t && exists ev | ev in t :: FailsAfterClone(ev, id)
  }

  predicate FailsAfterClone(ev: Event, id: int) {
    ev == Got(id, None) || (ev.Did? && ev.id == id && IsTagging(ev.op) && !ev.ok)
  }

  /** As long as no clone has ended well, every listing took an attempt. */
  ghost predicate AddsUp(pc: Pc, t: Trace) {
    match pc
    case Drawing(left) => HasLeft(t, left)
    case Posting(left, _) => Listings(t) + left == 11
    case Cloning(_, left) => Listings(t) + left == 10
    case Scrapping(_, left) => HasLeft(t, left)
    case ScrapDeleting(_, left) => HasLeft(t, left)
    case Reading(id) => Did(id, CloneTask, true) in t
    case Tagging(id) => Did(id, CloneTask, true) in t
    case _ => true
  }

  ghost predicate HasLeft(t: Trace, left: nat) {
    Listings(t) + left == 10 || (left == 0 && exists id :: CutShort(t, id))
  }

  lemma OneMoreEvent(t: Trace, ev: Event)
    ensures Listings(t + [ev]) == Listings(t) + if ev.Listed? then 1 else 0
    ensures forall left | !ev.Listed? && HasLeft(t, left) :: HasLeft(t + [ev], left)
    ensures forall id | Did(id, CloneTask, true) in t && FailsAfterClone(ev, id) :: HasLeft(t + [ev], 0)
  {
    var more := t + [ev];
    assert more[..|t|] == t && LastOf(more) == ev && ev in more;
    if id :| CutShort(t, id) {
      assert CutShort(more, id);
    }
    forall id | Did(id, CloneTask, true) in t && FailsAfterClone(ev, id)
      ensures HasLeft(more, 0)
    {
      assert CutShort(more, id);
    }
  }

  lemma AddsUpStep(pc: Pc, t: Trace, ev: Event)
    requires AddsUp(pc, t)
    ensures AddsUp(Next(pc, ev), t + [ev])
  {
    OneMoreEvent(t, ev);
  }

  lemma {:induction false} AddsUpAlways(t: Trace)
    ensures AddsUp(Run(Drawing(CLONE_ATTEMPTS), t), t)
    decreases |t|
  {
    if t != [] {
      var before, ev := t[..|t| - 1], LastOf(t);
      assert before + [ev] == t;
      RunOn(Drawing(CLONE_ATTEMPTS), before, ev);
      AddsUpAlways(before);
      AddsUpStep(Run(Drawing(CLONE_ATTEMPTS), before), before, ev);
    }
  }

  lemma {:induction false} NeverBack(pc: Pc, u: Trace)
    requires !InClonePhase(pc)
    ensures !InClonePhase(Run(pc, u))
    decreases |u|
  {
    if u != [] {
      if InClonePhase(Next(pc, u[0])) {
        TaggingLeaves(pc, u[0]);
      }
      NeverBack(Next(pc, u[0]), u[1..]);
    }
  }

  lemma FromTagging(u: Trace, id: int)
    requires Run(Tagging(id), u) == Drawing(0)
    ensures u != [] && FailsAfterClone(u[0], id)
  {
    var pc := Next(Tagging(id), u[0]);
    if pc == Astray {
      StaysAstray(u[1..]);
    } else if pc == Configuring(id) {
      NeverBack(pc, u[1..]);
    }
  }

  lemma FromReading(u: Trace, id: int) returns (ev: Event)
    requires Run(Reading(id), u) == Drawing(0)
    ensures ev in u && FailsAfterClone(ev, id)
  {
    var pc := Next(Reading(id), u[0]);
    if pc == Astray {
      StaysAstray(u[1..]);
    } else if pc == Tagging(id) {
      FromTagging(u[1..], id);
      ev := u[1];
    } else {
      ev := u[0];
    }
  }

  /** A Create that has cloned its VM and is to start over could not read or tag it. */
  lemma CutShortAfterReading(t: Trace, after: Trace, id: int)
    requires Run(Drawing(CLONE_ATTEMPTS), t) == Reading(id) && t <= after
    requires Run(Drawing(CLONE_ATTEMPTS), after) == Drawing(0)
    ensures CutShort(after, id)
  {
    var u := after[|t|..];
    assert after == t + u;
    AddsUpAlways(t);
    RunAppend(Drawing(CLONE_ATTEMPTS), t, u);
    var ev := FromReading(u, id);
  }

  /** A Create that has no attempt left has listed the VMs ten times, or its clone could not be read or tagged. */
  lemma NoAttemptLeft(t: Trace)
    requires var pc := Run(Drawing(CLONE_ATTEMPTS), t); pc == Drawing(0) || (pc.Posting? && pc.left == 1)
    ensures Listings(t) == 10 || exists id :: CutShort(t, id)
  {
    AddsUpAlways(t);
  }

  /** A Remove changes one VM only, the persisted one if there is one: it powers it off, if at all, before
      it deletes it, and never deletes again what a delete has removed. */
  lemma RemoveInOrder(want: int, name: string, t: Trace)
    requires Run(Looking(want, name), t) != Astray
    ensures Removal(want, Mutations(t))
  {
    RunIsAllowed(Looking(want, name), t);
  }

  // ---- What a delete is based on -----------------------------------------------------------

  /** Call number `g` fetched VM `id` and found the tag on it. */
  predicate TagSeen(t: Trace, g: nat, id: int) {
    g < |t| && t[g].Got? && t[g].id == id && t[g].vm.Some? && HasTag(t[g].vm.value, MACHINE_TAG)
  }

  /** Call number `h` shut the VM down or stopped it. */
  predicate PoweredOff(t: Trace, h: nat, id: int) {
    h < |t| && (t[h] == Did(id, Shutdown, true) || t[h] == Did(id, Stop, true))
  }

  /** The VM was seen with the tag, and if it was running then, it was powered off afterwards. */
  ghost predicate Guarded(t: Trace, id: int) {
    exists g: nat :: TagSeen(t, g, id) && (t[g].vm.value.running ==> exists h: nat :: g < h && PoweredOff(t, h, id))
  }

  ghost predicate SomeTagSeen(t: Trace, id: int) {
    exists g: nat :: TagSeen(t, g, id)
  }

  /** What the calls so far prove about the VM that a process in state `pc` is about to touch. */
  ghost predicate Evidence(pc: Pc, t: Trace) {
    match pc
    case Cloning(id, _) => ClonePost(id, true) in t
    case Scrapping(id, _) => ClonePost(id, true) in t
    case ScrapDeleting(id, _) => ClonePost(id, true) in t
    case Reading(id) => ClonePost(id, true) in t
    case Tagging(id) => ClonePost(id, true) in t
    case Halting(id) => SomeTagSeen(t, id)
    case Stopping(id) => SomeTagSeen(t, id)
    case Deleting(id, _) => Guarded(t, id)
    case _ => true
  }

  lemma EvidenceLasts(t: Trace, ev: Event, id: int)
    ensures SomeTagSeen(t, id) ==> SomeTagSeen(t + [ev], id)
    ensures Guarded(t, id) ==> Guarded(t + [ev], id)
  {
    if g: nat :| TagSeen(t, g, id) {
      assert TagSeen(t + [ev], g, id);
    }
    if Guarded(t, id) {
      var g: nat :| TagSeen(t, g, id) && (t[g].vm.value.running ==> exists h: nat :: g < h && PoweredOff(t, h, id));
      assert TagSeen(t + [ev], g, id);
      if t[g].vm.value.running {
        var h: nat :| g < h && PoweredOff(t, h, id);
        assert PoweredOff(t + [ev], h, id);
      }
    }
  }

  lemma PowerOffGuards(t: Trace, ev: Event, id: int)
    requires SomeTagSeen(t, id) && (ev == Did(id, Shutdown, true) || ev == Did(id, Stop, true))
    ensures Guarded(t + [ev], id)
  {
    var g: nat :| TagSeen(t, g, id);
    assert TagSeen(t + [ev], g, id) && PoweredOff(t + [ev], |t|, id);
  }

  lemma FetchIsEvidence(t: Trace, ev: Event)
    requires ev.Got? && ev.vm.Some? && HasTag(ev.vm.value, MACHINE_TAG)
    ensures SomeTagSeen(t + [ev], ev.id) && (!ev.vm.value.running ==> Guarded(t + [ev], ev.id))
  {
    assert TagSeen(t + [ev], |t|, ev.id);
  }

  lemma NextEvidence(pc: Pc, t: Trace, ev: Event)
    requires Evidence(pc, t)
    ensures Evidence(Next(pc, ev), t + [ev])
  {
    var next := Next(pc, ev);
    if next.Halting? {
      FetchIsEvidence(t, ev);
    } else if next.Stopping? {
      EvidenceLasts(t, ev, next.id);
    } else if next.Deleting? {
      if pc.Deleting? {
        EvidenceLasts(t, ev, next.id);
      } else if pc.Halting? || pc.Stopping? {
        PowerOffGuards(t, ev, next.id);
      } else {
        FetchIsEvidence(t, ev);
      }
    }
  }

  lemma {:induction false} RunEvidence(start: Pc, t: Trace)
    requires start.Drawing? || start.Looking?
    ensures Evidence(Run(start, t), t)
    decreases |t|
  {
    if t != [] {
      var before := t[..|t| - 1];
      assert before + [LastOf(t)] == t;
      RunEvidence(start, before);
      RunOn(start, before, LastOf(t));
      NextEvidence(Run(start, before), before, LastOf(t));
    }
  }

  /** Every delete is justified. A Create or Remove deletes a VM only if an earlier call of the same
      process had its clone accepted under that VMID, or fetched it with the tag on it, in which case
      the VM was not running or has since been powered off. */
  lemma DeletesAreJustified(start: Pc, t: Trace, id: int, ok: bool)
    requires start.Drawing? || start.Looking?
    requires Run(start, t + [Did(id, Delete, ok)]) != Astray
    ensures ClonePost(id, true) in t || Guarded(t, id)
    ensures start.Looking? ==> Guarded(t, id)
  {
    RunEvidence(start, t);
    RunOn(start, t, Did(id, Delete, ok));
    RemoversStay(start, t);
    assert Run(start, t).ScrapDeleting? || Run(start, t).Deleting?;
  }

  predicate Removing(pc: Pc) {
    pc.Looking? || pc.Searching? || pc.Halting? || pc.Stopping? || pc.Deleting? || pc.Stopped? || pc.Astray?
  }

  lemma {:induction false} RemoversStay(start: Pc, t: Trace)
    ensures Removing(start) ==> Removing(Run(start, t))
    decreases |t|
  {
    if t != [] && Removing(start) {
      RemoversStay(Next(start, t[0]), t[1..]);
    }
  }
}
