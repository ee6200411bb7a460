/** pkg/pve/retry.go: bounded retries with exponential, capped and jittered waits. Times are in
    nanoseconds, as in Go's time.Duration. */
module Backoff {
  import opened Text
  import opened Protocol
  import Pve

  const SECOND := 1_000_000_000
  const MAX_BACKOFF := 30 * SECOND
  const MAX_DURATION := MAX_INT

  /** How a retried operation ended. `Exhausted(None)` is the error returned when no attempt was allowed. */
  datatype Verdict<+E> = Success | Permanent(error: E) | Exhausted(last: Option<E>) | Cancelled

  /** The specification as a recursion over the stream of outcomes: from run `i` on, the number of
      runs made in all and the verdict. `outcome(i)` is None when run i succeeds, and `cancelled(i)`
      says whether the context ends the wait that follows run i. */
  function Outcome<E>(attempts: int, retryable: E -> bool, outcome: nat -> Option<E>, cancelled: nat -> bool, i: nat)
    : (nat, Verdict<E>)
    decreases attempts - i
  {
    if i >= attempts then (i, Exhausted(None))
    else
      match outcome(i)
      case None => (i + 1, Success)
      case Some(e) =>
        if !retryable(e) then (i + 1, Permanent(e))
        else if i + 1 == attempts then (i + 1, Exhausted(Some(e)))
        else if cancelled(i) then (i + 1, Cancelled)
        else Outcome(attempts, retryable, outcome, cancelled, i + 1)
  }

  /** The same specification seen from outside: the recorded outcomes of the runs explain the verdict.
      Only the last run can have succeeded or failed for good, and giving up takes all attempts. */
  ghost predicate Explains<E>(attempts: int, retryable: E -> bool, runs: seq<Option<E>>, verdict: Verdict<E>) {
    && (forall i | 0 <= i < |runs| - 1 :: runs[i].Some? && retryable(runs[i].value))
    && (runs == [] <==> attempts <= 0)
    && (attempts > 0 ==> |runs| <= attempts)
    && match verdict
       case Success => runs != [] && runs[|runs| - 1] == None
       case Permanent(e) => runs != [] && runs[|runs| - 1] == Some(e) && !retryable(e)
       case Exhausted(None) => runs == []
       case Exhausted(Some(e)) => runs != [] && |runs| == attempts && runs[|runs| - 1] == Some(e) && retryable(e)
       case Cancelled => 0 < |runs| < attempts && runs[|runs| - 1].Some? && retryable(runs[|runs| - 1].value)
  }

  /** Whether the context ended exactly the wait after the last run, and none before it. */
  ghost predicate CancelsMatch<E>(cancelled: nat -> bool, n: nat, verdict: Verdict<E>) {
    && (forall i: nat | i < n - 1 :: !cancelled(i))
    && (verdict.Cancelled? ==> n > 0 && cancelled(n - 1))
  }

  /** A loop of Retry that has ended, as far as the runs and the context show. */
  ghost predicate Ran<E>(attempts: int, retryable: E -> bool, cancelled: nat -> bool, runs: seq<Option<E>>,
                         verdict: Verdict<E>)
  {
    Explains(attempts, retryable, runs, verdict) && CancelsMatch(cancelled, |runs|, verdict)
  }

  /** One that has not: every run failed in a retryable way, and no wait was cancelled. */
  ghost predicate Pending<E>(retryable: E -> bool, cancelled: nat -> bool, runs: seq<Option<E>>) {
    forall k | 0 <= k < |runs| :: runs[k].Some? && retryable(runs[k].value) && !cancelled(k)
  }

  /** What one more run makes of a pending loop. */
  lemma OneMoreRun<E>(attempts: int, retryable: E -> bool, cancelled: nat -> bool, runs: seq<Option<E>>, e: Option<E>)
    requires Pending(retryable, cancelled, runs) && |runs| < attempts
    ensures e == None ==> Ran(attempts, retryable, cancelled, runs + [e], Success)
    ensures e.Some? && !retryable(e.value) ==> Ran(attempts, retryable, cancelled, runs + [e], Permanent(e.value))
    ensures e.Some? && retryable(e.value) ==>
              if |runs| + 1 == attempts then Ran(attempts, retryable, cancelled, runs + [e], Exhausted(e))
              else if cancelled(|runs|) then Ran(attempts, retryable, cancelled, runs + [e], Cancelled)
              else Pending(retryable, cancelled, runs + [e])
  {
  }

  function Prefix<E>(outcome: nat -> Option<E>, n: nat): (runs: seq<Option<E>>) {
    seq(n, i requires 0 <= i < n => outcome(i))
  }

  lemma {:induction false} OutcomeFrom<E>(attempts: int, retryable: E -> bool, outcome: nat -> Option<E>,
                                          cancelled: nat -> bool, i: nat, n: nat, verdict: Verdict<E>)
    requires i < attempts
    requires forall k: nat | k < i :: outcome(k).Some? && retryable(outcome(k).value) && !cancelled(k)
    ensures Outcome(attempts, retryable, outcome, cancelled, i) == (n, verdict)
            <==> i < n && Ran(attempts, retryable, cancelled, Prefix(outcome, n), verdict)
    decreases attempts - i
  {
    var runs := Prefix(outcome, n);
    assert n > 0 ==> runs[|runs| - 1] == outcome(n - 1);
    if outcome(i).Some? && retryable(outcome(i).value) && i + 1 != attempts && !cancelled(i) {
      OutcomeFrom(attempts, retryable, outcome, cancelled, i + 1, n, verdict);
    } else if i < n - 1 {
      assert runs[i] == outcome(i);
    }
  }

  /** The two specifications agree on every stream: the recursion yields (n, verdict) exactly when
      the first n outcomes explain the verdict. In particular the verdict is Success exactly when
      the last run succeeded, and every earlier run failed in a retryable way. */
  lemma OutcomeIsExplained<E>(attempts: int, retryable: E -> bool, outcome: nat -> Option<E>, cancelled: nat -> bool,
                              n: nat, verdict: Verdict<E>)
    ensures Outcome(attempts, retryable, outcome, cancelled, 0) == (n, verdict)
            <==> Explains(attempts, retryable, Prefix(outcome, n), verdict) && CancelsMatch(cancelled, n, verdict)
  {
    if attempts > 0 {
      OutcomeFrom(attempts, retryable, outcome, cancelled, 0, n, verdict);
    }
  }

  function Pow2(k: nat): nat {
    if k == 0 then 1 else 2 * Pow2(k - 1)
  }

  /** `base` doubled k times. */
  function Doubled(base: nat, k: nat): (t: nat)
    ensures t >= base
  {
    if k == 0 then base else 2 * Doubled(base, k - 1)
  }

  /** The k-th wait before jitter. The first wait is never capped. */
  function Nominal(base: nat, k: nat): nat {
    if k == 0 || Doubled(base, k) <= MAX_BACKOFF then Doubled(base, k) else MAX_BACKOFF
  }

  lemma {:induction false} DoubledIsPower(base: nat, k: nat)
    ensures Doubled(base, k) == base * Pow2(k)
  {
    if k > 0 {
      DoubledIsPower(base, k - 1);
      Twice(base, Pow2(k - 1));
    }
  }

  lemma Twice(a: nat, b: nat)
    ensures a * (2 * b) == 2 * (a * b)
  {
  }

  /** The nominal waits in closed form: min(base * 2^k, 30 s) for every base of at most 30 s. */
  lemma NominalClosedForm(base: nat, k: nat)
    requires base <= MAX_BACKOFF
    ensures Nominal(base, k) == if base * Pow2(k) <= MAX_BACKOFF then base * Pow2(k) else MAX_BACKOFF
  {
    DoubledIsPower(base, k);
  }

  function NominalSum(base: nat, n: nat): nat {
    if n == 0 then 0 else NominalSum(base, n - 1) + Nominal(base, n - 1)
  }

  function Sum(waits: seq<nat>): nat {
    if waits == [] then 0 else Sum(waits[..|waits| - 1]) + waits[|waits| - 1]
  }

  /** Doubling a capped wait and capping again follows the closed form. */
  lemma NominalDoubles(base: nat, k: nat)
    requires base > 0
    ensures Nominal(base, k) > 0
    ensures Nominal(base, k + 1) == NextDelay(Nominal(base, k))
  {
    assert Doubled(base, k + 1) == 2 * Doubled(base, k);
  }

  /** Each recorded wait lies within half below and half above its nominal length. */
  ghost predicate Jittered(base: nat, waits: seq<nat>) {
    forall k | 0 <= k < |waits| ::
      Nominal(base, k) / 2 <= waits[k] < Nominal(base, k) / 2 + Nominal(base, k)
  }

  /** The k-th wait: half the nominal length plus rand.Int63n of it, where rand.Int63n(n) is `roll(k) % n`. */
  function Wait(base: nat, roll: nat -> nat, k: nat): nat
    requires base > 0
  {
    NominalDoubles(base, k);
    Nominal(base, k) / 2 + roll(k) % Nominal(base, k)
  }

  /** The waits a loop of Retry has started, with a given random source. */
  ghost predicate Paused(base: nat, roll: nat -> nat, waits: seq<nat>)
    requires base > 0
  {
    forall k | 0 <= k < |waits| :: waits[k] == Wait(base, roll, k)
  }

  /** Retry's next delay: doubled, up to the maximum. */
  function NextDelay(delay: nat): nat {
    if 2 * delay > MAX_BACKOFF then MAX_BACKOFF else 2 * delay
  }

  lemma WaitsAreJittered(base: nat, roll: nat -> nat, waits: seq<nat>)
    requires base > 0 && Paused(base, roll, waits)
    ensures Jittered(base, waits)
  {
    forall k | 0 <= k < |waits|
      ensures Nominal(base, k) / 2 <= waits[k] < Nominal(base, k) / 2 + Nominal(base, k)
    {
      NominalDoubles(base, k);
    }
  }

  /** How many waits a loop that has ended has started: one after every run but the last, and one after the
      last if it was cancelled. */
  function Pauses<E>(runs: nat, verdict: Verdict<E>): nat {
    if runs == 0 then 0 else if verdict.Cancelled? then runs else runs - 1
  }

  lemma OnePause(base: nat, roll: nat -> nat, waits: seq<nat>, delay: nat)
    requires base > 0 && Paused(base, roll, waits) && 0 < delay == Nominal(base, |waits|)
    ensures Paused(base, roll, waits + [delay / 2 + roll(|waits|) % delay])
    ensures 0 < NextDelay(delay) == Nominal(base, |waits| + 1)
  {
    NominalDoubles(base, |waits|);
  }

  /** A loop of Retry in full: its runs, its waits, and what comes next. */
  ghost predicate Going<E>(attempts: int, base: nat, retryable: E -> bool, cancelled: nat -> bool, roll: nat -> nat,
                           runs: seq<Option<E>>, waits: seq<nat>, delay: nat)
    requires base > 0
  {
    && |runs| == |waits| < attempts && Pending(retryable, cancelled, runs)
    && Paused(base, roll, waits) && 0 < delay == Nominal(base, |waits|)
  }

  ghost predicate Finished<E>(attempts: int, base: nat, retryable: E -> bool, cancelled: nat -> bool, roll: nat -> nat,
                              runs: seq<Option<E>>, waits: seq<nat>, verdict: Verdict<E>)
    requires base > 0
  {
    && Ran(attempts, retryable, cancelled, runs, verdict)
    && |waits| == Pauses(|runs|, verdict) && Paused(base, roll, waits)
  }

  lemma SleptOn(first: seq<nat>, waits: seq<nat>, time: nat)
    ensures first + waits + [time] == first + (waits + [time])
  {
  }

  /** What Retry does after a run with outcome `e`: return with a verdict, or wait and go on. Operations that
      change the cluster cannot be handed to Retry below, so their loops share this step instead. */
  method Decide<E>(c: Pve.Cluster, attempts: int, base: nat, retryable: E -> bool, cancelled: nat -> bool,
                   roll: nat -> nat, runs: seq<Option<E>>, e: Option<E>, waits: seq<nat>, delay: nat,
                   ghost first: seq<nat>)
    returns (verdict: Option<Verdict<E>>, started: seq<nat>, next: nat)
    requires base > 0 && Going(attempts, base, retryable, cancelled, roll, runs, waits, delay)
    requires c.Valid() && c.waits == first + waits
    modifies c`waits
    ensures c.Valid() && c.waits == first + started
    ensures verdict == None ==> Going(attempts, base, retryable, cancelled, roll, runs + [e], started, next)
    ensures verdict.Some? ==> Finished(attempts, base, retryable, cancelled, roll, runs + [e], started, verdict.value)
    ensures match verdict
            case None => e.Some? && retryable(e.value) && |runs| + 1 < attempts
            case Some(Success) => e == None
            case Some(Permanent(error)) => e == Some(error) && !retryable(error)
            case Some(Exhausted(last)) => e == last && e.Some? && |runs| + 1 == attempts
            case Some(Cancelled) => e.Some? && |runs| + 1 < attempts && cancelled(|runs|)
  {
    OneMoreRun(attempts, retryable, cancelled, runs, e);
    started, next := waits, delay;
    if e == None {
      return Some(Success), started, next;
    }
    if !retryable(e.value) {
      return Some(Permanent(e.value)), started, next;
    }
    if |runs| + 1 == attempts {
      return Some(Exhausted(e)), started, next;
    }
    OnePause(base, roll, waits, delay);
    var jittered := delay / 2 + roll(|runs|) % delay;
    SleptOn(first, waits, jittered);
    c.Sleep(jittered);
    started := waits + [jittered];
    if cancelled(|runs|) {
      return Some(Cancelled), started, next;
    }
    return None, started, NextDelay(delay);
  }

  /** Retry. `outcome`, `cancelled` and `roll` stand for the operation, the context and the random
      source. Also returns the jittered waits it started. */
  method Retry<E>(attempts: int, base: nat, retryable: E -> bool,
                  outcome: nat -> Option<E>, cancelled: nat -> bool, roll: nat -> nat)
    returns (verdict: Verdict<E>, runs: nat, waits: seq<nat>)
    requires 0 < base && 2 * base <= MAX_DURATION
    ensures (runs, verdict) == Outcome(attempts, retryable, outcome, cancelled, 0)
    ensures |waits| == Pauses(runs, verdict)
    ensures Paused(base, roll, waits)
  {
    var err: Option<E> := None;
    var delay := base;
    waits := [];
    var i := 0;
    while i < attempts
      invariant 0 < delay == Nominal(base, i) && 2 * delay <= MAX_DURATION
      invariant i == |waits|
      invariant i == 0 ==> err == None
      invariant Outcome(attempts, retryable, outcome, cancelled, 0) ==
                Outcome(attempts, retryable, outcome, cancelled, i)
      invariant i == 0 || i < attempts
      invariant Paused(base, roll, waits)
    {
      err := outcome(i);
      if err == None {
        return Success, i + 1, waits;
      }
      if !retryable(err.value) {
        return Permanent(err.value), i + 1, waits;
      }
      if i + 1 == attempts {
        return Exhausted(err), i + 1, waits;
      }
      waits := waits + [delay / 2 + roll(i) % delay];
      if cancelled(i) {
        return Cancelled, i + 1, waits;
      }
      NominalDoubles(base, i);
      delay := NextDelay(delay);
      i := i + 1;
    }
    return Exhausted(err), 0, waits;
  }

  /** The total wait is at least half the nominal total, up to a nanosecond for each wait, and less than one
      and a half times the nominal total. */
  lemma {:induction false} TotalWait(base: nat, waits: seq<nat>)
    requires 0 < base && Jittered(base, waits)
    ensures NominalSum(base, |waits|) <= 2 * Sum(waits) + |waits|
    ensures waits != [] ==> 2 * Sum(waits) < 3 * NominalSum(base, |waits|)
  {
    if waits != [] {
      var n := |waits| - 1;
      assert waits[..n + 1] == waits;
      assert forall k | 0 <= k < n :: waits[..n][k] == waits[k];
      TotalWait(base, waits[..n]);
    }
  }

  lemma {:induction false} NominalEven(base: nat, k: nat)
    requires base % 2 == 0
    ensures Nominal(base, k) % 2 == 0
  {
    DoubledIsPower(base, k);
    EvenTimes(base, Pow2(k));
  }

  lemma EvenTimes(a: nat, b: nat)
    requires a % 2 == 0
    ensures (a * b) % 2 == 0
  {
    var half := a / 2;
    assert a * b == 2 * (half * b);
  }

  /** For an even base there is nothing to round. */
  lemma {:induction false} TotalWaitEven(base: nat, waits: seq<nat>)
    requires 0 < base && base % 2 == 0 && Jittered(base, waits)
    ensures NominalSum(base, |waits|) <= 2 * Sum(waits)
  {
    if waits != [] {
      var n := |waits| - 1;
      NominalEven(base, n);
      assert waits[..n + 1] == waits;
      assert forall k | 0 <= k < n :: waits[..n][k] == waits[k];
      TotalWaitEven(base, waits[..n]);
    }
  }

  const BACKOFF_BASE := 2 * SECOND

  lemma CloneNominalSum()
    ensures NominalSum(BACKOFF_BASE, 9) == 180 * SECOND
  {
    var b := BACKOFF_BASE;
    NominalDoubles(b, 0);
    NominalDoubles(b, 1);
    NominalDoubles(b, 2);
    NominalDoubles(b, 3);
    NominalDoubles(b, 4);
    NominalDoubles(b, 5);
    NominalDoubles(b, 6);
    NominalDoubles(b, 7);
    assert NominalSum(b, 1) == 2 * SECOND;
    assert NominalSum(b, 2) == 6 * SECOND;
    assert NominalSum(b, 3) == 14 * SECOND;
    assert NominalSum(b, 4) == 30 * SECOND;
    assert NominalSum(b, 6) == NominalSum(b, 5) + 30 * SECOND == 90 * SECOND;
    assert NominalSum(b, 8) == NominalSum(b, 7) + 30 * SECOND == 150 * SECOND;
  }

  /** A clone that gives up after its ten attempts has waited between 90 and 270 seconds. */
  lemma CloneGivesUpAfter<E>(retryable: E -> bool, cancelled: nat -> bool, roll: nat -> nat, runs: seq<Option<E>>,
                             verdict: Verdict<E>, waits: seq<nat>)
    requires Finished(CLONE_ATTEMPTS, BACKOFF_BASE, retryable, cancelled, roll, runs, waits, verdict) &&
              verdict.Exhausted?
    ensures 90 * SECOND <= Sum(waits) < 270 * SECOND
  {
    WaitsAreJittered(BACKOFF_BASE, roll, waits);
    TotalWait(BACKOFF_BASE, waits);
    TotalWaitEven(BACKOFF_BASE, waits);
    CloneNominalSum();
  }
}
