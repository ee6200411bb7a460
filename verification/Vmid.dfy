/** pkg/pve/clone.go, randomFreeVMID and countUsedIn: a random VMID that a listing does not use. */
module Vmid {
  import opened Text
  import opened Protocol

  predicate Uses(rows: seq<Row>, id: int) {
    exists i | 0 <= i < |rows| :: rows[i].vmid == id
  }

  /** The VMIDs of [lo, hi]. */
  function Range(lo: int, hi: int): (ids: set<int>)
    ensures forall id :: id in ids <==> lo <= id <= hi
    decreases hi - lo
  {
    if lo > hi then {} else Range(lo, hi - 1) + {hi}
  }

  lemma {:induction false} RangeSize(lo: int, hi: int)
    ensures |Range(lo, hi)| == if lo <= hi then hi - lo + 1 else 0
    decreases hi - lo
  {
    if lo <= hi {
      RangeSize(lo, hi - 1);
    }
  }

  lemma SubsetSize(a: set<int>, b: set<int>)
    requires a <= b
    ensures |a| <= |b| && (|a| == |b| <==> a == b)
  {
    assert b == a + (b - a);
    assert |b| == |a| + |b - a|;
  }

  /** Pigeonhole: as many used ids in the range as it has ids means that all of them are used. */
  lemma Pigeonhole(used: set<int>, lo: int, hi: int)
    ensures InRange(used, lo, hi) >= hi - lo + 1 <==> forall id | lo <= id <= hi :: id in used
  {
    var inside := used * Range(lo, hi);
    RangeSize(lo, hi);
    SubsetSize(inside, Range(lo, hi));
    if forall id | lo <= id <= hi :: id in used {
      assert inside == Range(lo, hi);
    } else {
      var id :| lo <= id <= hi && id !in used;
      assert id in Range(lo, hi) && id !in inside;
    }
  }

  /** How many of the ids lie in the range. */
  ghost function InRange(ids: set<int>, lo: int, hi: int): nat {
    |ids * Range(lo, hi)|
  }

  lemma CountOneMore(seen: set<int>, id: int, lo: int, hi: int)
    requires id !in seen
    ensures InRange(seen + {id}, lo, hi) == InRange(seen, lo, hi) + if lo <= id <= hi then 1 else 0
  {
    var range := Range(lo, hi);
    if lo <= id <= hi {
      assert (seen + {id}) * range == seen * range + {id};
    } else {
      assert (seen + {id}) * range == seen * range;
    }
  }

  method CountUsedIn(used: set<int>, lo: int, hi: int) returns (n: nat)
    ensures n == InRange(used, lo, hi)
  {
    n := 0;
    var rest := used;
    ghost var seen: set<int> := {};
    assert InRange(seen, lo, hi) == 0;
    while rest != {}
      invariant seen !! rest && seen + rest == used
      invariant n == InRange(seen, lo, hi)
      decreases rest
    {
      var id :| id in rest;
      CountOneMore(seen, id, lo, hi);
      rest := rest - {id};
      seen := seen + {id};
      if id >= lo && id <= hi {
        n := n + 1;
      }
    }
    assert seen == used;
  }

  /** The id that draw number k of rand.Intn(span) leads to. */
  function Drawn(draws: nat -> nat, lo: int, span: nat, k: nat): (id: int)
    requires span > 0
    ensures lo <= id < lo + span
  {
    lo + draws(k) % span
  }

  /** Whether draw `k` or a later one gives `v` out of `n`. */
  ghost predicate Hits(draws: nat -> nat, n: nat, v: nat, from: nat)
    requires n > 0
  {
    exists k: nat :: from <= k && draws(k) % n == v
  }

  /** A random source that never stops producing any of the values it is asked for. */
  ghost predicate Fair(draws: nat -> nat) {
    forall n: nat, v: nat, from: nat | v < n :: Hits(draws, n, v, from)
  }

  /** All draws from `from` to before `end` lead to ids that the listing uses. */
  ghost predicate Taken(rows: seq<Row>, draws: nat -> nat, lo: int, span: nat, from: nat, end: nat)
    requires span > 0
  {
    forall k: nat | from <= k < end :: Uses(rows, Drawn(draws, lo, span, k))
  }

  /** randomFreeVMID on the rows of a listing. `next` is the number of draws made so far. It fails
      exactly when the range is full, and otherwise stops at the first draw that the listing does
      not use. */
  method RandomFreeVmid(rows: seq<Row>, lo: int, hi: int, draws: nat -> nat, from: nat)
      returns (r: Option<int>, next: nat)
    requires Fair(draws)
    ensures r == None <==> forall id | lo <= id <= hi :: Uses(rows, id)
    ensures r == None ==> next == from
    ensures r.Some? ==> lo <= r.value <= hi && !Uses(rows, r.value)
    ensures r.Some? ==> from < next && r.value == Drawn(draws, lo, hi - lo + 1, next - 1)
    ensures r.Some? ==> Taken(rows, draws, lo, hi - lo + 1, from, next - 1)
  {
    var used := UsedIds(rows);
    var span := hi - lo + 1;
    var inUse := CountUsedIn(used, lo, hi);
    Pigeonhole(used, lo, hi);
    if span - inUse <= 0 {
      return None, from;
    }
    ghost var free :| lo <= free <= hi && free !in used;
    var id;
    id, next := Draw(used, lo, span, draws, from, free);
    return Some(id), next;
  }

  method UsedIds(rows: seq<Row>) returns (used: set<int>)
    ensures forall id :: id in used <==> Uses(rows, id)
  {
    used := {};
    for i := 0 to |rows|
      invariant forall id :: id in used <==> exists k | 0 <= k < i :: rows[k].vmid == id
    {
      used := used + {rows[i].vmid};
    }
  }

  /** The draw loop, which ends because a fair source gives a free id sooner or later. */
  method Draw(used: set<int>, lo: int, span: nat, draws: nat -> nat, from: nat, ghost free: int)
      returns (id: int, next: nat)
    requires Fair(draws) && lo <= free < lo + span && free !in used
    ensures lo <= id < lo + span && id !in used && from < next && id == Drawn(draws, lo, span, next - 1)
    ensures forall k: nat | from <= k < next - 1 :: Drawn(draws, lo, span, k) in used
  {
    assert Hits(draws, span, free - lo, from);
    ghost var hit: nat :| from <= hit && draws(hit) % span == free - lo;
    next := from;
    while true
      invariant from <= next <= hit
      invariant forall k: nat | from <= k < next :: Drawn(draws, lo, span, k) in used
      decreases hit - next
    {
      id := Drawn(draws, lo, span, next);
      next := next + 1;
      if id !in used {
        return;
      }
    }
  }
}
