/** pkg/pve/resources.go, ResolveTemplate: which row of a listing a template reference means. */
module Resolve {
  import opened Text
  import opened Protocol
  import opened Pve

  // ---- Sorting names -----------------------------------------------------------------------

  /** Go's order on strings. */
  predicate AtMost(a: string, b: string) {
    a == "" || (b != "" && (a[0] < b[0] || (a[0] == b[0] && AtMost(a[1..], b[1..]))))
  }

  lemma {:induction false} Total(a: string, b: string)
    ensures AtMost(a, b) || AtMost(b, a)
    ensures AtMost(a, b) && AtMost(b, a) ==> a == b
  {
    if a != "" && b != "" && a[0] == b[0] {
      Total(a[1..], b[1..]);
      assert a == [a[0]] + a[1..] && b == [b[0]] + b[1..];
    }
  }

  lemma {:induction false} Transitive(a: string, b: string, c: string)
    requires AtMost(a, b) && AtMost(b, c)
    ensures AtMost(a, c)
  {
    if a != "" && a[0] == b[0] == c[0] {
      Transitive(a[1..], b[1..], c[1..]);
    }
  }

  predicate IsSorted(s: seq<string>) {
    forall i, j | 0 <= i < j < |s| :: AtMost(s[i], s[j])
  }

  /** The texts with one more put in its place. */
  function Inserted(x: string, s: seq<string>): (r: seq<string>)
    requires IsSorted(s)
    ensures IsSorted(r) && multiset(r) == multiset(s) + multiset{x}
  {
    if s == [] then [x]
    else if AtMost(x, s[0]) then
      assert s == [s[0]] + s[1..];
      FrontIsLeast(x, s);
      [x] + s
    else
      assert s == [s[0]] + s[1..];
      var r := Inserted(x, s[1..]);
      Total(x, s[0]);
      FrontStaysLeast(s[0], x, s[1..], r);
      [s[0]] + r
  }

  lemma FrontIsLeast(x: string, s: seq<string>)
    requires IsSorted(s) && s != [] && AtMost(x, s[0])
    ensures IsSorted([x] + s)
  {
    forall j | 0 <= j < |s|
      ensures AtMost(x, s[j])
    {
      if j > 0 {
        Transitive(x, s[0], s[j]);
      }
    }
  }

  lemma FrontStaysLeast(y: string, x: string, s: seq<string>, r: seq<string>)
    requires IsSorted([y] + s) && IsSorted(r) && AtMost(y, x) && multiset(r) == multiset(s) + multiset{x}
    ensures IsSorted([y] + r)
  {
    forall j | 0 <= j < |r|
      ensures AtMost(y, r[j])
    {
      assert r[j] in multiset(r);
      if r[j] != x {
        assert r[j] in multiset(s);
        var k :| 0 <= k < |s| && s[k] == r[j];
        assert ([y] + s)[0] == y && ([y] + s)[k + 1] == r[j];
      }
    }
  }

  /** sort.Strings. */
  function SortedNames(s: seq<string>): (r: seq<string>)
    ensures IsSorted(r) && multiset(r) == multiset(s)
  {
    if s == [] then []
    else
      assert s == [s[0]] + s[1..];
      Inserted(s[0], SortedNames(s[1..]))
  }

  /** There is only one way to sort. */
  lemma {:induction false} SortIsUnique(a: seq<string>, b: seq<string>)
    requires IsSorted(a) && IsSorted(b) && multiset(a) == multiset(b)
    ensures a == b
  {
    if a == [] {
      assert |multiset(b)| == 0;
    } else {
      assert a[0] in multiset(b) && |multiset(a)| == |multiset(b)|;
      assert b[0] in multiset(a);
      Total(a[0], b[0]);
      assert AtMost(a[0], b[0]) && AtMost(b[0], a[0]);
      assert a == [a[0]] + a[1..] && b == [b[0]] + b[1..];
      assert multiset(a[1..]) == multiset(a) - multiset{a[0]};
      assert multiset(b[1..]) == multiset(b) - multiset{b[0]};
      SortIsUnique(a[1..], b[1..]);
    }
  }

  // ---- Matching rows -----------------------------------------------------------------------

  /** A numeric reference means a VMID, every other a name. */
  predicate Matches(row: Row, ref: string) {
    row.kind.Qemu? && match Atoi(ref)
                      case Some(vmid) => row.vmid == vmid
                      case None => row.name == ref
  }

  function MatchesOf(rows: seq<Row>, ref: string): seq<Row> {
    if rows == [] then [] else (if Matches(rows[0], ref) then [rows[0]] else []) + MatchesOf(rows[1..], ref)
  }

  function TemplateNames(rows: seq<Row>): seq<string> {
    if rows == [] then []
    else (if rows[0].kind.Qemu? && rows[0].template then [rows[0].name] else []) + TemplateNames(rows[1..])
  }

  datatype Verdict =
    | Found(row: Row)
    | Ambiguous(first: int, second: int)
    | NotFound(available: seq<string>)
    | NotATemplate(row: Row)

  function Judge(matching: seq<Row>, templateNames: seq<string>): Verdict {
    if |matching| > 1 then Ambiguous(matching[0].vmid, matching[1].vmid)
    else if matching == [] then NotFound(SortedNames(templateNames))
    else if matching[0].template then Found(matching[0])
    else NotATemplate(matching[0])
  }

  function VerdictOf(rows: seq<Row>, ref: string): Verdict {
    Judge(MatchesOf(rows, ref), TemplateNames(rows))
  }

  lemma {:induction false} MatchesAppend(a: seq<Row>, b: seq<Row>, ref: string)
    ensures MatchesOf(a + b, ref) == MatchesOf(a, ref) + MatchesOf(b, ref)
  {
    if a == [] {
      assert a + b == b;
    } else {
      assert (a + b)[1..] == a[1..] + b;
      MatchesAppend(a[1..], b, ref);
    }
  }

  lemma {:induction false} NamesAppend(a: seq<Row>, b: seq<Row>)
    ensures TemplateNames(a + b) == TemplateNames(a) + TemplateNames(b)
  {
    if a == [] {
      assert a + b == b;
    } else {
      assert (a + b)[1..] == a[1..] + b;
      NamesAppend(a[1..], b);
    }
  }

  /** One more row. */
  lemma RowStep(rows: seq<Row>, i: nat, ref: string)
    requires i < |rows|
    ensures MatchesOf(rows[..i + 1], ref) == MatchesOf(rows[..i], ref) + if Matches(rows[i], ref) then [rows[i]] else []
    ensures TemplateNames(rows[..i + 1]) ==
            TemplateNames(rows[..i]) + if rows[i].kind.Qemu? && rows[i].template then [rows[i].name] else []
  {
    assert rows[..i + 1] == rows[..i] + [rows[i]];
    MatchesAppend(rows[..i], [rows[i]], ref);
    NamesAppend(rows[..i], [rows[i]]);
  }

  /** The first two matches decide. */
  lemma TwoMatches(rows: seq<Row>, i: nat, ref: string, first: Row)
    requires i < |rows| && MatchesOf(rows[..i], ref) == [first] && Matches(rows[i], ref)
    ensures VerdictOf(rows, ref) == Ambiguous(first.vmid, rows[i].vmid)
  {
    RowStep(rows, i, ref);
    assert rows == rows[..i + 1] + rows[i + 1..];
    MatchesAppend(rows[..i + 1], rows[i + 1..], ref);
  }

  /** The loop over the rows. */
  method Scan(rows: seq<Row>, ref: string) returns (v: Verdict)
    ensures v == VerdictOf(rows, ref)
  {
    var found: Option<Row> := None;
    var templateNames: seq<string> := [];
    var refVmid := Atoi(ref);
    for i := 0 to |rows|
      invariant MatchesOf(rows[..i], ref) == if found.Some? then [found.value] else []
      invariant templateNames == TemplateNames(rows[..i])
    {
      var row := rows[i];
      RowStep(rows, i, ref);
      if row.kind != Qemu {
        continue;
      }
      if row.template {
        templateNames := templateNames + [row.name];
      }
      if (refVmid.Some? && row.vmid == refVmid.value) || (refVmid == None && row.name == ref) {
        if found.Some? {
          TwoMatches(rows, i, ref, found.value);
          return Ambiguous(found.value.vmid, row.vmid);
        }
        found := Some(row);
      }
    }
    assert rows[..|rows|] == rows;
    if found == None {
      return NotFound(SortedNames(templateNames));
    }
    return if found.value.template then Found(found.value) else NotATemplate(found.value);
  }

  // ---- Reordering --------------------------------------------------------------------------

  /** Same elements, as often. */
  predicate Reordered(a: seq<Row>, b: seq<Row>) {
    multiset(a) == multiset(b)
  }

  /** The part of a list before and after the first row of another. */
  lemma PullOut(a: seq<Row>, b: seq<Row>) returns (left: seq<Row>, right: seq<Row>)
    requires a != [] && Reordered(a, b)
    ensures b == left + [a[0]] + right && Reordered(a[1..], left + right)
  {
    assert a[0] in multiset(b);
    var i :| 0 <= i < |b| && b[i] == a[0];
    left, right := b[..i], b[i + 1..];
    assert b == left + [a[0]] + right;
    assert a == [a[0]] + a[1..];
    assert multiset(left + right) == multiset(b) - multiset{a[0]};
    assert multiset(a[1..]) == multiset(a) - multiset{a[0]};
  }

  lemma MoveIn<T>(left: seq<T>, x: seq<T>, right: seq<T>, rest: seq<T>)
    requires multiset(rest) == multiset(left + right)
    ensures multiset(x + rest) == multiset(left + x + right)
  {
  }

  /** Reordering the rows reorders what is computed from them. */
  lemma {:induction false} ReorderedParts(a: seq<Row>, b: seq<Row>, ref: string)
    requires Reordered(a, b)
    ensures Reordered(MatchesOf(a, ref), MatchesOf(b, ref))
    ensures multiset(TemplateNames(a)) == multiset(TemplateNames(b))
  {
    if a == [] {
      assert |multiset(b)| == 0;
    } else {
      var left, right := PullOut(a, b);
      var rest := a[1..];
      ReorderedParts(rest, left + right, ref);
      assert a == [a[0]] + rest;
      MatchesAppend([a[0]], rest, ref);
      MatchesAppend(left, right, ref);
      MatchesAppend(left, [a[0]], ref);
      MatchesAppend(left + [a[0]], right, ref);
      MoveIn(MatchesOf(left, ref), MatchesOf([a[0]], ref), MatchesOf(right, ref), MatchesOf(rest, ref));
      NamesAppend([a[0]], rest);
      NamesAppend(left, right);
      NamesAppend(left, [a[0]]);
      NamesAppend(left + [a[0]], right);
      MoveIn(TemplateNames(left), TemplateNames([a[0]]), TemplateNames(right), TemplateNames(rest));
    }
  }

  lemma JudgeIgnoresOrder(m: seq<Row>, n: seq<Row>, a: seq<string>, b: seq<string>)
    requires Reordered(m, n) && multiset(a) == multiset(b)
    ensures Judge(m, a) == Judge(n, b) || (Judge(m, a).Ambiguous? && Judge(n, b).Ambiguous?)
  {
    assert |m| == |multiset(m)| == |multiset(n)| == |n|;
    if |m| == 1 {
      assert m[0] in multiset(n);
    }
    SortIsUnique(SortedNames(a), SortedNames(b));
  }

  /** The verdict does not depend on the order of the rows, except for which two of the matching VMIDs
      an ambiguity names. */
  lemma VerdictIgnoresOrder(a: seq<Row>, b: seq<Row>, ref: string)
    requires Reordered(a, b)
    ensures var v, w := VerdictOf(a, ref), VerdictOf(b, ref);
            v == w || (v.Ambiguous? && w.Ambiguous?)
  {
    ReorderedParts(a, b, ref);
    JudgeIgnoresOrder(MatchesOf(a, ref), MatchesOf(b, ref), TemplateNames(a), TemplateNames(b));
  }

  // ---- On the cluster ----------------------------------------------------------------------

  /** What a reference means on the cluster itself. */
  predicate Means(vms: Vms, id: int, ref: string) {
    id in vms && Matches(RowOf(id, vms[id]), ref)
  }

  lemma {:induction false} MatchesAre(rows: seq<Row>, ref: string)
    ensures forall row :: row in MatchesOf(rows, ref) <==> row in rows && Matches(row, ref)
  {
    if rows != [] {
      MatchesAre(rows[1..], ref);
      assert rows == [rows[0]] + rows[1..];
    }
  }

  ghost predicate OnlyMatch(rows: seq<Row>, ref: string, i: int) {
    && 0 <= i < |rows| && Matches(rows[i], ref)
    && forall j | 0 <= j < |rows| && j != i :: !Matches(rows[j], ref)
  }

  lemma MatchesAround(rows: seq<Row>, ref: string, i: nat)
    requires i < |rows| && Matches(rows[i], ref)
    ensures MatchesOf(rows, ref) == MatchesOf(rows[..i], ref) + [rows[i]] + MatchesOf(rows[i + 1..], ref)
  {
    var left, right := rows[..i], rows[i + 1..];
    assert rows == left + [rows[i]] + right;
    MatchesAppend(left + [rows[i]], right, ref);
    MatchesAppend(left, [rows[i]], ref);
  }

  lemma OnlyMatchCounts(rows: seq<Row>, ref: string, i: nat)
    requires i < |rows| && Matches(rows[i], ref)
    ensures OnlyMatch(rows, ref, i) <==> |MatchesOf(rows, ref)| == 1
  {
    MatchesAround(rows, ref, i);
    NoMatches(rows[..i], ref);
    NoMatches(rows[i + 1..], ref);
    OnlyMatchParts(rows, ref, i);
  }

  lemma {:induction false} NoMatches(rows: seq<Row>, ref: string)
    ensures MatchesOf(rows, ref) == [] <==> forall j | 0 <= j < |rows| :: !Matches(rows[j], ref)
  {
    if rows != [] {
      NoMatches(rows[1..], ref);
      assert forall j | 0 < j < |rows| :: rows[j] == rows[1..][j - 1];
    }
  }

  lemma OnlyMatchParts(rows: seq<Row>, ref: string, i: nat)
    requires i < |rows| && Matches(rows[i], ref)
    ensures var left, right := rows[..i], rows[i + 1..];
            OnlyMatch(rows, ref, i) <==>
              && (forall j | 0 <= j < |left| :: !Matches(left[j], ref))
              && (forall j | 0 <= j < |right| :: !Matches(right[j], ref))
  {
    assert forall j | 0 <= j < i :: rows[..i][j] == rows[j];
    assert forall j | i < j < |rows| :: rows[i + 1..][j - i - 1] == rows[j];
  }

  /** A template is found if and only if exactly one row matches and that row is a template. */
  lemma FoundExactly(rows: seq<Row>, ref: string)
    ensures VerdictOf(rows, ref).Found? <==> exists i :: OnlyMatch(rows, ref, i) && rows[i].template
    ensures VerdictOf(rows, ref).NotFound? <==> forall i | 0 <= i < |rows| :: !Matches(rows[i], ref)
  {
    MatchesAre(rows, ref);
    var m := MatchesOf(rows, ref);
    if m != [] {
      assert m[0] in m;
      var i :| 0 <= i < |rows| && rows[i] == m[0];
      OnlyMatchCounts(rows, ref, i);
      if j :| OnlyMatch(rows, ref, j) && rows[j].template {
        assert j == i;
      }
    }
  }

  /** A listing of the cluster gives the one template that the reference means, or none, or refuses:
      VMs that are no templates count as matches, too. */
  lemma FoundIsTheOne(rows: seq<Row>, vms: Vms, ref: string)
    requires Lists(rows, vms)
    ensures match VerdictOf(rows, ref)
            case Found(row) => MeansOnly(vms, row.vmid, ref) && vms[row.vmid].template &&
                row == RowOf(row.vmid, vms[row.vmid])
            case NotATemplate(row) => MeansOnly(vms, row.vmid, ref) && !vms[row.vmid].template
            case NotFound(_) => forall id :: !Means(vms, id, ref)
            case Ambiguous(a, b) => Means(vms, a, ref) && Means(vms, b, ref)
  {
    var m := MatchesOf(rows, ref);
    if m == [] {
      MeantAreListed(rows, vms, ref);
    } else {
      MatchIsMeant(rows, vms, ref, 0);
      if |m| > 1 {
        MatchIsMeant(rows, vms, ref, 1);
      } else {
        SingleMatch(rows, vms, ref);
      }
    }
  }

  ghost predicate MeansOnly(vms: Vms, id: int, ref: string) {
    Means(vms, id, ref) && forall j | Means(vms, j, ref) :: j == id
  }

  lemma SingleMatch(rows: seq<Row>, vms: Vms, ref: string)
    requires Lists(rows, vms) && |MatchesOf(rows, ref)| == 1
    ensures MeansOnly(vms, MatchesOf(rows, ref)[0].vmid, ref)
  {
    var m := MatchesOf(rows, ref);
    MatchIsMeant(rows, vms, ref, 0);
    MeantAreListed(rows, vms, ref);
    assert forall row | row in m :: row == m[0];
  }

  lemma MeantAreListed(rows: seq<Row>, vms: Vms, ref: string)
    requires Lists(rows, vms)
    ensures forall id | Means(vms, id, ref) :: RowOf(id, vms[id]) in MatchesOf(rows, ref)
  {
    MatchesAre(rows, ref);
    forall id | Means(vms, id, ref)
      ensures RowOf(id, vms[id]) in MatchesOf(rows, ref)
    {
      assert RowOf(id, vms[id]) in rows;
    }
  }

  lemma MatchIsMeant(rows: seq<Row>, vms: Vms, ref: string, i: nat)
    requires Lists(rows, vms) && i < |MatchesOf(rows, ref)|
    ensures var row := MatchesOf(rows, ref)[i]; Means(vms, row.vmid, ref) && row == RowOf(row.vmid, vms[row.vmid])
  {
    MatchesAre(rows, ref);
    var row := MatchesOf(rows, ref)[i];
    assert row in MatchesOf(rows, ref) && row in rows;
    var k :| 0 <= k < |rows| && rows[k] == row;
  }

  /** A reference that reads as a number means the VM with that VMID, any other the VMs of that name; no
      container is ever meant. */
  lemma MeansExactly(vms: Vms, id: int, ref: string)
    ensures Means(vms, id, ref) <==>
              && id in vms && vms[id].kind == Qemu
              && if exists n :: Atoi(ref) == Some(n) then Atoi(ref) == Some(id) else vms[id].name == ref
  {
    assert Atoi(ref).Some? ==> Atoi(ref) == Some(Atoi(ref).value);
  }

  lemma OneRowMatches(rows: seq<Row>, vms: Vms, ref: string, id: int) returns (i: nat)
    requires Lists(rows, vms) && ShowsOnce(rows) && MeansOnly(vms, id, ref)
    ensures OnlyMatch(rows, ref, i) && rows[i] == RowOf(id, vms[id])
  {
    i :| 0 <= i < |rows| && rows[i] == RowOf(id, vms[id]);
    forall j | 0 <= j < |rows| && j != i
      ensures !Matches(rows[j], ref)
    {
      assert rows[j].vmid != rows[i].vmid;
      assert Matches(rows[j], ref) ==> Means(vms, rows[j].vmid, ref);
    }
  }

  /** Where a listing shows every VM once, the one VM that is meant is the one match. */
  lemma OneIsMeant(rows: seq<Row>, vms: Vms, ref: string, id: int)
    requires Lists(rows, vms) && ShowsOnce(rows) && MeansOnly(vms, id, ref)
    ensures var row := RowOf(id, vms[id]);
            VerdictOf(rows, ref) == if row.template then Found(row) else NotATemplate(row)
  {
    var i := OneRowMatches(rows, vms, ref, id);
    OnlyMatchCounts(rows, ref, i);
    MatchesAround(rows, ref, i);
  }

  /** The reference means exactly one VM, which is a template. */
  ghost predicate Resolvable(vms: Vms, ref: string) {
    exists id :: MeansOnly(vms, id, ref) && vms[id].template
  }

  /** ResolveTemplate. The verdict is that of the cluster at the instant of the listing; the template
      itself is then fetched from the node that the listing shows. It fails only if a call went wrong, the
      verdict is against it, or the VM has left that node since. When nothing interferes and no call goes wrong,
      it succeeds if and only if the reference means exactly one VM and that is a template. */
  method ResolveTemplate(c: Cluster, ref: string) returns (r: Result<Vm>, v: Option<Verdict>)
    requires c.Valid()
    modifies c
    ensures c.Valid() && c.View() == old(c.View()) && c.ledger == old(c.ledger)
    ensures r.Ok? ==> v.Some? && v.value.Found? && Has(c.vms, v.value.row.node, v.value.row.vmid)
                      && c.vms[v.value.row.vmid] == r.value
    ensures r.Fail? ==>
              || c.faults > old(c.faults)
              || (v.Some? && (v.value.Found? ==> !Has(c.vms, v.value.row.node, v.value.row.vmid)))
    ensures v.Some? ==>
              && |c.trace| > |old(c.trace)|
              && var listed := c.trace[|old(c.trace)|];
              listed.Listed? && listed.rows.Some? && v.value == VerdictOf(listed.rows.value, ref)
    ensures c.quiet && v.Some? ==>
              exists rows :: Lists(rows, c.vms) && ShowsOnce(rows) && v.value == VerdictOf(rows, ref)
    ensures c.quiet && r.Ok? ==> r.value.template && exists id ::
              MeansOnly(c.vms, id, ref) && c.vms[id] == r.value
    ensures c.quiet && c.faults == old(c.faults) ==> (r.Ok? <==> Resolvable(c.vms, ref))
  {
    var listed := c.ListVMs();
    if listed.Fail? {
      return Fail(listed.error), None;
    }
    ghost var listing := c.vms;
    var verdict := Scan(listed.value, ref);
    FoundIsTheOne(listed.value, listing, ref);
    if id :| MeansOnly(listing, id, ref) && listing[id].template {
      OneIsMeant(listed.value, listing, ref, id);
    }
    if !verdict.Found? {
      var refusal: Err := *;
      return Fail(refusal), Some(verdict);
    }
    r := c.GetVM(verdict.row.node, verdict.row.vmid);
    v := Some(verdict);
  }
}
