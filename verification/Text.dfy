/** The string functions of Go's standard library that the driver calls, and the laws the
    driver relies on: splitting undoes joining, and decimal text reads back as the number. */
module Text {

  datatype Option<+T> = None | Some(value: T)

  /** Position of the first `sep` in `s`, or |s| when there is none. */
  function Index(s: string, sep: char): (i: nat)
    ensures i <= |s|
    ensures sep !in s[..i]
    ensures i < |s| ==> s[i] == sep
  {
    if s == [] || s[0] == sep then 0
    else
      var i := 1 + Index(s[1..], sep);
      assert s[..i] == [s[0]] + s[1..][..i - 1];
      i
  }

  /** strings.Split with a one-character separator. */
  function Split(s: string, sep: char): (parts: seq<string>)
    ensures parts != []
  {
    var i := Index(s, sep);
    if i == |s| then [s] else [s[..i]] + Split(s[i + 1..], sep)
  }

  /** strings.Join with a one-character separator. */
  function Join(parts: seq<string>, sep: char): string {
    if parts == [] then ""
    else if |parts| == 1 then parts[0]
    else parts[0] + [sep] + Join(parts[1..], sep)
  }

  lemma IndexAt(s: string, sep: char, i: nat)
    requires i <= |s| && sep !in s[..i] && (i < |s| ==> s[i] == sep)
    ensures Index(s, sep) == i
  {
    assert forall k | 0 <= k < i :: s[k] == s[..i][k];
    assert forall k | 0 <= k < Index(s, sep) :: s[k] == s[..Index(s, sep)][k];
  }

  lemma SplitHead(head: string, tail: string, sep: char)
    requires sep !in head
    ensures Split(head + [sep] + tail, sep) == [head] + Split(tail, sep)
  {
    var s := head + [sep] + tail;
    assert s[..|head|] == head && s[|head| + 1..] == tail;
    IndexAt(s, sep, |head|);
  }

  lemma SplitWhole(s: string, sep: char)
    requires sep !in s
    ensures Split(s, sep) == [s]
  {
    IndexAt(s, sep, |s|);
  }

  lemma Regroup(head: string, rest: string, b: string, sep: char)
    ensures (head + [sep] + rest) + [sep] + b == head + [sep] + (rest + [sep] + b)
  {
  }

  /** Splitting distributes over a separator, whatever the two sides contain. */
  lemma {:induction false} SplitAround(a: string, b: string, sep: char)
    ensures Split(a + [sep] + b, sep) == Split(a, sep) + Split(b, sep)
    decreases |a|
  {
    if sep !in a {
      SplitHead(a, b, sep);
      SplitWhole(a, sep);
    } else {
      var (head, rest, found) := Cut(a, sep);
      Regroup(head, rest, b, sep);
      SplitHead(head, rest + [sep] + b, sep);
      SplitAround(rest, b, sep);
      SplitHead(head, rest, sep);
      Associate([head], Split(rest, sep), Split(b, sep));
    }
  }

  lemma Associate<T>(a: seq<T>, b: seq<T>, c: seq<T>)
    ensures a + (b + c) == a + b + c
  {
  }

  /** A part without the separator survives joining and splitting, whatever the other parts hold. */
  lemma {:induction false} SplitJoinKeeps(parts: seq<string>, sep: char, t: string)
    requires t in parts && sep !in t
    ensures t in Split(Join(parts, sep), sep)
  {
    if |parts| == 1 {
      SplitWhole(t, sep);
    } else {
      SplitAround(parts[0], Join(parts[1..], sep), sep);
      if t == parts[0] {
        SplitWhole(t, sep);
      } else {
        SplitJoinKeeps(parts[1..], sep, t);
      }
    }
  }

  /** `t` stands in `s` between two separators, the ends of `s` counting as such, too. */
  ghost predicate StandsIn(s: string, sep: char, t: string) {
    exists a, b :: StandsBetween(s, sep, t, a, b)
  }

  ghost predicate StandsBetween(s: string, sep: char, t: string, a: string, b: string) {
    [sep] + s + [sep] == a + ([sep] + t + [sep]) + b
  }

  /** The parts of a text are exactly what stands between its separators. */
  lemma {:induction false} SplitHolds(s: string, sep: char, t: string)
    requires sep !in t
    ensures t in Split(s, sep) <==> StandsIn(s, sep, t)
  {
    if t in Split(s, sep) {
      PartStands(s, sep, t);
    }
    if a, b :| StandsBetween(s, sep, t, a, b) {
      StandingIsPart(s, sep, t, a, b);
    }
  }

  lemma {:induction false} PartStands(s: string, sep: char, t: string)
    requires t in Split(s, sep)
    ensures StandsIn(s, sep, t)
    decreases |s|
  {
    var (head, rest, found) := Cut(s, sep);
    if !found {
      SplitWhole(s, sep);
      StandsAlone(s, sep);
    } else {
      SplitHead(head, rest, sep);
      if t == head {
        StandsFirst(head, rest, sep);
      } else {
        PartStands(rest, sep, t);
        var a, b :| StandsBetween(rest, sep, t, a, b);
        StandsLater(head, rest, sep, t, a, b);
      }
    }
  }

  lemma StandsAlone(s: string, sep: char)
    ensures StandsBetween(s, sep, s, "", "")
  {
  }

  lemma StandsFirst(head: string, rest: string, sep: char)
    ensures StandsBetween(head + [sep] + rest, sep, head, "", rest + [sep])
  {
  }

  lemma StandsLater(head: string, rest: string, sep: char, t: string, a: string, b: string)
    requires StandsBetween(rest, sep, t, a, b)
    ensures StandsBetween(head + [sep] + rest, sep, t, [sep] + head + a, b)
  {
    var front, part := [sep] + head, [sep] + t + [sep];
    assert [sep] + (head + [sep] + rest) + [sep] == front + ([sep] + rest + [sep]);
    Associate(front, a + part, b);
    Associate(front, a, part);
  }

  lemma StandingIsPart(s: string, sep: char, t: string, a: string, b: string)
    requires sep !in t && StandsBetween(s, sep, t, a, b)
    ensures t in Split(s, sep)
  {
    var full := [sep] + s + [sep];
    var n := |a|;
    assert full[n] == sep && full[n + 1..n + 1 + |t|] == t && full[n + 1 + |t|] == sep;
    var right := s[n..];
    assert right + [sep] == full[n + 1..];
    assert right[..|t|] == t;
    FirstPart(right, sep, t);
    if n > 0 {
      var left := s[..n - 1];
      assert s[n - 1] == full[n] == sep;
      assert s == left + [sep] + right;
      SplitAround(left, right, sep);
    }
  }

  lemma FirstPart(s: string, sep: char, t: string)
    requires sep !in t && |t| <= |s| && s[..|t|] == t && (|t| < |s| ==> s[|t|] == sep)
    ensures t in Split(s, sep)
  {
    if |t| == |s| {
      assert s == t;
      SplitWhole(t, sep);
    } else {
      assert s == t + [sep] + s[|t| + 1..];
      SplitHead(t, s[|t| + 1..], sep);
    }
  }

  /** strings.Cut: the text before and after the first separator, and whether there is one. */
  function Cut(s: string, sep: char): (r: (string, string, bool))
    ensures r.2 <==> sep in s
    ensures r.2 ==> s == r.0 + [sep] + r.1 && sep !in r.0
    ensures !r.2 ==> r.0 == s
  {
    var i := Index(s, sep);
    if i == |s| then
      assert s[..i] == s;
      (s, "", false)
    else (s[..i], s[i + 1..], true)
  }

  predicate OccursAt(s: string, sub: string, i: nat) {
    i + |sub| <= |s| && s[i..i + |sub|] == sub
  }

  /** strings.Contains. */
  predicate Contains(s: string, sub: string) {
    exists i | 0 <= i <= |s| :: OccursAt(s, sub, i)
  }

  /** unicode.IsSpace. */
  predicate IsSpace(c: char) {
    var u := c as int;
    9 <= u <= 13 || u in {0x20, 0x85, 0xA0, 0x1680, 0x2028, 0x2029, 0x202F, 0x205F, 0x3000} || 0x2000 <= u <= 0x200A
  }

  predicate AllSpace(s: string) {
    forall i | 0 <= i < |s| :: IsSpace(s[i])
  }

  function TrimLeft(s: string): string {
    if s != [] && IsSpace(s[0]) then TrimLeft(s[1..]) else s
  }

  function TrimRight(s: string): string {
    if s != [] && IsSpace(s[|s| - 1]) then TrimRight(s[..|s| - 1]) else s
  }

  /** strings.TrimSpace. */
  function TrimSpace(s: string): string {
    TrimRight(TrimLeft(s))
  }

  predicate Bare(s: string) {
    s != [] && !IsSpace(s[0]) && !IsSpace(s[|s| - 1])
  }

  /** Padding with white space is undone by trimming. */
  lemma {:induction false} TrimPadded(left: string, s: string, right: string)
    requires AllSpace(left) && AllSpace(right) && Bare(s)
    ensures TrimSpace(left + s + right) == s
    decreases |left| + |right|
  {
    var t := left + s + right;
    if left != [] {
      assert t[1..] == left[1..] + s + right;
      TrimPadded(left[1..], s, right);
    } else if right != [] {
      assert t == s + right;
      var shorter := right[..|right| - 1];
      assert t[..|t| - 1] == s + shorter == [] + s + shorter;
      TrimPadded([], s, shorter);
    } else {
      assert t == s;
    }
  }

  /** Trimming only removes white space at the two ends. */
  lemma {:induction false} TrimmedFrom(s: string) returns (left: string, right: string)
    ensures AllSpace(left) && AllSpace(right) && s == left + TrimSpace(s) + right
  {
    left := TrimmedLeft(s);
    right := TrimmedRight(TrimLeft(s));
  }

  lemma {:induction false} TrimmedLeft(s: string) returns (left: string)
    ensures AllSpace(left) && s == left + TrimLeft(s)
  {
    left := [];
    if s != [] && IsSpace(s[0]) {
      var l := TrimmedLeft(s[1..]);
      left := [s[0]] + l;
    }
  }

  lemma {:induction false} TrimmedRight(s: string) returns (right: string)
    ensures AllSpace(right) && s == TrimRight(s) + right
  {
    right := [];
    if s != [] && IsSpace(s[|s| - 1]) {
      var r := TrimmedRight(s[..|s| - 1]);
      right := r + [s[|s| - 1]];
    }
  }

  predicate IsDigit(c: char) {
    '0' <= c <= '9'
  }

  predicate AllDigits(s: string) {
    forall i | 0 <= i < |s| :: IsDigit(s[i])
  }

  /** The number a run of decimal digits denotes. */
  function Value(digits: string): nat
    requires AllDigits(digits)
  {
    if digits == [] then 0
    else Value(digits[..|digits| - 1]) * 10 + (digits[|digits| - 1] as int - '0' as int)
  }

  /** The decimal text of a number, without leading zeros. */
  function Decimal(n: nat): (s: string)
    ensures s != [] && AllDigits(s)
  {
    var last := [('0' as int + n % 10) as char];
    if n < 10 then last else Decimal(n / 10) + last
  }

  lemma {:induction false} DecimalReadsBack(n: nat)
    ensures Value(Decimal(n)) == n
  {
    var s := Decimal(n);
    if n < 10 {
      assert s[..|s| - 1] == [];
    } else {
      DecimalReadsBack(n / 10);
      assert s[..|s| - 1] == Decimal(n / 10);
    }
  }

  const MAX_INT: int := 0x7FFF_FFFF_FFFF_FFFF

  /** strconv.Atoi on a 64-bit platform: an optional sign, at least one digit, no overflow. */
  function Atoi(s: string): (r: Option<int>)
    ensures r.Some? ==> -MAX_INT - 1 <= r.value <= MAX_INT
  {
    var negative := s != [] && s[0] == '-';
    var digits := if s != [] && (s[0] == '-' || s[0] == '+') then s[1..] else s;
    if digits == [] || !AllDigits(digits) then None
    else
      var n: int := if negative then 0 - Value(digits) else Value(digits);
      if -MAX_INT - 1 <= n <= MAX_INT then Some(n) else None
  }

  /** `s` is `n` in decimal, with a sign or without. */
  ghost predicate IsDecimal(s: string, sign: string, digits: string, n: int) {
    && s == sign + digits && digits != [] && AllDigits(digits)
    && if sign == "-" then n == 0 - Value(digits) else (sign == "" || sign == "+") && n == Value(digits)
  }

  /** Atoi reads a decimal number that fits in 64 bits, with at most one sign before it, and nothing else. */
  lemma AtoiExactly(s: string, n: int)
    ensures Atoi(s) == Some(n) <==>
              && -0x8000_0000_0000_0000 <= n < 0x8000_0000_0000_0000
              && exists sign, digits :: IsDecimal(s, sign, digits, n)
  {
    if Atoi(s) == Some(n) {
      var sign := if s[0] == '-' || s[0] == '+' then s[..1] else "";
      assert IsDecimal(s, sign, s[|sign|..], n);
    }
    if sign, digits :| IsDecimal(s, sign, digits, n) {
      assert s[|sign|..] == digits;
      assert IsDigit(digits[0]);
    }
  }

  lemma AtoiDecimal(n: nat)
    requires n <= MAX_INT
    ensures Atoi(Decimal(n)) == Some(n)
  {
    DecimalReadsBack(n);
  }

  function UpperChar(c: char): char {
    if 'a' <= c <= 'z' then (c as int - 32) as char else c
  }

  /** strings.ToUpper on ASCII text. */
  function ToUpper(s: string): (r: string)
    ensures |r| == |s|
  {
    seq(|s|, i requires 0 <= i < |s| => UpperChar(s[i]))
  }

  /** strings.EqualFold on ASCII text. */
  predicate EqualFold(a: string, b: string) {
    ToUpper(a) == ToUpper(b)
  }

  /** The two cases of one ASCII letter. */
  predicate CasesOfOne(c: char, d: char) {
    || ('a' <= c <= 'z' && d as int == c as int - 'a' as int + 'A' as int)
    || ('a' <= d <= 'z' && c as int == d as int - 'a' as int + 'A' as int)
  }

  /** The same text, except that letters may differ in case. */
  predicate SameButCase(a: string, b: string) {
    |a| == |b| && forall i | 0 <= i < |a| :: a[i] == b[i] || CasesOfOne(a[i], b[i])
  }

  predicate NoLowerCase(s: string) {
    forall i | 0 <= i < |s| :: !('a' <= s[i] <= 'z')
  }

  /** EqualFold ignores the case of letters, and nothing else. */
  lemma EqualFoldExactly(a: string, b: string)
    ensures EqualFold(a, b) <==> SameButCase(a, b)
  {
    assert forall i | 0 <= i < |a| :: ToUpper(a)[i] == UpperChar(a[i]);
    assert forall i | 0 <= i < |b| :: ToUpper(b)[i] == UpperChar(b[i]);
  }

  /** ToUpper leaves no lower-case letter, and changes nothing but the case of letters. */
  lemma ToUpperExactly(s: string, t: string)
    ensures t == ToUpper(s) <==> NoLowerCase(t) && SameButCase(s, t)
  {
    assert forall i | 0 <= i < |s| :: ToUpper(s)[i] == UpperChar(s[i]);
  }
}
