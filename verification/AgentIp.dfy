/** pkg/pve/agentip.go: waiting for the guest agent to report a usable address on net0. Times are in
    nanoseconds since the wait began. */
module AgentIp {
  import opened Text
  import opened Backoff
  import opened Validate

  /** An IP address as net.ParseIP delivers it; IPv4-mapped ones are V4. */
  datatype Ip = V4(octets: seq<nat>) | V6(octets: seq<nat>)

  /** An address the agent reports: its declared kind, its text, and what net.ParseIP makes of the text. */
  datatype Address = Address(kind: string, text: string, ip: Option<Ip>)

  datatype Iface = Iface(mac: string, addresses: seq<Address>)

  /** net.ParseIP rejects the empty text, and an address has 4 or 16 octets. */
  predicate Parsed(a: Address) {
    && (a.ip.Some? ==> a.text != "")
    && (a.ip.Some? ==> |a.ip.value.octets| == if a.ip.value.V4? then 4 else 16)
  }

  predicate AllParsed(ifaces: seq<Iface>) {
    forall i, j | 0 <= i < |ifaces| && 0 <= j < |ifaces[i].addresses| :: Parsed(ifaces[i].addresses[j])
  }

  predicate AllZero(octets: seq<nat>) {
    forall i | 0 <= i < |octets| :: octets[i] == 0
  }

  /** 127.0.0.0/8 and ::1. */
  predicate IsLoopback(ip: Ip)
    requires |ip.octets| > 0
  {
    var n := |ip.octets|;
    if ip.V4? then ip.octets[0] == 127 else AllZero(ip.octets[..n - 1]) && ip.octets[n - 1] == 1
  }

  /** 169.254.0.0/16 and fe80::/10. */
  predicate IsLinkLocal(ip: Ip)
    requires |ip.octets| > 1
  {
    if ip.V4? then ip.octets[0] == 169 && ip.octets[1] == 254
    else ip.octets[0] == 0xfe && ip.octets[1] / 0x40 % 4 == 2
  }

  predicate Usable(a: Address)
    requires Parsed(a)
  {
    a.kind == "ipv4" && a.ip.Some? && !IsLoopback(a.ip.value) && !IsLinkLocal(a.ip.value) && !AllZero(a.ip.value.octets)
  }

  /** The number that an address stands for. */
  function Number(octets: seq<nat>): nat {
    if octets == [] then 0 else Number(octets[..|octets| - 1]) * 256 + octets[|octets| - 1]
  }

  predicate Bytes(octets: seq<nat>) {
    forall i | 0 <= i < |octets| :: octets[i] < 256
  }

  /** The address is neither a loopback nor a link-local nor the unspecified one, as ranges of numbers. */
  predicate OutsideBlocks(ip: Ip)
    requires |ip.octets| == if ip.V4? then 4 else 16
  {
    var n := Number(ip.octets);
    if ip.V4? then n != 0 && !(0x7F00_0000 <= n <= 0x7FFF_FFFF) && !(0xA9FE_0000 <= n <= 0xA9FE_FFFF)
    else n != 0 && n != 1 && !(0xFE80 <= Number(ip.octets[..2]) <= 0xFEBF)
  }

  lemma {:induction false} ZeroExactly(octets: seq<nat>)
    ensures Number(octets) == 0 <==> AllZero(octets)
  {
    if octets != [] {
      var front := octets[..|octets| - 1];
      ZeroExactly(front);
      assert forall i | 0 <= i < |front| :: front[i] == octets[i];
      assert Number(octets) == Number(front) * 256 + octets[|octets| - 1];
    }
  }

  lemma NumberOfTwo(octets: seq<nat>)
    requires |octets| >= 2
    ensures Number(octets[..2]) == octets[0] * 256 + octets[1]
  {
    assert octets[..2][..1] == octets[..1] && octets[..1][..0] == [];
    assert Number(octets[..1]) == octets[0];
  }

  lemma NumberOfFour(octets: seq<nat>)
    requires |octets| == 4
    ensures Number(octets) == Number(octets[..2]) * 0x1_0000 + octets[2] * 256 + octets[3]
  {
    assert octets[..3][..2] == octets[..2];
    assert Number(octets[..3]) == Number(octets[..2]) * 256 + octets[2];
  }

  /** Which addresses are usable: those that are called IPv4 and lie outside the special blocks. */
  lemma UsableExactly(a: Address)
    requires Parsed(a) && (a.ip.Some? ==> Bytes(a.ip.value.octets))
    ensures Usable(a) <==> a.kind == "ipv4" && a.ip.Some? && OutsideBlocks(a.ip.value)
  {
    if a.ip.Some? {
      var octets := a.ip.value.octets;
      ZeroExactly(octets);
      NumberOfTwo(octets);
      if a.ip.value.V4? {
        NumberOfFour(octets);
      } else {
        ZeroExactly(octets[..15]);
        assert Number(octets) == Number(octets[..15]) * 256 + octets[15];
      }
    }
  }

  /** The usable addresses of one interface, in order. */
  function UsableTexts(addresses: seq<Address>): seq<string>
    requires forall j | 0 <= j < |addresses| :: Parsed(addresses[j])
  {
    if addresses == [] then []
    else
      (if Usable(addresses[0]) then [addresses[0].text] else []) + UsableTexts(addresses[1..])
  }

  /** The usable addresses of the interfaces with the given MAC, flattened in order. */
  function UsableOn(ifaces: seq<Iface>, mac: string): seq<string>
    requires AllParsed(ifaces)
  {
    if ifaces == [] then []
    else
      assert AllParsed(ifaces[1..]);
      (if EqualFold(ifaces[0].mac, mac) then UsableTexts(ifaces[0].addresses) else []) + UsableOn(ifaces[1..], mac)
  }

  /** Membership in the flattened list, without the recursion: a usable address on a matching interface. */
  lemma {:induction false} UsableOnHolds(ifaces: seq<Iface>, mac: string, text: string)
    requires AllParsed(ifaces)
    ensures text in UsableOn(ifaces, mac) <==>
              exists i, j | 0 <= i < |ifaces| && 0 <= j < |ifaces[i].addresses| ::
                && SameButCase(ifaces[i].mac, mac)
                && Usable(ifaces[i].addresses[j]) && ifaces[i].addresses[j].text == text
  {
    if ifaces != [] {
      assert AllParsed(ifaces[1..]);
      EqualFoldExactly(ifaces[0].mac, mac);
      UsableOnHolds(ifaces[1..], mac, text);
      UsableTextsHolds(ifaces[0].addresses, text);
      forall i, j | 0 <= i < |ifaces| && 0 <= j < |ifaces[i].addresses|
                    && SameButCase(ifaces[i].mac, mac) && Usable(ifaces[i].addresses[j]) &&
                        ifaces[i].addresses[j].text == text
        ensures text in UsableOn(ifaces, mac)
      {
        if i > 0 {
          assert ifaces[1..][i - 1] == ifaces[i];
        }
      }
    }
  }

  lemma {:induction false} UsableTextsHolds(addresses: seq<Address>, text: string)
    requires forall j | 0 <= j < |addresses| :: Parsed(addresses[j])
    ensures text in UsableTexts(addresses) <==>
              exists j | 0 <= j < |addresses| :: Usable(addresses[j]) && addresses[j].text == text
  {
    if addresses != [] {
      UsableTextsHolds(addresses[1..], text);
      assert forall j | 1 <= j < |addresses| :: addresses[j] == addresses[1..][j - 1];
    }
  }

  /** pickIPv4: the head of the flattened list, or "" if and only if the list is empty. */
  method PickIPv4(ifaces: seq<Iface>, mac: string) returns (ip: string)
    requires AllParsed(ifaces)
    ensures ip == Pick(ifaces, mac)
    ensures ip == "" <==> UsableOn(ifaces, mac) == []
  {
    for i := 0 to |ifaces|
      invariant AllParsed(ifaces[i..])
      invariant UsableOn(ifaces, mac) == UsableOn(ifaces[i..], mac)
    {
      assert ifaces[i..][1..] == ifaces[i + 1..] && ifaces[i..][0] == ifaces[i];
      if !EqualFold(ifaces[i].mac, mac) {
        continue;
      }
      var addresses := ifaces[i].addresses;
      for j := 0 to |addresses|
        invariant UsableTexts(addresses) == UsableTexts(addresses[j..])
      {
        assert addresses[j..][1..] == addresses[j + 1..] && addresses[j..][0] == addresses[j];
        var a := addresses[j];
        assert Parsed(a);
        if a.kind != "ipv4" {
          continue;
        }
        if a.ip == None || IsLoopback(a.ip.value) || IsLinkLocal(a.ip.value) || AllZero(a.ip.value.octets) {
          continue;
        }
        return a.text;
      }
    }
    return "";
  }

  function Pick(ifaces: seq<Iface>, mac: string): string
    requires AllParsed(ifaces)
  {
    var texts := UsableOn(ifaces, mac);
    if texts == [] then "" else texts[0]
  }

  // ---- The wait ----------------------------------------------------------------------------

  const POLL_START := 2 * SECOND
  const POLL_MAX := 15 * SECOND

  datatype Answer = Ifaces(ifaces: seq<Iface>) | NotRunning | NotAuthorized | OtherError

  /** What one round meets: how long the query and a probe take, what they yield, by how much the
      sleep overshoots its interval, and whether the context ends it. */
  datatype Poll = Poll(queryTime: nat, answer: Answer, probeTime: nat, reachable: bool, oversleep: nat, cancelled: bool)

  type Round = p: Poll | p.answer.Ifaces? ==> AllParsed(p.answer.ifaces) witness Poll(0, NotRunning, 0, false, 0, false)

  datatype Waited = Reached(ip: string) | TimedOut | Denied | ContextEnded | NoMac

  /** The address a round finds, or "". */
  function Seen(p: Round, mac: string): string {
    if p.answer.Ifaces? then Pick(p.answer.ifaces, mac) else ""
  }

  predicate Conclusive(p: Round, mac: string) {
    (Seen(p, mac) != "" && p.reachable) || p.answer.NotAuthorized? || p.cancelled
  }

  /** Half as long again, up to the maximum. */
  function Longer(interval: nat): (t: nat)
    ensures POLL_START <= interval <= POLL_MAX ==> interval <= t <= POLL_MAX
  {
    if interval * 3 / 2 > POLL_MAX then POLL_MAX else interval * 3 / 2
  }

  /** The interval after round k. */
  function Interval(k: nat): (t: nat)
    ensures POLL_START <= t <= POLL_MAX
  {
    if k == 0 then POLL_START else Longer(Interval(k - 1))
  }

  /** The time the intervals alone take up before round k. */
  function Intervals(k: nat): nat {
    if k == 0 then 0 else Intervals(k - 1) + Interval(k - 1)
  }

  function Busy(p: Round, mac: string): nat {
    p.queryTime + if Seen(p, mac) != "" then p.probeTime else 0
  }

  /** The time at which round k begins. */
  function Clock(rounds: nat -> Round, mac: string, k: nat): (t: nat)
    ensures t >= Intervals(k)
  {
    if k == 0 then 0
    else Clock(rounds, mac, k - 1) + Busy(rounds(k - 1), mac) + Interval(k - 1) + rounds(k - 1).oversleep
  }

  /** The first n rounds began by the deadline and led nowhere. */
  ghost predicate Fruitless(rounds: nat -> Round, mac: string, timeout: int, n: nat) {
    n > 0 ==>
      && Fruitless(rounds, mac, timeout, n - 1) && Clock(rounds, mac, n - 1) <= timeout
      && !Conclusive(rounds(n - 1), mac)
  }

  lemma {:induction false} FruitlessAt(rounds: nat -> Round, mac: string, timeout: int, n: nat, k: nat)
    requires Fruitless(rounds, mac, timeout, n) && k < n
    ensures Clock(rounds, mac, k) <= timeout && !Conclusive(rounds(k), mac)
  {
    if k < n - 1 {
      FruitlessAt(rounds, mac, timeout, n - 1, k);
    }
  }

  /** What a round that settles the wait makes of it. */
  ghost predicate Settles(round: Round, mac: string, w: Waited) {
    if Seen(round, mac) != "" && round.reachable then w == Reached(Seen(round, mac))
    else if round.answer.NotAuthorized? then w == Denied
    else round.cancelled && w == ContextEnded
  }

  /** Round `n` was never begun: the deadline had passed. */
  ghost predicate TimesOutAt(rounds: nat -> Round, mac: string, timeout: int, n: nat) {
    Fruitless(rounds, mac, timeout, n) && Clock(rounds, mac, n) > timeout
  }

  /** Round `n` settled the wait. */
  ghost predicate SettledAt(rounds: nat -> Round, mac: string, timeout: int, n: nat, w: Waited) {
    Fruitless(rounds, mac, timeout, n) && Clock(rounds, mac, n) <= timeout && Settles(rounds(n), mac, w)
  }

  /** How a wait on `mac` went: fruitless until the deadline had passed, or settled by its last round,
      which began by the deadline and came after fruitless ones only. */
  ghost predicate Explains(rounds: nat -> Round, mac: string, timeout: int, w: Waited, queries: nat, elapsed: nat) {
    if w == TimedOut then
      TimesOutAt(rounds, mac, timeout, queries) && elapsed == Clock(rounds, mac, queries)
    else
      && queries > 0 && SettledAt(rounds, mac, timeout, queries - 1, w)
      && elapsed == Clock(rounds, mac, queries - 1) + Busy(rounds(queries - 1), mac)
  }

  lemma SettledBy(rounds: nat -> Round, mac: string, timeout: int, n: nat, w: Waited)
    requires Fruitless(rounds, mac, timeout, n) && Clock(rounds, mac, n) <= timeout && Settles(rounds(n), mac, w)
    ensures w != TimedOut && w != NoMac
    ensures Explains(rounds, mac, timeout, w, n + 1, Clock(rounds, mac, n) + Busy(rounds(n), mac))
  {
  }

  /** One round: query the agent, pick an address and probe it. None means to go on waiting. */
  method Ask(round: Round, mac: string) returns (verdict: Option<Waited>, spent: nat)
    ensures spent == Busy(round, mac)
    ensures verdict == None <==> !Conclusive(round, mac)
    ensures verdict.Some? ==> Settles(round, mac, verdict.value)
  {
    spent := round.queryTime;
    match round.answer {
      case Ifaces(ifaces) =>
        var ip := PickIPv4(ifaces, mac);
        if ip != "" {
          spent := spent + round.probeTime;
          if round.reachable {
            return Some(Reached(ip)), spent;
          }
        }
      case NotRunning =>
      case NotAuthorized => return Some(Denied), spent;
      case OtherError =>
    }
    if round.cancelled {
      return Some(ContextEnded), spent;
    }
    return None, spent;
  }

  /** The loop of WaitForIP, once the MAC is known. `queries` counts the calls to the agent and
      `elapsed` is the time on return. */
  method PollUntil(mac: string, timeout: int, rounds: nat -> Round) returns (w: Waited, queries: nat, elapsed: nat)
    ensures w != NoMac && Explains(rounds, mac, timeout, w, queries, elapsed)
  {
    queries, elapsed := 0, 0;
    var interval := POLL_START;
    while true
      invariant interval == Interval(queries) && elapsed == Clock(rounds, mac, queries)
      invariant Fruitless(rounds, mac, timeout, queries)
      decreases timeout - elapsed
    {
      if elapsed > timeout {
        return TimedOut, queries, elapsed;
      }
      var round := rounds(queries);
      var verdict, spent := Ask(round, mac);
      if verdict.Some? {
        SettledBy(rounds, mac, timeout, queries, verdict.value);
        return verdict.value, queries + 1, elapsed + spent;
      }
      elapsed := elapsed + spent + interval + round.oversleep;
      interval := Longer(interval);
      queries := queries + 1;
    }
  }

  /** WaitForIP on a configuration with the network devices `nets`, meeting the given rounds. An address
      is returned only if it was the first usable one on net0's MAC there and answered the probe. */
  method WaitForIP(nets: map<string, string>, timeout: int, rounds: nat -> Round)
    returns (w: Waited, mac: Option<string>, queries: nat, elapsed: nat)
    ensures mac == None <==> forall part | part in NicParts(nets, "net0") :: !HoldsMac(part)
    ensures mac.Some? ==> IsMacOf(nets, "net0", mac.value)
    ensures mac == None ==> w == NoMac && queries == 0
    ensures mac.Some? ==> w != NoMac && Explains(rounds, mac.value, timeout, w, queries, elapsed)
  {
    mac := NICMAC(nets, "net0");
    if mac == None {
      return NoMac, mac, 0, 0;
    }
    w, queries, elapsed := PollUntil(mac.value, timeout, rounds);
  }

  lemma SettledIsConclusive(round: Round, mac: string, w: Waited, other: Waited)
    requires Settles(round, mac, w)
    ensures Conclusive(round, mac) && (Settles(round, mac, other) ==> w == other)
  {
  }

  lemma OneTimeout(rounds: nat -> Round, mac: string, timeout: int, n: nat, m: nat)
    requires TimesOutAt(rounds, mac, timeout, n) && TimesOutAt(rounds, mac, timeout, m)
    ensures n == m
  {
    if n < m {
      FruitlessAt(rounds, mac, timeout, m, n);
    } else if m < n {
      FruitlessAt(rounds, mac, timeout, n, m);
    }
  }

  lemma OneSettlement(rounds: nat -> Round, mac: string, timeout: int, n: nat, w: Waited, m: nat, other: Waited)
    requires SettledAt(rounds, mac, timeout, n, w) && SettledAt(rounds, mac, timeout, m, other)
    ensures n == m && w == other
  {
    SettledIsConclusive(rounds(n), mac, w, other);
    SettledIsConclusive(rounds(m), mac, other, w);
    if n < m {
      FruitlessAt(rounds, mac, timeout, m, n);
    } else if m < n {
      FruitlessAt(rounds, mac, timeout, n, m);
    }
  }

  lemma NotBoth(rounds: nat -> Round, mac: string, timeout: int, n: nat, m: nat, w: Waited)
    requires TimesOutAt(rounds, mac, timeout, n)
    ensures !SettledAt(rounds, mac, timeout, m, w)
  {
    if SettledAt(rounds, mac, timeout, m, w) {
      SettledIsConclusive(rounds(m), mac, w, w);
      if n < m {
        FruitlessAt(rounds, mac, timeout, m, n);
      } else if m < n {
        FruitlessAt(rounds, mac, timeout, n, m);
      }
    }
  }

  /** Every wait goes some way: it is settled, or the deadline passes. */
  lemma {:induction false} AlwaysExplained(rounds: nat -> Round, mac: string, timeout: int, n: nat)
      returns (w: Waited, queries: nat, elapsed: nat)
    requires Fruitless(rounds, mac, timeout, n)
    ensures Explains(rounds, mac, timeout, w, queries, elapsed) && w != NoMac
    decreases timeout - Clock(rounds, mac, n)
  {
    var round := rounds(n);
    if Clock(rounds, mac, n) > timeout {
      w, queries, elapsed := TimedOut, n, Clock(rounds, mac, n);
    } else if Conclusive(round, mac) {
      w := if Seen(round, mac) != "" && round.reachable then Reached(Seen(round, mac))
           else if round.answer.NotAuthorized? then Denied else ContextEnded;
      SettledBy(rounds, mac, timeout, n, w);
      queries, elapsed := n + 1, Clock(rounds, mac, n) + Busy(round, mac);
    } else {
      w, queries, elapsed := AlwaysExplained(rounds, mac, timeout, n + 1);
    }
  }

  /** The rounds determine how a wait goes. */
  lemma ExplainedOnce(rounds: nat -> Round, mac: string, timeout: int, w: Waited, queries: nat, elapsed: nat,
                      other: Waited, more: nat, later: nat)
    requires Explains(rounds, mac, timeout, w, queries, elapsed) && Explains(rounds, mac, timeout, other, more, later)
    ensures w == other && queries == more && elapsed == later
  {
    if w == TimedOut && other == TimedOut {
      OneTimeout(rounds, mac, timeout, queries, more);
    } else if w == TimedOut {
      TimedOutOnly(rounds, mac, timeout, queries, elapsed, other, more, later);
    } else if other == TimedOut {
      TimedOutOnly(rounds, mac, timeout, more, later, w, queries, elapsed);
    } else {
      SettledOnce(rounds, mac, timeout, w, queries, elapsed, other, more, later);
    }
  }

  lemma TimedOutOnly(rounds: nat -> Round, mac: string, timeout: int, queries: nat, elapsed: nat, w: Waited,
                     more: nat, later: nat)
    requires Explains(rounds, mac, timeout, TimedOut, queries, elapsed) && w != TimedOut
    ensures !Explains(rounds, mac, timeout, w, more, later)
  {
    if more > 0 {
      NotBoth(rounds, mac, timeout, queries, more - 1, w);
    }
  }

  lemma SettledOnce(rounds: nat -> Round, mac: string, timeout: int, w: Waited, queries: nat, elapsed: nat,
                    other: Waited, more: nat, later: nat)
    requires Explains(rounds, mac, timeout, w, queries, elapsed) && Explains(rounds, mac, timeout, other, more, later)
    requires w != TimedOut && other != TimedOut
    ensures w == other && queries == more && elapsed == later
  {
    OneSettlement(rounds, mac, timeout, queries - 1, w, more - 1, other);
  }

  /** What an address that WaitForIP returns is worth: a round that began by the deadline reported it
      as the first usable one on the MAC, and it answered the probe then; every earlier round
      reported none, or one that did not answer. */
  lemma AddressIsSound(rounds: nat -> Round, mac: string, timeout: int, w: Waited, queries: nat, elapsed: nat)
    requires Explains(rounds, mac, timeout, w, queries, elapsed) && w.Reached?
    ensures queries > 0 && Clock(rounds, mac, queries - 1) <= timeout
    ensures var last := rounds(queries - 1);
            last.answer.Ifaces? && last.reachable && UsableOn(last.answer.ifaces, mac) != [] &&
                w.ip == UsableOn(last.answer.ifaces, mac)[0]
    ensures forall k: nat | k < queries - 1 ::
              Seen(rounds(k), mac) == "" || !rounds(k).reachable
  {
    var last := rounds(queries - 1);
    forall k: nat | k < queries - 1
      ensures Seen(rounds(k), mac) == "" || !rounds(k).reachable
    {
      FruitlessAt(rounds, mac, timeout, queries - 1, k);
    }
  }

  const MILLISECOND := 1_000_000
  const RAMP := 26_375 * MILLISECOND

  lemma IntervalsRamp()
    ensures Interval(1) == 3 * SECOND && Interval(2) == 4_500 * MILLISECOND && Interval(3) == 6_750 * MILLISECOND
    ensures Interval(4) == 10_125 * MILLISECOND && Interval(5) == POLL_MAX
    ensures Intervals(5) == RAMP
  {
    assert Interval(1) == 3 * SECOND;
    assert Interval(2) == 4_500 * MILLISECOND;
    assert Interval(3) == 6_750 * MILLISECOND;
    assert Intervals(2) == 5 * SECOND;
    assert Intervals(4) == 16_250 * MILLISECOND;
  }

  /** From the sixth round on the interval stays at its maximum. */
  lemma {:induction false} IntervalsAfterRamp(n: nat)
    ensures Interval(5 + n) == POLL_MAX && Intervals(5 + n) == RAMP + n * POLL_MAX
  {
    IntervalsRamp();
    if n > 0 {
      IntervalsAfterRamp(n - 1);
    }
  }

  /** Exactly how many rounds fit: round number `queries` can begin by the deadline if and only if
      it is within this bound. With instantaneous queries the bound is reached. */
  lemma QueryBound(timeout: nat, queries: nat)
    requires timeout >= RAMP && queries > 0
    ensures Intervals(queries - 1) <= timeout <==> queries <= 6 + (timeout - RAMP) / POLL_MAX
  {
    assert (timeout - RAMP) / POLL_MAX >= 0;
    if queries <= 6 {
      IntervalsAfterRamp(0);
      IntervalsGrow(queries - 1, 5);
      assert Intervals(queries - 1) <= RAMP;
    } else {
      var n := queries - 6;
      LateBound(timeout, n);
      assert queries - 1 == 5 + n;
    }
  }

  lemma LateBound(timeout: nat, n: nat)
    requires timeout >= RAMP
    ensures Intervals(5 + n) <= timeout <==> n <= (timeout - RAMP) / POLL_MAX
  {
    IntervalsAfterRamp(n);
    Fits(n, timeout - RAMP, POLL_MAX);
  }

  lemma Fits(n: nat, total: nat, size: nat)
    requires size > 0
    ensures n * size <= total <==> n <= total / size
  {
    var q, r := total / size, total % size;
    assert total == q * size + r;
    if n <= q {
      assert n * size <= q * size;
    } else {
      assert n * size >= (q + 1) * size;
    }
  }

  lemma {:induction false} IntervalsGrow(a: nat, b: nat)
    requires a <= b
    ensures Intervals(a) <= Intervals(b)
  {
    if a < b {
      IntervalsGrow(a, b - 1);
    }
  }

  lemma LastRoundBegan(rounds: nat -> Round, mac: string, timeout: int, w: Waited, queries: nat, elapsed: nat)
    requires Explains(rounds, mac, timeout, w, queries, elapsed) && queries > 0
    ensures Clock(rounds, mac, queries - 1) <= timeout
  {
    if w == TimedOut {
      FruitlessAt(rounds, mac, timeout, queries, queries - 1);
    }
  }

  /** However the rounds go, a wait of at least 26.375 s queries the agent at most
      6 + (T - 26.375 s) / 15 s times: 24 times for the default 300 s. */
  lemma AtMostQueries(rounds: nat -> Round, mac: string, timeout: nat, w: Waited, queries: nat, elapsed: nat)
    requires timeout >= RAMP && Explains(rounds, mac, timeout, w, queries, elapsed)
    ensures queries <= 6 + (timeout - RAMP) / POLL_MAX
    ensures timeout == 300 * SECOND ==> queries <= 24
  {
    if queries > 0 {
      LastRoundBegan(rounds, mac, timeout, w, queries, elapsed);
      QueryBound(timeout, queries);
    }
  }

  /** Rounds that take no time at all. */
  ghost predicate Instant(rounds: nat -> Round) {
    forall k: nat :: rounds(k) == Poll(0, NotRunning, 0, false, 0, false)
  }

  lemma {:induction false} InstantClock(rounds: nat -> Round, mac: string, k: nat)
    requires Instant(rounds)
    ensures Clock(rounds, mac, k) == Intervals(k)
  {
    if k > 0 {
      InstantClock(rounds, mac, k - 1);
    }
  }

  lemma NeverSettles(rounds: nat -> Round, mac: string, k: nat, w: Waited)
    requires Instant(rounds)
    ensures !Settles(rounds(k), mac, w)
  {
    assert rounds(k) == Poll(0, NotRunning, 0, false, 0, false);
  }

  /** The bound is tight: an agent that never runs and fails at once is queried exactly that often. */
  lemma BoundIsReached(rounds: nat -> Round, mac: string, timeout: nat, w: Waited, queries: nat, elapsed: nat)
    requires timeout >= RAMP && Instant(rounds) && Explains(rounds, mac, timeout, w, queries, elapsed) && w != NoMac
    ensures w == TimedOut && queries == 6 + (timeout - RAMP) / POLL_MAX
  {
    if queries > 0 {
      NeverSettles(rounds, mac, queries - 1, w);
    }
    AtMostQueries(rounds, mac, timeout, w, queries, elapsed);
    InstantClock(rounds, mac, queries);
    QueryBound(timeout, queries + 1);
  }

  /** When every query, probe and overshoot is bounded, so is the wait: it ends no later than the
      deadline plus one query, one probe and one interval with its overshoot. */
  lemma ReturnsInTime(rounds: nat -> Round, mac: string, timeout: nat, w: Waited, queries: nat, elapsed: nat,
                      query: nat, probe: nat, oversleep: nat)
    requires Explains(rounds, mac, timeout, w, queries, elapsed)
    requires forall k: nat :: rounds(k).queryTime <= query && rounds(k).probeTime <= probe &&
              rounds(k).oversleep <= oversleep
    ensures elapsed <= timeout + query + probe + POLL_MAX + oversleep
    ensures w != TimedOut ==> elapsed <= timeout + query + probe
  {
    if queries > 0 {
      LastRoundBegan(rounds, mac, timeout, w, queries, elapsed);
    }
  }
}
