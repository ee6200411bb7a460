/** pkg/driver/flags.go: the VMID range and the checks on the command-line options. */
module Flags {
  import opened Text

  const MIN_VMID := 100
  const MAX_VMID := 999_999_999

  predicate InBounds(lo: int, hi: int) {
    MIN_VMID <= lo < hi <= MAX_VMID
  }

  /** parseVMIDRange. */
  function ParseVmidRange(s: string): (r: Option<(int, int)>)
    ensures r.Some? ==> InBounds(r.value.0, r.value.1)
  {
    var (first, second, found) := Cut(s, '-');
    if !found then None
    else
      match (Atoi(TrimSpace(first)), Atoi(TrimSpace(second)))
      case (Some(lo), Some(hi)) => if lo < 100 || hi > 999_999_999 || lo >= hi then None else Some((lo, hi))
      case _ => None
  }

  /** `text` is a number with optional white space around it. */
  ghost predicate Reads(text: string, n: int) {
    exists left, number, right :: Padded(text, left, number, right) && Atoi(number) == Some(n)
  }

  ghost predicate Padded(text: string, left: string, number: string, right: string) {
    text == left + number + right && AllSpace(left) && AllSpace(right)
  }

  /** Numbers have no white space at either end, so trimming finds exactly the padded number. */
  lemma ReadsIsTrimmedAtoi(text: string, n: int)
    ensures Reads(text, n) <==> Atoi(TrimSpace(text)) == Some(n)
  {
    if Atoi(TrimSpace(text)) == Some(n) {
      var left, right := TrimmedFrom(text);
      assert Padded(text, left, TrimSpace(text), right);
    }
    if Reads(text, n) {
      var left, number, right :| Padded(text, left, number, right) && Atoi(number) == Some(n);
      AtoiIsBare(number);
      TrimPadded(left, number, right);
    }
  }

  lemma AtoiIsBare(s: string)
    requires Atoi(s).Some?
    ensures Bare(s)
  {
    var last := s[|s| - 1];
    var digits := if s[0] == '-' || s[0] == '+' then s[1..] else s;
    assert AllDigits(digits) && digits[|digits| - 1] == last;
    assert !IsSpace(last);
    assert IsDigit(s[0]) || s[0] == '-' || s[0] == '+';
  }

  /** Exactly the texts "lo-hi", with the first dash as the separator and white space allowed around
      both numbers, are accepted, and they read as (lo, hi). */
  lemma AcceptsExactly(s: string, lo: int, hi: int)
    ensures ParseVmidRange(s) == Some((lo, hi)) <==>
              InBounds(lo, hi) && exists first, second ::
                s == first + "-" + second && '-' !in first && Reads(first, lo) && Reads(second, hi)
  {
    var (first, second, found) := Cut(s, '-');
    if found {
      ReadsIsTrimmedAtoi(first, lo);
      ReadsIsTrimmedAtoi(second, hi);
    }
    forall a, b | s == a + "-" + b && '-' !in a
      ensures found && a == first && b == second
    {
      assert s[..|a|] == a;
      IndexAt(s, '-', |a|);
      assert s[|a| + 1..] == b;
    }
  }

  lemma WrittenReads(left: string, n: nat, right: string)
    requires AllSpace(left) && AllSpace(right) && n <= MAX_VMID
    ensures Reads(left + Decimal(n) + right, n) && '-' !in left + Decimal(n) + right
  {
    AtoiDecimal(n);
    assert Padded(left + Decimal(n) + right, left, Decimal(n), right);
    assert forall i | 0 <= i < |left| :: IsSpace(left[i]);
    assert forall i | 0 <= i < |right| :: IsSpace(right[i]);
  }

  lemma RangeOf(first: string, second: string, lo: int, hi: int)
    requires InBounds(lo, hi) && '-' !in first && Reads(first, lo) && Reads(second, hi)
    ensures ParseVmidRange(first + "-" + second) == Some((lo, hi))
  {
    AcceptsExactly(first + "-" + second, lo, hi);
  }

  /** Every legal range survives being written out and parsed, with any padding. */
  lemma RangeRoundTrip(lo: int, hi: int, a: string, b: string, c: string, d: string)
    requires InBounds(lo, hi) && AllSpace(a) && AllSpace(b) && AllSpace(c) && AllSpace(d)
    ensures ParseVmidRange((a + Decimal(lo) + b) + "-" + (c + Decimal(hi) + d)) == Some((lo, hi))
  {
    WrittenReads(a, lo, b);
    WrittenReads(c, hi, d);
    RangeOf(a + Decimal(lo) + b, c + Decimal(hi) + d, lo, hi);
  }

  /** The driver's options, after SetConfigFromFlags. */
  datatype Settings = Settings(
    machineName: string, url: string, tokenId: string, tokenSecret: string, template: string,
    nodeName: string, storage: string, linkedClone: bool,
    cores: int, memoryMB: int, cpuType: string, diskSizeGB: int, bridge: string, vlanTag: int,
    sshUser: string, agentTimeout: int, vmidRange: string, ciPassword: string, nameserver: string,
    searchdomain: string, onBoot: bool, extraTags: string, keepOnFailure: bool)

  /** Zero values stand for the defaults. */
  function WithDefaults(s: Settings): Settings {
    s.(cores := if s.cores == 0 then 2 else s.cores,
       memoryMB := if s.memoryMB == 0 then 4096 else s.memoryMB,
       sshUser := if s.sshUser == "" then "rancher" else s.sshUser,
       agentTimeout := if s.agentTimeout == 0 then 300 else s.agentTimeout,
       vmidRange := if s.vmidRange == "" then "10000-19999" else s.vmidRange)
  }

  /** The settings that SetConfigFromFlags lets through. */
  predicate Acceptable(s: Settings) {
    && s.url != "" && s.tokenId != "" && s.tokenSecret != "" && s.template != ""
    && ParseVmidRange(s.vmidRange).Some?
    && 0 <= s.vlanTag <= 4094
    && (s.vlanTag > 0 ==> s.bridge != "")
    && s.diskSizeGB >= 0
  }

  /** SetConfigFromFlags: the driver's fields are assigned first and checked afterwards. */
  method SetConfigFromFlags(flags: Settings) returns (settings: Settings, ok: bool)
    ensures settings == WithDefaults(flags)
    ensures ok <==> Acceptable(settings)
  {
    settings := FillDefaults(flags);
    ok := Check(settings);
  }

  method FillDefaults(flags: Settings) returns (settings: Settings)
    ensures settings == WithDefaults(flags)
  {
    settings := flags;
    if settings.cores == 0 {
      settings := settings.(cores := 2);
    }
    if settings.memoryMB == 0 {
      settings := settings.(memoryMB := 4096);
    }
    if settings.sshUser == "" {
      settings := settings.(sshUser := "rancher");
    }
    if settings.agentTimeout == 0 {
      settings := settings.(agentTimeout := 300);
    }
    if settings.vmidRange == "" {
      settings := settings.(vmidRange := "10000-19999");
    }
  }

  method Check(settings: Settings) returns (ok: bool)
    ensures ok <==> Acceptable(settings)
  {
    if settings.url == "" || settings.tokenId == "" || settings.tokenSecret == "" || settings.template == "" {
      return false;
    }
    if ParseVmidRange(settings.vmidRange) == None {
      return false;
    }
    if settings.vlanTag < 0 || settings.vlanTag > 4094 {
      return false;
    }
    if settings.vlanTag > 0 && settings.bridge == "" {
      return false;
    }
    return settings.diskSizeGB >= 0;
  }

  /** What zero values stand for. Every other value is kept. */
  lemma DefaultsAre(flags: Settings)
    ensures var s := WithDefaults(flags);
            && s.cores == (if flags.cores == 0 then 2 else flags.cores)
            && s.memoryMB == (if flags.memoryMB == 0 then 4 * 1024 else flags.memoryMB)
            && s.sshUser == (if flags.sshUser == "" then "rancher" else flags.sshUser)
            && s.agentTimeout == (if flags.agentTimeout == 0 then 5 * 60 else flags.agentTimeout)
            && (if flags.vmidRange == "" then ParseVmidRange(s.vmidRange) == Some((10_000, 19_999))
                else s.vmidRange == flags.vmidRange)
    ensures WithDefaults(flags) ==
            flags.(cores := WithDefaults(flags).cores, memoryMB := WithDefaults(flags).memoryMB,
                   sshUser := WithDefaults(flags).sshUser, agentTimeout := WithDefaults(flags).agentTimeout,
                   vmidRange := WithDefaults(flags).vmidRange)
  {
    if flags.vmidRange == "" {
      DefaultRange();
    }
  }

  lemma DefaultRange()
    ensures ParseVmidRange("10000-19999") == Some((10_000, 19_999))
  {
    DefaultLow();
    DefaultHigh();
    assert "10000-19999" == "10000" + "-" + "19999";
    RangeOf("10000", "19999", 10_000, 19_999);
  }

  lemma DefaultLow()
    ensures '-' !in "10000" && Reads("10000", 10_000)
  {
    ReadsNumber("10000", 1, 0, 0, 0, 0);
  }

  lemma DefaultHigh()
    ensures Reads("19999", 19_999)
  {
    ReadsNumber("19999", 1, 9, 9, 9, 9);
  }

  lemma ReadsNumber(s: string, a: int, b: int, c: int, d: int, e: int)
    requires |s| == 5 && AllDigits(s)
    requires [a, b, c, d, e] == seq(5, i requires 0 <= i < 5 => s[i] as int - '0' as int)
    ensures '-' !in s && Reads(s, 10_000 * a + 1_000 * b + 100 * c + 10 * d + e)
  {
    assert [a, b, c, d, e][0] == a && [a, b, c, d, e][1] == b && [a, b, c, d, e][2] == c && [a, b, c, d, e][3] == d;
    assert [a, b, c, d, e][4] == e;
    assert s[..4][..3] == s[..3] && s[..3][..2] == s[..2] && s[..2][..1] == s[..1] && s[..1][..0] == [];
    assert Value(s[..1]) == a;
    assert Value(s[..2]) == 10 * a + b;
    assert Value(s[..3]) == 100 * a + 10 * b + c;
    assert Value(s[..4]) == 1_000 * a + 100 * b + 10 * c + d;
    assert Padded(s, "", s, "");
  }

  /** What the rest of the driver gains from accepted settings: Create's own parse of the VMID range cannot
      fail, there are at least two VMIDs to draw from, all of them legal, and no default is missing. */
  lemma AcceptedSettingsServe(flags: Settings) returns (lo: int, hi: int)
    requires Acceptable(WithDefaults(flags))
    ensures var s := WithDefaults(flags);
            && ParseVmidRange(s.vmidRange) == Some((lo, hi)) && 100 <= lo < hi <= 999_999_999
            && s.cores != 0 && s.memoryMB != 0 && s.agentTimeout != 0 && s.sshUser != ""
  {
    var range := ParseVmidRange(WithDefaults(flags).vmidRange).value;
    lo, hi := range.0, range.1;
    AcceptsExactly(WithDefaults(flags).vmidRange, lo, hi);
  }
}
