/** pkg/validate: what the driver reads out of a template's configuration, and the sizing rules. */
module Validate {
  import opened Text

  /** The configuration fields of a VM that are inspected here. */
  datatype VmConfig = VmConfig(scsis: map<string, string>, virtios: map<string, string>, ides: map<string, string>,
                               satas: map<string, string>, nets: map<string, string>, boot: string, agent: string)

  // ---- NIC address -------------------------------------------------------------------------

  const NIC_MODELS: set<string> := {"virtio", "e1000", "e1000e", "rtl8139", "vmxnet3"}

  /** The parts of "virtio=DE:AD:BE:EF:12:34,bridge=vmbr0" that hold the MAC. */
  predicate HoldsMac(part: string) {
    var (k, v, found) := Cut(TrimSpace(part), '=');
    found && k in NIC_MODELS
  }

  function MacIn(part: string): string {
    ToUpper(Cut(TrimSpace(part), '=').1)
  }

  /** The comma-separated parts of a network device's value; none when there is no such device. */
  function NicParts(nets: map<string, string>, key: string): seq<string> {
    if key !in nets || nets[key] == "" then [] else Split(nets[key], ',')
  }

  ghost predicate FirstMac(parts: seq<string>, i: nat) {
    i < |parts| && HoldsMac(parts[i]) && forall j | 0 <= j < i :: !HoldsMac(parts[j])
  }

  /** The address of a network device: the value of the first NIC-model key, in upper case. */
  ghost predicate IsMacOf(nets: map<string, string>, key: string, mac: string) {
    exists i: nat :: FirstMac(NicParts(nets, key), i) && mac == MacIn(NicParts(nets, key)[i])
  }

  lemma {:induction false} FirstPart(parts: seq<string>, part: string) returns (i: nat)
    requires part in parts && HoldsMac(part)
    ensures FirstMac(parts, i)
  {
    if HoldsMac(parts[0]) {
      i := 0;
    } else {
      var k := FirstPart(parts[1..], part);
      i := k + 1;
      assert forall j | 0 < j < i :: parts[j] == parts[1..][j - 1];
    }
  }

  /** A network device with such a part has an address. */
  lemma HasMac(nets: map<string, string>, key: string, part: string) returns (mac: string)
    requires part in NicParts(nets, key) && HoldsMac(part)
    ensures IsMacOf(nets, key, mac)
  {
    var i := FirstPart(NicParts(nets, key), part);
    mac := MacIn(NicParts(nets, key)[i]);
  }

  lemma MacIsUnique(nets: map<string, string>, key: string, a: string, b: string)
    requires IsMacOf(nets, key, a) && IsMacOf(nets, key, b)
    ensures a == b
  {
    var parts := NicParts(nets, key);
    var i: nat :| FirstMac(parts, i) && a == MacIn(parts[i]);
    var j: nat :| FirstMac(parts, j) && b == MacIn(parts[j]);
    assert i == j;
  }

  predicate IsNicModel(model: string) {
    model == "virtio" || model == "e1000" || model == "e1000e" || model == "rtl8139" || model == "vmxnet3"
  }

  lemma NicModelsAre(model: string)
    ensures model in NIC_MODELS <==> IsNicModel(model)
    ensures IsNicModel(model) ==> '=' !in model
  {
  }

  /** The parts that hold a MAC: a NIC model, an equals sign and the address, with white space around them. */
  lemma HoldsMacExactly(part: string)
    ensures HoldsMac(part) <==> exists model, value :: TrimSpace(part) == model + "=" + value && IsNicModel(model)
  {
    var text := TrimSpace(part);
    var (k, v, found) := Cut(text, '=');
    NicModelsAre(k);
    if model, value :| text == model + "=" + value && IsNicModel(model) {
      NicModelsAre(model);
      assert text[..|model|] == model;
      IndexAt(text, '=', |model|);
    }
  }

  /** The address of a network device has no lower-case letters, and is otherwise as the configuration has it. */
  lemma MacIsUpperCase(nets: map<string, string>, key: string, mac: string)
    requires IsMacOf(nets, key, mac)
    ensures NoLowerCase(mac)
    ensures exists part, model, value ::
              part in NicParts(nets, key) && TrimSpace(part) == model + "=" + value && SameButCase(value, mac)
  {
    var parts := NicParts(nets, key);
    var i: nat :| FirstMac(parts, i) && mac == MacIn(parts[i]);
    var (model, value, found) := Cut(TrimSpace(parts[i]), '=');
    ToUpperExactly(value, mac);
    assert parts[i] in parts && TrimSpace(parts[i]) == model + "=" + value;
  }

  /** NICMAC. */
  method NICMAC(nets: map<string, string>, key: string) returns (mac: Option<string>)
    ensures mac == None <==> forall part | part in NicParts(nets, key) :: !HoldsMac(part)
    ensures mac.Some? ==> IsMacOf(nets, key, mac.value)
  {
    if key !in nets || nets[key] == "" {
      return None;
    }
    var parts := Split(nets[key], ',');
    for i := 0 to |parts|
      invariant forall j | 0 <= j < i :: !HoldsMac(parts[j])
    {
      var (k, v, found) := Cut(TrimSpace(parts[i]), '=');
      if found && k in NIC_MODELS {
        assert FirstMac(parts, i) && parts[i] in NicParts(nets, key);
        return Some(ToUpper(v));
      }
    }
    return None;
  }

  // ---- Disk sizes --------------------------------------------------------------------------

  const SIZE_KEY := "size="

  /** The end of the run of digits that starts at `i`. */
  function DigitsEnd(s: string, i: nat): (j: nat)
    requires i <= |s|
    ensures i <= j <= |s| && AllDigits(s[i..j]) && (j < |s| ==> !IsDigit(s[j]))
    decreases |s| - i
  {
    if i == |s| || !IsDigit(s[i]) then i
    else
      var j := DigitsEnd(s, i + 1);
      assert s[i..j] == [s[i]] + s[i + 1..j];
      j
  }

  /** A size option at position `q`: size=<digits><unit>, at the start or after a comma. */
  ghost predicate SizedAt(s: string, q: nat, digits: string, unit: char) {
    && (q == 0 || (q <= |s| && s[q - 1] == ','))
    && unit in {'M', 'G', 'T'} && digits != [] && AllDigits(digits)
    && OccursAt(s, "size=" + digits + [unit], q)
  }

  /** What the pattern of the source matches at position `q`, if anything. */
  function SizeAt(s: string, q: nat): (r: Option<(string, char)>)
    requires q <= |s|
    ensures r.Some? ==> SizedAt(s, q, r.value.0, r.value.1)
  {
    var d := q + |SIZE_KEY|;
    if (q > 0 && s[q - 1] != ',') || !OccursAt(s, SIZE_KEY, q) then None
    else
      var e := DigitsEnd(s, d);
      if e == d || e == |s| || s[e] !in {'M', 'G', 'T'} then None
      else
        assert s[q..q + |SIZE_KEY + s[d..e] + [s[e]]|] == s[q..d] + s[d..e] + [s[e]];
        Some((s[d..e], s[e]))
  }

  lemma DigitsEndAt(s: string, d: nat, e: nat)
    requires d <= e <= |s| && AllDigits(s[d..e]) && (e < |s| ==> !IsDigit(s[e]))
    ensures DigitsEnd(s, d) == e
  {
    var end := DigitsEnd(s, d);
    assert forall k | d <= k < e :: s[k] == s[d..e][k - d];
    assert forall k | d <= k < end :: s[k] == s[d..end][k - d];
  }

  /** A text found at a position is found there piece by piece. */
  lemma PiecesAt(s: string, a: string, b: string, q: nat)
    requires OccursAt(s, a + b, q)
    ensures OccursAt(s, a, q) && OccursAt(s, b, q + |a|)
  {
    var whole := s[q..q + |a + b|];
    assert whole[..|a|] == a && whole[|a|..] == b;
    assert s[q..q + |a|] == whole[..|a|];
    assert s[q + |a|..q + |a| + |b|] == whole[|a|..];
  }

  lemma SizeAtIsUnique(s: string, q: nat, digits: string, unit: char)
    requires SizedAt(s, q, digits, unit)
    ensures q <= |s| && SizeAt(s, q) == Some((digits, unit))
  {
    var d := q + |SIZE_KEY|;
    PiecesAt(s, SIZE_KEY + digits, [unit], q);
    PiecesAt(s, SIZE_KEY, digits, q);
    DigitsEndAt(s, d, d + |digits|);
  }

  /** The leftmost match at or after `q`. */
  function FindSize(s: string, q: nat): (r: Option<(string, char)>)
    requires q <= |s|
    decreases |s| - q
  {
    if SizeAt(s, q).Some? then SizeAt(s, q)
    else if q == |s| then None
    else FindSize(s, q + 1)
  }

  /** The leftmost size option from position `from` on. */
  ghost predicate Leftmost(s: string, from: nat, p: nat, digits: string, unit: char) {
    from <= p && SizedAt(s, p, digits, unit) && forall p': nat, d, u | from <= p' < p :: !SizedAt(s, p', d, u)
  }

  ghost predicate IsLeftmost(s: string, q: nat, r: Option<(string, char)>) {
    match r
    case Some((digits, unit)) => exists p: nat :: Leftmost(s, q, p, digits, unit)
    case None => forall p: nat, d, u | q <= p :: !SizedAt(s, p, d, u)
  }

  /** FindStringSubmatch of the size pattern: the leftmost size option, and none only if there is none. */
  lemma {:induction false} FindSizeIsLeftmost(s: string, q: nat)
    requires q <= |s|
    ensures IsLeftmost(s, q, FindSize(s, q))
    decreases |s| - q
  {
    if SizeAt(s, q).Some? {
      var (digits, unit) := SizeAt(s, q).value;
      assert Leftmost(s, q, q, digits, unit);
    } else if q < |s| {
      FindSizeIsLeftmost(s, q + 1);
      LeftmostLater(s, q, FindSize(s, q + 1));
    } else {
      NoSizeAt(s, q);
    }
  }

  lemma LeftmostLater(s: string, q: nat, r: Option<(string, char)>)
    requires q < |s| && SizeAt(s, q) == None && IsLeftmost(s, q + 1, r)
    ensures IsLeftmost(s, q, r)
  {
    NoSizeAt(s, q);
    if r.Some? {
      var (digits, unit) := r.value;
      var p: nat :| Leftmost(s, q + 1, p, digits, unit);
      assert Leftmost(s, q, p, digits, unit);
    }
  }

  lemma NoSizeAt(s: string, q: nat)
    requires q <= |s| && SizeAt(s, q) == None
    ensures forall d, u :: !SizedAt(s, q, d, u)
  {
    forall d, u
      ensures !SizedAt(s, q, d, u)
    {
      if SizedAt(s, q, d, u) {
        SizeAtIsUnique(s, q, d, u);
      }
    }
  }

  const TWO_64: int := 0x1_0000_0000_0000_0000

  /** 64-bit wrap-around of Go's int. */
  function Wrap(n: int): (w: int)
    ensures -MAX_INT - 1 <= w <= MAX_INT
  {
    (n + MAX_INT + 1) % TWO_64 - MAX_INT - 1
  }

  /** Go's division, which truncates toward zero. */
  function Quotient(n: int, d: int): int
    requires d > 0
  {
    if n >= 0 then n / d else 0 - (0 - n) / d
  }

  /** strconv.Atoi with its range error ignored, on a run of digits. */
  function Clamped(digits: string): nat
    requires AllDigits(digits)
  {
    if Value(digits) <= MAX_INT then Value(digits) else MAX_INT
  }

  /** The size in GB that BootDisk computes. */
  function SizeGB(digits: string, unit: char): int
    requires AllDigits(digits)
  {
    var n := Clamped(digits);
    if unit == 'M' then Quotient(Wrap(n + 1023), 1024)
    else if unit == 'G' then n
    else Wrap(n * 1024)
  }

  /** The size the text denotes, in MB. */
  function TrueMB(digits: string, unit: char): nat
    requires AllDigits(digits)
  {
    var n := Value(digits);
    if unit == 'M' then n else if unit == 'G' then n * 1024 else n * 1024 * 1024
  }

  function CeilGB(mb: nat): nat {
    (mb + 1023) / 1024
  }

  /** Whether the computation stays within 64 bits. */
  predicate Fits(digits: string, unit: char)
    requires AllDigits(digits)
  {
    var n := Value(digits);
    if unit == 'M' then n + 1023 <= MAX_INT else if unit == 'G' then n <= MAX_INT else n * 1024 <= MAX_INT
  }

  lemma WrapIdentity(n: int)
    requires -MAX_INT - 1 <= n <= MAX_INT
    ensures Wrap(n) == n
  {
  }

  lemma WrapsNegative(n: int)
    requires MAX_INT < n <= 2 * MAX_INT + 1
    ensures Wrap(n) == n - TWO_64 < 0
  {
  }

  /** BootDisk's figure is the true size rounded up, exactly when nothing overflows. */
  lemma SizeIsCeiling(digits: string, unit: char)
    requires AllDigits(digits) && unit in {'M', 'G', 'T'}
    ensures SizeGB(digits, unit) == CeilGB(TrueMB(digits, unit)) <==> Fits(digits, unit)
  {
    var n := Clamped(digits);
    var v := Value(digits);
    if unit == 'M' {
      if n + 1023 <= MAX_INT {
        WrapIdentity(n + 1023);
      } else {
        WrapsNegative(n + 1023);
      }
    } else if unit == 'G' {
      CeilOfWhole(v);
    } else {
      assert v * 1024 * 1024 == (v * 1024) * 1024;
      CeilOfWhole(v * 1024);
      if v * 1024 <= MAX_INT {
        WrapIdentity(v * 1024);
      }
    }
  }

  lemma CeilOfWhole(gb: nat)
    ensures CeilGB(gb * 1024) == gb
  {
  }

  // ---- Sizing rules ------------------------------------------------------------------------

  /** ValidateDiskSize: grow only; 0 keeps the template's size. */
  predicate ValidateDiskSize(requestedGB: int, templateGB: int) {
    !(requestedGB != 0 && requestedGB < templateGB)
  }

  /** The boot disk's size in MB after Create, which resizes only to grow. */
  function FinalMB(requestedGB: int, templateGB: int, trueMB: nat): int {
    if requestedGB > templateGB then requestedGB * 1024 else trueMB
  }

  /** Every accepted request grows the disk strictly or leaves it alone, and ends less than one GB
      short of what was asked for. */
  lemma ResizeNeverShrinks(digits: string, unit: char, requestedGB: nat)
    requires AllDigits(digits) && unit in {'M', 'G', 'T'} && Fits(digits, unit)
    requires ValidateDiskSize(requestedGB, SizeGB(digits, unit))
    ensures var before := TrueMB(digits, unit);
            var after := FinalMB(requestedGB, SizeGB(digits, unit), before);
            && after >= before
            && (requestedGB > SizeGB(digits, unit) ==> after > before)
            && (requestedGB != 0 ==> after > requestedGB * 1024 - 1024)
  {
    SizeIsCeiling(digits, unit);
  }

  ghost predicate CanShrink(digits: string, unit: char, requestedGB: int)
    requires AllDigits(digits)
  {
    && 0 <= requestedGB <= MAX_INT && ValidateDiskSize(requestedGB, SizeGB(digits, unit))
    && FinalMB(requestedGB, SizeGB(digits, unit), TrueMB(digits, unit)) < TrueMB(digits, unit)
  }

  /** "The disk is never shrunk" is false for absurdly large sizes: it holds for all accepted requests
      if and only if the size is given in GB or the computation does not overflow. */
  lemma GrowOnlyExactly(digits: string, unit: char)
    requires AllDigits(digits) && unit in {'M', 'G', 'T'}
    ensures (forall requestedGB :: !CanShrink(digits, unit, requestedGB)) <==> unit == 'G' || Fits(digits, unit)
  {
    if Fits(digits, unit) {
      forall requestedGB
        ensures !CanShrink(digits, unit, requestedGB)
      {
        if requestedGB >= 0 && ValidateDiskSize(requestedGB, SizeGB(digits, unit)) {
          ResizeNeverShrinks(digits, unit, requestedGB);
        }
      }
    } else if unit == 'M' {
      MegabytesShrink(digits);
    } else if unit == 'T' {
      TerabytesShrink(digits);
    }
  }

  lemma MegabytesShrink(digits: string)
    requires AllDigits(digits) && !Fits(digits, 'M')
    ensures CanShrink(digits, 'M', 1)
  {
    WrapsNegative(Clamped(digits) + 1023);
  }

  lemma TerabytesShrink(digits: string)
    requires AllDigits(digits) && !Fits(digits, 'T')
    ensures exists requestedGB :: CanShrink(digits, 'T', requestedGB)
  {
    var gb := SizeGB(digits, 'T');
    WrappedIsBelow(Clamped(digits) * 1024);
    assert CanShrink(digits, 'T', if gb < 0 then 1 else gb + 1);
  }

  /** A wrapped multiple of 1024 is not the largest integer. */
  lemma WrappedIsBelow(n: nat)
    requires n % 1024 == 0
    ensures Wrap(n) < MAX_INT
  {
  }

  /** A template disk of 2^54 TB counts as 0 GB, so that any size at all would be accepted. */
  lemma OverflowExample(digits: string)
    requires AllDigits(digits) && Value(digits) == 0x40_0000_0000_0000
    ensures SizeGB(digits, 'T') == 0 && CanShrink(digits, 'T', 1)
  {
  }

  // ---- Boot disk ---------------------------------------------------------------------------

  const CONVENTIONAL: seq<string> := ["scsi0", "virtio0", "ide0", "sata0"]

  function Lookup(cfg: VmConfig, key: string): Option<string> {
    if key in cfg.scsis then Some(cfg.scsis[key])
    else if key in cfg.virtios then Some(cfg.virtios[key])
    else if key in cfg.ides then Some(cfg.ides[key])
    else if key in cfg.satas then Some(cfg.satas[key])
    else None
  }

  predicate IsDisk(value: string) {
    !Contains(value, "media=cdrom") && !Contains(value, "cloudinit")
  }

  predicate IsBootable(cfg: VmConfig, key: string) {
    Lookup(cfg, key).Some? && IsDisk(Lookup(cfg, key).value)
  }

  /** The keys in the order in which they are tried: the boot order, then the conventional ones. */
  function BootOrder(cfg: VmConfig): seq<string> {
    (if "order=" <= cfg.boot then Split(cfg.boot[|"order="|..], ';') else []) + CONVENTIONAL
  }

  datatype Boot = Disk(key: string, gb: int, value: string) | Unsized(key: string) | NoDisk

  /** Candidate number `i` is the first bootable one. */
  ghost predicate FirstBootable(cfg: VmConfig, i: nat) {
    && i < |BootOrder(cfg)| && IsBootable(cfg, TrimSpace(BootOrder(cfg)[i]))
    && forall j | 0 <= j < i :: !IsBootable(cfg, TrimSpace(BootOrder(cfg)[j]))
  }

  /** The first bootable candidate decides, also when its size cannot be read. */
  ghost predicate IsBoot(cfg: VmConfig, r: Boot) {
    match r
    case NoDisk => forall i | 0 <= i < |BootOrder(cfg)| :: !IsBootable(cfg, TrimSpace(BootOrder(cfg)[i]))
    case Unsized(key) =>
      && (exists i: nat :: FirstBootable(cfg, i) && key == TrimSpace(BootOrder(cfg)[i]))
      && Lookup(cfg, key).Some? && forall p: nat, d, u :: !SizedAt(Lookup(cfg, key).value, p, d, u)
    case Disk(key, gb, value) =>
      && (exists i: nat :: FirstBootable(cfg, i) && key == TrimSpace(BootOrder(cfg)[i]))
      && Lookup(cfg, key) == Some(value) && HasSize(value, gb)
  }

  ghost predicate HasSize(value: string, gb: int) {
    exists digits, unit, q: nat :: Leftmost(value, 0, q, digits, unit) && gb == SizeGB(digits, unit)
  }

  lemma SizeIsUnique(value: string, a: int, b: int)
    requires HasSize(value, a) && HasSize(value, b)
    ensures a == b
  {
    var d, u, q: nat :| Leftmost(value, 0, q, d, u) && a == SizeGB(d, u);
    var e, v, r: nat :| Leftmost(value, 0, r, e, v) && b == SizeGB(e, v);
    assert q == r;
    SizeAtIsUnique(value, q, d, u);
    SizeAtIsUnique(value, q, e, v);
  }

  /** A configuration has only one boot disk. */
  lemma BootIsUnique(cfg: VmConfig, a: Boot, b: Boot)
    requires IsBoot(cfg, a) && IsBoot(cfg, b)
    ensures a == b
  {
    if !a.NoDisk? && !b.NoDisk? {
      var i: nat :| FirstBootable(cfg, i) && a.key == TrimSpace(BootOrder(cfg)[i]);
      var j: nat :| FirstBootable(cfg, j) && b.key == TrimSpace(BootOrder(cfg)[j]);
      assert i == j;
      if a.Disk? && b.Disk? {
        SizeIsUnique(a.value, a.gb, b.gb);
      }
    }
  }

  method InGB(digits: string, unit: char) returns (sizeGB: int)
    requires AllDigits(digits) && unit in {'M', 'G', 'T'}
    ensures sizeGB == SizeGB(digits, unit)
  {
    var n := Clamped(digits);
    match unit {
      case 'M' => sizeGB := Quotient(Wrap(n + 1023), 1024);
      case 'G' => sizeGB := n;
      case _ => sizeGB := Wrap(n * 1024);
    }
  }

  /** BootDisk. */
  method BootDisk(cfg: VmConfig) returns (r: Boot)
    ensures IsBoot(cfg, r)
  {
    var candidates: seq<string> := [];
    if "order=" <= cfg.boot {
      candidates := Split(cfg.boot[|"order="|..], ';');
    }
    candidates := candidates + CONVENTIONAL;
    for i := 0 to |candidates|
      invariant forall j | 0 <= j < i :: !IsBootable(cfg, TrimSpace(candidates[j]))
    {
      var key := TrimSpace(candidates[i]);
      var found := Lookup(cfg, key);
      if found == None || !IsDisk(found.value) {
        continue;
      }
      assert FirstBootable(cfg, i) && key == TrimSpace(BootOrder(cfg)[i]);
      var m := FindSize(found.value, 0);
      FindSizeIsLeftmost(found.value, 0);
      if m == None {
        return Unsized(key);
      }
      var sizeGB := InGB(m.value.0, m.value.1);
      assert HasSize(found.value, sizeGB);
      return Disk(key, sizeGB, found.value);
    }
    return NoDisk;
  }

  /** A device of that name, wherever it is listed. */
  predicate IsDevice(cfg: VmConfig, key: string) {
    key in cfg.scsis || key in cfg.virtios || key in cfg.ides || key in cfg.satas
  }

  /** `sub` is no part of `s`. */
  ghost predicate Lacks(s: string, sub: string) {
    forall a, b :: s != a + sub + b
  }

  lemma LacksExactly(s: string, sub: string)
    ensures Lacks(s, sub) <==> !Contains(s, sub)
  {
    if a, b :| s == a + sub + b {
      assert OccursAt(s, sub, |a|);
    }
    if i :| 0 <= i <= |s| && OccursAt(s, sub, i) {
      assert s == s[..i] + sub + s[i + |sub|..];
    }
  }

  /** The device has a value, which is neither a CD drive's nor a cloud-init drive's. */
  ghost predicate HoldsDisk(cfg: VmConfig, key: string) {
    && IsDevice(cfg, key)
    && exists value | DeviceIs(cfg, key, value) :: Lacks(value, "media=cdrom") && Lacks(value, "cloudinit")
  }

  /** Where a name is listed more than once, SCSI goes first, then VirtIO, then IDE. */
  predicate DeviceIs(cfg: VmConfig, key: string, value: string) {
    || (key in cfg.scsis && cfg.scsis[key] == value)
    || (key !in cfg.scsis && key in cfg.virtios && cfg.virtios[key] == value)
    || (key !in cfg.scsis && key !in cfg.virtios && key in cfg.ides && cfg.ides[key] == value)
    || (key !in cfg.scsis && key !in cfg.virtios && key !in cfg.ides && key in cfg.satas && cfg.satas[key] == value)
  }

  lemma BootableExactly(cfg: VmConfig, key: string)
    ensures IsBootable(cfg, key) <==> HoldsDisk(cfg, key)
  {
    if IsDevice(cfg, key) {
      var value := Lookup(cfg, key).value;
      assert DeviceIs(cfg, key, value);
      LacksExactly(value, "media=cdrom");
      LacksExactly(value, "cloudinit");
    }
  }

  /** The disk `key` comes before every other that could be booted from: the boot order goes first, and after
      it scsi0, virtio0, ide0 and sata0 in this order. */
  ghost predicate Preferred(cfg: VmConfig, order: seq<string>, key: string) {
    || (exists i | 0 <= i < |order| ::
          key == TrimSpace(order[i]) && forall j | 0 <= j < i :: !HoldsDisk(cfg, TrimSpace(order[j])))
    || (NoDiskIn(cfg, order)
        && (|| key == "scsi0"
            || (key == "virtio0" && !HoldsDisk(cfg, "scsi0"))
            || (key == "ide0" && !HoldsDisk(cfg, "scsi0") && !HoldsDisk(cfg, "virtio0"))
            || (key == "sata0" && !HoldsDisk(cfg, "scsi0") && !HoldsDisk(cfg, "virtio0") && !HoldsDisk(cfg, "ide0"))))
  }

  /** The boot order of a configuration: what "order=" gives, separated by semicolons. */
  ghost predicate GivesOrder(boot: string, order: seq<string>) {
    || (exists text :: boot == "order=" + text && order == Split(text, ';'))
    || ((forall text :: boot != "order=" + text) && order == [])
  }

  lemma CandidatesAre(cfg: VmConfig, order: seq<string>)
    requires GivesOrder(cfg.boot, order)
    ensures BootOrder(cfg) == order + ["scsi0", "virtio0", "ide0", "sata0"]
  {
    if "order=" <= cfg.boot {
      var rest := cfg.boot[|"order="|..];
      assert cfg.boot == "order=" + rest;
      assert forall text | cfg.boot == "order=" + text :: text == rest;
    }
  }

  lemma ConventionalAreBare()
    ensures TrimSpace("scsi0") == "scsi0" && TrimSpace("virtio0") == "virtio0"
    ensures TrimSpace("ide0") == "ide0" && TrimSpace("sata0") == "sata0"
  {
    BareStays("scsi0");
    BareStays("virtio0");
    BareStays("ide0");
    BareStays("sata0");
  }

  lemma BareStays(s: string)
    requires Bare(s)
    ensures TrimSpace(s) == s
  {
    assert [] + s + [] == s;
    TrimPadded([], s, []);
  }

  /** What BootDisk chooses is a disk, never a CD or cloud-init drive, and the preferred one of the disks. */
  lemma BootPreference(cfg: VmConfig, order: seq<string>, r: Boot)
    requires GivesOrder(cfg.boot, order) && IsBoot(cfg, r) && !r.NoDisk?
    ensures HoldsDisk(cfg, r.key) && Preferred(cfg, order, r.key)
    ensures r.Disk? ==> DeviceIs(cfg, r.key, r.value) && Lacks(r.value, "media=cdrom") && Lacks(r.value, "cloudinit")
  {
    CandidatesAre(cfg, order);
    var i: nat :| FirstBootable(cfg, i) && r.key == TrimSpace(BootOrder(cfg)[i]);
    BootableExactly(cfg, r.key);
    forall j | 0 <= j < i
      ensures !HoldsDisk(cfg, TrimSpace(BootOrder(cfg)[j]))
    {
      BootableExactly(cfg, TrimSpace(BootOrder(cfg)[j]));
    }
    PreferredAt(cfg, order, i);
  }

  lemma PreferredAt(cfg: VmConfig, order: seq<string>, i: nat)
    requires var all := order + ["scsi0", "virtio0", "ide0", "sata0"];
             i < |all| && forall j | 0 <= j < i :: !HoldsDisk(cfg, TrimSpace(all[j]))
    ensures Preferred(cfg, order, TrimSpace((order + ["scsi0", "virtio0", "ide0", "sata0"])[i]))
  {
    var n, all := |order|, order + ["scsi0", "virtio0", "ide0", "sata0"];
    assert forall j | 0 <= j < n :: all[j] == order[j];
    assert all[n] == "scsi0" && all[n + 1] == "virtio0" && all[n + 2] == "ide0" && all[n + 3] == "sata0";
    ConventionalAreBare();
  }

  ghost predicate NoDiskIn(cfg: VmConfig, keys: seq<string>) {
    forall j | 0 <= j < |keys| :: !HoldsDisk(cfg, TrimSpace(keys[j]))
  }

  lemma NoDiskInEither(cfg: VmConfig, a: seq<string>, b: seq<string>)
    ensures NoDiskIn(cfg, a + b) <==> NoDiskIn(cfg, a) && NoDiskIn(cfg, b)
  {
    assert forall j | 0 <= j < |a| :: (a + b)[j] == a[j];
    assert forall j | 0 <= j < |b| :: (a + b)[|a| + j] == b[j];
  }

  lemma NoDiskInCandidates(cfg: VmConfig)
    ensures IsBoot(cfg, NoDisk) <==> NoDiskIn(cfg, BootOrder(cfg))
  {
    forall j | 0 <= j < |BootOrder(cfg)|
      ensures IsBootable(cfg, TrimSpace(BootOrder(cfg)[j])) <==> HoldsDisk(cfg, TrimSpace(BootOrder(cfg)[j]))
    {
      BootableExactly(cfg, TrimSpace(BootOrder(cfg)[j]));
    }
  }

  /** And it finds none only if there is none. */
  lemma NothingToBoot(cfg: VmConfig, order: seq<string>)
    requires GivesOrder(cfg.boot, order)
    ensures IsBoot(cfg, NoDisk) <==>
              && NoDiskIn(cfg, order) && !HoldsDisk(cfg, "scsi0") && !HoldsDisk(cfg, "virtio0")
              && !HoldsDisk(cfg, "ide0") && !HoldsDisk(cfg, "sata0")
  {
    CandidatesAre(cfg, order);
    ConventionalAreBare();
    NoDiskInCandidates(cfg);
    var last := ["scsi0", "virtio0", "ide0", "sata0"];
    NoDiskInEither(cfg, order, last);
    assert last[0] == "scsi0" && last[1] == "virtio0" && last[2] == "ide0" && last[3] == "sata0";
  }
}
