/**
 * Per-signal filtering of the HOTAS reports on the application's background
 * thread. The latest report of each device is parsed leniently, every known
 * signal's field is extracted and scaled, and one of three filters (none,
 * digital gate, analog spike clamp) is applied, keyed by "device:id". Each
 * filtered value goes to the mapper and to a plot buffer trimmed to the window.
 */
module HotasFilter {
  import opened Wrappers
  import opened Arith
  import opened HidField
  import opened HotasReader

  // ---------------------------------------------------------------------------
  // Lenient parsing: bad digits read as 0 and nothing fails.
  // ---------------------------------------------------------------------------

  /** A hex digit's value, 0 for any other character. */
  function LenientHexValue(c: char): (v: int)
    ensures 0 <= v < 16
    ensures IsHexChar(c) ==> v == HexValue(c)
    ensures !IsHexChar(c) ==> v == 0
  {
    if IsHexChar(c) then HexValue(c) else 0
  }

  /** Pair `j` of the string as a byte. */
  function LenientPair(hex: string, j: nat): Byte
    requires 2 * j + 1 < |hex|
  {
    PairByte(LenientHexValue(hex[2 * j]), LenientHexValue(hex[2 * j + 1]))
  }

  /** One byte per digit pair, the trailing odd character dropped. */
  function LenientDecode(hex: string): (b: seq<Byte>)
    ensures |b| == |hex| / 2
  {
    seq(|hex| / 2, j requires 0 <= j < |hex| / 2 => LenientPair(hex, j))
  }

  /** Where the strict parse succeeds the lenient one yields the same bytes; it is empty exactly for strings under two characters. */
  lemma LenientAgreesWithStrict(hex: string)
    ensures DecodeHex(hex).Some? ==> LenientDecode(hex) == DecodeHex(hex).value
    ensures LenientDecode(hex) == [] <==> |hex| < 2
  {
    DecodeHexSpec(hex);
    if DecodeHex(hex).Some? {
      DecodePairsSpec(hex, |hex| / 2);
      forall j | 0 <= j < |hex| / 2
        ensures LenientDecode(hex)[j] == DecodeHex(hex).value[j]
      {
        assert IsHexChar(hex[2 * j]) && IsHexChar(hex[2 * j + 1]);
      }
    }
  }

  /** The hex lambda of the background thread. */
  method LenientHexToBytes(hex: string) returns (out: seq<Byte>)
    ensures out == LenientDecode(hex)
  {
    out := [];
    var i := 0;
    while i + 1 < |hex|
      invariant i % 2 == 0 && i <= |hex|
      invariant |out| == i / 2
      invariant forall j :: 0 <= j < i / 2 ==> out[j] == LenientPair(hex, j)
    {
      var hi := LenientHexValue(hex[i]);
      var lo := LenientHexValue(hex[i + 1]);
      out := out + [PairByte(hi, lo)];
      i := i + 2;
    }
  }

  /** A field read with every bit past the end as 0 (no length check). */
  function LenientExtract(bytes: seq<Byte>, bitStart: int, bits: int): nat
  {
    if bits <= 0 then 0 else FieldValue(bytes, bitStart, bits)
  }

  lemma {:induction false} FieldValueOfEmpty(start: int, n: nat)
    ensures FieldValue([], start, n) == 0
  {
    if n > 0 {
      FieldValueOfEmpty(start, n - 1);
    }
  }

  /**
   * Where the strict extraction's field fits, both agree; a field entirely
   * past the end reads 0; the result is below `2^bits`.
   */
  lemma LenientExtractSpec(bytes: seq<Byte>, bitStart: int, bits: int)
    ensures bitStart >= 0 && bitStart + bits <= 8 * |bytes| ==> LenientExtract(bytes, bitStart, bits) == ExtractBits(bytes, bitStart, bits)
    ensures bitStart >= 8 * |bytes| ==> LenientExtract(bytes, bitStart, bits) == 0
    ensures bits > 0 ==> LenientExtract(bytes, bitStart, bits) < Pow2(bits)
  {
    if bitStart >= 8 * |bytes| && bits > 0 {
      FieldValueSameBits(bytes, [], bitStart, bits);
      FieldValueOfEmpty(bitStart, bits);
    }
  }

  /** The extract lambda of the background thread. */
  method LenientExtractBits(bytes: seq<Byte>, bitStart: int, bits: int) returns (val: nat)
    requires bits <= 64
    ensures val == LenientExtract(bytes, bitStart, bits)
  {
    if bits <= 0 {
      return 0;
    }
    val := 0;
    var i := 0;
    while i < bits
      invariant 0 <= i <= bits
      invariant val == FieldValue(bytes, bitStart, i)
    {
      var bitGlobal := bitStart + i;
      var bitv := 0;
      // a negative position becomes a huge unsigned byte index, past the end
      if bitGlobal >= 0 && bitGlobal / 8 < |bytes| {
        bitv := (bytes[bitGlobal / 8] / Pow2(bitGlobal % 8)) % 2;
      }
      val := val + bitv * Pow2(i);
      i := i + 1;
    }
  }

  // ---------------------------------------------------------------------------
  // Report selection (no freshness test on this path).
  // ---------------------------------------------------------------------------

  predicate HasData(hex: string)
  {
    hex != "" && hex != NoDataPlaceholder
  }

  /** The hex of the last report with data from a path of `kind`, or "" when there is none. */
  function LastReport(live: seq<(string, string)>, kind: DeviceKind): string
  {
    if live == [] then ""
    else if HasData(live[|live| - 1].1) && PathKind(live[|live| - 1].0) == Some(kind) then live[|live| - 1].1
    else LastReport(live[..|live| - 1], kind)
  }

  /** "" exactly when no path of `kind` has data; otherwise the last such report. */
  lemma {:induction false} LastReportSpec(live: seq<(string, string)>, kind: DeviceKind)
    ensures LastReport(live, kind) == "" <==>
      forall j :: 0 <= j < |live| ==> !(HasData(live[j].1) && PathKind(live[j].0) == Some(kind))
    ensures LastReport(live, kind) != "" ==>
      exists j :: 0 <= j < |live| && HasData(live[j].1) && PathKind(live[j].0) == Some(kind) && live[j].1 == LastReport(live, kind) &&
        forall k :: j < k < |live| ==> !(HasData(live[k].1) && PathKind(live[k].0) == Some(kind))
  {
    if live != [] {
      var front := live[..|live| - 1];
      LastReportSpec(front, kind);
      assert forall j :: 0 <= j < |front| ==> front[j] == live[j];
      var x := live[|live| - 1];
      if !(HasData(x.1) && PathKind(x.0) == Some(kind)) && LastReport(front, kind) != "" {
        var j :| 0 <= j < |front| && HasData(front[j].1) && PathKind(front[j].0) == Some(kind) &&
          front[j].1 == LastReport(front, kind) &&
          forall k :: j < k < |front| ==> !(HasData(front[k].1) && PathKind(front[k].0) == Some(kind));
        assert forall k :: j < k < |live| ==> !(HasData(live[k].1) && PathKind(live[k].0) == Some(kind));
      }
    }
  }

  /** The report loop: each stick or throttle report with data replaces that device's bytes. */
  method ReadReports(live: seq<(string, string)>) returns (stickBytes: seq<Byte>, throttleBytes: seq<Byte>)
    ensures stickBytes == LenientDecode(LastReport(live, Stick))
    ensures throttleBytes == LenientDecode(LastReport(live, Throttle))
  {
    stickBytes, throttleBytes := [], [];
    var i := 0;
    while i < |live|
      invariant 0 <= i <= |live|
      invariant stickBytes == LenientDecode(LastReport(live[..i], Stick))
      invariant throttleBytes == LenientDecode(LastReport(live[..i], Throttle))
    {
      assert live[..i + 1][..i] == live[..i];
      var (path, hex) := live[i];
      if hex == "" || hex == NoDataPlaceholder {
      } else if Contains(path, StickTag) && Contains(path, InterfaceTag) {
        stickBytes := LenientHexToBytes(hex);
      } else if Contains(path, ThrottleTag) && Contains(path, InterfaceTag) {
        throttleBytes := LenientHexToBytes(hex);
      }
      i := i + 1;
    }
    assert live[..i] == live;
  }

  // ---------------------------------------------------------------------------
  // Scaling of a raw field.
  // ---------------------------------------------------------------------------

  /** A reader signal together with the device that reports it. */
  datatype DeviceSignal = DeviceSignal(device: DeviceKind, desc: SignalDescriptor)

  function DevicePrefix(k: DeviceKind): string
  {
    match k
    case Stick => "stick"
    case Throttle => "throttle"
  }

  /** The filter-state and mapper key of a signal: "stick:joy_x", "throttle:…". */
  function MapKey(d: DeviceSignal): string
  {
    DevicePrefix(d.device) + ":" + d.desc.id
  }

  /** The plot-buffer key of a signal, by display name. */
  function BufferKey(d: DeviceSignal): string
  {
    DevicePrefix(d.device) + ":" + d.desc.name
  }

  predicate IsMainAxis(id: string) { id == "joy_x" || id == "joy_y" || id == "joy_z" }
  predicate IsCompactAxis(id: string) { id == "c_joy_x" || id == "c_joy_y" || id == "thumb_joy_x" || id == "thumb_joy_y" }
  predicate IsThrottle(id: string) { id == "left_throttle" || id == "right_throttle" }

  /** A field width the scaling can use: `1 << bits` is defined, and a throttle is never 0 bits wide. */
  predicate ScalableWidth(d: SignalDescriptor)
  {
    d.bits < 64 && (IsThrottle(d.id) ==> d.bits >= 1)
  }

  /** Main stick axes over -1..1 by their full width, compact axes by 255, throttles over 0..1, the rest raw. */
  function ScaleRaw(d: SignalDescriptor, raw: nat): real
    requires ScalableWidth(d)
  {
    if IsMainAxis(d.id) then
      var maxv := Pow2(d.bits) - 1;
      if maxv > 0 then raw as real / maxv as real * 2.0 - 1.0 else 0.0
    else if IsCompactAxis(d.id) then (raw as real / 255.0) * 2.0 - 1.0
    else if IsThrottle(d.id) then raw as real / (Pow2(d.bits) - 1) as real
    else raw as real
  }

  /** Every scaled field within range lands in the range the mapper expects. */
  lemma ScaleRawRange(d: SignalDescriptor, raw: nat)
    requires ScalableWidth(d) && raw < Pow2(d.bits)
    ensures IsMainAxis(d.id) ==> -1.0 <= ScaleRaw(d, raw) <= 1.0
    ensures !IsMainAxis(d.id) && IsCompactAxis(d.id) && raw < 256 ==> -1.0 <= ScaleRaw(d, raw) <= 1.0
    ensures !IsMainAxis(d.id) && !IsCompactAxis(d.id) && IsThrottle(d.id) ==> 0.0 <= ScaleRaw(d, raw) <= 1.0
    ensures !IsMainAxis(d.id) && !IsCompactAxis(d.id) && !IsThrottle(d.id) ==> ScaleRaw(d, raw) == raw as real
  {
    if IsMainAxis(d.id) && Pow2(d.bits) - 1 > 0 {
      var m := (Pow2(d.bits) - 1) as real;
      RatioAtMostOne(raw as real, m);
    } else if !IsMainAxis(d.id) && !IsCompactAxis(d.id) && IsThrottle(d.id) {
      assert Pow2(d.bits) >= 2 by {
        assert Pow2(d.bits) == 2 * Pow2(d.bits - 1);
      }
      var m := (Pow2(d.bits) - 1) as real;
      RatioAtMostOne(raw as real, m);
    }
  }

  lemma RatioAtMostOne(a: real, m: real)
    requires 0.0 <= a <= m && m > 0.0
    ensures 0.0 <= a / m <= 1.0
  {
    var q := a / m;
    assert q * m == a;
    assert (1.0 - q) * m == m - a;
  }

  // ---------------------------------------------------------------------------
  // The three filters, one key at a time.
  // ---------------------------------------------------------------------------

  function Abs(x: real): real
  {
    if x < 0.0 then -x else x
  }

  /** Analog mode: hold the previous filtered value on a jump of `delta` or more; pass the first sample. */
  function AnalogClamp(prev: Option<real>, v: real, delta: real): (out: real)
  {
    var p := prev.GetOr(v);
    if Abs(v - p) >= delta then p else v
  }

  lemma AnalogClampSpec(prev: Option<real>, v: real, delta: real)
    ensures prev.None? ==> AnalogClamp(prev, v, delta) == v
    ensures prev.Some? ==> (AnalogClamp(prev, v, delta) == prev.value <==> Abs(v - prev.value) >= delta || v == prev.value)
    ensures prev.Some? && Abs(v - prev.value) < delta ==> AnalogClamp(prev, v, delta) == v
    ensures prev.Some? && delta > 0.0 ==> Abs(AnalogClamp(prev, v, delta) - prev.value) < delta
  {
  }

  /** Binary gate memory of one key: pending rise time (-1 when none) and the promoted level. */
  datatype BinaryMem = BinaryMem(rise: real, active: bool)

  /** A level reads high at 0.5 for an analog field, above 0 otherwise. */
  function IsHigh(v: real, analog: bool): bool
  {
    if analog then v >= 0.5 else v > 0.0
  }

  /**
   * One step of the binary gate. `first` is a key with no previous raw value
   * (its previous level then equals the current one); `mem` holds the stored
   * rise time and flag, as default-created (0 and false) when missing.
   */
  function BinaryGate(first: bool, prevHi: bool, mem: BinaryMem, nowHi: bool, now: real, hold: real): (r: BinaryMem)
    ensures r.active ==> nowHi
  {
    var rise := if first then -1.0 else mem.rise;
    if nowHi && !prevHi then BinaryMem(now, false)
    else if nowHi && prevHi then
      (if !mem.active && rise >= 0.0 && now - rise >= hold then BinaryMem(rise, true) else BinaryMem(rise, mem.active))
    else BinaryMem(-1.0, false)
  }

  /**
   * A rising edge records `now` and stays low; while held the level is promoted
   * exactly when already promoted or its rise is recorded (>= 0) and at least
   * `hold` old; release and idle clear the flag and the rise at once.
   */
  lemma BinaryGateSpec(first: bool, prevHi: bool, mem: BinaryMem, nowHi: bool, now: real, hold: real)
    ensures nowHi && !prevHi ==> BinaryGate(first, prevHi, mem, nowHi, now, hold) == BinaryMem(now, false)
    ensures nowHi && prevHi ==>
      var rise := if first then -1.0 else mem.rise;
      var r := BinaryGate(first, prevHi, mem, nowHi, now, hold);
      r.rise == rise && (r.active <==> mem.active || (rise >= 0.0 && now - rise >= hold))
    ensures !nowHi ==> BinaryGate(first, prevHi, mem, nowHi, now, hold) == BinaryMem(-1.0, false)
    ensures first && prevHi == nowHi && !mem.active ==> !BinaryGate(first, prevHi, mem, nowHi, now, hold).active
  {
  }

  /** A raw sample of one binary signal. */
  datatype Tick = Tick(t: real, v: real)

  /** The gate memories after each sample of a key that already has a previous raw value. */
  function BinaryTrace(prevRaw: real, mem: BinaryMem, ins: seq<Tick>, analog: bool, hold: real): (outs: seq<BinaryMem>)
    ensures |outs| == |ins|
    decreases |ins|
  {
    if ins == [] then []
    else
      var m1 := BinaryGate(false, IsHigh(prevRaw, analog), mem, IsHigh(ins[0].v, analog), ins[0].t, hold);
      [m1] + BinaryTrace(ins[0].v, m1, ins[1..], analog, hold)
  }

  /**
   * Activity starting at `t0` whose high samples all come less than `hold`
   * after `t0` is never reported as 1: a short press never gets through.
   */
  lemma {:induction false} ShortPressFiltered(prevRaw: real, mem: BinaryMem, ins: seq<Tick>, analog: bool, t0: real, hold: real)
    requires !mem.active && (IsHigh(prevRaw, analog) ==> mem.rise < 0.0 || mem.rise >= t0)
    requires forall k :: 0 <= k < |ins| ==> ins[k].t >= t0 && (IsHigh(ins[k].v, analog) ==> ins[k].t - t0 < hold)
    ensures forall k :: 0 <= k < |ins| ==> !BinaryTrace(prevRaw, mem, ins, analog, hold)[k].active
    decreases |ins|
  {
    if ins != [] {
      var m1 := BinaryGate(false, IsHigh(prevRaw, analog), mem, IsHigh(ins[0].v, analog), ins[0].t, hold);
      assert !m1.active && (IsHigh(ins[0].v, analog) ==> m1.rise < 0.0 || m1.rise >= t0);
      ShortPressFiltered(ins[0].v, m1, ins[1..], analog, t0, hold);
      var outs := BinaryTrace(prevRaw, mem, ins, analog, hold);
      forall k | 0 <= k < |ins| ensures !outs[k].active {
        if k > 0 {
          assert outs[k] == BinaryTrace(ins[0].v, m1, ins[1..], analog, hold)[k - 1];
        }
      }
    }
  }

  /** Multi-bit gate memory of one key: pending rise time and pending value. */
  datatype HatMem = HatMem(rise: real, pend: real)

  /** The output and new memory of one multi-bit (hat) step. */
  datatype HatStep = HatStep(out: real, mem: HatMem)

  /**
   * One step of the multi-bit gate. A first sample passes through; a changed
   * raw value keeps the previous output and restarts the timer; a stable value
   * equal to the pending one is promoted once it has been stable for `hold`.
   */
  function HatGate(first: bool, prevFiltered: real, prevRaw: real, mem: HatMem, v: real, now: real, hold: real): (r: HatStep)
    ensures r.out == v || r.out == prevFiltered
  {
    if first then HatStep(v, HatMem(-1.0, v))
    else if v != prevRaw then HatStep(prevFiltered, HatMem(now, v))
    else if mem.rise >= 0.0 && now - mem.rise >= hold && mem.pend == v && v != prevFiltered then HatStep(v, HatMem(-1.0, mem.pend))
    else HatStep(prevFiltered, mem)
  }

  /** The output moves to a new value only on a first sample or after that value was stable for `hold` as the pending one. */
  lemma HatGateSpec(first: bool, prevFiltered: real, prevRaw: real, mem: HatMem, v: real, now: real, hold: real)
    ensures first ==> HatGate(first, prevFiltered, prevRaw, mem, v, now, hold) == HatStep(v, HatMem(-1.0, v))
    ensures !first && v != prevRaw ==> HatGate(first, prevFiltered, prevRaw, mem, v, now, hold) == HatStep(prevFiltered, HatMem(now, v))
    ensures !first && HatGate(first, prevFiltered, prevRaw, mem, v, now, hold).out != prevFiltered ==>
      v == prevRaw && v == mem.pend && mem.rise >= 0.0 && now - mem.rise >= hold
    ensures !first && v == prevRaw && v == mem.pend && v != prevFiltered && mem.rise >= 0.0 && now - mem.rise >= hold ==>
      HatGate(first, prevFiltered, prevRaw, mem, v, now, hold).out == v
  {
  }

  /** The plot buffer of one signal: times and values side by side. */
  datatype Buf = Buf(t: seq<real>, v: seq<real>)

  predicate Sorted(s: seq<real>)
  {
    forall i, j :: 0 <= i < j < |s| ==> s[i] <= s[j]
  }

  /** How many leading samples lie before `t0`: the scan stops at the first one that does not. */
  function KeepFrom(ts: seq<real>, t0: real): (k: nat)
    ensures k <= |ts|
    ensures forall j :: 0 <= j < k ==> ts[j] < t0
    ensures k < |ts| ==> ts[k] >= t0
  {
    if ts == [] || ts[0] >= t0 then 0 else 1 + KeepFrom(ts[1..], t0)
  }

  /** On sorted times, everything kept is inside the window and everything dropped is outside. */
  lemma KeepFromSorted(ts: seq<real>, t0: real)
    requires Sorted(ts)
    ensures forall j :: KeepFrom(ts, t0) <= j < |ts| ==> ts[j] >= t0
  {
    var k := KeepFrom(ts, t0);
    forall j | k <= j < |ts| ensures ts[j] >= t0 {
      assert ts[k] <= ts[j];
    }
  }

  /** The trim loop: drop the leading samples older than `t0` from both sequences. */
  method TrimToWindow(t: seq<real>, v: seq<real>, t0: real) returns (t': seq<real>, v': seq<real>)
    requires |t| == |v|
    ensures t' == t[KeepFrom(t, t0)..] && v' == v[KeepFrom(t, t0)..]
  {
    var firstKeep := 0;
    while firstKeep < |t| && t[firstKeep] < t0
      invariant firstKeep <= KeepFrom(t, t0)
    {
      firstKeep := firstKeep + 1;
    }
    t', v' := t, v;
    if firstKeep > 0 {
      t', v' := t[firstKeep..], v[firstKeep..];
    }
  }

  /** A buffer with the sample `(now, out)` appended and everything before `now - window` dropped. */
  function Pushed(b: Buf, now: real, out: real, window: real): (r: Buf)
    requires |b.t| == |b.v|
    ensures |r.t| == |r.v|
  {
    var t := b.t + [now];
    var k := KeepFrom(t, now - window);
    Buf(t[k..], (b.v + [out])[k..])
  }

  /**
   * Appending a sample at `now` to a sorted buffer whose times are at most
   * `now`, then trimming to `now - window` with a non-negative window, keeps
   * the buffer sorted, the new sample last, and every time inside the window.
   */
  lemma PushTrimInWindow(b: Buf, now: real, out: real, window: real)
    requires |b.t| == |b.v| && Sorted(b.t) && (forall j :: 0 <= j < |b.t| ==> b.t[j] <= now) && window >= 0.0
    ensures var r := Pushed(b, now, out, window);
      |r.t| > 0 && Sorted(r.t) && r.t[|r.t| - 1] == now && r.v[|r.v| - 1] == out &&
      forall j :: 0 <= j < |r.t| ==> now - window <= r.t[j] <= now
  {
    var t := b.t + [now];
    SortedAppend(b.t, now);
    var k := KeepFrom(t, now - window);
    assert t[|t| - 1] == now;
    assert k < |t|;
    KeepFromSorted(t, now - window);
    var u, w := t[k..], (b.v + [out])[k..];
    assert Pushed(b, now, out, window) == Buf(u, w);
    SortedSuffix(t, k);
    assert u[|u| - 1] == now && w[|w| - 1] == out;
    forall j | 0 <= j < |u|
      ensures now - window <= u[j] <= now
    {
      assert u[j] == t[k + j];
    }
  }

  lemma SortedAppend(s: seq<real>, x: real)
    requires Sorted(s) && forall j :: 0 <= j < |s| ==> s[j] <= x
    ensures Sorted(s + [x])
  {
    var t := s + [x];
    forall i, j | 0 <= i < j < |t|
      ensures t[i] <= t[j]
    {
      assert t[i] == s[i];
    }
  }

  lemma SortedSuffix(t: seq<real>, k: nat)
    requires Sorted(t) && k <= |t|
    ensures Sorted(t[k..])
  {
    var u := t[k..];
    forall i, j | 0 <= i < j < |u|
      ensures u[i] <= u[j]
    {
      assert u[i] == t[k + i] && u[j] == t[k + j];
    }
  }

  /** Every buffer keeps its time and value columns the same length. */
  predicate Aligned(bufs: map<string, Buf>)
  {
    forall k :: k in bufs ==> |bufs[k].t| == |bufs[k].v|
  }

  lemma AlignedUpdate(bufs: map<string, Buf>, key: string, b: Buf)
    requires Aligned(bufs) && |b.t| == |b.v|
    ensures Aligned(bufs[key := b])
  {
    var r := bufs[key := b];
    forall k | k in r
      ensures |r[k].t| == |r[k].v|
    {
      if k != key {
        assert r[k] == bufs[k];
      }
    }
  }

  // ---------------------------------------------------------------------------
  // The filter state of the background thread.
  // ---------------------------------------------------------------------------

  /** Filter modes as stored per key: 0 none, 1 digital, 2 analog. */
  const ModeNone: int := 0
  const ModeDigital: int := 1
  const ModeAnalog: int := 2

  /** The stored value of `key` in `m`, or `d` (the value `operator[]` default-creates, or the fallback a lookup uses). */
  function Lookup<V>(m: map<string, V>, key: string, d: V): V
  {
    if key in m then m[key] else d
  }

  /** Every per-key memory of the filter thread, as one value. */
  datatype Memory = Memory(prevVals: map<string, real>, prevRawVals: map<string, real>, riseTimes: map<string, real>,
                           pendingVals: map<string, real>, activeFlags: map<string, bool>, buffers: map<string, Buf>)

  /** `m` with the filtered value `out` and the raw value `v` stored under `key`. */
  function Recorded(m: Memory, key: string, out: real, v: real): Memory
  {
    m.(prevVals := m.prevVals[key := out], prevRawVals := m.prevRawVals[key := v])
  }

  /**
   * Filtering one value `v` of `key` under `mode`: the output, and the
   * memories left behind. The filtered and raw values are recorded whatever
   * the mode; the gate memories change only in digital mode.
   */
  function FilterStep(m: Memory, key: string, analog: bool, bits: int, v: real, mode: int,
                      now: real, delta: real, hold: real): (r: (real, Memory))
    ensures r.1.prevVals == m.prevVals[key := r.0] && r.1.prevRawVals == m.prevRawVals[key := v]
    ensures r.1.buffers == m.buffers
    ensures mode != ModeDigital ==>
      r.1.riseTimes == m.riseTimes && r.1.pendingVals == m.pendingVals && r.1.activeFlags == m.activeFlags
  {
    if mode == ModeAnalog then
      var out := AnalogClamp(if key in m.prevVals then Some(m.prevVals[key]) else None, v, delta);
      (out, Recorded(m, key, out, v))
    else if mode == ModeDigital && !analog && bits > 1 then
      var step := HatGate(key !in m.prevRawVals, Lookup(m.prevVals, key, v), Lookup(m.prevRawVals, key, v),
                          HatMem(Lookup(m.riseTimes, key, 0.0), Lookup(m.pendingVals, key, 0.0)), v, now, hold);
      (step.out, Recorded(m, key, step.out, v).(riseTimes := m.riseTimes[key := step.mem.rise],
                                                pendingVals := m.pendingVals[key := step.mem.pend]))
    else if mode == ModeDigital then
      var g := BinaryGate(key !in m.prevRawVals, IsHigh(Lookup(m.prevRawVals, key, v), analog),
                          BinaryMem(Lookup(m.riseTimes, key, 0.0), Lookup(m.activeFlags, key, false)),
                          IsHigh(v, analog), now, hold);
      var out := if g.active then 1.0 else 0.0;
      (out, Recorded(m, key, out, v).(riseTimes := m.riseTimes[key := g.rise], activeFlags := m.activeFlags[key := g.active]))
    else (v, Recorded(m, key, v, v))
  }

  /** `a` and `b` agree at `k`: both lack it, or both hold the same value. */
  predicate SameAt<V(==)>(a: map<string, V>, b: map<string, V>, k: string)
  {
    (k in a <==> k in b) && (k in a ==> a[k] == b[k])
  }

  /** The filtered value and every gate memory of `k` are the same in `m` and `m'`. */
  predicate GatesSameAt(m: Memory, m': Memory, k: string)
  {
    SameAt(m.prevVals, m'.prevVals, k) && SameAt(m.prevRawVals, m'.prevRawVals, k) &&
    SameAt(m.riseTimes, m'.riseTimes, k) && SameAt(m.pendingVals, m'.pendingVals, k) &&
    SameAt(m.activeFlags, m'.activeFlags, k)
  }

  /** Filtering one key leaves every other key's memories alone. */
  lemma FilterStepLocal(m: Memory, key: string, analog: bool, bits: int, v: real, mode: int,
                        now: real, delta: real, hold: real, k: string)
    requires k != key
    ensures GatesSameAt(m, FilterStep(m, key, analog, bits, v, mode, now, delta, hold).1, k)
  {
  }

  /** The scaled field value of signal `sd` in `bytes`. */
  function FieldOf(sd: DeviceSignal, bytes: seq<Byte>): real
    requires ScalableWidth(sd.desc)
  {
    ScaleRaw(sd.desc, LenientExtract(bytes, sd.desc.bitStart, sd.desc.bits))
  }

  /** The work for one signal whose device has bytes: extract, scale, filter under its mode, record the sample. */
  function SignalStep(m: Memory, sd: DeviceSignal, bytes: seq<Byte>, modes: map<string, int>,
                      now: real, delta: real, hold: real, window: real): (r: (real, Memory))
    requires Aligned(m.buffers) && ScalableWidth(sd.desc)
    ensures Aligned(r.1.buffers)
    ensures r.1.prevVals == m.prevVals[MapKey(sd) := r.0]
  {
    var key := MapKey(sd);
    var f := FilterStep(m, key, sd.desc.analog, sd.desc.bits, FieldOf(sd, bytes), Lookup(modes, key, ModeNone), now, delta, hold);
    var b := Pushed(Lookup(m.buffers, BufferKey(sd), Buf([], [])), now, f.0, window);
    AlignedUpdate(m.buffers, BufferKey(sd), b);
    (f.0, f.1.(buffers := m.buffers[BufferKey(sd) := b]))
  }

  /** One signal's step leaves every other key's memories alone. */
  lemma SignalStepGates(m: Memory, sd: DeviceSignal, bytes: seq<Byte>, modes: map<string, int>,
                        now: real, delta: real, hold: real, window: real, k: string)
    requires Aligned(m.buffers) && ScalableWidth(sd.desc) && k != MapKey(sd)
    ensures GatesSameAt(m, SignalStep(m, sd, bytes, modes, now, delta, hold, window).1, k)
  {
    var key := MapKey(sd);
    FilterStepLocal(m, key, sd.desc.analog, sd.desc.bits, FieldOf(sd, bytes), Lookup(modes, key, ModeNone), now, delta, hold, k);
  }

  /** One signal's step leaves every other plot buffer alone. */
  lemma SignalStepBuffers(m: Memory, sd: DeviceSignal, bytes: seq<Byte>, modes: map<string, int>,
                          now: real, delta: real, hold: real, window: real, k: string)
    requires Aligned(m.buffers) && ScalableWidth(sd.desc) && k != BufferKey(sd)
    ensures SameAt(m.buffers, SignalStep(m, sd, bytes, modes, now, delta, hold, window).1.buffers, k)
  {
  }

  /** One signal's plot buffer ends with its output sampled at `now`. */
  lemma SignalStepEndsAtNow(m: Memory, sd: DeviceSignal, bytes: seq<Byte>, modes: map<string, int>,
                            now: real, delta: real, hold: real, window: real)
    requires Aligned(m.buffers) && ScalableWidth(sd.desc) && window >= 0.0
    ensures var r := SignalStep(m, sd, bytes, modes, now, delta, hold, window);
      BufferKey(sd) in r.1.buffers && |r.1.buffers[BufferKey(sd)].t| > 0 &&
      r.1.buffers[BufferKey(sd)].t[|r.1.buffers[BufferKey(sd)].t| - 1] == now &&
      r.1.buffers[BufferKey(sd)].v[|r.1.buffers[BufferKey(sd)].v| - 1] == r.0
  {
    var key := MapKey(sd);
    var f := FilterStep(m, key, sd.desc.analog, sd.desc.bits, FieldOf(sd, bytes), Lookup(modes, key, ModeNone), now, delta, hold);
    PushedEndsAtNow(Lookup(m.buffers, BufferKey(sd), Buf([], [])), now, f.0, window);
  }

  /** The bytes a signal is read from: its own device's report. */
  function BytesOf(sd: DeviceSignal, stickBytes: seq<Byte>, throttleBytes: seq<Byte>): seq<Byte>
  {
    if sd.device == Stick then stickBytes else throttleBytes
  }

  /**
   * One pass over the signal table, in table order: every signal whose device
   * has bytes takes a `SignalStep`; the accepted `(key, value)` pairs and the
   * memories afterwards.
   */
  function Pass(m: Memory, sigs: seq<DeviceSignal>, stickBytes: seq<Byte>, throttleBytes: seq<Byte>, modes: map<string, int>,
                now: real, delta: real, hold: real, window: real): (r: (seq<(string, real)>, Memory))
    requires Aligned(m.buffers) && forall i :: 0 <= i < |sigs| ==> ScalableWidth(sigs[i].desc)
    ensures Aligned(r.1.buffers)
    decreases |sigs|
  {
    if sigs == [] then ([], m)
    else
      var front := Pass(m, sigs[..|sigs| - 1], stickBytes, throttleBytes, modes, now, delta, hold, window);
      var sd := sigs[|sigs| - 1];
      var bytes := BytesOf(sd, stickBytes, throttleBytes);
      if bytes != [] then
        var step := SignalStep(front.1, sd, bytes, modes, now, delta, hold, window);
        (front.0 + [(MapKey(sd), step.0)], step.1)
      else front
  }

  /** The accepted pairs carry exactly the keys of the reporting signals, in table order. */
  lemma {:induction false} PassKeys(m: Memory, sigs: seq<DeviceSignal>, sb: seq<Byte>, tb: seq<Byte>, modes: map<string, int>,
                                    now: real, delta: real, hold: real, window: real)
    requires Aligned(m.buffers) && forall i :: 0 <= i < |sigs| ==> ScalableWidth(sigs[i].desc)
    ensures var acc := Pass(m, sigs, sb, tb, modes, now, delta, hold, window).0;
      |acc| == |ReportedKeys(sigs, sb, tb)| &&
      forall j :: 0 <= j < |acc| ==> acc[j].0 == ReportedKeys(sigs, sb, tb)[j]
    decreases |sigs|
  {
    if sigs != [] {
      PassKeys(m, sigs[..|sigs| - 1], sb, tb, modes, now, delta, hold, window);
    }
  }

  /** Every accepted key has a filtered value stored after the pass. */
  lemma {:induction false} PassKeysStored(m: Memory, sigs: seq<DeviceSignal>, sb: seq<Byte>, tb: seq<Byte>, modes: map<string, int>,
                                          now: real, delta: real, hold: real, window: real, j: nat)
    requires Aligned(m.buffers) && forall i :: 0 <= i < |sigs| ==> ScalableWidth(sigs[i].desc)
    requires j < |Pass(m, sigs, sb, tb, modes, now, delta, hold, window).0|
    ensures var r := Pass(m, sigs, sb, tb, modes, now, delta, hold, window);
      r.0[j].0 in r.1.prevVals
    decreases |sigs|
  {
    var front := sigs[..|sigs| - 1];
    var fr := Pass(m, front, sb, tb, modes, now, delta, hold, window);
    var sd := sigs[|sigs| - 1];
    if BytesOf(sd, sb, tb) != [] {
      var st := SignalStep(fr.1, sd, BytesOf(sd, sb, tb), modes, now, delta, hold, window);
      assert Pass(m, sigs, sb, tb, modes, now, delta, hold, window) == (fr.0 + [(MapKey(sd), st.0)], st.1);
      if j < |fr.0| {
        PassKeysStored(m, front, sb, tb, modes, now, delta, hold, window, j);
      }
    } else {
      PassKeysStored(m, front, sb, tb, modes, now, delta, hold, window, j);
    }
  }

  /**
   * The value handed on for a key is the filtered value stored under it:
   * after the pass, the last accepted pair of a key holds that key's previous
   * filtered value.
   */
  lemma {:induction false} PassValues(m: Memory, sigs: seq<DeviceSignal>, sb: seq<Byte>, tb: seq<Byte>, modes: map<string, int>,
                                      now: real, delta: real, hold: real, window: real, j: nat)
    requires Aligned(m.buffers) && forall i :: 0 <= i < |sigs| ==> ScalableWidth(sigs[i].desc)
    requires var acc := Pass(m, sigs, sb, tb, modes, now, delta, hold, window).0;
      j < |acc| && forall j' :: j < j' < |acc| ==> acc[j'].0 != acc[j].0
    ensures var r := Pass(m, sigs, sb, tb, modes, now, delta, hold, window);
      r.0[j].0 in r.1.prevVals && r.1.prevVals[r.0[j].0] == r.0[j].1
    decreases |sigs|
  {
    var front := sigs[..|sigs| - 1];
    var fr := Pass(m, front, sb, tb, modes, now, delta, hold, window);
    var sd := sigs[|sigs| - 1];
    if BytesOf(sd, sb, tb) != [] {
      var st := SignalStep(fr.1, sd, BytesOf(sd, sb, tb), modes, now, delta, hold, window);
      var acc := fr.0 + [(MapKey(sd), st.0)];
      assert Pass(m, sigs, sb, tb, modes, now, delta, hold, window) == (acc, st.1);
      if j < |fr.0| {
        assert acc[j] == fr.0[j];
        assert acc[|fr.0|].0 == MapKey(sd) != fr.0[j].0;
        forall j' | j < j' < |fr.0| ensures fr.0[j'].0 != fr.0[j].0 {
          assert acc[j'] == fr.0[j'];
        }
        PassValues(m, front, sb, tb, modes, now, delta, hold, window, j);
      }
    } else {
      PassValues(m, front, sb, tb, modes, now, delta, hold, window, j);
    }
  }

  /** A key no reporting signal has keeps its filtered value and gate memories through the pass. */
  lemma {:induction false} PassUntouched(m: Memory, sigs: seq<DeviceSignal>, sb: seq<Byte>, tb: seq<Byte>, modes: map<string, int>,
                                         now: real, delta: real, hold: real, window: real, k: string)
    requires Aligned(m.buffers) && forall i :: 0 <= i < |sigs| ==> ScalableWidth(sigs[i].desc)
    requires k !in ReportedKeys(sigs, sb, tb)
    ensures GatesSameAt(m, Pass(m, sigs, sb, tb, modes, now, delta, hold, window).1, k)
    decreases |sigs|
  {
    if sigs != [] {
      var front := sigs[..|sigs| - 1];
      assert k !in ReportedKeys(front, sb, tb);
      PassUntouched(m, front, sb, tb, modes, now, delta, hold, window, k);
      var fr := Pass(m, front, sb, tb, modes, now, delta, hold, window);
      var sd := sigs[|sigs| - 1];
      if BytesOf(sd, sb, tb) != [] {
        SignalStepGates(fr.1, sd, BytesOf(sd, sb, tb), modes, now, delta, hold, window, k);
      }
    }
  }

  /** Every reporting signal's plot buffer ends with a sample at `now`. */
  lemma {:induction false} PassBuffersEndAtNow(m: Memory, sigs: seq<DeviceSignal>, sb: seq<Byte>, tb: seq<Byte>, modes: map<string, int>,
                                               now: real, delta: real, hold: real, window: real, i: nat)
    requires Aligned(m.buffers) && forall i :: 0 <= i < |sigs| ==> ScalableWidth(sigs[i].desc)
    requires window >= 0.0 && i < |sigs| && BytesOf(sigs[i], sb, tb) != []
    ensures var bufs := Pass(m, sigs, sb, tb, modes, now, delta, hold, window).1.buffers;
      BufferKey(sigs[i]) in bufs && |bufs[BufferKey(sigs[i])].t| > 0 &&
      bufs[BufferKey(sigs[i])].t[|bufs[BufferKey(sigs[i])].t| - 1] == now
    decreases |sigs|
  {
    var front := sigs[..|sigs| - 1];
    var fr := Pass(m, front, sb, tb, modes, now, delta, hold, window);
    var sd := sigs[|sigs| - 1];
    var key := BufferKey(sigs[i]);
    if BytesOf(sd, sb, tb) == [] {
      assert Pass(m, sigs, sb, tb, modes, now, delta, hold, window) == fr;
      assert sigs[i] == front[i];
      PassBuffersEndAtNow(m, front, sb, tb, modes, now, delta, hold, window, i);
    } else {
      var st := SignalStep(fr.1, sd, BytesOf(sd, sb, tb), modes, now, delta, hold, window);
      assert Pass(m, sigs, sb, tb, modes, now, delta, hold, window).1 == st.1;
      if key == BufferKey(sd) {
        SignalStepEndsAtNow(fr.1, sd, BytesOf(sd, sb, tb), modes, now, delta, hold, window);
      } else {
        assert i < |front| && sigs[i] == front[i];
        PassBuffersEndAtNow(m, front, sb, tb, modes, now, delta, hold, window, i);
        SignalStepBuffers(fr.1, sd, BytesOf(sd, sb, tb), modes, now, delta, hold, window, key);
      }
    }
  }

  /** A buffer whose key no reporting signal has is left as it was. */
  lemma {:induction false} PassBuffersUntouched(m: Memory, sigs: seq<DeviceSignal>, sb: seq<Byte>, tb: seq<Byte>, modes: map<string, int>,
                                                now: real, delta: real, hold: real, window: real, k: string)
    requires Aligned(m.buffers) && forall i :: 0 <= i < |sigs| ==> ScalableWidth(sigs[i].desc)
    requires forall i :: 0 <= i < |sigs| && BytesOf(sigs[i], sb, tb) != [] ==> BufferKey(sigs[i]) != k
    ensures SameAt(m.buffers, Pass(m, sigs, sb, tb, modes, now, delta, hold, window).1.buffers, k)
    decreases |sigs|
  {
    if sigs != [] {
      var front := sigs[..|sigs| - 1];
      assert forall i :: 0 <= i < |front| ==> front[i] == sigs[i];
      PassBuffersUntouched(m, front, sb, tb, modes, now, delta, hold, window, k);
      var fr := Pass(m, front, sb, tb, modes, now, delta, hold, window);
      var sd := sigs[|sigs| - 1];
      if BytesOf(sd, sb, tb) != [] {
        SignalStepBuffers(fr.1, sd, BytesOf(sd, sb, tb), modes, now, delta, hold, window, k);
      }
    }
  }

  /** With a non-negative window the pushed sample survives the trim as the last one. */
  lemma PushedEndsAtNow(b: Buf, now: real, out: real, window: real)
    requires |b.t| == |b.v| && window >= 0.0
    ensures var r := Pushed(b, now, out, window);
      |r.t| > 0 && r.t[|r.t| - 1] == now && r.v[|r.v| - 1] == out
  {
    var t := b.t + [now];
    var k := KeepFrom(t, now - window);
    assert t[|t| - 1] == now;
  }

  class HotasFilterState {
    var prevVals: map<string, real>
    var prevRawVals: map<string, real>
    var riseTimes: map<string, real>
    var pendingVals: map<string, real>
    var activeFlags: map<string, bool>
    var buffers: map<string, Buf>

    /** Gate memories only exist for keys that have been seen; buffers keep their two columns aligned. */
    ghost predicate Valid()
      reads this
    {
      riseTimes.Keys <= prevRawVals.Keys && pendingVals.Keys <= prevRawVals.Keys &&
      activeFlags.Keys <= prevRawVals.Keys && prevVals.Keys == prevRawVals.Keys &&
      Aligned(buffers)
    }

    constructor ()
      ensures Valid()
      ensures prevVals == map[] && prevRawVals == map[] && riseTimes == map[] && pendingVals == map[] && activeFlags == map[] && buffers == map[]
    {
      prevVals, prevRawVals, riseTimes, pendingVals, activeFlags, buffers := map[], map[], map[], map[], map[], map[];
    }

    /** The memories held in the fields, as one value. */
    ghost function State(): Memory
      reads this
    {
      Memory(prevVals, prevRawVals, riseTimes, pendingVals, activeFlags, buffers)
    }

    /**
     * Filter one value `v` of signal `key` in `mode`: the output, and the
     * per-key memories it leaves behind. The previous filtered and raw values
     * are recorded for every mode.
     */
    method FilterValue(key: string, analog: bool, bits: int, v: real, mode: int, now: real, delta: real, hold: real)
      returns (out: real)
      requires Valid()
      modifies this
      ensures Valid()
      ensures buffers == old(buffers)
      ensures mode == ModeAnalog ==>
        out == AnalogClamp(if key in old(prevVals) then Some(old(prevVals)[key]) else None, v, delta)
      ensures mode == ModeDigital && !analog && bits > 1 ==>
        var step := HatGate(key !in old(prevRawVals), Lookup(old(prevVals), key, v), Lookup(old(prevRawVals), key, v),
                            HatMem(Lookup(old(riseTimes), key, 0.0), Lookup(old(pendingVals), key, 0.0)), v, now, hold);
        out == step.out && riseTimes == old(riseTimes)[key := step.mem.rise] &&
        pendingVals == old(pendingVals)[key := step.mem.pend] && activeFlags == old(activeFlags)
      ensures mode == ModeDigital && (analog || bits <= 1) ==>
        var r := BinaryGate(key !in old(prevRawVals), IsHigh(Lookup(old(prevRawVals), key, v), analog),
                            BinaryMem(Lookup(old(riseTimes), key, 0.0), Lookup(old(activeFlags), key, false)),
                            IsHigh(v, analog), now, hold);
        out == (if r.active then 1.0 else 0.0) && riseTimes == old(riseTimes)[key := r.rise] &&
        activeFlags == old(activeFlags)[key := r.active] && pendingVals == old(pendingVals)
      ensures mode != ModeAnalog && mode != ModeDigital ==> out == v
      ensures mode != ModeDigital ==>
        riseTimes == old(riseTimes) && pendingVals == old(pendingVals) && activeFlags == old(activeFlags)
      ensures prevVals == old(prevVals)[key := out] && prevRawVals == old(prevRawVals)[key := v]
      ensures (out, State()) == FilterStep(old(State()), key, analog, bits, v, mode, now, delta, hold)
    {
      out := v;
      if mode == ModeAnalog {
        var prev := Lookup(prevVals, key, v);
        if Abs(out - prev) >= delta {
          out := prev;
        }
      } else if mode == ModeDigital {
        if !analog && bits > 1 {
          out := HatFilter(key, v, now, hold);
        } else {
          out := BinaryFilter(key, analog, v, now, hold);
        }
      }
      prevVals := prevVals[key := out];
      prevRawVals := prevRawVals[key := v];
    }

    /** The digital filter of a multi-bit hat: a new value is held back until stable for `hold`. */
    method HatFilter(key: string, v: real, now: real, hold: real) returns (out: real)
      modifies this
      ensures var step := HatGate(key !in old(prevRawVals), Lookup(old(prevVals), key, v), Lookup(old(prevRawVals), key, v),
                                  HatMem(Lookup(old(riseTimes), key, 0.0), Lookup(old(pendingVals), key, 0.0)), v, now, hold);
        out == step.out && riseTimes == old(riseTimes)[key := step.mem.rise] &&
        pendingVals == old(pendingVals)[key := step.mem.pend]
      ensures prevVals == old(prevVals) && prevRawVals == old(prevRawVals) && activeFlags == old(activeFlags) &&
        buffers == old(buffers)
    {
      var rise := Lookup(riseTimes, key, 0.0);
      var prevFiltered := Lookup(prevVals, key, v);
      var prevRaw := Lookup(prevRawVals, key, v);
      var pend := Lookup(pendingVals, key, 0.0);
      if key !in prevRawVals {
        rise, pend, out := -1.0, v, v;
      } else if v != prevRaw {
        rise, pend, out := now, v, prevFiltered;
      } else if rise >= 0.0 && now - rise >= hold && pend == v && v != prevFiltered {
        out, rise := v, -1.0;
      } else {
        out := prevFiltered;
      }
      pendingVals := pendingVals[key := pend];
      riseTimes := riseTimes[key := rise];
    }

    /** The digital filter of a button or an analog axis read as on/off: a level counts once held for `hold`. */
    method BinaryFilter(key: string, analog: bool, v: real, now: real, hold: real) returns (out: real)
      modifies this
      ensures var r := BinaryGate(key !in old(prevRawVals), IsHigh(Lookup(old(prevRawVals), key, v), analog),
                                  BinaryMem(Lookup(old(riseTimes), key, 0.0), Lookup(old(activeFlags), key, false)),
                                  IsHigh(v, analog), now, hold);
        out == (if r.active then 1.0 else 0.0) && riseTimes == old(riseTimes)[key := r.rise] &&
        activeFlags == old(activeFlags)[key := r.active]
      ensures prevVals == old(prevVals) && prevRawVals == old(prevRawVals) && pendingVals == old(pendingVals) &&
        buffers == old(buffers)
    {
      var rise := Lookup(riseTimes, key, 0.0);
      var nowHi := IsHigh(v, analog);
      var prevRaw := Lookup(prevRawVals, key, v);
      var prevHi := IsHigh(prevRaw, analog);
      var active := Lookup(activeFlags, key, false);
      if key !in prevRawVals {
        rise := -1.0;
      }
      if nowHi && !prevHi {
        rise, active := now, false;
      } else if nowHi && prevHi {
        if !active && rise >= 0.0 {
          var dur := now - rise;
          if dur >= hold {
            active := true;
          }
        }
      } else if !nowHi && prevHi {
        active, rise := false, -1.0;
      } else {
        rise, active := -1.0, false;
      }
      activeFlags := activeFlags[key := active];
      out := if active then 1.0 else 0.0;
      riseTimes := riseTimes[key := rise];
    }

    /** Append the filtered sample to the signal's plot buffer and trim it to `now - window`. */
    method Record(bufKey: string, now: real, out: real, window: real)
      requires Valid()
      modifies this
      ensures Valid()
      ensures buffers == old(buffers)[bufKey := Pushed(Lookup(old(buffers), bufKey, Buf([], [])), now, out, window)]
      ensures prevVals == old(prevVals) && prevRawVals == old(prevRawVals) && riseTimes == old(riseTimes) &&
        pendingVals == old(pendingVals) && activeFlags == old(activeFlags)
    {
      var b := Lookup(buffers, bufKey, Buf([], []));
      assert |b.t| == |b.v|;
      var t, v := TrimToWindow(b.t + [now], b.v + [out], now - window);
      assert Buf(t, v) == Pushed(b, now, out, window);
      AlignedUpdate(buffers, bufKey, Buf(t, v));
      buffers := buffers[bufKey := Buf(t, v)];
    }

    /** The work for one signal with bytes: extract, scale, filter under its mode, record; the accepted pair. */
    method ProcessSignal(sd: DeviceSignal, bytes: seq<Byte>, modes: map<string, int>,
                         now: real, delta: real, hold: real, window: real) returns (key: string, out: real)
      requires Valid() && ScalableWidth(sd.desc)
      modifies this
      ensures Valid()
      ensures key == MapKey(sd) && key in prevVals && prevVals.Keys == old(prevVals).Keys + {key}
      ensures var v := ScaleRaw(sd.desc, LenientExtract(bytes, sd.desc.bitStart, sd.desc.bits));
        prevVals == old(prevVals)[key := out] && prevRawVals == old(prevRawVals)[key := v] &&
        (Lookup(modes, key, ModeNone) == ModeAnalog ==>
          out == AnalogClamp(if key in old(prevVals) then Some(old(prevVals)[key]) else None, v, delta)) &&
        (Lookup(modes, key, ModeNone) != ModeAnalog && Lookup(modes, key, ModeNone) != ModeDigital ==> out == v)
      ensures buffers == old(buffers)[BufferKey(sd) := Pushed(Lookup(old(buffers), BufferKey(sd), Buf([], [])), now, out, window)]
      ensures (out, State()) == SignalStep(old(State()), sd, bytes, modes, now, delta, hold, window)
    {
      var raw := LenientExtractBits(bytes, sd.desc.bitStart, sd.desc.bits);
      var v := ScaleRaw(sd.desc, raw);
      key := MapKey(sd);
      var mode := Lookup(modes, key, ModeNone);
      out := FilterValue(key, sd.desc.analog, sd.desc.bits, v, mode, now, delta, hold);
      Record(BufferKey(sd), now, out, window);
    }

    /**
     * One pass of the background thread over the signal table: when either
     * device has a report, every signal whose device has bytes is extracted,
     * scaled, filtered and recorded, and `(key, value)` is handed on, in table order.
     */
    method ProcessReports(live: seq<(string, string)>, sigs: seq<DeviceSignal>, modes: map<string, int>,
                          now: real, delta: real, hold: real, window: real)
      returns (accepted: seq<(string, real)>)
      requires Valid()
      requires forall i :: 0 <= i < |sigs| ==> ScalableWidth(sigs[i].desc)
      modifies this
      ensures Valid()
      ensures var sb, tb := LenientDecode(LastReport(live, Stick)), LenientDecode(LastReport(live, Throttle));
        accepted == [] <==> (sb == [] && tb == []) || |ReportedKeys(sigs, sb, tb)| == 0
      ensures var sb, tb := LenientDecode(LastReport(live, Stick)), LenientDecode(LastReport(live, Throttle));
        (sb != [] || tb != []) ==>
          (|accepted| == |ReportedKeys(sigs, sb, tb)| &&
           forall j :: 0 <= j < |accepted| ==> accepted[j].0 == ReportedKeys(sigs, sb, tb)[j] && accepted[j].0 in prevVals)
      ensures var sb, tb := LenientDecode(LastReport(live, Stick)), LenientDecode(LastReport(live, Throttle));
        if sb == [] && tb == [] then State() == old(State())
        else (accepted, State()) == Pass(old(State()), sigs, sb, tb, modes, now, delta, hold, window)
    {
      ghost var m0 := State();
      var stickBytes, throttleBytes := ReadReports(live);
      accepted := [];
      if !(stickBytes != [] || throttleBytes != []) {
        return;
      }
      var i := 0;
      while i < |sigs|
        invariant 0 <= i <= |sigs|
        invariant Valid()
        invariant (accepted, State()) == Pass(m0, sigs[..i], stickBytes, throttleBytes, modes, now, delta, hold, window)
      {
        assert sigs[..i + 1][..i] == sigs[..i];
        var sd := sigs[i];
        var bytes := if sd.device == Stick then stickBytes else throttleBytes;
        if bytes != [] {
          var key, out := ProcessSignal(sd, bytes, modes, now, delta, hold, window);
          accepted := accepted + [(key, out)];
        }
        i := i + 1;
      }
      assert sigs[..i] == sigs;
      PassKeys(m0, sigs, stickBytes, throttleBytes, modes, now, delta, hold, window);
      forall j | 0 <= j < |accepted| ensures accepted[j].0 in prevVals {
        PassKeysStored(m0, sigs, stickBytes, throttleBytes, modes, now, delta, hold, window, j);
      }
    }
  }

  /** The keys of the signals whose device delivered bytes, in table order. */
  function ReportedKeys(sigs: seq<DeviceSignal>, stickBytes: seq<Byte>, throttleBytes: seq<Byte>): (keys: seq<string>)
    ensures |keys| <= |sigs|
  {
    if sigs == [] then []
    else
      var front := ReportedKeys(sigs[..|sigs| - 1], stickBytes, throttleBytes);
      var sd := sigs[|sigs| - 1];
      if (if sd.device == Stick then stickBytes else throttleBytes) != [] then front + [MapKey(sd)] else front
  }
}
