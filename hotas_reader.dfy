/**
 * The HOTAS reader's decoding half: raw HID reports arrive as hexadecimal
 * strings keyed by device path, each stamped with the time it was read. A poll
 * keeps only fresh reports, picks the stick's, parses it strictly and maps
 * fixed bit positions of the X56 stick report onto a controller state.
 */
module HotasReader {
  import opened Wrappers
  import opened Signals
  import opened Arith
  import opened Bits
  import opened HidField

  // ---------------------------------------------------------------------------
  // hex_to_bytes: strict parsing.
  // ---------------------------------------------------------------------------

  /** The first `n` digit pairs of `hex` as bytes, or `None` once a pair holds a non-digit. */
  function DecodePairs(hex: string, n: nat): (r: Option<seq<Byte>>)
    requires 2 * n <= |hex|
    ensures r.Some? ==> |r.value| == n
  {
    if n == 0 then Some([])
    else match DecodePairs(hex, n - 1)
      case None => None
      case Some(b) =>
        var hi, lo := HexValue(hex[2 * n - 2]), HexValue(hex[2 * n - 1]);
        if hi < 0 || lo < 0 then None else Some(b + [PairByte(hi, lo)])
  }

  /** A report string as bytes: at least one pair, every pair two hex digits; a trailing odd digit is dropped. */
  function DecodeHex(hex: string): Option<seq<Byte>>
  {
    if |hex| < 2 then None else DecodePairs(hex, |hex| / 2)
  }

  lemma {:induction false} DecodePairsSpec(hex: string, n: nat)
    requires 2 * n <= |hex|
    ensures DecodePairs(hex, n).Some? <==> forall k :: 0 <= k < 2 * n ==> IsHexChar(hex[k])
    ensures DecodePairs(hex, n).Some? ==>
      forall j :: 0 <= j < n ==> DecodePairs(hex, n).value[j] == PairByte(HexValue(hex[2 * j]), HexValue(hex[2 * j + 1]))
  {
    if n > 0 {
      DecodePairsSpec(hex, n - 1);
      if DecodePairs(hex, n - 1).Some? && !IsHexChar(hex[2 * n - 2]) {
        assert !(forall k :: 0 <= k < 2 * n ==> IsHexChar(hex[k]));
      }
      if DecodePairs(hex, n - 1).Some? && !IsHexChar(hex[2 * n - 1]) {
        assert !(forall k :: 0 <= k < 2 * n ==> IsHexChar(hex[k]));
      }
    }
  }

  /**
   * The parse fails exactly for a string shorter than two characters or a
   * non-digit among the paired characters; otherwise it yields `|hex| / 2`
   * bytes, byte `j` built from characters `2j` (high nibble) and `2j + 1`.
   */
  lemma DecodeHexSpec(hex: string)
    ensures DecodeHex(hex).None? <==>
      |hex| < 2 || exists k :: 0 <= k < |hex| / 2 * 2 && !IsHexChar(hex[k])
    ensures DecodeHex(hex).Some? ==> |DecodeHex(hex).value| == |hex| / 2 >= 1
    ensures DecodeHex(hex).Some? ==>
      forall j :: 0 <= j < |hex| / 2 ==>
        DecodeHex(hex).value[j] == PairByte(HexValue(hex[2 * j]), HexValue(hex[2 * j + 1]))
  {
    if |hex| >= 2 {
      DecodePairsSpec(hex, |hex| / 2);
    }
  }

  /** Pairs depend on nothing past the characters they read. */
  lemma {:induction false} DecodePairsPrefix(a: string, b: string, n: nat)
    requires 2 * n <= |a| && 2 * n <= |b| && a[..2 * n] == b[..2 * n]
    ensures DecodePairs(a, n) == DecodePairs(b, n)
  {
    if n > 0 {
      assert a[..2 * n - 2] == a[..2 * n][..2 * n - 2];
      assert b[..2 * n - 2] == b[..2 * n][..2 * n - 2];
      DecodePairsPrefix(a, b, n - 1);
      assert a[2 * n - 2] == a[..2 * n][2 * n - 2] && a[2 * n - 1] == a[..2 * n][2 * n - 1];
      assert b[2 * n - 2] == b[..2 * n][2 * n - 2] && b[2 * n - 1] == b[..2 * n][2 * n - 1];
    }
  }

  /** A trailing odd character is ignored. */
  lemma DecodeHexIgnoresOddTail(hex: string, c: char)
    requires |hex| % 2 == 0
    ensures DecodeHex(hex + [c]) == DecodeHex(hex)
  {
    if |hex| >= 2 {
      assert (hex + [c])[..|hex|] == hex[..|hex|];
      DecodePairsPrefix(hex + [c], hex, |hex| / 2);
    }
  }

  /** Bytes as lower-case hex, high nibble first: the writer side of the report format. */
  function EncodeHex(bytes: seq<Byte>): (hex: string)
    ensures |hex| == 2 * |bytes|
  {
    if bytes == [] then []
    else EncodeHex(bytes[..|bytes| - 1]) + [HexChar(bytes[|bytes| - 1] / 16), HexChar(bytes[|bytes| - 1] % 16)]
  }

  lemma {:induction false} DecodePairsOfEncode(bytes: seq<Byte>)
    ensures DecodePairs(EncodeHex(bytes), |bytes|) == Some(bytes)
  {
    if bytes != [] {
      var n := |bytes|;
      var front, last := bytes[..n - 1], bytes[n - 1];
      var hex := EncodeHex(bytes);
      assert hex == EncodeHex(front) + [HexChar(last / 16), HexChar(last % 16)];
      assert hex[..2 * n - 2] == EncodeHex(front)[..2 * n - 2];
      DecodePairsOfEncode(front);
      DecodePairsPrefix(hex, EncodeHex(front), n - 1);
      HexValueOfHexChar(last / 16);
      HexValueOfHexChar(last % 16);
      assert PairByte(last / 16, last % 16) == last;
      assert front + [last] == bytes;
    }
  }

  /** Round trip: every non-empty byte string survives encoding and strict parsing. */
  lemma DecodeHexOfEncode(bytes: seq<Byte>)
    requires bytes != []
    ensures DecodeHex(EncodeHex(bytes)) == Some(bytes)
  {
    var hex := EncodeHex(bytes);
    assert |hex| == 2 * |bytes| >= 2;
    assert |hex| / 2 == |bytes|;
    DecodePairsOfEncode(bytes);
  }

  /** `hex_to_bytes`: walks the string two characters at a time and stops at the first bad pair. */
  method HexToBytes(hex: string) returns (ok: bool, out: seq<Byte>)
    ensures ok <==> DecodeHex(hex).Some?
    ensures ok ==> out == DecodeHex(hex).value
  {
    out := [];
    if |hex| < 2 {
      return false, out;
    }
    var i := 0;
    while i + 1 < |hex|
      invariant i % 2 == 0 && i <= |hex|
      invariant DecodePairs(hex, i / 2) == Some(out)
    {
      var hi := HexValue(hex[i]);
      var lo := HexValue(hex[i + 1]);
      if hi < 0 || lo < 0 {
        DecodePairsSpec(hex, i / 2 + 1);
        DecodePairsSpec(hex, |hex| / 2);
        return false, out;
      }
      out := out + [PairByte(hi, lo)];
      i := i + 2;
    }
    assert i / 2 == |hex| / 2;
    ok := |out| > 0;
  }

  // ---------------------------------------------------------------------------
  // extract_bits_lsb_first: strict field extraction.
  // ---------------------------------------------------------------------------

  /** `bits` bits from `bitStart` on; 0 for an empty field or a report too short to hold its last bit. */
  function ExtractBits(bytes: seq<Byte>, bitStart: int, bits: int): nat
    requires bitStart >= 0
  {
    if bits <= 0 then 0
    else if |bytes| < (bitStart + bits - 1) / 8 + 1 then 0
    else FieldValue(bytes, bitStart, bits)
  }

  /**
   * A field that does not fit reads 0; one that fits is below `2^bits`, and
   * its bit `i` is bit `(bitStart + i) % 8` of byte `(bitStart + i) / 8`.
   */
  lemma ExtractBitsSpec(bytes: seq<Byte>, bitStart: int, bits: int)
    requires bitStart >= 0
    ensures bits <= 0 || 8 * |bytes| < bitStart + bits ==> ExtractBits(bytes, bitStart, bits) == 0
    ensures bits > 0 ==> ExtractBits(bytes, bitStart, bits) < Pow2(bits)
    ensures bits > 0 && bitStart + bits <= 8 * |bytes| ==>
      forall i :: 0 <= i < bits ==>
        (ExtractBits(bytes, bitStart, bits) / Pow2(i)) % 2 == (bytes[(bitStart + i) / 8] / Pow2((bitStart + i) % 8)) % 2
  {
    if bits > 0 && bitStart + bits <= 8 * |bytes| {
      forall i | 0 <= i < bits
        ensures (ExtractBits(bytes, bitStart, bits) / Pow2(i)) % 2 == (bytes[(bitStart + i) / 8] / Pow2((bitStart + i) % 8)) % 2
      {
        FieldBit(bytes, bitStart, bits, i);
      }
    }
  }

  /** `extract_bits_lsb_first`: ORs bit `i` of the field into bit `i` of the result, lowest first. */
  method ExtractBitsLsbFirst(bytes: seq<Byte>, bitStart: int, bits: int) returns (val: nat)
    requires bitStart >= 0 && bits <= 64
    ensures val == ExtractBits(bytes, bitStart, bits)
  {
    if bits <= 0 {
      return 0;
    }
    val := 0;
    var lastBit := bitStart + bits - 1;
    var neededBytes := lastBit / 8 + 1;
    if |bytes| < neededBytes {
      return 0;
    }
    var i := 0;
    while i < bits
      invariant 0 <= i <= bits
      invariant val == FieldValue(bytes, bitStart, i)
    {
      var bitGlobal := bitStart + i;
      var byteIdx := bitGlobal / 8;
      var bitInByte := bitGlobal % 8;
      var bitv := (bytes[byteIdx] / Pow2(bitInByte)) % 2;
      assert bitv == BitAt(bytes, bitGlobal);
      FieldValueNext(bytes, bitStart, i);
      // bit i of `val` is still clear (val < 2^i), so the OR is an addition
      val := val + bitv * Pow2(i);
      i := i + 1;
    }
  }

  // ---------------------------------------------------------------------------
  // poll_once: report selection and freshness.
  // ---------------------------------------------------------------------------

  /** Which X56 half a report or signal belongs to. */
  datatype DeviceKind = Stick | Throttle

  /** The last report read from one device path, with the time (seconds) it arrived. */
  datatype LiveEntry = LiveEntry(hex: string, ts: real)

  const NoDataPlaceholder: string := "(no data yet)"
  const FreshThreshold: real := 0.5
  const StickTag: string := "vid_0738&pid_2221"
  const ThrottleTag: string := "vid_0738&pid_a221"
  const InterfaceTag: string := "mi_00"

  predicate MatchesAt(s: string, pat: string, i: nat)
    requires i + |pat| <= |s|
  {
    s[i..i + |pat|] == pat
  }

  /** `s.find(pat) != npos`. */
  predicate Contains(s: string, pat: string)
  {
    exists i: nat :: i + |pat| <= |s| && MatchesAt(s, pat, i)
  }

  /** A report is used only when it holds data and was read no more than half a second ago. */
  predicate Fresh(e: LiveEntry, now: real)
  {
    e.hex != "" && e.hex != NoDataPlaceholder && !(e.ts <= 0.0 || now - e.ts > FreshThreshold)
  }

  /** The device a path names: interface 0 of the stick's or the throttle's vendor/product id. */
  function PathKind(path: string): Option<DeviceKind>
  {
    if Contains(path, StickTag) && Contains(path, InterfaceTag) then Some(Stick)
    else if Contains(path, ThrottleTag) && Contains(path, InterfaceTag) then Some(Throttle)
    else None
  }

  predicate Usable(p: (string, LiveEntry), now: real, kind: DeviceKind)
  {
    Fresh(p.1, now) && PathKind(p.0) == Some(kind)
  }

  /** The hex of the last usable report of `kind` in path order, or "" when there is none. */
  function LatestHex(live: seq<(string, LiveEntry)>, now: real, kind: DeviceKind): string
  {
    if live == [] then ""
    else if Usable(live[|live| - 1], now, kind) then live[|live| - 1].1.hex
    else LatestHex(live[..|live| - 1], now, kind)
  }

  /** "" exactly when nothing is usable; otherwise the hex of a usable report with none usable after it. */
  lemma {:induction false} LatestHexIsLastUsable(live: seq<(string, LiveEntry)>, now: real, kind: DeviceKind)
    ensures LatestHex(live, now, kind) == "" <==> forall j :: 0 <= j < |live| ==> !Usable(live[j], now, kind)
    ensures LatestHex(live, now, kind) != "" ==>
      exists j :: 0 <= j < |live| && Usable(live[j], now, kind) && live[j].1.hex == LatestHex(live, now, kind) &&
        forall k :: j < k < |live| ==> !Usable(live[k], now, kind)
  {
    if live != [] {
      var front := live[..|live| - 1];
      LatestHexIsLastUsable(front, now, kind);
      assert forall j :: 0 <= j < |front| ==> front[j] == live[j];
      if !Usable(live[|live| - 1], now, kind) && LatestHex(front, now, kind) != "" {
        var j :| 0 <= j < |front| && Usable(front[j], now, kind) && front[j].1.hex == LatestHex(front, now, kind) &&
          forall k :: j < k < |front| ==> !Usable(front[k], now, kind);
        assert forall k :: j < k < |live| ==> !Usable(live[k], now, kind);
      }
    }
  }

  /** The selection loop of `poll_once`: a later usable report of a kind replaces an earlier one. */
  method SelectReports(live: seq<(string, LiveEntry)>, now: real) returns (stickHex: string, throttleHex: string)
    ensures stickHex == LatestHex(live, now, Stick)
    ensures throttleHex == LatestHex(live, now, Throttle)
  {
    stickHex, throttleHex := "", "";
    var i := 0;
    while i < |live|
      invariant 0 <= i <= |live|
      invariant stickHex == LatestHex(live[..i], now, Stick)
      invariant throttleHex == LatestHex(live[..i], now, Throttle)
    {
      assert live[..i + 1][..i] == live[..i];
      var (path, entry) := live[i];
      if entry.hex == "" || entry.hex == NoDataPlaceholder {
      } else if entry.ts <= 0.0 || now - entry.ts > FreshThreshold {
      } else if Contains(path, StickTag) && Contains(path, InterfaceTag) {
        stickHex := entry.hex;
      } else if Contains(path, ThrottleTag) && Contains(path, InterfaceTag) {
        throttleHex := entry.hex;
      }
      i := i + 1;
    }
    assert live[..i] == live;
  }

  // ---------------------------------------------------------------------------
  // poll_once: the stick report's fields.
  // ---------------------------------------------------------------------------

  /** A 16-bit field over -1..1: `v / 65535 * 2 - 1`. */
  function NormU16(v: nat): (a: real)
    requires v < 65536
    ensures -1.0 <= a <= 1.0
  {
    (v as real / 65535.0) * 2.0 - 1.0
  }

  /** An 8-bit field over -1..1: `v / 255 * 2 - 1`. */
  function NormU8(v: nat): (a: real)
    requires v < 256
    ensures -1.0 <= a <= 1.0
  {
    (v as real / 255.0) * 2.0 - 1.0
  }

  /** The stick's button word: A, B, D and E of the stick become XInput A, B, X and Y. */
  function StickButtons(a: bool, b: bool, d: bool, e: bool): bv16
  {
    (if a then BUTTON_A else 0) | (if b then BUTTON_B else 0) | (if d then BUTTON_X else 0) | (if e then BUTTON_Y else 0)
  }

  /** Each of the four buttons owns exactly one bit (12..15) of the word; no other bit is ever set. */
  lemma StickButtonsBits(a: bool, b: bool, d: bool, e: bool, j: nat)
    requires j < 16
    ensures BitSet(StickButtons(a, b, d, e), j) <==> (j == 12 && a) || (j == 13 && b) || (j == 14 && d) || (j == 15 && e)
  {
    var ma: bv16 := if a then BUTTON_A else 0;
    var mb: bv16 := if b then BUTTON_B else 0;
    var md: bv16 := if d then BUTTON_X else 0;
    var me: bv16 := if e then BUTTON_Y else 0;
    assert StickButtons(a, b, d, e) == ((ma | mb) | md) | me;
    BitSetOr((ma | mb) | md, me, j);
    BitSetOr(ma | mb, md, j);
    BitSetOr(ma, mb, j);
    assert BUTTON_A == Bit(12) && BUTTON_B == Bit(13) && BUTTON_X == Bit(14) && BUTTON_Y == Bit(15);
    NoBitInZero(j);
    BitsDisjoint(12, j);
    BitsDisjoint(13, j);
    BitsDisjoint(14, j);
    BitsDisjoint(15, j);
  }

  /** The controller state built from a stick report (Y axes are not inverted here). */
  function DecodeStick(bytes: seq<Byte>): ControllerState
  {
    ExtractBitsSpec(bytes, 8, 16);
    ExtractBitsSpec(bytes, 24, 16);
    ExtractBitsSpec(bytes, 80, 8);
    ExtractBitsSpec(bytes, 88, 8);
    ControllerState(
      NormU16(ExtractBits(bytes, 8, 16)), NormU16(ExtractBits(bytes, 24, 16)),
      NormU8(ExtractBits(bytes, 80, 8)), NormU8(ExtractBits(bytes, 88, 8)),
      if ExtractBits(bytes, 56, 1) != 0 then 1.0 else 0.0, 0.0,
      StickButtons(ExtractBits(bytes, 57, 1) != 0, ExtractBits(bytes, 58, 1) != 0,
                   ExtractBits(bytes, 60, 1) != 0, ExtractBits(bytes, 61, 1) != 0))
  }

  /** A one-bit field is the report's bit at that position, 0 when the report is too short. */
  lemma SingleBit(bytes: seq<Byte>, pos: nat)
    ensures ExtractBits(bytes, pos, 1) == BitAt(bytes, pos)
    ensures BitAt(bytes, pos) == if pos / 8 < |bytes| then (bytes[pos / 8] / Pow2(pos % 8)) % 2 else 0
  {
  }

  /** Bit `k` of byte 7 as a one-bit field: set exactly when the report has that byte and the bit is 1. */
  lemma StickByte7Bit(bytes: seq<Byte>, k: nat)
    requires k < 8
    ensures ExtractBits(bytes, 56 + k, 1) != 0 <==> |bytes| >= 8 && (bytes[7] / Pow2(k)) % 2 == 1
  {
    SingleBit(bytes, 56 + k);
    assert (56 + k) / 8 == 7 && (56 + k) % 8 == k;
  }

  /** The four stick buttons are byte 7 bits 1, 2, 4 and 5, and nothing else sets a bit of the word. */
  lemma DecodeStickButtons(bytes: seq<Byte>, j: nat)
    requires j < 16
    ensures BitSet(DecodeStick(bytes).buttons, j) <==>
        |bytes| >= 8 &&
        ((j == 12 && (bytes[7] / 2) % 2 == 1) || (j == 13 && (bytes[7] / 4) % 2 == 1) ||
         (j == 14 && (bytes[7] / 16) % 2 == 1) || (j == 15 && (bytes[7] / 32) % 2 == 1))
  {
    var a, b, d, e := ExtractBits(bytes, 57, 1) != 0, ExtractBits(bytes, 58, 1) != 0,
                      ExtractBits(bytes, 60, 1) != 0, ExtractBits(bytes, 61, 1) != 0;
    assert DecodeStick(bytes).buttons == StickButtons(a, b, d, e);
    StickButtonsBits(a, b, d, e, j);
    StickByte7Bits(bytes);
  }

  /** Bits 1, 2, 4 and 5 of byte 7, as the one-bit fields at 57, 58, 60 and 61 read them. */
  lemma StickByte7Bits(bytes: seq<Byte>)
    ensures ExtractBits(bytes, 57, 1) != 0 <==> |bytes| >= 8 && (bytes[7] / 2) % 2 == 1
    ensures ExtractBits(bytes, 58, 1) != 0 <==> |bytes| >= 8 && (bytes[7] / 4) % 2 == 1
    ensures ExtractBits(bytes, 60, 1) != 0 <==> |bytes| >= 8 && (bytes[7] / 16) % 2 == 1
    ensures ExtractBits(bytes, 61, 1) != 0 <==> |bytes| >= 8 && (bytes[7] / 32) % 2 == 1
  {
    StickByte7Bit(bytes, 1);
    StickByte7Bit(bytes, 2);
    StickByte7Bit(bytes, 4);
    StickByte7Bit(bytes, 5);
    assert Pow2(1) == 2 && Pow2(2) == 4 && Pow2(4) == 16 && Pow2(5) == 32;
  }

  /**
   * The trigger is byte 7 bit 0 and the buttons are byte 7 bits 1, 2, 4 and 5;
   * a report shorter than 8 bytes leaves them clear; `rt` is always 0 and the
   * axes stay within -1..1.
   */
  lemma DecodeStickSpec(bytes: seq<Byte>)
    ensures var cs := DecodeStick(bytes);
      -1.0 <= cs.lx <= 1.0 && -1.0 <= cs.ly <= 1.0 && -1.0 <= cs.rx <= 1.0 && -1.0 <= cs.ry <= 1.0
    ensures DecodeStick(bytes).lt == if |bytes| >= 8 && bytes[7] % 2 == 1 then 1.0 else 0.0
    ensures DecodeStick(bytes).rt == 0.0
    ensures forall j :: 0 <= j < 16 ==>
      (BitSet(DecodeStick(bytes).buttons, j) <==>
        |bytes| >= 8 &&
        ((j == 12 && (bytes[7] / 2) % 2 == 1) || (j == 13 && (bytes[7] / 4) % 2 == 1) ||
         (j == 14 && (bytes[7] / 16) % 2 == 1) || (j == 15 && (bytes[7] / 32) % 2 == 1)))
  {
    StickByte7Bit(bytes, 0);
    assert Pow2(0) == 1;
    assert |bytes| >= 8 ==> bytes[7] / 1 == bytes[7];
    assert DecodeStick(bytes).lt == if ExtractBits(bytes, 56, 1) != 0 then 1.0 else 0.0;
    forall j | 0 <= j < 16
      ensures BitSet(DecodeStick(bytes).buttons, j) <==>
        |bytes| >= 8 &&
        ((j == 12 && (bytes[7] / 2) % 2 == 1) || (j == 13 && (bytes[7] / 4) % 2 == 1) ||
         (j == 14 && (bytes[7] / 16) % 2 == 1) || (j == 15 && (bytes[7] / 32) % 2 == 1))
    {
      DecodeStickButtons(bytes, j);
    }
  }

  /** What a poll hands to the injector: `ok` and, when ok, the decoded state. */
  datatype HotasSnapshot = HotasSnapshot(ok: bool, state: ControllerState)

  const ZeroState: ControllerState := ControllerState(0.0, 0.0, 0.0, 0.0, 0.0, 0.0, 0)

  /** The snapshot a poll produces from the reports on hand at time `now`. */
  function Poll(live: seq<(string, LiveEntry)>, now: real): HotasSnapshot
  {
    var stickHex := LatestHex(live, now, Stick);
    if stickHex != "" && DecodeHex(stickHex).Some? then HotasSnapshot(true, DecodeStick(DecodeHex(stickHex).value))
    else HotasSnapshot(false, ZeroState)
  }

  /**
   * `ok` holds exactly when some fresh stick report exists and the last one
   * parses; the throttle's report never matters; a failed poll carries the
   * zero state and a successful one the decoding of that last stick report.
   */
  lemma PollSpec(live: seq<(string, LiveEntry)>, now: real)
    ensures Poll(live, now).ok <==>
      exists j :: 0 <= j < |live| && Usable(live[j], now, Stick) && DecodeHex(live[j].1.hex).Some? &&
        forall k :: j < k < |live| ==> !Usable(live[k], now, Stick)
    ensures !Poll(live, now).ok ==> Poll(live, now).state == ZeroState
    ensures Poll(live, now).ok ==>
      exists j :: 0 <= j < |live| && Usable(live[j], now, Stick) && DecodeHex(live[j].1.hex).Some? &&
        (forall k :: j < k < |live| ==> !Usable(live[k], now, Stick)) &&
        Poll(live, now).state == DecodeStick(DecodeHex(live[j].1.hex).value)
  {
    LatestHexIsLastUsable(live, now, Stick);
    var h := LatestHex(live, now, Stick);
    if exists j :: 0 <= j < |live| && Usable(live[j], now, Stick) && DecodeHex(live[j].1.hex).Some? &&
        forall k :: j < k < |live| ==> !Usable(live[k], now, Stick) {
      var j :| 0 <= j < |live| && Usable(live[j], now, Stick) && DecodeHex(live[j].1.hex).Some? &&
        forall k :: j < k < |live| ==> !Usable(live[k], now, Stick);
      assert h != "";
      var j' :| 0 <= j' < |live| && Usable(live[j'], now, Stick) && live[j'].1.hex == h &&
        forall k :: j' < k < |live| ==> !Usable(live[k], now, Stick);
      assert j == j';
      assert Poll(live, now).state == DecodeStick(DecodeHex(live[j].1.hex).value);
    }
  }

  /** The reader's state a poll touches: the time of the last successful poll. */
  class Reader {
    var latest: real

    constructor ()
      ensures latest == 0.0
    {
      latest := 0.0;
    }

    /** `poll_once`: select, parse and decode; a successful poll stamps `latest` with `stamp`. */
    method PollOnce(live: seq<(string, LiveEntry)>, now: real, stamp: real) returns (snap: HotasSnapshot)
      modifies this
      ensures snap == Poll(live, now)
      ensures latest == if snap.ok then stamp else old(latest)
    {
      var stickHex, throttleHex := SelectReports(live, now);
      var haveStick := false;
      var stickBytes: seq<Byte> := [];
      if stickHex != "" {
        haveStick, stickBytes := HexToBytes(stickHex);
      }
      // the throttle report is parsed but not used
      if throttleHex != "" {
        var _, _ := HexToBytes(throttleHex);
      }
      snap := HotasSnapshot(false, ZeroState);
      if haveStick {
        snap := HotasSnapshot(true, DecodeStick(stickBytes));
        latest := stamp;
      }
    }
  }

  // ---------------------------------------------------------------------------
  // list_signals.
  // ---------------------------------------------------------------------------

  /** A logical HOTAS input: where its field sits in the stick report. */
  datatype SignalDescriptor = SignalDescriptor(id: string, name: string, bitStart: nat, bits: nat, analog: bool)

  /** The fixed table of X56 stick signals offered to the mapping UI. */
  function ListSignals(): seq<SignalDescriptor>
  {
    [ SignalDescriptor("joy_x", "JOY_X", 8, 16, true),
      SignalDescriptor("joy_y", "JOY_Y", 24, 16, true),
      SignalDescriptor("joy_z", "JOY_Z", 40, 12, true),
      SignalDescriptor("c_joy_x", "C_JOY_X", 80, 8, true),
      SignalDescriptor("c_joy_y", "C_JOY_Y", 88, 8, true),
      SignalDescriptor("C", "C_BTN", 59, 1, false),
      SignalDescriptor("trigger", "TRIGGER", 56, 1, false),
      SignalDescriptor("A", "BTN_A", 57, 1, false),
      SignalDescriptor("B", "BTN_B", 58, 1, false),
      SignalDescriptor("D", "BTN_D", 60, 1, false),
      SignalDescriptor("E", "BTN_E", 61, 1, false),
      SignalDescriptor("POV", "POV", 52, 4, false),
      SignalDescriptor("H1", "H1", 62, 4, false),
      SignalDescriptor("H2", "H2", 66, 4, false) ]
  }

  /** Fourteen entries, no id twice. */
  lemma ListSignalsDistinct()
    ensures |ListSignals()| == 14
    ensures forall i, j :: 0 <= i < j < |ListSignals()| ==> ListSignals()[i].id != ListSignals()[j].id
  {
    var t := ListSignals();
    forall i, j | 0 <= i < j < |t|
      ensures t[i].id != t[j].id
    {
      assert t[i].id[0] != t[j].id[0] || |t[i].id| != |t[j].id| || t[i].id[|t[i].id| - 1] != t[j].id[|t[j].id| - 1];
    }
  }

  /**
   * Every field is non-empty and inside a 12-byte report; the analog fields
   * are exactly the ones of 8 bits or more.
   */
  lemma ListSignalsFields()
    ensures forall i :: 0 <= i < |ListSignals()| ==>
      var d := ListSignals()[i]; 0 < d.bits <= 16 && d.bitStart + d.bits <= 96 && (d.analog <==> d.bits >= 8)
  {
  }

  /** The stick decoder reads each field at the position the table advertises for it. */
  lemma DecodeStickUsesTable(bytes: seq<Byte>)
    ensures var t, cs := ListSignals(), DecodeStick(bytes);
      t[0].id == "joy_x" && ExtractBits(bytes, t[0].bitStart, t[0].bits) < 65536 &&
      cs.lx == NormU16(ExtractBits(bytes, t[0].bitStart, t[0].bits)) &&
      t[1].id == "joy_y" && ExtractBits(bytes, t[1].bitStart, t[1].bits) < 65536 &&
      cs.ly == NormU16(ExtractBits(bytes, t[1].bitStart, t[1].bits)) &&
      t[3].id == "c_joy_x" && ExtractBits(bytes, t[3].bitStart, t[3].bits) < 256 &&
      cs.rx == NormU8(ExtractBits(bytes, t[3].bitStart, t[3].bits)) &&
      t[4].id == "c_joy_y" && ExtractBits(bytes, t[4].bitStart, t[4].bits) < 256 &&
      cs.ry == NormU8(ExtractBits(bytes, t[4].bitStart, t[4].bits)) &&
      t[6].id == "trigger" && (cs.lt == 1.0 <==> ExtractBits(bytes, t[6].bitStart, t[6].bits) != 0)
  {
    var t := ListSignals();
    assert t[0] == SignalDescriptor("joy_x", "JOY_X", 8, 16, true);
    assert t[1] == SignalDescriptor("joy_y", "JOY_Y", 24, 16, true);
    assert t[3] == SignalDescriptor("c_joy_x", "C_JOY_X", 80, 8, true);
    assert t[4] == SignalDescriptor("c_joy_y", "C_JOY_Y", 88, 8, true);
    assert t[6] == SignalDescriptor("trigger", "TRIGGER", 56, 1, false);
    ExtractBitsSpec(bytes, 8, 16);
    ExtractBitsSpec(bytes, 24, 16);
    ExtractBitsSpec(bytes, 80, 8);
    ExtractBitsSpec(bytes, 88, 8);
  }

}
