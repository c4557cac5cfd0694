/**
 * The filtering sink between the poller and the virtual X360 pad.
 *
 * Every digital input (the buttons, and the triggers when they are in digital
 * mode) goes through a press gate: a rising edge only records the time, the
 * press becomes visible once it has been held for `digitalMax` seconds, and a
 * release is visible at once. Stick axes (and triggers in analog mode) go
 * through a spike clamp that holds the previous value whenever a sample jumps
 * by `analogDelta` or more.
 */
module FilteredForwarder {
  import opened Wrappers
  import opened Signals
  import opened RingBuffer
  import opened SignalRings
  import opened Report
  import opened Bits

  // ---------------------------------------------------------------------------
  // Gate slots.
  // ---------------------------------------------------------------------------

  const BtnCount: nat := 16
  /** Slots 10 and 11 are unused XInput bits; they carry the digital triggers. */
  const LtIndex: nat := 10
  const RtIndex: nat := 11

  /** The signal whose filter switch governs slot `i`; the two trigger slots have none. */
  function SlotSignal(i: nat): (s: Option<Signal>)
    requires i < BtnCount
    ensures s.None? <==> i == LtIndex || i == RtIndex
  {
    [Some(DPadUp), Some(DPadDown), Some(DPadLeft), Some(DPadRight),
     Some(StartBtn), Some(BackBtn), Some(LeftThumbBtn), Some(RightThumbBtn),
     Some(LeftShoulder), Some(RightShoulder), None, None,
     Some(A), Some(B), Some(X), Some(Y)][i]
  }

  /** Each slot that has a signal reads exactly that signal's XInput bit. */
  lemma SlotSignalBit(i: nat)
    requires i < BtnCount && SlotSignal(i).Some?
    ensures ButtonMask(SlotSignal(i).value) == Bit(i)
  {
    if i == 0 {} else if i == 1 {} else if i == 2 {} else if i == 3 {}
    else if i == 4 {} else if i == 5 {} else if i == 6 {} else if i == 7 {}
    else if i == 8 {} else if i == 9 {} else if i == 12 {} else if i == 13 {}
    else if i == 14 {} else if i == 15 {}
  }

  /** Gating is on for a slot unless its signal's filter switch is off; trigger slots are always gated. */
  function SlotFiltering(signalFilter: seq<bool>, i: nat): bool
    requires |signalFilter| == SignalCount && i < BtnCount
  {
    match SlotSignal(i)
    case None => true
    case Some(s) => signalFilter[Index(s)]
  }

  /** Per-slot gate memory: pending rise time (-1 when none), last raw level, promoted level. */
  datatype Slot = Slot(rise: real, prevRaw: bool, active: bool)

  /** A visible press always has its raw button held. */
  predicate SlotOk(sl: Slot)
  {
    sl.active ==> sl.prevRaw
  }

  /** One step of the press gate for one slot at time `t` with raw level `now`. */
  function GateStep(sl: Slot, now: bool, t: real, digitalMax: real, filtering: bool): (r: Slot)
    ensures r.prevRaw == now
    ensures r.active ==> now
  {
    if !filtering then Slot(-1.0, now, now)
    else if now && !sl.prevRaw then Slot(t, true, false)
    else if now && sl.prevRaw then
      (if !sl.active && sl.rise > 0.0 && t - sl.rise >= digitalMax then sl.(active := true) else sl)
    else Slot(-1.0, false, false)
  }

  /** A rising edge records its time and keeps the output low. */
  lemma GateRisingEdge(sl: Slot, t: real, digitalMax: real)
    requires !sl.prevRaw
    ensures GateStep(sl, true, t, digitalMax, true) == Slot(t, true, false)
  {
  }

  /**
   * While held, a slot becomes active exactly when it already was, or its
   * recorded rise is positive and at least `digitalMax` old; the rise time is kept.
   */
  lemma GateHeld(sl: Slot, t: real, digitalMax: real)
    requires sl.prevRaw
    ensures var r := GateStep(sl, true, t, digitalMax, true);
      r.rise == sl.rise &&
      (r.active <==> sl.active || (sl.rise > 0.0 && t - sl.rise >= digitalMax))
  {
  }

  /** Release, or staying idle, clears the output and the rise time at once. */
  lemma GateRelease(sl: Slot, t: real, digitalMax: real)
    ensures GateStep(sl, false, t, digitalMax, true) == Slot(-1.0, false, false)
  {
  }

  /** With gating switched off, the output follows the raw level in the same step. */
  lemma GateBypass(sl: Slot, now: bool, t: real, digitalMax: real)
    ensures GateStep(sl, now, t, digitalMax, false).active == now
  {
  }

  // ---------------------------------------------------------------------------
  // Gate traces.
  // ---------------------------------------------------------------------------

  /** A raw sample of one digital input. */
  datatype Level = Level(t: real, high: bool)

  /** The slot states after each sample, gating on. */
  function GateTrace(sl: Slot, ins: seq<Level>, digitalMax: real): (outs: seq<Slot>)
    ensures |outs| == |ins|
    decreases |ins|
  {
    if ins == [] then []
    else
      var s1 := GateStep(sl, ins[0].high, ins[0].t, digitalMax, true);
      [s1] + GateTrace(s1, ins[1..], digitalMax)
  }

  /**
   * A burst of activity that starts at `t0` and whose every high sample is less
   * than `digitalMax` after `t0` never shows up at the output: short pulses are
   * suppressed entirely.
   */
  lemma {:induction false} ShortPressNeverVisible(sl: Slot, ins: seq<Level>, t0: real, digitalMax: real)
    requires !sl.active && (sl.prevRaw ==> sl.rise >= t0)
    requires forall k :: 0 <= k < |ins| ==> ins[k].t >= t0 && (ins[k].high ==> ins[k].t - t0 < digitalMax)
    ensures forall k :: 0 <= k < |ins| ==> !GateTrace(sl, ins, digitalMax)[k].active
    decreases |ins|
  {
    if ins != [] {
      var s1 := GateStep(sl, ins[0].high, ins[0].t, digitalMax, true);
      assert !s1.active && (s1.prevRaw ==> s1.rise >= t0);
      ShortPressNeverVisible(s1, ins[1..], t0, digitalMax);
      var outs := GateTrace(sl, ins, digitalMax);
      forall k | 0 <= k < |ins| ensures !outs[k].active {
        if k > 0 {
          assert outs[k] == GateTrace(s1, ins[1..], digitalMax)[k - 1];
        }
      }
    }
  }

  /** Once held with a recorded rise `t0 > 0`, the press is visible from the first sample at least `digitalMax` later. */
  lemma {:induction false} HeldPressBecomesVisible(sl: Slot, ins: seq<Level>, t0: real, digitalMax: real)
    requires sl.prevRaw && sl.rise == t0 && t0 > 0.0
    requires forall k :: 0 <= k < |ins| ==> ins[k].high
    ensures forall k :: 0 <= k < |ins| ==>
      var o := GateTrace(sl, ins, digitalMax)[k];
      o.prevRaw && o.rise == t0 && (ins[k].t - t0 >= digitalMax ==> o.active)
    decreases |ins|
  {
    if ins != [] {
      var s1 := GateStep(sl, true, ins[0].t, digitalMax, true);
      HeldPressBecomesVisible(s1, ins[1..], t0, digitalMax);
      var outs := GateTrace(sl, ins, digitalMax);
      forall k | 0 <= k < |ins|
        ensures outs[k].prevRaw && outs[k].rise == t0 && (ins[k].t - t0 >= digitalMax ==> outs[k].active)
      {
        if k > 0 {
          assert outs[k] == GateTrace(s1, ins[1..], digitalMax)[k - 1];
          assert ins[k] == ins[1..][k - 1];
        }
      }
    }
  }

  /**
   * A press that starts with a rising edge at `t0 > 0` and stays held is
   * visible at every sample at least `digitalMax` after the edge.
   */
  lemma LongPressVisible(sl: Slot, ins: seq<Level>, digitalMax: real)
    requires !sl.prevRaw && |ins| >= 1 && ins[0].t > 0.0
    requires forall k :: 0 <= k < |ins| ==> ins[k].high
    ensures forall k :: 0 < k < |ins| && ins[k].t - ins[0].t >= digitalMax ==> GateTrace(sl, ins, digitalMax)[k].active
  {
    var t0 := ins[0].t;
    var s1 := GateStep(sl, true, t0, digitalMax, true);
    assert s1 == Slot(t0, true, false);
    HeldPressBecomesVisible(s1, ins[1..], t0, digitalMax);
    var outs := GateTrace(sl, ins, digitalMax);
    forall k | 0 < k < |ins| && ins[k].t - t0 >= digitalMax
      ensures outs[k].active
    {
      assert outs[k] == GateTrace(s1, ins[1..], digitalMax)[k - 1];
      assert ins[k] == ins[1..][k - 1];
    }
  }

  // ---------------------------------------------------------------------------
  // Button mask and analog clamp.
  // ---------------------------------------------------------------------------

  /** The 16 bits of a button word, least significant first. */
  function RawBits(w: bv16): (b: seq<bool>)
    ensures |b| == BtnCount
    ensures forall i :: 0 <= i < BtnCount ==> (b[i] <==> BitSet(w, i))
  {
    seq(BtnCount, i requires 0 <= i < BtnCount => BitSet(w, i))
  }

  /** Raw level of each slot: the XInput bits, with the digital triggers in slots 10 and 11. */
  function BtnNow(cs: ControllerState, ltDig: bool, rtDig: bool): (b: seq<bool>)
    ensures |b| == BtnCount
  {
    var raw := RawBits(cs.buttons);
    var withLt := if ltDig then raw[LtIndex := cs.lt > 0.5] else raw;
    if rtDig then withLt[RtIndex := cs.rt > 0.5] else withLt
  }

  /** What slot `i` contributes to the output mask: its bit when it is active and not a trigger slot. */
  function SlotBit(i: nat, active: bool): bv16
    requires i < BtnCount
  {
    if i != LtIndex && i != RtIndex && active then Bit(i) else 0
  }

  /** Bits `0..n-1` of the output mask. */
  function MaskUpTo(active: seq<bool>, n: nat): bv16
    requires n <= |active| && n <= BtnCount
  {
    if n == 0 then 0 else MaskUpTo(active, n - 1) | SlotBit(n - 1, active[n - 1])
  }

  lemma {:induction false} MaskUpToBits(active: seq<bool>, n: nat, j: nat)
    requires n <= |active| && n <= BtnCount && j < BtnCount
    ensures BitSet(MaskUpTo(active, n), j) <==> j < n && j != LtIndex && j != RtIndex && active[j]
  {
    if n == 0 {
      NoBitInZero(j);
    } else {
      var rest := MaskUpTo(active, n - 1);
      var add := SlotBit(n - 1, active[n - 1]);
      assert MaskUpTo(active, n) == rest | add;
      MaskUpToBits(active, n - 1, j);
      BitSetOr(rest, add, j);
      if add == 0 {
        NoBitInZero(j);
      } else {
        BitsDisjoint(n - 1, j);
      }
    }
  }

  /** The outgoing button mask of the gated slots. */
  function OutMask(active: seq<bool>): bv16
    requires |active| == BtnCount
  {
    MaskUpTo(active, BtnCount)
  }

  /** Bit `j` of the outgoing mask is set exactly for an active slot that is not a trigger slot. */
  lemma OutMaskBits(active: seq<bool>)
    requires |active| == BtnCount
    ensures forall j :: 0 <= j < BtnCount ==> (BitSet(OutMask(active), j) <==> j != LtIndex && j != RtIndex && active[j])
  {
    forall j | 0 <= j < BtnCount
      ensures BitSet(MaskUpTo(active, BtnCount), j) <==> j != LtIndex && j != RtIndex && active[j]
    {
      MaskUpToBits(active, BtnCount, j);
    }
  }

  function Abs(x: real): real
  {
    if x < 0.0 then -x else x
  }

  /** Spike clamp of one analog value: hold `prev` when the jump is `delta` or more. */
  function ClampDelta(cur: real, prev: real, delta: real, enabled: bool): (r: real)
    ensures r == cur || r == prev
    ensures enabled && delta > 0.0 ==> Abs(r - prev) < delta
    ensures enabled && Abs(cur - prev) < delta ==> r == cur
  {
    if enabled && Abs(cur - prev) >= delta then prev else cur
  }

  /** Spike clamp of the sticks, and of each trigger that is in analog mode; nothing on the first sample. */
  function ClampAnalog(cs: ControllerState, prev: ControllerState, havePrev: bool, delta: real,
                       signalFilter: seq<bool>, ltDig: bool, rtDig: bool): (r: ControllerState)
    requires |signalFilter| == SignalCount
    ensures r.buttons == cs.buttons
    ensures !havePrev ==> r == cs
    ensures ltDig ==> r.lt == cs.lt
    ensures rtDig ==> r.rt == cs.rt
  {
    if !havePrev then cs
    else
      cs.(lx := ClampDelta(cs.lx, prev.lx, delta, signalFilter[Index(LeftX)]),
          ly := ClampDelta(cs.ly, prev.ly, delta, signalFilter[Index(LeftY)]),
          rx := ClampDelta(cs.rx, prev.rx, delta, signalFilter[Index(RightX)]),
          ry := ClampDelta(cs.ry, prev.ry, delta, signalFilter[Index(RightY)]),
          lt := if ltDig then cs.lt else ClampDelta(cs.lt, prev.lt, delta, signalFilter[Index(LeftTrigger)]),
          rt := if rtDig then cs.rt else ClampDelta(cs.rt, prev.rt, delta, signalFilter[Index(RightTrigger)]))
  }

  /** Filtered state: clamped analogs, gated button mask, and digital triggers from their slots. */
  function GatedState(clamped: ControllerState, active: seq<bool>, ltDig: bool, rtDig: bool): (r: ControllerState)
    requires |active| == BtnCount
    ensures r.lx == clamped.lx && r.ly == clamped.ly && r.rx == clamped.rx && r.ry == clamped.ry
    ensures ltDig ==> (r.lt == 1.0 <==> active[LtIndex]) && (r.lt == 0.0 <==> !active[LtIndex])
    ensures rtDig ==> (r.rt == 1.0 <==> active[RtIndex]) && (r.rt == 0.0 <==> !active[RtIndex])
  {
    clamped.(buttons := OutMask(active),
             lt := if ltDig then (if active[LtIndex] then 1.0 else 0.0) else clamped.lt,
             rt := if rtDig then (if active[RtIndex] then 1.0 else 0.0) else clamped.rt)
  }

  /**
   * The filtered report carries exactly the promoted non-trigger slots as
   * buttons; the two unused XInput bits that host the triggers are never set.
   */
  lemma GatedStateButtons(clamped: ControllerState, active: seq<bool>, ltDig: bool, rtDig: bool)
    requires |active| == BtnCount
    ensures var r := GatedState(clamped, active, ltDig, rtDig);
      !BitSet(r.buttons, LtIndex) && !BitSet(r.buttons, RtIndex) &&
      forall j :: 0 <= j < BtnCount ==> (BitSet(r.buttons, j) <==> j != LtIndex && j != RtIndex && active[j])
  {
    OutMaskBits(active);
  }

  // ---------------------------------------------------------------------------
  // Pre-filter stage of `process`.
  // ---------------------------------------------------------------------------

  /** A + B + X + Y + both shoulders. */
  const TestButtons: bv16 := BUTTON_A | BUTTON_B | BUTTON_X | BUTTON_Y | LEFT_SHOULDER | RIGHT_SHOULDER

  /** The test pattern: sticks at opposite corners, triggers full, face buttons and shoulders added. */
  function TestPattern(s: ControllerState): ControllerState
  {
    ControllerState(-1.0, 1.0, 1.0, -1.0, 1.0, 1.0, s.buttons | TestButtons)
  }

  /** The test pattern presses every test button and releases none of the pad's own. */
  lemma TestPatternButtons(s: ControllerState)
    ensures TestPattern(s).buttons & TestButtons == TestButtons
    ensures TestPattern(s).buttons & s.buttons == s.buttons
  {
    OrCovers(s.buttons, TestButtons);
  }

  /** Digital-mode triggers are snapped to 0 or 1 at 0.5 before any filtering. */
  function Threshold(v: real): (r: real)
    ensures r == 1.0 <==> v >= 0.5
    ensures r == 0.0 <==> v < 0.5
  {
    if v >= 0.5 then 1.0 else 0.0
  }

  /** The state `process` works on: optional test pattern, then trigger thresholding. */
  function PreFilter(s: ControllerState, inject: bool, ltDig: bool, rtDig: bool): (r: ControllerState)
    ensures r.lx == (if inject then -1.0 else s.lx) && r.ly == (if inject then 1.0 else s.ly)
    ensures ltDig ==> r.lt == Threshold(if inject then 1.0 else s.lt)
    ensures !ltDig && !inject ==> r.lt == s.lt
    ensures !inject && !ltDig && !rtDig ==> r == s
  {
    var cur := if inject then TestPattern(s) else s;
    var cur1 := if ltDig then cur.(lt := Threshold(cur.lt)) else cur;
    if rtDig then cur1.(rt := Threshold(cur1.rt)) else cur1
  }

  /** After thresholding, the trigger slot sees a press exactly when the trigger was at 0.5 or more. */
  lemma DigitalTriggerSlot(s: ControllerState, inject: bool, rtDig: bool)
    ensures var cur := PreFilter(s, inject, true, rtDig);
      BtnNow(cur, true, rtDig)[LtIndex] <==> inject || s.lt >= 0.5
  {
  }

  /**
   * With filtering off, no test pulse pending and analog triggers, the report
   * sent for a state normalised from a pad report is that very pad report.
   */
  lemma PassthroughMirrorsPad(gp: Gamepad)
    ensures ToReport(PreFilter(Normalize(gp), false, false, false)) == gp
  {
    ReportOfNormalize(gp);
  }

  /** How far the virtual-pad backend got at construction. */
  datatype Backend = AllocFailed | ConnectFailed | TargetAllocFailed | TargetAddFailed | Connected

  function BackendStatus(b: Backend): (msg: string)
    ensures b.Connected? <==> msg == "Ready"
  {
    match b
    case AllocFailed => "alloc failed"
    case ConnectFailed => "connect failed"
    case TargetAllocFailed => "target alloc failed"
    case TargetAddFailed => "target add failed"
    case Connected => "Ready"
  }

  // ---------------------------------------------------------------------------
  // The forwarder object.
  // ---------------------------------------------------------------------------

  /** The forwarder's scalar fields, as one value, so that a contract can say which of them a method changes. */
  datatype ForwarderFields = ForwarderFields(
    filterEnabled: bool, enabled: bool, lastUpdateFailed: bool, analogDelta: real, digitalMax: real,
    prev: ControllerState, havePrev: bool, injectTest: bool, ltDigital: bool, rtDigital: bool,
    signalFilter: seq<bool>, windowSeconds: real, latestTimeFiltered: real)

  class Forwarder {
    var filterEnabled: bool
    var enabled: bool
    const ready: bool
    const status: string
    var lastUpdateFailed: bool
    var analogDelta: real
    var digitalMax: real
    var prev: ControllerState
    var havePrev: bool
    const riseTime: array<real>
    const btnPrevRaw: array<bool>
    const btnActive: array<bool>
    var injectTest: bool
    var ltDigital: bool
    var rtDigital: bool
    var signalFilter: seq<bool>
    var windowSeconds: real
    var latestTimeFiltered: real
    const filtered: RingBank

    ghost predicate Valid()
      reads this, riseTime, btnPrevRaw, btnActive, filtered, filtered.Repr
    {
      |signalFilter| == SignalCount &&
      filtered.Valid() && this !in filtered.Repr &&
      riseTime !in filtered.Repr && btnPrevRaw !in filtered.Repr && btnActive !in filtered.Repr &&
      (enabled ==> ready) &&
      SlotsOk()
    }

    ghost function Fields(): ForwarderFields
      reads this
    {
      ForwarderFields(filterEnabled, enabled, lastUpdateFailed, analogDelta, digitalMax, prev, havePrev,
                      injectTest, ltDigital, rtDigital, signalFilter, windowSeconds, latestTimeFiltered)
    }

    /** Every gate slot satisfies `SlotOk`. */
    ghost predicate SlotsOk()
      reads riseTime, btnPrevRaw, btnActive
    {
      riseTime.Length == BtnCount && btnPrevRaw.Length == BtnCount && btnActive.Length == BtnCount &&
      btnPrevRaw != btnActive &&
      forall i :: 0 <= i < BtnCount ==> SlotOk(SlotAt(i))
    }

    /** The gate memory of slot `i`. */
    ghost function SlotAt(i: nat): Slot
      reads riseTime, btnPrevRaw, btnActive
      requires i < riseTime.Length && i < btnPrevRaw.Length && i < btnActive.Length
    {
      Slot(riseTime[i], btnPrevRaw[i], btnActive[i])
    }

    /** Promoted level of every slot. */
    ghost function Active(): (a: seq<bool>)
      reads btnActive
      ensures |a| == btnActive.Length
    {
      btnActive[..]
    }

    /**
     * Every gate slot idle with no rise recorded except slot 0's -1; filter
     * switches on only when the backend came up.
     */
    constructor (backend: Backend)
      ensures Valid() && fresh(filtered.Repr)
      ensures ready == backend.Connected? && status == BackendStatus(backend)
      ensures !enabled && !filterEnabled && !havePrev && !injectTest && !ltDigital && !rtDigital
      ensures analogDelta == 0.25 && digitalMax == 0.005 && windowSeconds == 30.0
      ensures signalFilter == seq(SignalCount, _ => backend.Connected?)
      ensures forall i :: 0 <= i < BtnCount ==> !btnPrevRaw[i] && !btnActive[i]
      ensures forall s :: filtered.History(s) == []
    {
      filterEnabled := false;
      enabled := false;
      ready := backend.Connected?;
      status := BackendStatus(backend);
      lastUpdateFailed := false;
      analogDelta := 0.25;
      digitalMax := 0.005;
      prev := ControllerState(0.0, 0.0, 0.0, 0.0, 0.0, 0.0, 0);
      havePrev := false;
      riseTime := new real[BtnCount](i => if i == 0 then -1.0 else 0.0);
      btnPrevRaw := new bool[BtnCount](_ => false);
      btnActive := new bool[BtnCount](_ => false);
      injectTest := false;
      ltDigital := false;
      rtDigital := false;
      signalFilter := seq(SignalCount, _ => backend.Connected?);
      windowSeconds := 30.0;
      latestTimeFiltered := 0.0;
      filtered := new RingBank();
    }

    method SetParams(delta: real, maxSec: real)
      requires Valid()
      modifies this
      ensures Valid()
      ensures Fields() == old(Fields()).(analogDelta := delta, digitalMax := maxSec)
    {
      analogDelta := delta;
      digitalMax := maxSec;
    }

    method SetFilterSignals(arr: seq<bool>)
      requires Valid() && |arr| == SignalCount
      modifies this
      ensures Valid()
      ensures Fields() == old(Fields()).(signalFilter := arr)
    {
      signalFilter := arr;
    }

    method SetTriggerModes(leftDigital: bool, rightDigital: bool)
      requires Valid()
      modifies this
      ensures Valid()
      ensures Fields() == old(Fields()).(ltDigital := leftDigital, rtDigital := rightDigital)
    {
      ltDigital := leftDigital;
      rtDigital := rightDigital;
    }

    method EnableFilter(e: bool)
      requires Valid()
      modifies this
      ensures Valid()
      ensures Fields() == old(Fields()).(filterEnabled := e)
    {
      filterEnabled := e;
    }

    /** Output can only be switched on once the backend is ready. */
    method EnableOutput(e: bool)
      requires Valid()
      modifies this
      ensures Valid()
      ensures Fields() == old(Fields()).(enabled := e && ready)
    {
      if ready {
        enabled := e;
      } else {
        enabled := false;
      }
    }

    /** Arm the one-shot test pattern for the next processed state. */
    method TriggerTestPulse()
      requires Valid()
      modifies this
      ensures Valid()
      ensures Fields() == old(Fields()).(injectTest := true)
    {
      injectTest := true;
    }

    method ClearFiltered()
      requires Valid()
      modifies this, filtered.Repr
      ensures Valid() && filtered.Repr == old(filtered.Repr)
      ensures Fields() == old(Fields()).(latestTimeFiltered := 0.0)
      ensures forall s :: filtered.History(s) == []
    {
      filtered.Clear();
      latestTimeFiltered := 0.0;
    }

    /** The filtered window of `s`, ending at the latest filtered time. */
    method SnapshotFiltered(s: Signal) returns (out: seq<Sample>)
      requires Valid()
      ensures out == InWindow(filtered.Retained(s), latestTimeFiltered - windowSeconds)
    {
      out := filtered.Snapshot(s, latestTimeFiltered, windowSeconds);
    }

    method SnapshotFilteredWithBaseline(s: Signal) returns (out: seq<Sample>)
      requires Valid()
      ensures out == WithBaseline(filtered.Retained(s), latestTimeFiltered - windowSeconds)
    {
      out := filtered.SnapshotWithBaseline(s, latestTimeFiltered, windowSeconds);
    }

    /** Run the 16 gate slots one step on the raw levels `now`. */
    method GateSlots(t: real, now: seq<bool>)
      requires Valid() && |now| == BtnCount
      modifies btnPrevRaw, btnActive, riseTime
      ensures Valid()
      ensures forall i :: 0 <= i < BtnCount ==>
        SlotAt(i) == GateStep(old(SlotAt(i)), now[i], t, digitalMax, SlotFiltering(signalFilter, i))
    {
      var i := 0;
      while i < BtnCount
        invariant 0 <= i <= BtnCount && SlotsOk()
        invariant forall k :: 0 <= k < i ==>
          SlotAt(k) == GateStep(old(SlotAt(k)), now[k], t, digitalMax, SlotFiltering(signalFilter, k))
        invariant forall k :: i <= k < BtnCount ==> SlotAt(k) == old(SlotAt(k))
      {
        var sig := SlotSignal(i);
        var filteringEnabled := if sig.Some? then signalFilter[Index(sig.value)] else true;
        GateSlot(i, t, now[i], filteringEnabled);
        i := i + 1;
      }
    }

    /** One gate step of slot `i`; no other slot changes. */
    method GateSlot(i: nat, t: real, nowI: bool, filteringEnabled: bool)
      requires SlotsOk() && i < BtnCount
      modifies btnPrevRaw, btnActive, riseTime
      ensures SlotsOk()
      ensures SlotAt(i) == GateStep(old(SlotAt(i)), nowI, t, digitalMax, filteringEnabled)
      ensures forall k :: 0 <= k < BtnCount && k != i ==> SlotAt(k) == old(SlotAt(k))
    {
      var prevI := btnPrevRaw[i];
      if !filteringEnabled {
        btnActive[i] := nowI;
        riseTime[i] := -1.0;
        btnPrevRaw[i] := nowI;
      } else {
        if nowI && !prevI {
          riseTime[i] := t;
          btnActive[i] := false;
        } else if nowI && prevI {
          if !btnActive[i] && riseTime[i] > 0.0 {
            var dur := t - riseTime[i];
            if dur >= digitalMax {
              btnActive[i] := true;
            }
          }
        } else if !nowI && prevI {
          btnActive[i] := false;
          riseTime[i] := -1.0;
        } else {
          riseTime[i] := -1.0;
          if btnActive[i] {
            btnActive[i] := false;
          }
        }
        btnPrevRaw[i] := nowI;
      }
      forall k | 0 <= k < BtnCount ensures SlotOk(SlotAt(k)) {
        if k != i {
          assert old(SlotOk(SlotAt(k)));
        }
      }
    }

    /** Raw slot levels: the button bits, then the digital triggers in slots 10 and 11. */
    static method ReadButtons(cs: ControllerState, ltDig: bool, rtDig: bool) returns (now: seq<bool>)
      ensures now == BtnNow(cs, ltDig, rtDig)
    {
      now := [];
      var bit := 0;
      while bit < BtnCount
        invariant 0 <= bit <= BtnCount && |now| == bit
        invariant forall k :: 0 <= k < bit ==> now[k] == BitSet(cs.buttons, k)
      {
        now := now + [BitSet(cs.buttons, bit)];
        bit := bit + 1;
      }
      assert now == RawBits(cs.buttons);
      if ltDig {
        now := now[LtIndex := cs.lt > 0.5];
      }
      if rtDig {
        now := now[RtIndex := cs.rt > 0.5];
      }
    }

    /** The output mask built bit by bit from the promoted slots. */
    static method ComposeMask(btnActive: array<bool>) returns (outMask: bv16)
      requires btnActive.Length == BtnCount
      ensures outMask == OutMask(btnActive[..])
    {
      ghost var a := btnActive[..];
      outMask := 0;
      var i := 0;
      while i < BtnCount
        invariant 0 <= i <= BtnCount
        invariant outMask == MaskUpTo(a, i)
      {
        assert a[i] == btnActive[i];
        outMask := outMask | SlotBit(i, btnActive[i]);
        i := i + 1;
      }
    }

    /**
     * The filter stage: spike clamp (from the second call on), press gate for
     * every slot, then the gated mask and digital triggers; the result becomes
     * the previous state for the next call.
     */
    method ApplyFilter(t: real, cs: ControllerState, ltDig: bool, rtDig: bool) returns (r: ControllerState)
      requires Valid()
      modifies this, btnPrevRaw, btnActive, riseTime
      ensures Valid()
      ensures var clamped := ClampAnalog(cs, old(prev), old(havePrev), analogDelta, signalFilter, ltDig, rtDig);
        forall i :: 0 <= i < BtnCount ==>
          SlotAt(i) == GateStep(old(SlotAt(i)), BtnNow(clamped, ltDig, rtDig)[i], t, digitalMax, SlotFiltering(signalFilter, i))
      ensures r == GatedState(ClampAnalog(cs, old(prev), old(havePrev), analogDelta, signalFilter, ltDig, rtDig), Active(), ltDig, rtDig)
      ensures Fields() == old(Fields()).(prev := r, havePrev := true)
    {
      var c := ClampAnalog(cs, prev, havePrev, analogDelta, signalFilter, ltDig, rtDig);
      r := GateState(t, c, ltDig, rtDig);
      prev := r;
      havePrev := true;
    }

    /** Gate the buttons (and digital triggers) of the clamped state `c`. */
    method GateState(t: real, c: ControllerState, ltDig: bool, rtDig: bool) returns (r: ControllerState)
      requires Valid()
      modifies btnPrevRaw, btnActive, riseTime
      ensures Valid()
      ensures forall i :: 0 <= i < BtnCount ==>
        SlotAt(i) == GateStep(old(SlotAt(i)), BtnNow(c, ltDig, rtDig)[i], t, digitalMax, SlotFiltering(signalFilter, i))
      ensures r == GatedState(c, Active(), ltDig, rtDig)
    {
      var now := ReadButtons(c, ltDig, rtDig);
      GateSlots(t, now);
      var mask := ComposeMask(btnActive);
      r := c.(buttons := mask);
      if ltDig {
        r := r.(lt := if btnActive[LtIndex] then 1.0 else 0.0);
      }
      if rtDig {
        r := r.(rt := if btnActive[RtIndex] then 1.0 else 0.0);
      }
    }

    /** Consume the pending test pulse and threshold the digital triggers. */
    method TakePending(s: ControllerState) returns (cur: ControllerState)
      requires Valid()
      modifies this
      ensures Valid()
      ensures cur == PreFilter(s, old(injectTest), ltDigital, rtDigital)
      ensures Fields() == old(Fields()).(injectTest := false)
    {
      cur := s;
      var inject := injectTest;
      injectTest := false;
      if inject {
        cur := TestPattern(cur);
      }
      if ltDigital {
        cur := cur.(lt := Threshold(cur.lt));
      }
      if rtDigital {
        cur := cur.(rt := Threshold(cur.rt));
      }
    }

    /** Append the outgoing state to the filtered history and advance its clock. */
    method Record(t: real, out: ControllerState)
      requires Valid()
      modifies this, filtered.Repr
      ensures Valid() && filtered.Repr == old(filtered.Repr)
      ensures forall s :: filtered.History(s) == old(filtered.History(s)) + [Sample(t, SignalValue(out, s))]
      ensures Fields() == old(Fields()).(latestTimeFiltered := t)
    {
      filtered.PushState(t, out);
      latestTimeFiltered := t;
    }

    /**
     * Handle one polled state: nothing at all unless the backend is ready and
     * output is on. Otherwise forward it; `sendOk` is the backend's answer.
     */
    method Process(t: real, s: ControllerState, sendOk: bool) returns (sent: Option<Gamepad>)
      requires Valid()
      modifies this, btnPrevRaw, btnActive, riseTime, filtered.Repr
      ensures Valid() && filtered.Repr == old(filtered.Repr)
      ensures !ready || !old(enabled) ==>
        sent == None && Fields() == old(Fields()) && unchanged(riseTime, btnPrevRaw, btnActive)
      ensures !ready || !old(enabled) ==> forall s' :: filtered.History(s') == old(filtered.History(s'))
      ensures ready && old(enabled) ==>
        (sent.Some? &&
         Fields() == old(Fields()).(injectTest := false, prev := prev, havePrev := havePrev,
                                    latestTimeFiltered := t, lastUpdateFailed := !sendOk))
      ensures ready && old(enabled) ==>
        var pre := PreFilter(s, old(injectTest), ltDigital, rtDigital);
        var clamped := ClampAnalog(pre, old(prev), old(havePrev), analogDelta, signalFilter, ltDigital, rtDigital);
        var out := if filterEnabled then GatedState(clamped, Active(), ltDigital, rtDigital) else pre;
        sent.value == ToReport(out) &&
        (filterEnabled ==> (prev == out && havePrev &&
          forall i :: 0 <= i < BtnCount ==>
            SlotAt(i) == GateStep(old(SlotAt(i)), BtnNow(clamped, ltDigital, rtDigital)[i], t, digitalMax, SlotFiltering(signalFilter, i)))) &&
        (!filterEnabled ==> prev == old(prev) && havePrev == old(havePrev) && unchanged(riseTime, btnPrevRaw, btnActive)) &&
        forall s' :: filtered.History(s') == old(filtered.History(s')) + [Sample(t, SignalValue(out, s'))]
    {
      if !ready || !enabled {
        sent := None;
        return;
      }
      var report := Forward(t, s, sendOk);
      sent := Some(report);
    }

    /**
     * The enabled path of `Process`: consume the test pulse, threshold digital
     * triggers, filter if enabled, record the result in the filtered rings and
     * send its report.
     */
    method Forward(t: real, s: ControllerState, sendOk: bool) returns (report: Gamepad)
      requires Valid()
      modifies this, btnPrevRaw, btnActive, riseTime, filtered.Repr
      ensures Valid() && filtered.Repr == old(filtered.Repr)
      ensures Fields() == old(Fields()).(injectTest := false, prev := prev, havePrev := havePrev,
                                         latestTimeFiltered := t, lastUpdateFailed := !sendOk)
      ensures var pre := PreFilter(s, old(injectTest), ltDigital, rtDigital);
        var clamped := ClampAnalog(pre, old(prev), old(havePrev), analogDelta, signalFilter, ltDigital, rtDigital);
        var out := if filterEnabled then GatedState(clamped, Active(), ltDigital, rtDigital) else pre;
        report == ToReport(out) &&
        (filterEnabled ==> (prev == out && havePrev &&
          forall i :: 0 <= i < BtnCount ==>
            SlotAt(i) == GateStep(old(SlotAt(i)), BtnNow(clamped, ltDigital, rtDigital)[i], t, digitalMax, SlotFiltering(signalFilter, i)))) &&
        (!filterEnabled ==> prev == old(prev) && havePrev == old(havePrev) && unchanged(riseTime, btnPrevRaw, btnActive)) &&
        forall s' :: filtered.History(s') == old(filtered.History(s')) + [Sample(t, SignalValue(out, s'))]
    {
      var cur := Prepare(t, s);
      Record(t, cur);
      report := ToReport(cur);
      lastUpdateFailed := !sendOk;
    }

    /**
     * The state to forward: pending test pulse, trigger thresholds, then, if
     * enabled, the spike clamp against the previous output and the press gates.
     */
    method Prepare(t: real, s: ControllerState) returns (cur: ControllerState)
      requires Valid()
      modifies this, btnPrevRaw, btnActive, riseTime
      ensures Valid()
      ensures Fields() == old(Fields()).(injectTest := false, prev := prev, havePrev := havePrev)
      ensures var pre := PreFilter(s, old(injectTest), ltDigital, rtDigital);
        var clamped := ClampAnalog(pre, old(prev), old(havePrev), analogDelta, signalFilter, ltDigital, rtDigital);
        (filterEnabled ==> (cur == GatedState(clamped, Active(), ltDigital, rtDigital) && prev == cur && havePrev &&
          forall i :: 0 <= i < BtnCount ==>
            SlotAt(i) == GateStep(old(SlotAt(i)), BtnNow(clamped, ltDigital, rtDigital)[i], t, digitalMax, SlotFiltering(signalFilter, i)))) &&
        (!filterEnabled ==> cur == pre && prev == old(prev) && havePrev == old(havePrev) && unchanged(riseTime, btnPrevRaw, btnActive))
      ensures forall s' :: filtered.History(s') == old(filtered.History(s'))
    {
      cur := TakePending(s);
      if filterEnabled {
        cur := ApplyFilter(t, cur, ltDigital, rtDigital);
      }
    }
  }
}
