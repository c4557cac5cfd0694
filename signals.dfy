/**
 * The shared data model of the XInput path: the twenty logical signals, their
 * metadata table, the controller-state snapshot and the raw gamepad report it
 * is normalised from.
 */
module Signals {

  type Int16 = x: int | -32768 <= x < 32768
  type Byte = x: int | 0 <= x < 256

  /** One logical controller channel, in the order the rings are indexed. */
  datatype Signal =
    | LeftX | LeftY | RightX | RightY
    | LeftTrigger | RightTrigger
    | LeftShoulder | RightShoulder
    | A | B | X | Y | StartBtn | BackBtn | LeftThumbBtn | RightThumbBtn
    | DPadUp | DPadDown | DPadLeft | DPadRight

  /** Number of enumerators before the `COUNT` sentinel. */
  const SignalCount: nat := 20

  /** Every signal, in enumeration order. */
  function AllSignals(): (all: seq<Signal>)
    ensures |all| == SignalCount
    ensures forall i, j :: 0 <= i < j < |all| ==> all[i] != all[j]
  {
    [LeftX, LeftY, RightX, RightY, LeftTrigger, RightTrigger, LeftShoulder, RightShoulder,
     A, B, X, Y, StartBtn, BackBtn, LeftThumbBtn, RightThumbBtn,
     DPadUp, DPadDown, DPadLeft, DPadRight]
  }

  /** The position of a signal in the enumeration (its ring index). */
  function Index(s: Signal): (i: nat)
    ensures i < SignalCount && AllSignals()[i] == s
  {
    match s
    case LeftX => 0 case LeftY => 1 case RightX => 2 case RightY => 3
    case LeftTrigger => 4 case RightTrigger => 5
    case LeftShoulder => 6 case RightShoulder => 7
    case A => 8 case B => 9 case X => 10 case Y => 11
    case StartBtn => 12 case BackBtn => 13 case LeftThumbBtn => 14 case RightThumbBtn => 15
    case DPadUp => 16 case DPadDown => 17 case DPadLeft => 18 case DPadRight => 19
  }

  datatype SignalMeta = SignalMeta(name: string, analog: bool)

  /** Name and analog flag per signal: the sticks and triggers are analog, the rest digital. */
  function SignalMetaTable(): (t: seq<SignalMeta>)
    ensures |t| == SignalCount
    ensures forall i :: 0 <= i < |t| ==> (t[i].analog <==> i < 6)
  {
    [SignalMeta("left_x", true), SignalMeta("left_y", true),
     SignalMeta("right_x", true), SignalMeta("right_y", true),
     SignalMeta("left_trigger", true), SignalMeta("right_trigger", true),
     SignalMeta("left_shoulder", false), SignalMeta("right_shoulder", false),
     SignalMeta("a", false), SignalMeta("b", false), SignalMeta("x", false), SignalMeta("y", false),
     SignalMeta("start", false), SignalMeta("back", false),
     SignalMeta("left_thumb", false), SignalMeta("right_thumb", false),
     SignalMeta("dpad_up", false), SignalMeta("dpad_down", false),
     SignalMeta("dpad_left", false), SignalMeta("dpad_right", false)]
  }

  function Meta(s: Signal): SignalMeta
  {
    SignalMetaTable()[Index(s)]
  }

  // ---------------------------------------------------------------------------
  // XInput button bits (the XINPUT_GAMEPAD_* constants of the Windows SDK).
  // ---------------------------------------------------------------------------

  const DPAD_UP: bv16 := 0x0001
  const DPAD_DOWN: bv16 := 0x0002
  const DPAD_LEFT: bv16 := 0x0004
  const DPAD_RIGHT: bv16 := 0x0008
  const START: bv16 := 0x0010
  const BACK: bv16 := 0x0020
  const LEFT_THUMB: bv16 := 0x0040
  const RIGHT_THUMB: bv16 := 0x0080
  const LEFT_SHOULDER: bv16 := 0x0100
  const RIGHT_SHOULDER: bv16 := 0x0200
  const BUTTON_A: bv16 := 0x1000
  const BUTTON_B: bv16 := 0x2000
  const BUTTON_X: bv16 := 0x4000
  const BUTTON_Y: bv16 := 0x8000

  /** The button bit a digital signal is read from; analog signals have none. */
  function ButtonMask(s: Signal): bv16
  {
    match s
    case LeftShoulder => LEFT_SHOULDER case RightShoulder => RIGHT_SHOULDER
    case A => BUTTON_A case B => BUTTON_B case X => BUTTON_X case Y => BUTTON_Y
    case StartBtn => START case BackBtn => BACK
    case LeftThumbBtn => LEFT_THUMB case RightThumbBtn => RIGHT_THUMB
    case DPadUp => DPAD_UP case DPadDown => DPAD_DOWN
    case DPadLeft => DPAD_LEFT case DPadRight => DPAD_RIGHT
    case _ => 0
  }

  /** Exactly the digital signals have a button bit. */
  lemma ButtonMaskOfDigital(s: Signal)
    ensures Meta(s).analog <==> ButtonMask(s) == 0
  {
  }

  /** A value snapshot of every axis, trigger and button at one instant. */
  datatype ControllerState = ControllerState(
    lx: real, ly: real, rx: real, ry: real,  // -1..1
    lt: real, rt: real,                      // 0..1
    buttons: bv16)

  /** The raw report of a physical pad, as XInput hands it over. */
  datatype Gamepad = Gamepad(
    wButtons: bv16,
    bLeftTrigger: Byte, bRightTrigger: Byte,
    sThumbLX: Int16, sThumbLY: Int16, sThumbRX: Int16, sThumbRY: Int16)

  /** The value a ring for `s` records from a state: the axis or trigger, or 1/0 for a button. */
  function SignalValue(cs: ControllerState, s: Signal): real
  {
    match s
    case LeftX => cs.lx case LeftY => cs.ly case RightX => cs.rx case RightY => cs.ry
    case LeftTrigger => cs.lt case RightTrigger => cs.rt
    case _ => if cs.buttons & ButtonMask(s) != 0 then 1.0 else 0.0
  }

  // ---------------------------------------------------------------------------
  // Normalisation of the raw report.
  // ---------------------------------------------------------------------------

  /** Stick axis: non-negative values scale by 1/32767, negative ones by 1/32768. */
  function NormAxis(v: Int16): real
  {
    if v >= 0 then v as real / 32767.0 else v as real / 32768.0
  }

  lemma NormAxisRange(v: Int16)
    ensures -1.0 <= NormAxis(v) <= 1.0
    ensures (NormAxis(v) >= 0.0 <==> v >= 0) && (NormAxis(v) == 0.0 <==> v == 0)
    ensures v == 32767 ==> NormAxis(v) == 1.0
    ensures v == -32768 ==> NormAxis(v) == -1.0
  {
  }

  /** The normalised state the poller pushes and forwards: Y axes negated, triggers over 255. */
  function Normalize(gp: Gamepad): (cs: ControllerState)
    ensures -1.0 <= cs.lx <= 1.0 && -1.0 <= cs.ly <= 1.0 && -1.0 <= cs.rx <= 1.0 && -1.0 <= cs.ry <= 1.0
    ensures 0.0 <= cs.lt <= 1.0 && 0.0 <= cs.rt <= 1.0
    ensures cs.buttons == gp.wButtons
  {
    NormAxisRange(gp.sThumbLX);
    NormAxisRange(gp.sThumbLY);
    NormAxisRange(gp.sThumbRX);
    NormAxisRange(gp.sThumbRY);
    ControllerState(
      NormAxis(gp.sThumbLX), -NormAxis(gp.sThumbLY),
      NormAxis(gp.sThumbRX), -NormAxis(gp.sThumbRY),
      gp.bLeftTrigger as real / 255.0, gp.bRightTrigger as real / 255.0,
      gp.wButtons)
  }

  // ---------------------------------------------------------------------------
  // Runtime parameters clamped by the poller's setters.
  // ---------------------------------------------------------------------------

  /** Controller slot: XInput knows four pads, 0..3. */
  function ClampControllerIndex(idx: int): (r: int)
    ensures 0 <= r <= 3
    ensures 0 <= idx <= 3 ==> r == idx
    ensures idx < 0 ==> r == 0
    ensures idx > 3 ==> r == 3
  {
    if idx < 0 then 0 else if idx > 3 then 3 else idx
  }

  /** Polling rate: floor 10 Hz, ceiling 8000 Hz. */
  function ClampHz(hz: real): (r: real)
    ensures 10.0 <= r <= 8000.0
    ensures 10.0 <= hz <= 8000.0 ==> r == hz
    ensures hz < 10.0 ==> r == 10.0
    ensures hz > 8000.0 ==> r == 8000.0
  {
    if hz < 10.0 then 10.0 else if hz > 8000.0 then 8000.0 else hz
  }
}
