/**
 * Conversion of a normalised controller state back into the integer ranges of
 * an X360 report (the XUSB report has the same fields as the XInput gamepad
 * record, so `Gamepad` serves for both).
 */
module Report {
  import opened Signals

  /** `v` limited to `[lo, hi]`. */
  function Clamp(v: real, lo: real, hi: real): (c: real)
    requires lo <= hi
    ensures lo <= c <= hi
    ensures lo <= v <= hi ==> c == v
    ensures v < lo ==> c == lo
    ensures v > hi ==> c == hi
  {
    if v < lo then lo else if v > hi then hi else v
  }

  /**
   * Stick value to signed 16 bits: clamp to [-1, 1], scale non-negative values
   * by 32767 and negative ones by 32768, and truncate toward zero as the C cast does.
   */
  function ToShort(v: real): (r: Int16)
    ensures v >= 0.0 ==> r >= 0
    ensures v <= 0.0 ==> r <= 0
    ensures v >= 1.0 ==> r == 32767
    ensures v <= -1.0 ==> r == -32768
  {
    var c := if v > 1.0 then 1.0 else if v < -1.0 then -1.0 else v;
    if c >= 0.0 then (c * 32767.0).Floor else -((-c * 32768.0).Floor)
  }

  /** Trigger value to a byte: clamp to [0, 1], then round half up after scaling by 255. */
  function ToTrig(v: real): (r: Byte)
    ensures v <= 0.0 ==> r == 0
    ensures v >= 1.0 ==> r == 255
  {
    var c := if v < 0.0 then 0.0 else if v > 1.0 then 1.0 else v;
    (c * 255.0 + 0.5).Floor
  }

  /** The report sent for a state: Y axes are negated back, triggers rescaled, buttons copied. */
  function ToReport(cs: ControllerState): (rep: Gamepad)
    ensures rep.wButtons == cs.buttons
    ensures (cs.lx >= 0.0 ==> rep.sThumbLX >= 0) && (cs.lx <= 0.0 ==> rep.sThumbLX <= 0)
    ensures (cs.rx >= 0.0 ==> rep.sThumbRX >= 0) && (cs.rx <= 0.0 ==> rep.sThumbRX <= 0)
    ensures (cs.ly >= 0.0 ==> rep.sThumbLY <= 0) && (cs.ly <= 0.0 ==> rep.sThumbLY >= 0)
    ensures (cs.ry >= 0.0 ==> rep.sThumbRY <= 0) && (cs.ry <= 0.0 ==> rep.sThumbRY >= 0)
    ensures (cs.lx >= 1.0 ==> rep.sThumbLX == 32767) && (cs.lx <= -1.0 ==> rep.sThumbLX == -32768)
    ensures (cs.rx >= 1.0 ==> rep.sThumbRX == 32767) && (cs.rx <= -1.0 ==> rep.sThumbRX == -32768)
    ensures (cs.ly >= 1.0 ==> rep.sThumbLY == -32768) && (cs.ly <= -1.0 ==> rep.sThumbLY == 32767)
    ensures (cs.ry >= 1.0 ==> rep.sThumbRY == -32768) && (cs.ry <= -1.0 ==> rep.sThumbRY == 32767)
    ensures (cs.lt <= 0.0 ==> rep.bLeftTrigger == 0) && (cs.lt >= 1.0 ==> rep.bLeftTrigger == 255)
    ensures (cs.rt <= 0.0 ==> rep.bRightTrigger == 0) && (cs.rt >= 1.0 ==> rep.bRightTrigger == 255)
  {
    Gamepad(cs.buttons, ToTrig(cs.lt), ToTrig(cs.rt),
            ToShort(cs.lx), ToShort(-cs.ly), ToShort(cs.rx), ToShort(-cs.ry))
  }

  // ---------------------------------------------------------------------------
  // Properties of the conversions.
  // ---------------------------------------------------------------------------

  /** Larger inputs never give smaller stick values. */
  lemma ToShortMonotone(a: real, b: real)
    requires a <= b
    ensures ToShort(a) <= ToShort(b)
  {
  }

  /** A stick value that came from the axis normalisation converts back to the raw value. */
  lemma ToShortOfNormAxis(x: Int16)
    ensures ToShort(NormAxis(x)) == x
  {
    if x >= 0 {
      assert NormAxis(x) * 32767.0 == x as real;
    } else {
      assert -NormAxis(x) * 32768.0 == -(x as real);
    }
  }

  /** Converting back loses less than one step of the 16-bit scale. */
  lemma NormAxisOfToShort(v: real)
    requires -1.0 <= v <= 1.0
    ensures v >= 0.0 ==> v - 1.0 / 32767.0 < NormAxis(ToShort(v)) <= v
    ensures v < 0.0 ==> v <= NormAxis(ToShort(v)) < v + 1.0 / 32768.0
  {
    var r := ToShort(v);
    if v >= 0.0 {
      assert r as real <= v * 32767.0 < r as real + 1.0;
    } else {
      assert r as real >= v * 32768.0 > r as real - 1.0;
    }
  }

  /** A trigger byte that was divided by 255 converts back to the same byte. */
  lemma ToTrigOfByte(b: Byte)
    ensures ToTrig(b as real / 255.0) == b
  {
    assert (b as real / 255.0) * 255.0 + 0.5 == b as real + 0.5;
  }

  /** Rounding half up: the byte is the nearest step of 1/255 to the clamped value. */
  lemma ToTrigNearest(v: real)
    requires 0.0 <= v <= 1.0
    ensures -0.5 < ToTrig(v) as real - v * 255.0 <= 0.5
  {
  }

  /**
   * A state produced by the normalisation of a raw pad report converts back to
   * exactly that report: with nothing filtered, the virtual pad mirrors the
   * physical one.
   */
  lemma ReportOfNormalize(gp: Gamepad)
    ensures ToReport(Normalize(gp)) == gp
  {
    var cs := Normalize(gp);
    ToShortOfNormAxis(gp.sThumbLX);
    ToShortOfNormAxis(gp.sThumbLY);
    ToShortOfNormAxis(gp.sThumbRX);
    ToShortOfNormAxis(gp.sThumbRY);
    assert -cs.ly == NormAxis(gp.sThumbLY);
    assert -cs.ry == NormAxis(gp.sThumbRY);
    ToTrigOfByte(gp.bLeftTrigger);
    ToTrigOfByte(gp.bRightTrigger);
  }
}
