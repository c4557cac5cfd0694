/**
 * The XInput poller: a fixed-rate loop that reads the pad, pushes one sample
 * per signal into its rings, hands the normalised state to the sink, keeps a
 * drift-free deadline and publishes the effective rate every 100 ms.
 *
 * The loop body is modelled one iteration per call (`Cycle`); the clock
 * readings and the result of the pad read of an iteration are its input.
 */
module XInputPoll {
  import opened Wrappers
  import opened Signals
  import opened RingBuffer
  import opened SignalRings

  // ---------------------------------------------------------------------------
  // Scheduling arithmetic.
  // ---------------------------------------------------------------------------

  /** Locals of the loop that survive from one iteration to the next. */
  datatype Sched = Sched(
    hz: real,          // clamped rate the interval was computed from
    interval: real,    // seconds between deadlines
    wake: real,        // next deadline
    windowStart: real, // start of the current stats window
    windowPolls: nat)  // successful reads in the current stats window

  /** The rate is clamped and the interval is the reciprocal of the clamped rate. */
  ghost predicate SchedOk(sc: Sched)
  {
    10.0 <= sc.hz <= 8000.0 && sc.interval == 1.0 / sc.hz
  }

  /** What one iteration learns from the outside world. */
  datatype Tick = Tick(
    loopStart: real,      // clock at the top of the loop; the samples' timestamp
    pad: Option<Gamepad>, // the pad read, or None when the read failed
    clockAfter: real)     // clock after the wait (or after the back-off sleep on a failed read)

  /** State at thread start: clamped rate, first deadline one interval ahead, empty stats window. */
  function StartSched(requestedHz: real, now: real): (sc: Sched)
    ensures SchedOk(sc)
    ensures sc.wake == now + sc.interval && sc.windowStart == now && sc.windowPolls == 0
  {
    var hz := ClampHz(requestedHz);
    Sched(hz, 1.0 / hz, now + 1.0 / hz, now, 0)
  }

  /** Clamp the requested rate; recompute the interval only when the clamped rate changed. */
  function RefreshRate(sc: Sched, requestedHz: real): (r: Sched)
    ensures r.hz == ClampHz(requestedHz)
    ensures r.hz == sc.hz ==> r.interval == sc.interval
    ensures r.wake == sc.wake && r.windowStart == sc.windowStart && r.windowPolls == sc.windowPolls
  {
    var thz := ClampHz(requestedHz);
    if thz != sc.hz then sc.(hz := thz, interval := 1.0 / thz) else sc
  }

  /** Fixed-step advance of the deadline, resynchronised to `now + interval` once more than one interval late. */
  function NextDeadline(wake: real, interval: real, now: real): (w: real)
  {
    var next := wake + interval;
    if now > next + interval then now + interval else next
  }

  /** Publish the effective rate once at least 0.1 s of the stats window has elapsed. */
  function CloseWindow(sc: Sched, now: real): (r: (Sched, Option<real>))
  {
    if now - sc.windowStart >= 0.1 then
      var elapsed := now - sc.windowStart;
      var eff := if elapsed > 0.0 then sc.windowPolls as real / elapsed else 0.0;
      (sc.(windowStart := now, windowPolls := 0), Some(eff))
    else
      (sc, None)
  }

  /** One loop iteration's effect on the scheduling state, and the rate it publishes if any. */
  function SchedStep(sc: Sched, requestedHz: real, tick: Tick): (r: (Sched, Option<real>))
  {
    var sc1 := RefreshRate(sc, requestedHz);
    if tick.pad.None? then
      (sc1.(wake := tick.clockAfter + sc1.interval), None)
    else
      var sc2 := sc1.(windowPolls := sc1.windowPolls + 1,
                      wake := NextDeadline(sc1.wake, sc1.interval, tick.clockAfter));
      CloseWindow(sc2, tick.clockAfter)
  }

  // ---------------------------------------------------------------------------
  // Properties of the scheduling arithmetic.
  // ---------------------------------------------------------------------------

  /** The clamped rate and its reciprocal interval stay consistent across iterations. */
  lemma SchedStepKeepsRate(sc: Sched, requestedHz: real, tick: Tick)
    requires SchedOk(sc)
    ensures var r := SchedStep(sc, requestedHz, tick).0;
      SchedOk(r) && r.hz == ClampHz(requestedHz)
  {
  }

  /** The interval is always between 1/8000 s and 1/10 s. */
  lemma IntervalBounds(sc: Sched)
    requires SchedOk(sc)
    ensures 1.0 / 8000.0 <= sc.interval <= 1.0 / 10.0
  {
    assert sc.interval * sc.hz == 1.0;
  }

  /**
   * After a successful read the deadline moves forward by exactly one interval,
   * unless the loop woke more than one interval past that point, in which case
   * it restarts one interval after the clock instead of catching up.
   */
  lemma DeadlineAfterRead(sc: Sched, requestedHz: real, tick: Tick)
    requires SchedOk(sc) && tick.pad.Some?
    ensures var i := RefreshRate(sc, requestedHz).interval;
      var w := SchedStep(sc, requestedHz, tick).0.wake;
      (tick.clockAfter <= sc.wake + 2.0 * i ==> w == sc.wake + i) &&
      (tick.clockAfter > sc.wake + 2.0 * i ==> w == tick.clockAfter + i)
  {
  }

  /** The deadline never goes backwards and never lags the clock by more than one interval. */
  lemma DeadlineProgress(wake: real, interval: real, now: real)
    requires interval > 0.0
    ensures NextDeadline(wake, interval, now) >= wake + interval
    ensures NextDeadline(wake, interval, now) >= now - interval
  {
  }

  /** A failed read restarts the deadline from the clock and leaves the stats window alone. */
  lemma FailedReadSched(sc: Sched, requestedHz: real, tick: Tick)
    requires tick.pad.None?
    ensures var r := SchedStep(sc, requestedHz, tick);
      r.1.None? &&
      r.0.wake == tick.clockAfter + RefreshRate(sc, requestedHz).interval &&
      r.0.windowStart == sc.windowStart && r.0.windowPolls == sc.windowPolls
  {
  }

  /**
   * A successful read publishes a rate exactly when 0.1 s of the window has
   * elapsed; the rate is the window's poll count (this read included) over the
   * elapsed time, and the window restarts empty.
   */
  lemma StatsPublication(sc: Sched, requestedHz: real, tick: Tick)
    requires tick.pad.Some?
    ensures var r := SchedStep(sc, requestedHz, tick);
      var elapsed := tick.clockAfter - sc.windowStart;
      (r.1.Some? <==> elapsed >= 0.1) &&
      (r.1.Some? ==> r.1.value == (sc.windowPolls + 1) as real / elapsed &&
                     r.0.windowPolls == 0 && r.0.windowStart == tick.clockAfter) &&
      (r.1.None? ==> r.0.windowPolls == sc.windowPolls + 1 && r.0.windowStart == sc.windowStart)
  {
  }

  // ---------------------------------------------------------------------------
  // The poller object.
  // ---------------------------------------------------------------------------

  /** The poller's scalar fields, as one value, so that a contract can say which of them a method changes. */
  datatype PollerFields = PollerFields(running: bool, connected: bool, latestTime: real, targetHz: real,
                                       windowSeconds: real, controllerIndex: int, effectiveHz: real, sched: Sched)

  class XInputPoller {
    const rings: RingBank
    var running: bool
    var connected: bool
    var latestTime: real
    var targetHz: real
    var windowSeconds: real
    var controllerIndex: int
    var effectiveHz: real
    /** The run loop's locals, kept between iterations. */
    var sched: Sched

    ghost predicate Valid()
      reads this, rings, rings.Repr
    {
      rings.Valid() && this !in rings.Repr && 0 <= controllerIndex <= 3
    }

    ghost function Fields(): PollerFields
      reads this
    {
      PollerFields(running, connected, latestTime, targetHz, windowSeconds, controllerIndex, effectiveHz, sched)
    }

    constructor ()
      ensures Valid() && fresh(rings) && fresh(rings.Repr)
      ensures !running && !connected && latestTime == 0.0
      ensures targetHz == 1000.0 && windowSeconds == 30.0 && controllerIndex == 0 && effectiveHz == 0.0
      ensures sched == StartSched(1000.0, 0.0)
      ensures forall s :: rings.History(s) == []
    {
      rings := new RingBank();
      running := false;
      connected := false;
      latestTime := 0.0;
      targetHz := 1000.0;
      windowSeconds := 30.0;
      controllerIndex := 0;
      effectiveHz := 0.0;
      sched := StartSched(1000.0, 0.0);
    }

    /** Store the pad slot, clamped to 0..3. */
    method SetControllerIndex(idx: int)
      requires Valid()
      modifies this
      ensures Valid()
      ensures Fields() == old(Fields()).(controllerIndex := ClampControllerIndex(idx))
    {
      var i := idx;
      if i < 0 { i := 0; }
      if i > 3 { i := 3; }
      controllerIndex := i;
    }

    /** Store the polling rate, clamped to 10..8000 Hz. */
    method SetTargetHz(hz: real)
      requires Valid()
      modifies this
      ensures Valid()
      ensures Fields() == old(Fields()).(targetHz := ClampHz(hz))
    {
      var h := hz;
      if h < 10.0 { h := 10.0; }
      if h > 8000.0 { h := 8000.0; }
      targetHz := h;
    }

    /**
     * Start the loop: a second start while running does nothing. The rate is
     * stored unclamped; the loop clamps it when it reads it.
     */
    method Start(hz: real, window: real, now: real)
      requires Valid()
      modifies this
      ensures Valid() && running
      ensures old(running) ==> Fields() == old(Fields())
      ensures !old(running) ==>
        Fields() == old(Fields()).(running := true, targetHz := hz, windowSeconds := window, sched := StartSched(hz, now))
    {
      if running {
        return;
      }
      running := true;
      targetHz := hz;
      windowSeconds := window;
      var thz := targetHz;
      if thz < 10.0 { thz := 10.0; }
      if thz > 8000.0 { thz := 8000.0; }
      var interval := 1.0 / thz;
      sched := Sched(thz, interval, now + interval, now, 0);
    }

    method Stop()
      requires Valid()
      modifies this
      ensures Valid()
      ensures Fields() == old(Fields()).(running := false)
    {
      running := false;
    }

    /** Clamp the stored rate and recompute the interval if the clamped rate changed. */
    method RefreshInterval()
      requires Valid()
      modifies this
      ensures Valid()
      ensures Fields() == old(Fields()).(sched := RefreshRate(old(sched), old(targetHz)))
    {
      var thz := targetHz;
      if thz < 10.0 { thz := 10.0; } else if thz > 8000.0 { thz := 8000.0; }
      if thz != sched.hz {
        sched := sched.(hz := thz, interval := 1.0 / thz);
      }
    }

    /** Count the poll, advance the deadline and publish the rate when the stats window is over. */
    method AdvanceAfterRead(now: real)
      requires Valid()
      modifies this
      ensures Valid()
      ensures var sc := old(sched).(windowPolls := old(sched).windowPolls + 1,
                                   wake := NextDeadline(old(sched).wake, old(sched).interval, now));
        Fields() == old(Fields()).(sched := CloseWindow(sc, now).0, effectiveHz := CloseWindow(sc, now).1.GetOr(old(effectiveHz)))
    {
      sched := sched.(windowPolls := sched.windowPolls + 1);
      var wake := sched.wake + sched.interval;
      if now > wake + sched.interval {
        wake := now + sched.interval;
      }
      sched := sched.(wake := wake);
      var elapsed := now - sched.windowStart;
      if elapsed >= 0.1 {
        var eff := if elapsed > 0.0 then sched.windowPolls as real / elapsed else 0.0;
        effectiveHz := eff;
        sched := sched.(windowStart := now, windowPolls := 0);
      }
    }

    /**
     * One iteration of the loop. A failed read marks the pad disconnected and
     * pushes nothing; a successful one pushes the normalised state into every
     * ring and returns it for the sink.
     */
    method Cycle(tick: Tick) returns (forwarded: Option<ControllerState>)
      requires Valid()
      modifies this, rings.Repr
      ensures Valid() && rings.Repr == old(rings.Repr)
      ensures sched == SchedStep(old(sched), old(targetHz), tick).0
      ensures effectiveHz == SchedStep(old(sched), old(targetHz), tick).1.GetOr(old(effectiveHz))
      ensures connected == tick.pad.Some?
      ensures tick.pad.None? ==> forwarded == None && latestTime == old(latestTime)
      ensures tick.pad.None? ==> forall s :: rings.History(s) == old(rings.History(s))
      ensures tick.pad.Some? ==> forwarded == Some(Normalize(tick.pad.value)) && latestTime == tick.loopStart
      ensures tick.pad.Some? ==>
        forall s :: rings.History(s) == old(rings.History(s)) + [Sample(tick.loopStart, SignalValue(forwarded.value, s))]
      ensures Fields() == old(Fields()).(sched := sched, effectiveHz := effectiveHz, connected := connected, latestTime := latestTime)
    {
      RefreshInterval();
      if tick.pad.None? {
        connected := false;
        sched := sched.(wake := tick.clockAfter + sched.interval);
        forwarded := None;
        return;
      }
      connected := true;
      var cs := Normalize(tick.pad.value);
      rings.PushState(tick.loopStart, cs);
      forwarded := Some(cs);
      latestTime := tick.loopStart;
      AdvanceAfterRead(tick.clockAfter);
    }

    /** Empty every ring and reset the latest timestamp. */
    method Clear()
      requires Valid()
      modifies this, rings.Repr
      ensures Valid() && rings.Repr == old(rings.Repr)
      ensures Fields() == old(Fields()).(latestTime := 0.0)
      ensures forall s :: rings.History(s) == []
    {
      rings.Clear();
      latestTime := 0.0;
    }

    /** The raw window of `s`, ending at the latest poll time. */
    method Snapshot(s: Signal) returns (out: seq<Sample>)
      requires Valid()
      ensures out == InWindow(rings.Retained(s), latestTime - windowSeconds)
    {
      out := rings.Snapshot(s, latestTime, windowSeconds);
    }

    /** The raw window of `s` with its baseline sample. */
    method SnapshotWithBaseline(s: Signal) returns (out: seq<Sample>)
      requires Valid()
      ensures out == WithBaseline(rings.Retained(s), latestTime - windowSeconds)
    {
      out := rings.SnapshotWithBaseline(s, latestTime, windowSeconds);
    }
  }
}
