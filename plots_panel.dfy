/**
 * The series the plots panel derives from ring snapshots: a stride
 * downsampling of a long snapshot, the step series drawn for a digital signal
 * from its baseline and edges, and the two anomaly markers (spikes on analog
 * signals, short pulses on digital ones). Drawing itself is not modelled.
 */
module PlotsPanel {
  import opened Arith
  import opened RingBuffer

  function Abs(x: real): real
  {
    if x < 0.0 then -x else x
  }

  // ---------------------------------------------------------------------------
  // stride_downsample.
  // ---------------------------------------------------------------------------

  /** The input position the `k`-th stride lands on: `floor(k * n / m)`. */
  function StrideIndex(k: nat, n: nat, m: nat): nat
    requires m > 0
  {
    (k * n) / m
  }

  /** Summing the real stride `n / m` `k` times and truncating gives the integer quotient. */
  lemma FloorOfStride(k: nat, n: nat, m: nat)
    requires m > 0
    ensures (k as real * (n as real / m as real)).Floor == StrideIndex(k, n, m)
  {
    var mr := m as real;
    var x := k as real * (n as real / mr);
    var q, r := (k * n) / m, (k * n) % m;
    assert k * n == q * m + r;
    assert (n as real / mr) * mr == n as real;
    assert x * mr == (k * n) as real;
    assert (k * n) as real == q as real * mr + r as real;
    var d := x - q as real;
    assert d * mr == r as real;
    assert 0.0 <= d;
    assert d < 1.0;
  }

  lemma DivMonotone(a: nat, b: nat, m: nat)
    requires m > 0 && a <= b
    ensures a / m <= b / m
  {
    var qa, qb := a / m, b / m;
    assert a == m * qa + a % m && b == m * qb + b % m;
    if qa > qb {
      MulBound(m, qa - qb);
      assert false;
    }
  }

  /**
   * With more samples than points, consecutive strides land on strictly
   * increasing positions, and the strides before the `m`-th stay inside the input.
   */
  lemma StrideIndexSteps(k: nat, n: nat, m: nat)
    requires 0 < m < n
    ensures StrideIndex(k, n, m) < StrideIndex(k + 1, n, m)
    ensures k < m ==> StrideIndex(k, n, m) < n
    ensures StrideIndex(0, n, m) == 0 && StrideIndex(m, n, m) == n
  {
    StrideIncreases(k, n, m);
    if k < m {
      StrideInside(k, n, m);
    }
    StrideEnds(n, m);
  }

  lemma StrideIncreases(k: nat, n: nat, m: nat)
    requires 0 < m < n
    ensures StrideIndex(k, n, m) < StrideIndex(k + 1, n, m)
  {
    assert (k + 1) * n == k * n + n;
    DivOfShifted(k * n, 1, m);
    DivMonotone(k * n + m, k * n + n, m);
  }

  lemma StrideInside(k: nat, n: nat, m: nat)
    requires 0 < m < n && k < m
    ensures StrideIndex(k, n, m) < n
  {
    DivMonotone(k * n, (m - 1) * n + (n - 1), m);
    assert (m - 1) * n + (n - 1) == (m - 1) + (n - 1) * m;
    DivOfShifted(m - 1, n - 1, m);
    SmallDiv(m - 1, m);
  }

  lemma StrideEnds(n: nat, m: nat)
    requires 0 < m < n
    ensures StrideIndex(0, n, m) == 0 && StrideIndex(m, n, m) == n
  {
    DivOfShifted(0, n, m);
    assert m * n == 0 + n * m;
  }

  /** The positions the downsampler copies: one per stride, then the last sample when its time is not already the last one copied. */
  function PickIndices(src: seq<Sample>, m: nat): (idx: seq<nat>)
    requires 0 < m < |src|
  {
    var picks := seq(m, k requires 0 <= k < m => StrideIndex(k, |src|, m));
    StrideIndexSteps(m - 1, |src|, m);
    if src[picks[m - 1]].t != src[|src| - 1].t then picks + [|src| - 1] else picks
  }

  /** The downsampled series: the whole input when it fits (or no limit is set), else the picked samples. */
  function Downsampled(src: seq<Sample>, maxPoints: int): seq<Sample>
  {
    if |src| <= maxPoints || maxPoints <= 0 then src
    else
      var idx := PickIndices(src, maxPoints);
      PickIndicesShape(src, maxPoints);
      seq(|idx|, j requires 0 <= j < |idx| => src[idx[j]])
  }

  /**
   * The picked positions start at 0, increase strictly, stay inside the input
   * and number `m` or `m + 1`; the last picked sample has the input's last time.
   */
  lemma PickIndicesShape(src: seq<Sample>, m: nat)
    requires 0 < m < |src|
    ensures var idx := PickIndices(src, m);
      m <= |idx| <= m + 1 && idx[0] == 0 &&
      (forall j :: 0 <= j < |idx| ==> idx[j] < |src|) &&
      (forall i, j :: 0 <= i < j < |idx| ==> idx[i] < idx[j]) &&
      (forall j :: 0 <= j < m ==> idx[j] == StrideIndex(j, |src|, m)) &&
      src[idx[|idx| - 1]].t == src[|src| - 1].t
  {
    var n := |src|;
    var idx := PickIndices(src, m);
    StrideIndexSteps(0, n, m);
    forall j | 0 <= j < m ensures idx[j] == StrideIndex(j, n, m) && idx[j] < n {
      StrideIndexSteps(j, n, m);
    }
    forall i, j | 0 <= i < j < |idx| ensures idx[i] < idx[j] {
      StridesIncrease(i, j, n, m);
      if j == m {
        StrideIndexSteps(m - 1, n, m);
        StridesIncrease(i, m - 1, n, m);
      }
    }
  }

  /** The downsampler's real-valued cursor after `k` strides of `n / m`. */
  function Cursor(k: nat, n: nat, m: nat): real
    requires m > 0
  {
    k as real * (n as real / m as real)
  }

  /** The cursor advances by one stride a step, truncates to the stride index, and leaves the input exactly after `m` strides. */
  lemma CursorFacts(k: nat, n: nat, m: nat)
    requires 0 < m < n
    ensures Cursor(k, n, m).Floor == StrideIndex(k, n, m)
    ensures Cursor(k + 1, n, m) == Cursor(k, n, m) + n as real / m as real
    ensures k < m <==> StrideIndex(k, n, m) < n
  {
    FloorOfStride(k, n, m);
    StrideIndexSteps(k, n, m);
    if k > m {
      StridesIncrease(m, k, n, m);
    }
  }

  /** Stride positions increase along the whole range. */
  lemma {:induction false} StridesIncrease(i: nat, j: nat, n: nat, m: nat)
    requires 0 < m < n && i <= j
    ensures StrideIndex(i, n, m) <= StrideIndex(j, n, m)
    ensures i < j ==> StrideIndex(i, n, m) < StrideIndex(j, n, m)
    decreases j - i
  {
    if i < j {
      StridesIncrease(i, j - 1, n, m);
      StrideIndexSteps(j - 1, n, m);
    }
  }

  /** The stride loop: a real-valued cursor advanced by `n / m` picks the sample at its integer part while inside the input. */
  method StridePicks(src: seq<Sample>, m: nat) returns (xt: seq<real>, yv: seq<real>)
    requires 0 < m < |src|
    ensures |xt| == m && |yv| == m
    ensures forall q :: 0 <= q < m ==>
      StrideIndex(q, |src|, m) < |src| && xt[q] == src[StrideIndex(q, |src|, m)].t && yv[q] == src[StrideIndex(q, |src|, m)].v
  {
    xt, yv := [], [];
    var n := |src|;
    var step := n as real / m as real;
    var i := 0.0;
    ghost var k: nat := 0;
    CursorFacts(0, n, m);
    while i.Floor < n
      invariant k <= m && i == Cursor(k, n, m)
      invariant |xt| == k && |yv| == k
      invariant forall q :: 0 <= q < k ==> StrideIndex(q, n, m) < n && xt[q] == src[StrideIndex(q, n, m)].t && yv[q] == src[StrideIndex(q, n, m)].v
      decreases m - k
    {
      CursorFacts(k, n, m);
      var idx := i.Floor;
      xt, yv := xt + [src[idx].t], yv + [src[idx].v];
      i := i + step;
      k := k + 1;
    }
    CursorFacts(k, n, m);
  }

  /** `stride_downsample`: copy the input, or every `n/m`-th sample by a real-valued cursor plus the last one. */
  method StrideDownsample(src: seq<Sample>, maxPoints: int) returns (xt: seq<real>, yv: seq<real>)
    ensures var d := Downsampled(src, maxPoints);
      |xt| == |d| && |yv| == |d| && forall j :: 0 <= j < |d| ==> xt[j] == d[j].t && yv[j] == d[j].v
  {
    xt, yv := [], [];
    if |src| <= maxPoints || maxPoints <= 0 {
      var j := 0;
      while j < |src|
        invariant 0 <= j <= |src| && |xt| == j && |yv| == j
        invariant forall q :: 0 <= q < j ==> xt[q] == src[q].t && yv[q] == src[q].v
      {
        xt, yv := xt + [src[j].t], yv + [src[j].v];
        j := j + 1;
      }
      return;
    }
    var n, m := |src|, maxPoints;
    xt, yv := StridePicks(src, m);
    if xt[|xt| - 1] != src[n - 1].t {
      xt, yv := xt + [src[n - 1].t], yv + [src[n - 1].v];
    }
    PickIndicesShape(src, m);
  }

  // ---------------------------------------------------------------------------
  // build_step_series: a digital signal drawn as steps from its baseline and edges.
  // ---------------------------------------------------------------------------

  function Max(a: real, b: real): real
  {
    if a < b then b else a
  }

  /** A plotted series: x offsets from the window start and the values drawn there. */
  datatype Series = Series(xs: seq<real>, ys: seq<real>)

  /** The level held and the points drawn after the samples before position `k`. */
  datatype StepState = StepState(cur: real, xs: seq<real>, ys: seq<real>)

  /**
   * The scan over the samples: the first (baseline) sample is drawn at the
   * window start or at its own time if later; each later in-window sample
   * whose value differs from the level held draws a vertical step at its
   * time, from the old level to the new.
   */
  function StepScan(src: seq<Sample>, t0: real, k: nat): (st: StepState)
    requires 1 <= k <= |src|
    ensures |st.xs| == |st.ys| >= 1 && st.ys[|st.ys| - 1] == st.cur
  {
    if k == 1 then StepState(src[0].v, [Max(src[0].t, t0) - t0], [src[0].v])
    else
      var st := StepScan(src, t0, k - 1);
      var s := src[k - 1];
      if s.t < t0 || s.v == st.cur then st
      else StepState(s.v, st.xs + [s.t - t0, s.t - t0], st.ys + [st.cur, s.v])
  }

  /** The series drawn for a snapshot with baseline, extended flat to `windowEnd` when it stops short. */
  function StepSeries(src: seq<Sample>, t0: real, windowEnd: real): Series
  {
    if src == [] then Series([], [])
    else
      var st := StepScan(src, t0, |src|);
      if st.xs[|st.xs| - 1] < windowEnd then Series(st.xs + [windowEnd], st.ys + [st.cur])
      else Series(st.xs, st.ys)
  }

  /** The position of the last sample before `k` (after the baseline) inside the window, or 0 for the baseline. */
  function LastInWindow(src: seq<Sample>, t0: real, k: nat): (i: nat)
    requires 1 <= k <= |src|
    ensures i < k && (i == 0 || src[i].t >= t0)
    ensures forall j :: i < j < k ==> src[j].t < t0
  {
    if k == 1 then 0
    else if src[k - 1].t >= t0 then k - 1
    else LastInWindow(src, t0, k - 1)
  }

  /** The level held after position `k` is the value of the last in-window sample, or the baseline's. */
  lemma {:induction false} StepLevel(src: seq<Sample>, t0: real, k: nat)
    requires 1 <= k <= |src|
    ensures StepScan(src, t0, k).cur == src[LastInWindow(src, t0, k)].v
  {
    if k > 1 {
      StepLevel(src, t0, k - 1);
    }
  }

  /** Every segment of the scanned points is vertical (same x) or horizontal (same y). */
  lemma {:induction false} StepScanShape(src: seq<Sample>, t0: real, k: nat)
    requires 1 <= k <= |src|
    ensures var st := StepScan(src, t0, k);
      forall j :: 0 <= j < |st.xs| - 1 ==> st.xs[j] == st.xs[j + 1] || st.ys[j] == st.ys[j + 1]
  {
    if k > 1 {
      StepScanShape(src, t0, k - 1);
      StepScanNext(src, t0, k - 1);
      var a, b := StepScan(src, t0, k - 1), StepScan(src, t0, k);
      if b != a {
        var n := |a.xs|;
        forall j | 0 <= j < |b.xs| - 1 ensures b.xs[j] == b.xs[j + 1] || b.ys[j] == b.ys[j + 1] {
          if j < n - 1 {
            assert b.xs[j] == a.xs[j] && b.xs[j + 1] == a.xs[j + 1];
            assert b.ys[j] == a.ys[j] && b.ys[j + 1] == a.ys[j + 1];
          } else if j == n - 1 {
            assert b.ys[j] == a.cur == b.ys[j + 1];
          } else {
            assert b.xs[j] == src[k - 1].t - t0 == b.xs[j + 1];
          }
        }
      }
    }
  }

  /**
   * The drawn series is a staircase: as many x as y values, at least one
   * point for a non-empty snapshot, every segment vertical or horizontal,
   * and its final value is the level of the last in-window sample (the
   * baseline's when no later sample is in the window).
   */
  lemma StepSeriesShape(src: seq<Sample>, t0: real, windowEnd: real)
    ensures var r := StepSeries(src, t0, windowEnd);
      |r.xs| == |r.ys| && (src == [] <==> r.xs == []) &&
      (forall j :: 0 <= j < |r.xs| - 1 ==> r.xs[j] == r.xs[j + 1] || r.ys[j] == r.ys[j + 1]) &&
      (src != [] ==> r.ys[|r.ys| - 1] == src[LastInWindow(src, t0, |src|)].v)
  {
    if src != [] {
      StepScanShape(src, t0, |src|);
      StepLevel(src, t0, |src|);
    }
  }

  /** The scan only appends points. */
  lemma {:induction false} StepScanGrows(src: seq<Sample>, t0: real, k: nat, k': nat)
    requires 1 <= k <= k' <= |src|
    ensures var a, b := StepScan(src, t0, k), StepScan(src, t0, k');
      |a.xs| <= |b.xs| && a.xs == b.xs[..|a.xs|] && a.ys == b.ys[..|a.ys|]
    decreases k' - k
  {
    if k < k' {
      StepScanGrows(src, t0, k, k' - 1);
      StepScanExtends(src, t0, k' - 1);
      var a, b, c := StepScan(src, t0, k), StepScan(src, t0, k' - 1), StepScan(src, t0, k');
      PrefixTrans(a.xs, b.xs, c.xs);
      PrefixTrans(a.ys, b.ys, c.ys);
    }
  }

  /** One more sample only appends to the scan. */
  lemma StepScanExtends(src: seq<Sample>, t0: real, k: nat)
    requires 1 <= k < |src|
    ensures var a, b := StepScan(src, t0, k), StepScan(src, t0, k + 1);
      |a.xs| <= |b.xs| && |a.ys| <= |b.ys| && a.xs == b.xs[..|a.xs|] && a.ys == b.ys[..|a.ys|]
  {
    StepScanNext(src, t0, k);
  }

  lemma PrefixTrans(a: seq<real>, b: seq<real>, c: seq<real>)
    requires |a| <= |b| <= |c| && a == b[..|a|] && b == c[..|b|]
    ensures a == c[..|a|]
  {
    assert c[..|b|][..|a|] == c[..|a|];
  }

  /**
   * No change is lost: every in-window sample whose value differs from the
   * level held before it appears in the series as a point at its own time
   * with its own value, however short the pulse it starts.
   */
  lemma ChangesVisible(src: seq<Sample>, t0: real, windowEnd: real, i: nat)
    requires 1 <= i < |src| && src[i].t >= t0
    requires src[i].v != src[LastInWindow(src, t0, i)].v
    ensures var r := StepSeries(src, t0, windowEnd);
      exists j :: 0 <= j < |r.xs| && r.xs[j] == src[i].t - t0 && r.ys[j] == src[i].v
  {
    StepLevel(src, t0, i);
    StepScanNext(src, t0, i);
    var st := StepScan(src, t0, i + 1);
    var j := |st.xs| - 1;
    assert st.xs[j] == src[i].t - t0 && st.ys[j] == src[i].v;
    StepScanGrows(src, t0, i + 1, |src|);
    var fin := StepScan(src, t0, |src|);
    assert fin.xs[j] == st.xs[j] && fin.ys[j] == st.ys[j];
    var r := StepSeries(src, t0, windowEnd);
    assert r.xs[j] == fin.xs[j] && r.ys[j] == fin.ys[j];
  }

  predicate TimeOrdered(src: seq<Sample>)
  {
    forall i :: 0 < i < |src| ==> src[i - 1].t <= src[i].t
  }

  /** On time-ordered samples the scanned x values start at or after 0 and never decrease. */
  lemma {:induction false} StepScanOrdered(src: seq<Sample>, t0: real, k: nat)
    requires 1 <= k <= |src| && TimeOrdered(src)
    ensures var st := StepScan(src, t0, k);
      st.xs[0] >= 0.0 && st.xs[|st.xs| - 1] <= Max(src[k - 1].t, t0) - t0 &&
      forall j :: 0 <= j < |st.xs| - 1 ==> st.xs[j] <= st.xs[j + 1]
  {
    if k > 1 {
      StepScanOrdered(src, t0, k - 1);
      assert src[k - 2].t <= src[k - 1].t;
    }
  }

  /** For a time-ordered snapshot the series runs left to right from the window start. */
  lemma StepSeriesOrdered(src: seq<Sample>, t0: real, windowEnd: real)
    requires TimeOrdered(src)
    ensures var r := StepSeries(src, t0, windowEnd);
      (forall j :: 0 <= j < |r.xs| ==> r.xs[j] >= 0.0) &&
      forall j :: 0 <= j < |r.xs| - 1 ==> r.xs[j] <= r.xs[j + 1]
  {
    if src != [] {
      StepScanOrdered(src, t0, |src|);
      var xs := StepSeries(src, t0, windowEnd).xs;
      forall j | 0 <= j < |xs| ensures xs[j] >= 0.0 {
        NondecreasingFromFirst(xs, j);
      }
    }
  }

  lemma {:induction false} NondecreasingFromFirst(xs: seq<real>, j: nat)
    requires j < |xs| && forall i :: 0 <= i < |xs| - 1 ==> xs[i] <= xs[i + 1]
    ensures xs[0] <= xs[j]
  {
    if j > 0 {
      NondecreasingFromFirst(xs, j - 1);
    }
  }

  lemma StepScanNext(src: seq<Sample>, t0: real, k: nat)
    requires 1 <= k < |src|
    ensures var st, s := StepScan(src, t0, k), src[k];
      StepScan(src, t0, k + 1) ==
        if s.t < t0 || s.v == st.cur then st
        else StepState(s.v, st.xs + [s.t - t0, s.t - t0], st.ys + [st.cur, s.v])
  {
  }

  /** The scan of `build_step_series`: the baseline point, then a vertical step at each in-window change. */
  method ScanSteps(src: seq<Sample>, t0: real) returns (current: real, x: seq<real>, y: seq<real>)
    requires src != []
    ensures StepScan(src, t0, |src|) == StepState(current, x, y)
  {
    current := src[0].v;
    var prevT := src[0].t;
    if prevT < t0 {
      prevT := t0;
    }
    x, y := [prevT - t0], [current];
    var i := 1;
    while i < |src|
      invariant 1 <= i <= |src|
      invariant StepScan(src, t0, i) == StepState(current, x, y)
    {
      StepScanNext(src, t0, i);
      var s := src[i];
      if s.t >= t0 && s.v != current {
        // a vertical step: the old level, then the new one, at the sample's time
        var relT := s.t - t0;
        x, y := x + [relT, relT], y + [current, s.v];
        current := s.v;
      }
      i := i + 1;
    }
  }

  /** `build_step_series`: the scanned points, extended flat to the window end when they stop short of it. */
  method BuildStepSeries(src: seq<Sample>, t0: real, windowEnd: real) returns (x: seq<real>, y: seq<real>)
    ensures Series(x, y) == StepSeries(src, t0, windowEnd)
  {
    x, y := [], [];
    if src == [] {
      return;
    }
    var current;
    current, x, y := ScanSteps(src, t0);
    if x[|x| - 1] < windowEnd {
      x, y := x + [windowEnd], y + [y[|y| - 1]];
    }
  }

  // ---------------------------------------------------------------------------
  // Anomaly markers shown in filter mode.
  // ---------------------------------------------------------------------------

  /** A scatter marker: x offset from the window start and the value drawn. */
  datatype Marker = Marker(x: real, y: real)

  /** The coordinate arrays hold exactly the markers `ms`, in order. */
  predicate Drawn(ax: seq<real>, ay: seq<real>, ms: seq<Marker>)
  {
    |ax| == |ms| && |ay| == |ms| && forall j :: 0 <= j < |ms| ==> ax[j] == ms[j].x && ay[j] == ms[j].y
  }

  /** Sample `i` jumps by at least `delta` from its predecessor and lies inside the window. */
  predicate IsSpike(tmp: seq<Sample>, i: nat, t0: real, window: real, delta: real)
    requires 1 <= i < |tmp|
  {
    Abs(tmp[i].v - tmp[i - 1].v) >= delta && 0.0 <= tmp[i].t - t0 <= window
  }

  /** The spike markers over the samples before position `k`, in sample order. */
  function Spikes(tmp: seq<Sample>, t0: real, window: real, delta: real, k: nat): seq<Marker>
    requires k <= |tmp|
  {
    if k <= 1 then []
    else
      Spikes(tmp, t0, window, delta, k - 1) +
      (if IsSpike(tmp, k - 1, t0, window, delta) then [Marker(tmp[k - 1].t - t0, tmp[k - 1].v)] else [])
  }

  /**
   * A marker is drawn exactly for each sample (after the first) that jumps
   * by at least `delta` from the previous raw sample and lies inside the
   * window, at its offset and its value; so every marker lies within the window.
   */
  lemma {:induction false} SpikesSpec(tmp: seq<Sample>, t0: real, window: real, delta: real, k: nat, mk: Marker)
    requires k <= |tmp|
    ensures mk in Spikes(tmp, t0, window, delta, k) <==>
      exists i :: 1 <= i < k && IsSpike(tmp, i, t0, window, delta) && mk == Marker(tmp[i].t - t0, tmp[i].v)
    ensures mk in Spikes(tmp, t0, window, delta, k) ==> 0.0 <= mk.x <= window
  {
    if k > 1 {
      SpikesSpec(tmp, t0, window, delta, k - 1, mk);
    }
  }

  /** The spike loop of `draw_signal` over one raw (not downsampled) snapshot. */
  method SpikeMarkers(tmp: seq<Sample>, t0: real, window: real, delta: real) returns (ax: seq<real>, ay: seq<real>)
    ensures Drawn(ax, ay, Spikes(tmp, t0, window, delta, |tmp|))
  {
    ax, ay := [], [];
    var i := 1;
    while i < |tmp|
      invariant 1 <= i <= |tmp| || (|tmp| == 0 && i == 1)
      invariant Drawn(ax, ay, Spikes(tmp, t0, window, delta, if |tmp| == 0 then 0 else i))
    {
      var dv := Abs(tmp[i].v - tmp[i - 1].v);
      if dv >= delta {
        var tx := tmp[i].t - t0;
        if tx >= 0.0 && tx <= window {
          ax, ay := ax + [tx], ay + [tmp[i].v];
        }
      }
      i := i + 1;
    }
  }

  /** The spike markers of a group: each signal's snapshot scanned in turn, markers concatenated. */
  function GroupSpikes(snaps: seq<seq<Sample>>, t0: real, window: real, delta: real): seq<Marker>
  {
    if snaps == [] then []
    else
      var tmp := snaps[|snaps| - 1];
      GroupSpikes(snaps[..|snaps| - 1], t0, window, delta) + Spikes(tmp, t0, window, delta, |tmp|)
  }

  /** The spike loop of `draw_signals_group` over the snapshots of its signals. */
  method GroupSpikeMarkers(snaps: seq<seq<Sample>>, t0: real, window: real, delta: real) returns (ax: seq<real>, ay: seq<real>)
    ensures Drawn(ax, ay, GroupSpikes(snaps, t0, window, delta))
  {
    ax, ay := [], [];
    var s := 0;
    while s < |snaps|
      invariant 0 <= s <= |snaps|
      invariant Drawn(ax, ay, GroupSpikes(snaps[..s], t0, window, delta))
    {
      assert snaps[..s + 1][..s] == snaps[..s];
      var sx, sy := SpikeMarkers(snaps[s], t0, window, delta);
      ax, ay := ax + sx, ay + sy;
      s := s + 1;
    }
    assert snaps[..s] == snaps;
  }

  /** Sample `i` raises the level from below one half to above it. */
  predicate Rising(local: seq<Sample>, i: nat)
    requires 1 <= i < |local|
  {
    local[i - 1].v < 0.5 && local[i].v > 0.5
  }

  /** Sample `i` drops the level from above one half to below it. */
  predicate Falling(local: seq<Sample>, i: nat)
    requires 1 <= i < |local|
  {
    local[i - 1].v > 0.5 && local[i].v < 0.5
  }

  predicate IsEdge(local: seq<Sample>, i: nat)
    requires 1 <= i < |local|
  {
    Rising(local, i) || Falling(local, i)
  }

  /** The last edge strictly before position `k`, or 0 when there is none. */
  function LastEdgeBefore(local: seq<Sample>, k: nat): (a: nat)
    requires 1 <= k <= |local|
    ensures a < k && (a == 0 || IsEdge(local, a))
    ensures forall c :: a < c < k ==> !IsEdge(local, c)
  {
    if k == 1 then 0
    else if IsEdge(local, k - 1) then k - 1
    else LastEdgeBefore(local, k - 1)
  }

  /**
   * A short pulse ends at sample `b`: `b` is a falling edge, the edge before
   * it is a rising one at a non-negative time, and the high interval between
   * them is positive and at most `pulseMax` long.
   */
  predicate PulseEndsAt(local: seq<Sample>, b: nat, pulseMax: real)
    requires 1 <= b < |local|
  {
    var a := LastEdgeBefore(local, b);
    Falling(local, b) && a >= 1 && Rising(local, a) && local[a].t >= 0.0 &&
    0.0 < local[b].t - local[a].t <= pulseMax
  }

  /** The marker position of the pulse ending at `b`: the middle of its high interval, from the window start. */
  function PulseMid(local: seq<Sample>, b: nat, t0: real): real
    requires 1 <= b < |local|
  {
    (local[LastEdgeBefore(local, b)].t + local[b].t) * 0.5 - t0
  }

  /** The short-pulse markers for the edges before position `k`, in order. */
  function Pulses(local: seq<Sample>, t0: real, window: real, pulseMax: real, k: nat): seq<Marker>
    requires k <= |local|
  {
    if k <= 1 then []
    else
      Pulses(local, t0, window, pulseMax, k - 1) +
      (if PulseEndsAt(local, k - 1, pulseMax) && 0.0 <= PulseMid(local, k - 1, t0) <= window
       then [Marker(PulseMid(local, k - 1, t0), 1.0)] else [])
  }

  /**
   * A marker at height 1 is drawn exactly for each short pulse whose middle
   * lies inside the window, at that middle.
   */
  lemma {:induction false} PulsesSpec(local: seq<Sample>, t0: real, window: real, pulseMax: real, k: nat, mk: Marker)
    requires k <= |local|
    ensures mk in Pulses(local, t0, window, pulseMax, k) <==>
      exists b :: 1 <= b < k && PulseEndsAt(local, b, pulseMax) && 0.0 <= PulseMid(local, b, t0) <= window &&
        mk == Marker(PulseMid(local, b, t0), 1.0)
  {
    if k > 1 {
      PulsesSpec(local, t0, window, pulseMax, k - 1, mk);
    }
  }

  /**
   * A high interval longer than `pulseMax`, or one whose rising edge is at
   * a negative time, never produces a marker.
   */
  lemma LongPulseUnmarked(local: seq<Sample>, t0: real, window: real, pulseMax: real, a: nat, b: nat)
    requires 1 <= a < b < |local| && Rising(local, a) && Falling(local, b)
    requires forall c :: a < c < b ==> !IsEdge(local, c)
    requires local[b].t - local[a].t > pulseMax || local[a].t < 0.0
    ensures !PulseEndsAt(local, b, pulseMax)
  {
    var e := LastEdgeBefore(local, b);
    assert IsEdge(local, a);
    assert e == a;
  }

  /**
   * The edge scan of one signal: the level held, and the start of an open
   * high interval (-1 when none is open), updated at each change of value.
   */
  method PulseMarkers(local: seq<Sample>, t0: real, window: real, pulseMax: real) returns (ax: seq<real>, ay: seq<real>)
    ensures Drawn(ax, ay, Pulses(local, t0, window, pulseMax, |local|))
  {
    ax, ay := [], [];
    if |local| < 2 {
      return;
    }
    var current := local[0].v;
    var highStart := -1.0;
    var i := 1;
    while i < |local|
      invariant 1 <= i <= |local| && current == local[i - 1].v
      invariant var a := LastEdgeBefore(local, i);
        (highStart >= 0.0 <==> a >= 1 && Rising(local, a) && local[a].t >= 0.0) &&
        (highStart >= 0.0 ==> highStart == local[a].t)
      invariant Drawn(ax, ay, Pulses(local, t0, window, pulseMax, i))
    {
      var next := local[i].v;
      var tEdge := local[i].t;
      if next != current {
        if current < 0.5 && next > 0.5 {
          highStart := tEdge;
        } else if current > 0.5 && next < 0.5 {
          if highStart >= 0.0 {
            var dur := tEdge - highStart;
            if dur > 0.0 && dur <= pulseMax {
              var tx := (highStart + tEdge) * 0.5 - t0;
              if tx >= 0.0 && tx <= window {
                ax, ay := ax + [tx], ay + [1.0];
              }
            }
            highStart := -1.0;
          }
        }
        current := next;
      }
      i := i + 1;
    }
  }

  /** The short-pulse markers of a group of digital signals, each snapshot scanned in turn. */
  function GroupPulses(snaps: seq<seq<Sample>>, t0: real, window: real, pulseMax: real): seq<Marker>
  {
    if snaps == [] then []
    else
      var local := snaps[|snaps| - 1];
      GroupPulses(snaps[..|snaps| - 1], t0, window, pulseMax) + Pulses(local, t0, window, pulseMax, |local|)
  }

  /** The short-pulse loop of `draw_signals_group_edges` over the snapshots with baseline of its signals. */
  method GroupPulseMarkers(snaps: seq<seq<Sample>>, t0: real, window: real, pulseMax: real) returns (ax: seq<real>, ay: seq<real>)
    ensures Drawn(ax, ay, GroupPulses(snaps, t0, window, pulseMax))
  {
    ax, ay := [], [];
    var s := 0;
    while s < |snaps|
      invariant 0 <= s <= |snaps|
      invariant Drawn(ax, ay, GroupPulses(snaps[..s], t0, window, pulseMax))
    {
      assert snaps[..s + 1][..s] == snaps[..s];
      var sx, sy := PulseMarkers(snaps[s], t0, window, pulseMax);
      ax, ay := ax + sx, ay + sy;
      s := s + 1;
    }
    assert snaps[..s] == snaps;
  }
}
