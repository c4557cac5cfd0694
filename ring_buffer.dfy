/**
 * The lock-light sample ring: a power-of-two circular buffer of (time, value)
 * samples. The writer bumps a cursor and stores at `cursor & mask`; readers copy
 * out the retained window, oldest first.
 */
module RingBuffer {
  import opened Wrappers
  import opened Arith

  /** One timestamped reading (seconds, value). */
  datatype Sample = Sample(t: real, v: real)

  // ---------------------------------------------------------------------------
  // Index arithmetic: `idx & (capacity - 1)` on a power-of-two capacity.
  // ---------------------------------------------------------------------------

  predicate IsPow2(n: nat)
    decreases n
  {
    n == 1 || (n >= 2 && n % 2 == 0 && IsPow2(n / 2))
  }

  /** Bitwise AND of two naturals, bit by bit from the least significant one. */
  function BitAnd(a: nat, b: nat): nat
    decreases a
  {
    if a == 0 || b == 0 then 0
    else 2 * BitAnd(a / 2, b / 2) + (if a % 2 == 1 && b % 2 == 1 then 1 else 0)
  }

  lemma ModOfDouble(x: nat, h: nat)
    requires h >= 1
    ensures x % (2 * h) == 2 * ((x / 2) % h) + x % 2
  {
    var q, r := x / 2, x % 2;
    var a, b := q / h, q % h;
    assert x == 2 * q + r;
    assert q == h * a + b;
    assert x == (2 * h) * a + (2 * b + r);
    ModUnique(x, 2 * h, a, 2 * b + r);
  }

  /** Masking with `n - 1` selects the slot `x mod n` when `n` is a power of two. */
  lemma {:induction false} LowMaskIsMod(x: nat, n: nat)
    requires IsPow2(n)
    ensures BitAnd(x, n - 1) == x % n
  {
    if n == 1 {
    } else if x == 0 {
    } else {
      var h := n / 2;
      assert n - 1 > 0 && (n - 1) / 2 == h - 1 && (n - 1) % 2 == 1;
      LowMaskIsMod(x / 2, h);
      ModOfDouble(x, h);
    }
  }

  /** Two cursor values less than `n` apart land in different slots. */
  lemma DistinctSlots(i: nat, j: nat, n: nat)
    requires n >= 1 && i < j && j - i < n
    ensures i % n != j % n
  {
    var q, r := i / n, i % n;
    var d := j - i;
    assert i == n * q + r;
    if r + d < n {
      ModUnique(j, n, q, r + d);
    } else {
      assert j == n * (q + 1) + (r + d - n);
      ModUnique(j, n, q + 1, r + d - n);
    }
  }

  // ---------------------------------------------------------------------------
  // The window and baseline views of a run of samples.
  // ---------------------------------------------------------------------------

  /** The samples of `s` at or after `cutoff`, in their original order. */
  function InWindow(s: seq<Sample>, cutoff: real): seq<Sample>
  {
    if s == [] then []
    else InWindow(s[..|s| - 1], cutoff) + (if s[|s| - 1].t >= cutoff then [s[|s| - 1]] else [])
  }

  /** Index of the first sample at or after `cutoff` (or |s| when there is none). */
  function FirstInWindow(s: seq<Sample>, cutoff: real): (j: nat)
    ensures j <= |s|
  {
    if s == [] then 0
    else if s[0].t >= cutoff then 0
    else 1 + FirstInWindow(s[1..], cutoff)
  }

  /** Everything before `FirstInWindow` is pre-cutoff, and the sample it names is not. */
  lemma {:induction false} FirstInWindowSpec(s: seq<Sample>, cutoff: real)
    ensures var j := FirstInWindow(s, cutoff);
            (forall i :: 0 <= i < j ==> s[i].t < cutoff) && (j < |s| ==> s[j].t >= cutoff)
  {
    if s != [] && s[0].t < cutoff {
      FirstInWindowSpec(s[1..], cutoff);
      var j := FirstInWindow(s, cutoff);
      forall i | 0 <= i < j ensures s[i].t < cutoff {
        if i > 0 { assert s[i] == s[1..][i - 1]; }
      }
    }
  }

  /**
   * The baseline view: the sample just before the first in-window sample (when
   * there is one) followed by every in-window sample from there on.
   */
  function WithBaseline(s: seq<Sample>, cutoff: real): seq<Sample>
  {
    var j := FirstInWindow(s, cutoff);
    (if j > 0 then [s[j - 1]] else []) + InWindow(s[j..], cutoff)
  }

  predicate Sorted(s: seq<Sample>)
  {
    forall i, j :: 0 <= i < j < |s| ==> s[i].t <= s[j].t
  }

  lemma FirstInWindowUnique(s: seq<Sample>, cutoff: real, j: nat)
    requires j <= |s|
    requires forall i :: 0 <= i < j ==> s[i].t < cutoff
    requires j < |s| ==> s[j].t >= cutoff
    ensures FirstInWindow(s, cutoff) == j
  {
    var f := FirstInWindow(s, cutoff);
    FirstInWindowSpec(s, cutoff);
    if f < j {
      assert false;
    } else if j < f {
      assert false;
    }
  }

  lemma FirstInWindowAppend(s: seq<Sample>, x: Sample, cutoff: real)
    ensures var j := FirstInWindow(s, cutoff);
            FirstInWindow(s + [x], cutoff) ==
              if j < |s| then j else if x.t >= cutoff then |s| else |s| + 1
  {
    var j := FirstInWindow(s, cutoff);
    FirstInWindowSpec(s, cutoff);
    var s' := s + [x];
    var k := if j < |s| then j else if x.t >= cutoff then |s| else |s| + 1;
    assert forall i :: 0 <= i < k ==> s'[i].t < cutoff by {
      forall i | 0 <= i < k ensures s'[i].t < cutoff {
        if i < |s| { assert s'[i] == s[i]; }
      }
    }
    FirstInWindowUnique(s', cutoff, k);
  }

  lemma InWindowAppend(s: seq<Sample>, x: Sample, cutoff: real)
    ensures InWindow(s + [x], cutoff) == InWindow(s, cutoff) + (if x.t >= cutoff then [x] else [])
  {
    assert (s + [x])[..|s + [x]| - 1] == s;
  }

  /** The window view is never longer than the run it filters. */
  lemma {:induction false} InWindowLength(s: seq<Sample>, cutoff: real)
    ensures |InWindow(s, cutoff)| <= |s|
  {
    if s != [] {
      InWindowLength(s[..|s| - 1], cutoff);
    }
  }

  /** Every sample of the window view lies at or after the cutoff, and nothing is invented. */
  lemma {:induction false} InWindowMembers(s: seq<Sample>, cutoff: real)
    ensures forall x :: x in InWindow(s, cutoff) <==> x in s && x.t >= cutoff
  {
    if s != [] {
      var p := s[..|s| - 1];
      InWindowMembers(p, cutoff);
      assert s == p + [s[|s| - 1]];
    }
  }

  lemma {:induction false} InWindowAllIn(s: seq<Sample>, cutoff: real)
    requires forall i :: 0 <= i < |s| ==> s[i].t >= cutoff
    ensures InWindow(s, cutoff) == s
  {
    if s != [] {
      var p := s[..|s| - 1];
      InWindowAllIn(p, cutoff);
      assert s == p + [s[|s| - 1]];
    }
  }

  lemma {:induction false} InWindowNoneIn(s: seq<Sample>, cutoff: real)
    requires forall i :: 0 <= i < |s| ==> s[i].t < cutoff
    ensures InWindow(s, cutoff) == []
  {
    if s != [] {
      InWindowNoneIn(s[..|s| - 1], cutoff);
    }
  }

  lemma {:induction false} InWindowSplit(a: seq<Sample>, b: seq<Sample>, cutoff: real)
    ensures InWindow(a + b, cutoff) == InWindow(a, cutoff) + InWindow(b, cutoff)
  {
    if b == [] {
      assert a + b == a;
    } else {
      var b' := b[..|b| - 1];
      var x := b[|b| - 1];
      InWindowSplit(a, b', cutoff);
      assert a + b == (a + b') + [x];
      assert b == b' + [x];
      InWindowAppend(a + b', x, cutoff);
      InWindowAppend(b', x, cutoff);
    }
  }

  /** Samples before the first in-window one never reach the window view. */
  lemma InWindowFromFirst(s: seq<Sample>, cutoff: real)
    ensures InWindow(s, cutoff) == InWindow(s[FirstInWindow(s, cutoff)..], cutoff)
  {
    var j := FirstInWindow(s, cutoff);
    FirstInWindowSpec(s, cutoff);
    var pre, post := s[..j], s[j..];
    assert s == pre + post;
    InWindowSplit(pre, post, cutoff);
    assert forall i :: 0 <= i < |pre| ==> pre[i].t < cutoff;
    InWindowNoneIn(pre, cutoff);
  }

  /**
   * For monotonic timestamps the window view is exactly the suffix that starts at
   * the first in-window sample: every sample with `t >= cutoff`, in push order.
   */
  lemma InWindowOfSorted(s: seq<Sample>, cutoff: real)
    requires Sorted(s)
    ensures var j := FirstInWindow(s, cutoff);
            InWindow(s, cutoff) == s[j..] &&
            (forall i :: j <= i < |s| ==> s[i].t >= cutoff)
  {
    var j := FirstInWindow(s, cutoff);
    FirstInWindowSpec(s, cutoff);
    InWindowFromFirst(s, cutoff);
    forall i | j <= i < |s| ensures s[i].t >= cutoff {
      assert s[j].t <= s[i].t;
    }
    var post := s[j..];
    forall i | 0 <= i < |post| ensures post[i].t >= cutoff {
      assert post[i] == s[j + i];
    }
    InWindowAllIn(post, cutoff);
  }

  /**
   * For monotonic timestamps the baseline view is the most recent pre-cutoff
   * sample (if any) followed by all in-window samples in order; when no sample
   * is in the window it is that baseline alone.
   */
  lemma BaselineOfSorted(s: seq<Sample>, cutoff: real)
    requires Sorted(s)
    ensures var j := FirstInWindow(s, cutoff);
            WithBaseline(s, cutoff) == (if j > 0 then [s[j - 1]] else []) + s[j..] &&
            (j > 0 ==> s[j - 1].t < cutoff && forall i :: j <= i < |s| ==> s[i].t >= cutoff)
  {
    var j := FirstInWindow(s, cutoff);
    FirstInWindowSpec(s, cutoff);
    InWindowOfSorted(s, cutoff);
    var post := s[j..];
    forall i | 0 <= i < |post| ensures post[i].t >= cutoff {
      assert post[i] == s[j + i];
    }
    InWindowAllIn(post, cutoff);
  }

  lemma BaselineWhenWindowEmpty(s: seq<Sample>, cutoff: real)
    requires s != []
    requires forall i :: 0 <= i < |s| ==> s[i].t < cutoff
    ensures WithBaseline(s, cutoff) == [s[|s| - 1]]
  {
    FirstInWindowUnique(s, cutoff, |s|);
  }

  /**
   * What the baseline scan has built after reading the prefix `p`: nothing yet,
   * with the latest pre-cutoff sample in hand, until the first in-window sample;
   * from then on, the baseline view of `p`.
   */
  ghost predicate BaselineScan(p: seq<Sample>, cutoff: real, out: seq<Sample>, baseline: Option<Sample>)
  {
    var j := FirstInWindow(p, cutoff);
    if j == |p| then out == [] && baseline == (if |p| > 0 then Some(p[|p| - 1]) else None)
    else out == WithBaseline(p, cutoff) && out != []
  }

  lemma BaselineScanBefore(p: seq<Sample>, s: Sample, cutoff: real, out: seq<Sample>, baseline: Option<Sample>)
    requires BaselineScan(p, cutoff, out, baseline) && s.t < cutoff
    ensures BaselineScan(p + [s], cutoff, out, Some(s))
  {
    FirstInWindowAppend(p, s, cutoff);
    var j := FirstInWindow(p, cutoff);
    if j < |p| {
      assert (p + [s])[j..] == p[j..] + [s];
      InWindowAppend(p[j..], s, cutoff);
    }
  }

  lemma BaselineScanInside(p: seq<Sample>, s: Sample, cutoff: real, out: seq<Sample>, baseline: Option<Sample>)
    requires BaselineScan(p, cutoff, out, baseline) && s.t >= cutoff
    ensures var out' := (if baseline.Some? && out == [] then [baseline.value] else out) + [s];
            BaselineScan(p + [s], cutoff, out', if baseline.Some? && out == [] then None else baseline)
  {
    FirstInWindowAppend(p, s, cutoff);
    var j := FirstInWindow(p, cutoff);
    if j < |p| {
      assert (p + [s])[j..] == p[j..] + [s];
      InWindowAppend(p[j..], s, cutoff);
    } else {
      assert (p + [s])[|p|..] == [s];
      InWindowAppend([], s, cutoff);
      assert [] + [s] == [s];
    }
  }

  lemma BaselineScanDone(p: seq<Sample>, cutoff: real, out: seq<Sample>, baseline: Option<Sample>)
    requires BaselineScan(p, cutoff, out, baseline)
    ensures out == [] && baseline.Some? ==> [baseline.value] == WithBaseline(p, cutoff)
    ensures out != [] || baseline.None? ==> out == WithBaseline(p, cutoff)
  {
    var j := FirstInWindow(p, cutoff);
    if j == |p| {
      assert p[j..] == [];
    }
  }

  // ---------------------------------------------------------------------------
  // The ring itself.
  // ---------------------------------------------------------------------------

  class SampleRing {
    /** Every sample pushed since construction or the last `Clear`, oldest first. */
    ghost var Pushed: seq<Sample>

    var capacity: nat
    var mask: nat
    var data: array<Sample>
    var writeIndex: nat

    ghost predicate Valid()
      reads this, data
    {
      IsPow2(capacity) && mask == capacity - 1 && data.Length == capacity &&
      writeIndex == |Pushed| &&
      forall i {:trigger Stored(i)} :: Lo(writeIndex, capacity) <= i < writeIndex ==> Stored(i) == Pushed[i]
    }

    /** The slot that cursor value `i` maps to. */
    ghost function Stored(i: nat): Sample
      reads this, data
      requires 0 < capacity == data.Length
    {
      data[i % capacity]
    }

    /** First cursor value still held by the ring. */
    static function Lo(end: nat, cap: nat): nat
    {
      if end > cap then end - cap else 0
    }

    /** The samples the ring still holds: the last min(pushes, capacity) pushes. */
    ghost function Retained(): seq<Sample>
      reads this, data
      requires Valid()
    {
      Pushed[Lo(writeIndex, capacity)..]
    }

    constructor (capacityPow2: nat)
      requires IsPow2(capacityPow2)
      ensures Valid() && fresh(data)
      ensures capacity == capacityPow2 && Pushed == []
    {
      capacity := capacityPow2;
      mask := capacityPow2 - 1;
      data := new Sample[capacityPow2];
      writeIndex := 0;
      Pushed := [];
    }

    /** Store the sample at slot `writeIndex & mask`, then advance the cursor by one. */
    method Push(t: real, v: real)
      requires Valid()
      modifies this, data
      ensures Valid() && data == old(data) && capacity == old(capacity)
      ensures Pushed == old(Pushed) + [Sample(t, v)]
      ensures writeIndex == old(writeIndex) + 1
      ensures data[old(writeIndex) % capacity] == Sample(t, v)
      ensures forall k :: 0 <= k < data.Length && k != old(writeIndex) % capacity ==> data[k] == old(data[k])
    {
      var idx := writeIndex;
      LowMaskIsMod(idx, capacity);
      data[BitAnd(idx, mask)] := Sample(t, v);
      writeIndex := idx + 1;
      Pushed := Pushed + [Sample(t, v)];
      forall i | Lo(writeIndex, capacity) <= i < writeIndex
        ensures Stored(i) == Pushed[i]
      {
        if i < idx {
          DistinctSlots(i, idx, capacity);
          assert old(Stored(i)) == old(Pushed[i]);
        }
      }
    }

    /** The sample pushed at cursor value `i`, read from slot `i & mask`. */
    method At(i: nat) returns (s: Sample)
      requires Valid() && Lo(writeIndex, capacity) <= i < writeIndex
      ensures s == Pushed[i]
    {
      LowMaskIsMod(i, capacity);
      s := data[BitAnd(i, mask)];
      assert s == Stored(i);
    }

    /** Copy out the retained samples with `t >= latestTime - windowSeconds`, oldest first. */
    method Snapshot(latestTime: real, windowSeconds: real) returns (out: seq<Sample>)
      requires Valid()
      ensures out == InWindow(Retained(), latestTime - windowSeconds)
      ensures |out| <= capacity
      ensures writeIndex == 0 ==> out == []
    {
      out := [];
      var end := writeIndex;
      if end == 0 {
        return;
      }
      var start := if end > capacity then end - capacity else 0;
      var cutoff := latestTime - windowSeconds;
      ghost var r := Retained();
      var i := start;
      while i < end
        invariant start <= i <= end
        invariant out == InWindow(r[..i - start], cutoff)
      {
        var s := At(i);
        assert s == r[i - start];
        assert r[..i + 1 - start] == r[..i - start] + [s];
        InWindowAppend(r[..i - start], s, cutoff);
        if s.t >= cutoff {
          out := out + [s];
        }
        i := i + 1;
      }
      assert r[..end - start] == r;
      InWindowLength(r, cutoff);
    }

    /**
     * One sample of the baseline scan: a pre-cutoff sample replaces the held
     * baseline; an in-window sample is appended, preceded by the baseline when
     * it is the first one.
     */
    static method ScanStep(ghost p: seq<Sample>, s: Sample, cutoff: real, out: seq<Sample>, baseline: Option<Sample>)
      returns (out': seq<Sample>, baseline': Option<Sample>)
      requires BaselineScan(p, cutoff, out, baseline)
      ensures BaselineScan(p + [s], cutoff, out', baseline')
    {
      out', baseline' := out, baseline;
      if s.t < cutoff {
        BaselineScanBefore(p, s, cutoff, out, baseline);
        baseline' := Some(s);
      } else {
        BaselineScanInside(p, s, cutoff, out, baseline);
        if baseline.Some? && out == [] {
          out' := out' + [baseline.value];
          baseline' := None;
        }
        out' := out' + [s];
      }
    }

    /**
     * Like `Snapshot`, but also keeps the most recent sample before the cutoff
     * as a baseline, placed first; with nothing in the window, the baseline alone.
     */
    method SnapshotWithBaseline(latestTime: real, windowSeconds: real) returns (out: seq<Sample>)
      requires Valid()
      ensures out == WithBaseline(Retained(), latestTime - windowSeconds)
      ensures writeIndex == 0 ==> out == []
    {
      out := [];
      if writeIndex == 0 {
        assert Retained() == [];
        assert WithBaseline([], latestTime - windowSeconds) == [];
        return;
      }
      var cutoff := latestTime - windowSeconds;
      var baseline: Option<Sample>;
      out, baseline := Scan(cutoff);
      BaselineScanDone(Retained(), cutoff, out, baseline);
      if out == [] && baseline.Some? {
        out := [baseline.value];
      }
    }

    /** The scan loop of `SnapshotWithBaseline` over the retained samples, oldest first. */
    method Scan(cutoff: real) returns (out: seq<Sample>, baseline: Option<Sample>)
      requires Valid()
      ensures BaselineScan(Retained(), cutoff, out, baseline)
    {
      out, baseline := [], None;
      var end := writeIndex;
      var start := if end > capacity then end - capacity else 0;
      ghost var r := Retained();
      assert r[..0] == [];
      var i := start;
      while i < end
        invariant start <= i <= end
        invariant BaselineScan(r[..i - start], cutoff, out, baseline)
      {
        var s := At(i);
        assert s == r[i - start];
        assert r[..i + 1 - start] == r[..i - start] + [s];
        out, baseline := ScanStep(r[..i - start], s, cutoff, out, baseline);
        i := i + 1;
      }
      assert r[..end - start] == r;
    }

    /** Number of pushes since construction or the last clear. */
    method Size() returns (n: nat)
      requires Valid()
      ensures n == |Pushed|
    {
      n := writeIndex;
    }

    /** Reset the cursor: the ring is logically empty until the next push. */
    method Clear()
      requires Valid()
      modifies this
      ensures Valid() && Pushed == [] && writeIndex == 0
      ensures data == old(data) && capacity == old(capacity)
    {
      writeIndex := 0;
      Pushed := [];
    }
  }
}
