/**
 * One sample ring per logical signal, as held by the poller (raw history) and
 * by the forwarder (filtered history).
 */
module SignalRings {
  import opened RingBuffer
  import opened Signals

  /** Capacity of every ring: 2^19 samples. */
  const RingCapacity: nat := 0x8_0000

  lemma RingCapacityIsPow2()
    ensures IsPow2(RingCapacity)
  {
    assert IsPow2(2);
    assert IsPow2(4);
    assert IsPow2(8);
    assert IsPow2(16);
    assert IsPow2(32);
    assert IsPow2(64);
    assert IsPow2(128);
    assert IsPow2(256);
    assert IsPow2(512);
    assert IsPow2(1024);
    assert IsPow2(2048);
    assert IsPow2(4096);
    assert IsPow2(8192);
    assert IsPow2(16384);
    assert IsPow2(32768);
    assert IsPow2(65536);
    assert IsPow2(131072);
    assert IsPow2(262144);
    assert IsPow2(524288);
  }

  class RingBank {
    /** `rings[Index(s)]` records signal `s`. */
    const rings: seq<SampleRing>
    ghost var Repr: set<object>

    ghost predicate Valid()
      reads this, Repr
    {
      |rings| == SignalCount &&
      (forall i :: 0 <= i < |rings| ==> rings[i] in Repr && rings[i].data in Repr) &&
      (forall i :: 0 <= i < |rings| ==> rings[i].Valid() && rings[i].capacity == RingCapacity) &&
      (forall i, j :: 0 <= i < j < |rings| ==> rings[i] != rings[j] && rings[i].data != rings[j].data)
    }

    /** Everything pushed into the ring of `s` since it was created or cleared. */
    ghost function History(s: Signal): seq<Sample>
      reads this, Repr
      requires Valid()
    {
      rings[Index(s)].Pushed
    }

    /** What the ring of `s` still holds. */
    ghost function Retained(s: Signal): seq<Sample>
      reads this, Repr
      requires Valid()
    {
      rings[Index(s)].Retained()
    }

    /** Twenty empty rings of 2^19 samples each. */
    constructor ()
      ensures Valid() && fresh(Repr)
      ensures forall s :: History(s) == []
    {
      RingCapacityIsPow2();
      var rs: seq<SampleRing> := [];
      ghost var repr: set<object> := {};
      while |rs| < SignalCount
        invariant |rs| <= SignalCount
        invariant forall i :: 0 <= i < |rs| ==> rs[i] in repr && rs[i].data in repr
        invariant forall i :: 0 <= i < |rs| ==> rs[i].Valid() && rs[i].capacity == RingCapacity && rs[i].Pushed == []
        invariant forall i, j :: 0 <= i < j < |rs| ==> rs[i] != rs[j] && rs[i].data != rs[j].data
        invariant fresh(repr)
      {
        var r := new SampleRing(RingCapacity);
        rs := rs + [r];
        repr := repr + {r, r.data};
      }
      rings := rs;
      Repr := repr;
    }

    /** Push one state: every ring receives `(t, value of its signal in cs)`. */
    method PushState(t: real, cs: ControllerState)
      requires Valid()
      modifies Repr
      ensures Valid() && Repr == old(Repr)
      ensures forall s :: History(s) == old(History(s)) + [Sample(t, SignalValue(cs, s))]
    {
      var i := 0;
      while i < |rings|
        invariant 0 <= i <= |rings|
        invariant Valid() && Repr == old(Repr)
        invariant forall k :: 0 <= k < i ==>
          rings[k].Pushed == old(rings[k].Pushed) + [Sample(t, SignalValue(cs, AllSignals()[k]))]
        invariant forall k :: i <= k < |rings| ==> rings[k].Pushed == old(rings[k].Pushed)
      {
        PushOne(i, t, SignalValue(cs, AllSignals()[i]));
        i := i + 1;
      }
    }

    /** Push `(t, v)` into ring `i` alone. */
    method PushOne(i: nat, t: real, v: real)
      requires Valid() && i < |rings|
      modifies rings[i], rings[i].data
      ensures Valid() && Repr == old(Repr)
      ensures rings[i].Pushed == old(rings[i].Pushed) + [Sample(t, v)]
      ensures forall k :: 0 <= k < |rings| && k != i ==> rings[k].Pushed == old(rings[k].Pushed)
    {
      rings[i].Push(t, v);
      forall k | 0 <= k < |rings| ensures rings[k].Valid() {
        if k != i {
          assert rings[k] != rings[i] && rings[k].data != rings[i].data by {
            if k < i { assert rings[k] != rings[i] && rings[k].data != rings[i].data; }
          }
        }
      }
    }

    /** Reset every ring's cursor. */
    method Clear()
      requires Valid()
      modifies Repr
      ensures Valid() && Repr == old(Repr)
      ensures forall s :: History(s) == []
    {
      var i := 0;
      while i < |rings|
        invariant 0 <= i <= |rings|
        invariant Valid() && Repr == old(Repr)
        invariant forall k :: 0 <= k < i ==> rings[k].Pushed == []
      {
        rings[i].Clear();
        i := i + 1;
      }
    }

    /** The window of `s` ending at `latestTime`. */
    method Snapshot(s: Signal, latestTime: real, windowSeconds: real) returns (out: seq<Sample>)
      requires Valid()
      ensures out == InWindow(Retained(s), latestTime - windowSeconds)
      ensures |out| <= RingCapacity
      ensures History(s) == [] ==> out == []
    {
      out := rings[Index(s)].Snapshot(latestTime, windowSeconds);
    }

    /** The window of `s` with its baseline sample. */
    method SnapshotWithBaseline(s: Signal, latestTime: real, windowSeconds: real) returns (out: seq<Sample>)
      requires Valid()
      ensures out == WithBaseline(Retained(s), latestTime - windowSeconds)
      ensures History(s) == [] ==> out == []
    {
      out := rings[Index(s)].SnapshotWithBaseline(latestTime, windowSeconds);
    }
  }
}
