/**
 * The HOTAS mapper: a list of mapping entries with unique ids, a queue of
 * named samples handed in by any producer, and the publisher step that drains
 * the queue into a latest-value-per-id table and composes an X360 report from
 * the entries whose action starts with "x360:". There is no arbitration: for
 * an axis or trigger the later entry in list order overwrites the earlier one,
 * and a button entry sets its bit whatever its signal's value.
 */
module HotasMapper {
  import opened Wrappers
  import opened Signals
  import opened Bits
  import opened Report

  /** A mapping entry: unique id, logical signal id, action descriptor ("x360:left_x", …) and a free parameter. */
  datatype MappingEntry = MappingEntry(id: string, signalId: string, action: string, param: real)

  /** A queued sample: signal id, value and producer timestamp. */
  datatype PendingSample = PendingSample(id: string, value: real, ts: real)

  // ---------------------------------------------------------------------------
  // The mapping list.
  // ---------------------------------------------------------------------------

  predicate HasId(ms: seq<MappingEntry>, id: string)
  {
    exists j :: 0 <= j < |ms| && ms[j].id == id
  }

  predicate UniqueIds(ms: seq<MappingEntry>)
  {
    forall i, j :: 0 <= i < j < |ms| ==> ms[i].id != ms[j].id
  }

  /** The list with its first entry carrying `id` erased (unchanged when there is none). */
  function RemoveFirst(ms: seq<MappingEntry>, id: string): seq<MappingEntry>
  {
    if ms == [] then []
    else if ms[0].id == id then ms[1..]
    else [ms[0]] + RemoveFirst(ms[1..], id)
  }

  /**
   * Erasing removes exactly the first entry with the id, at position `k`, and
   * keeps the order of the others.
   */
  lemma {:induction false} RemoveFirstAt(ms: seq<MappingEntry>, id: string, k: nat)
    requires k < |ms| && ms[k].id == id && forall j :: 0 <= j < k ==> ms[j].id != id
    ensures RemoveFirst(ms, id) == ms[..k] + ms[k + 1..]
  {
    if k > 0 {
      RemoveFirstAt(ms[1..], id, k - 1);
      assert ms[1..][..k - 1] == ms[1..k];
      assert ms[1..][k..] == ms[k + 1..];
      assert [ms[0]] + ms[1..k] == ms[..k];
    }
  }

  /** Without an entry carrying the id, erasing changes nothing. */
  lemma {:induction false} RemoveFirstAbsent(ms: seq<MappingEntry>, id: string)
    requires !HasId(ms, id)
    ensures RemoveFirst(ms, id) == ms
  {
    if ms != [] {
      assert ms[0].id != id;
      assert !HasId(ms[1..], id) by {
        forall j | 0 <= j < |ms[1..]| ensures ms[1..][j].id != id {
          assert ms[1..][j] == ms[j + 1];
        }
      }
      RemoveFirstAbsent(ms[1..], id);
    }
  }

  /** Position by position: entries before the first `id` stay, the ones after it move down by one. */
  lemma RemoveFirstIndex(ms: seq<MappingEntry>, id: string, k: nat)
    requires k < |ms| && ms[k].id == id && forall j :: 0 <= j < k ==> ms[j].id != id
    ensures |RemoveFirst(ms, id)| == |ms| - 1
    ensures forall j :: 0 <= j < k ==> RemoveFirst(ms, id)[j] == ms[j]
    ensures forall j :: k <= j < |ms| - 1 ==> RemoveFirst(ms, id)[j] == ms[j + 1]
  {
    RemoveFirstAt(ms, id, k);
  }

  /** The first position holding `id`. */
  lemma FirstWithId(ms: seq<MappingEntry>, id: string) returns (k: nat)
    requires HasId(ms, id)
    ensures k < |ms| && ms[k].id == id && forall j :: 0 <= j < k ==> ms[j].id != id
  {
    k := 0;
    while ms[k].id != id
      invariant k < |ms| && forall j :: 0 <= j < k ==> ms[j].id != id
      decreases |ms| - k
    {
      var w :| 0 <= w < |ms| && ms[w].id == id;
      assert w > k;
      k := k + 1;
    }
  }

  /**
   * On a list with unique ids, erasing an id leaves no entry with that id,
   * keeps the ids unique and drops exactly one entry when the id was there.
   */
  lemma RemoveFirstUnique(ms: seq<MappingEntry>, id: string)
    requires UniqueIds(ms)
    ensures UniqueIds(RemoveFirst(ms, id))
    ensures !HasId(RemoveFirst(ms, id), id)
    ensures |RemoveFirst(ms, id)| == if HasId(ms, id) then |ms| - 1 else |ms|
  {
    if HasId(ms, id) {
      var k := FirstWithId(ms, id);
      RemoveFirstIndex(ms, id, k);
      var r := RemoveFirst(ms, id);
      forall a, b | 0 <= a < b < |r| ensures r[a].id != r[b].id {
        var a', b' := if a < k then a else a + 1, if b < k then b else b + 1;
        assert r[a] == ms[a'] && r[b] == ms[b'] && a' < b';
      }
      forall j | 0 <= j < |r| ensures r[j].id != id {
        var j' := if j < k then j else j + 1;
        assert r[j] == ms[j'] && j' != k;
        if j' < k {
          assert ms[j'].id != ms[k].id;
        } else {
          assert ms[k].id != ms[j'].id;
        }
      }
    } else {
      RemoveFirstAbsent(ms, id);
    }
  }

  /** Any other entry keeps its place in the order: what stood before `e` still does. */
  lemma RemoveFirstKeepsOthers(ms: seq<MappingEntry>, id: string, e: MappingEntry)
    requires UniqueIds(ms) && e.id != id
    ensures e in RemoveFirst(ms, id) <==> e in ms
  {
    if HasId(ms, id) {
      var k := FirstWithId(ms, id);
      RemoveFirstIndex(ms, id, k);
      var r := RemoveFirst(ms, id);
      if e in ms {
        var j :| 0 <= j < |ms| && ms[j] == e;
        assert j != k;
        assert r[if j < k then j else j - 1] == e;
      }
      if e in r {
        var j :| 0 <= j < |r| && r[j] == e;
        assert ms[if j < k then j else j + 1] == e;
      }
    } else {
      RemoveFirstAbsent(ms, id);
    }
  }

  // ---------------------------------------------------------------------------
  // The latest value per signal id.
  // ---------------------------------------------------------------------------

  /** The table after the queued samples are applied in order: each sets its id's value. */
  function Drained(cur: map<string, real>, ps: seq<PendingSample>): map<string, real>
  {
    if ps == [] then cur
    else Drained(cur, ps[..|ps| - 1])[ps[|ps| - 1].id := ps[|ps| - 1].value]
  }

  /**
   * After a drain an id has a value exactly when it had one or was queued; a
   * queued id holds the value of its last queued sample, any other keeps its
   * old value.
   */
  lemma {:induction false} DrainedSpec(cur: map<string, real>, ps: seq<PendingSample>, id: string)
    ensures id in Drained(cur, ps) <==> id in cur || exists j :: 0 <= j < |ps| && ps[j].id == id
    ensures (forall j :: 0 <= j < |ps| ==> ps[j].id != id) && id in cur ==> Drained(cur, ps)[id] == cur[id]
    ensures forall j :: 0 <= j < |ps| && ps[j].id == id && (forall k :: j < k < |ps| ==> ps[k].id != id) ==>
      id in Drained(cur, ps) && Drained(cur, ps)[id] == ps[j].value
  {
    if ps != [] {
      var front, last := ps[..|ps| - 1], ps[|ps| - 1];
      DrainedSpec(cur, front, id);
      assert forall j :: 0 <= j < |front| ==> front[j] == ps[j];
      assert Drained(cur, ps) == Drained(cur, front)[last.id := last.value];
      if last.id != id {
        assert (exists j :: 0 <= j < |ps| && ps[j].id == id) <==> exists j :: 0 <= j < |front| && front[j].id == id;
      }
    }
  }

  // ---------------------------------------------------------------------------
  // Report composition.
  // ---------------------------------------------------------------------------

  /** What an action drives on the X360 report. */
  datatype Target = ThumbLX | ThumbLY | ThumbRX | ThumbRY | LeftTrig | RightTrig | Button(bit: nat) | NoTarget

  predicate HasX360Prefix(action: string)
  {
    |action| >= 5 && action[..5] == "x360:"
  }

  /** The button bit an action name sets. */
  function ButtonOf(act: string): (b: Option<nat>)
    ensures b.Some? ==> b.value < 16
  {
    if act == "button_a" then Some(12)
    else if act == "button_b" then Some(13)
    else if act == "button_x" then Some(14)
    else if act == "button_y" then Some(15)
    else if act == "left_shoulder" then Some(8)
    else if act == "right_shoulder" then Some(9)
    else if act == "back" then Some(5)
    else if act == "start" then Some(4)
    else if act == "left_thumb" then Some(6)
    else if act == "right_thumb" then Some(7)
    else if act == "dpad_up" then Some(0)
    else if act == "dpad_down" then Some(1)
    else if act == "dpad_left" then Some(2)
    else if act == "dpad_right" then Some(3)
    else None
  }

  /** The target of an action descriptor; anything without the "x360:" prefix or with an unknown name drives nothing. */
  function TargetOf(action: string): (t: Target)
    ensures t.Button? ==> t.bit < 16
    ensures !HasX360Prefix(action) ==> t == NoTarget
  {
    if !HasX360Prefix(action) then NoTarget
    else
      var act := action[5..];
      if act == "left_x" then ThumbLX
      else if act == "left_y" then ThumbLY
      else if act == "right_x" then ThumbRX
      else if act == "right_y" then ThumbRY
      else if act == "left_trigger" then LeftTrig
      else if act == "right_trigger" then RightTrig
      else match ButtonOf(act)
        case Some(b) => Button(b)
        case None => NoTarget
  }

  /** The current value of a signal id, 0 when none has arrived. */
  function ValueOf(cur: map<string, real>, id: string): real
  {
    if id in cur then cur[id] else 0.0
  }

  /** The zero-initialised report. */
  const EmptyReport: Gamepad := Gamepad(0, 0, 0, 0, 0, 0, 0)

  /** One entry's effect on the report under construction. */
  function ApplyEntry(rep: Gamepad, m: MappingEntry, cur: map<string, real>): Gamepad
  {
    var v := ValueOf(cur, m.signalId);
    match TargetOf(m.action)
    case ThumbLX => rep.(sThumbLX := ToShort(v))
    case ThumbLY => rep.(sThumbLY := ToShort(-v))
    case ThumbRX => rep.(sThumbRX := ToShort(v))
    case ThumbRY => rep.(sThumbRY := ToShort(-v))
    case LeftTrig => rep.(bLeftTrigger := ToTrig(v))
    case RightTrig => rep.(bRightTrigger := ToTrig(v))
    case Button(b) => rep.(wButtons := rep.wButtons | Bit(b))
    case NoTarget => rep
  }

  /** The report composed from the entries in list order. */
  function Composed(ms: seq<MappingEntry>, cur: map<string, real>): Gamepad
  {
    if ms == [] then EmptyReport
    else ApplyEntry(Composed(ms[..|ms| - 1], cur), ms[|ms| - 1], cur)
  }

  /** The position of the last entry with target `t`, if any. */
  function LastFor(ms: seq<MappingEntry>, t: Target): (r: Option<nat>)
    ensures r.Some? ==> r.value < |ms| && TargetOf(ms[r.value].action) == t
    ensures r.Some? ==> forall j :: r.value < j < |ms| ==> TargetOf(ms[j].action) != t
    ensures r.None? ==> forall j :: 0 <= j < |ms| ==> TargetOf(ms[j].action) != t
  {
    if ms == [] then None
    else if TargetOf(ms[|ms| - 1].action) == t then Some(|ms| - 1)
    else LastFor(ms[..|ms| - 1], t)
  }

  /** The value the last entry for `t` reads, or none when no entry targets `t`. */
  function LastValue(ms: seq<MappingEntry>, t: Target, cur: map<string, real>): Option<real>
  {
    match LastFor(ms, t)
    case None => None
    case Some(i) => Some(ValueOf(cur, ms[i].signalId))
  }

  /** The six value channels of the report. */
  predicate IsChannel(t: Target)
  {
    t == ThumbLX || t == ThumbLY || t == ThumbRX || t == ThumbRY || t == LeftTrig || t == RightTrig
  }

  /** The report field a channel fills. */
  function Channel(rep: Gamepad, t: Target): int
    requires IsChannel(t)
  {
    match t
    case ThumbLX => rep.sThumbLX
    case ThumbLY => rep.sThumbLY
    case ThumbRX => rep.sThumbRX
    case ThumbRY => rep.sThumbRY
    case LeftTrig => rep.bLeftTrigger
    case RightTrig => rep.bRightTrigger
  }

  /** The integer a channel receives for a value: Y axes are negated before the conversion. */
  function Converted(t: Target, v: real): int
    requires IsChannel(t)
  {
    match t
    case ThumbLX => ToShort(v)
    case ThumbLY => ToShort(-v)
    case ThumbRX => ToShort(v)
    case ThumbRY => ToShort(-v)
    case LeftTrig => ToTrig(v)
    case RightTrig => ToTrig(v)
  }

  /**
   * Every axis and trigger carries the converted value of the LAST entry
   * targeting it, or 0 when no entry targets it.
   */
  lemma {:induction false} ComposedChannel(ms: seq<MappingEntry>, cur: map<string, real>, t: Target)
    requires IsChannel(t)
    ensures Channel(Composed(ms, cur), t) == match LastValue(ms, t, cur) case None => 0 case Some(v) => Converted(t, v)
  {
    if ms != [] {
      var front := ms[..|ms| - 1];
      var m := ms[|ms| - 1];
      ComposedChannel(front, cur, t);
      ApplyEntryChannel(Composed(front, cur), m, cur, t);
      if TargetOf(m.action) != t {
        assert LastFor(ms, t) == LastFor(front, t);
        assert forall j :: 0 <= j < |front| ==> front[j] == ms[j];
      }
    }
  }

  /** One entry sets the channel it targets and leaves every other channel alone. */
  lemma ApplyEntryChannel(rep: Gamepad, m: MappingEntry, cur: map<string, real>, t: Target)
    requires IsChannel(t)
    ensures Channel(ApplyEntry(rep, m, cur), t) ==
      if TargetOf(m.action) == t then Converted(t, ValueOf(cur, m.signalId)) else Channel(rep, t)
  {
  }

  /** The button word of a list of entries: the bit of every button target ORed in, in list order. */
  function ButtonWord(ms: seq<MappingEntry>): bv16
  {
    if ms == [] then 0
    else
      WithButton(ButtonWord(ms[..|ms| - 1]), TargetOf(ms[|ms| - 1].action))
  }

  /** A button word with the bit of target `t` ORed in, if `t` is a button. */
  function WithButton(w: bv16, t: Target): bv16
    requires t.Button? ==> t.bit < 16
  {
    if t.Button? then w | Bit(t.bit) else w
  }

  /** The composed report's buttons are the entries' button word, whatever the signals' values. */
  lemma {:induction false} ComposedButtonWord(ms: seq<MappingEntry>, cur: map<string, real>)
    ensures Composed(ms, cur).wButtons == ButtonWord(ms)
  {
    if ms != [] {
      ComposedButtonWord(ms[..|ms| - 1], cur);
      ApplyEntryButtons(Composed(ms[..|ms| - 1], cur), ms[|ms| - 1], cur);
    }
  }

  /** Bit `j` of the button word is set exactly when some entry targets button `j`. */
  lemma {:induction false} ButtonWordBits(ms: seq<MappingEntry>, j: nat)
    requires j < 16
    ensures BitSet(ButtonWord(ms), j) <==> Targets(ms, Button(j))
  {
    if ms == [] {
      NoBitInZero(j);
    } else {
      ButtonWordBits(ms[..|ms| - 1], j);
      ButtonWordStep(ms, j);
      TargetsSplit(ms, Button(j));
    }
  }

  /** The last entry adds bit `j` exactly when it targets button `j`. */
  lemma ButtonWordStep(ms: seq<MappingEntry>, j: nat)
    requires ms != [] && j < 16
    ensures BitSet(ButtonWord(ms), j) <==>
      BitSet(ButtonWord(ms[..|ms| - 1]), j) || TargetOf(ms[|ms| - 1].action) == Button(j)
  {
    var w, t := ButtonWord(ms[..|ms| - 1]), TargetOf(ms[|ms| - 1].action);
    assert ButtonWord(ms) == WithButton(w, t);
    ButtonStep(w, t, j);
  }

  /** The target of every entry, in list order. */
  function TargetList(ms: seq<MappingEntry>): (ts: seq<Target>)
    ensures |ts| == |ms| && forall i :: 0 <= i < |ms| ==> ts[i] == TargetOf(ms[i].action)
  {
    seq(|ms|, i requires 0 <= i < |ms| => TargetOf(ms[i].action))
  }

  /** Some entry targets `t`. */
  predicate Targets(ms: seq<MappingEntry>, t: Target)
  {
    t in TargetList(ms)
  }

  /** Some entry of a non-empty list targets `t` exactly when one before the last does or the last does. */
  lemma TargetsSplit(ms: seq<MappingEntry>, t: Target)
    requires ms != []
    ensures Targets(ms, t) <==> Targets(ms[..|ms| - 1], t) || TargetOf(ms[|ms| - 1].action) == t
  {
    var front := ms[..|ms| - 1];
    var ts, fs := TargetList(ms), TargetList(front);
    forall i | 0 <= i < |fs|
      ensures ts[i] == fs[i]
    {
      assert front[i] == ms[i];
    }
    assert ts == fs + [TargetOf(ms[|ms| - 1].action)];
  }

  /** Bit `j` of the buttons is set exactly when some entry targets button `j`. */
  lemma ComposedButtons(ms: seq<MappingEntry>, cur: map<string, real>, j: nat)
    requires j < 16
    ensures BitSet(Composed(ms, cur).wButtons, j) <==> exists i :: 0 <= i < |ms| && TargetOf(ms[i].action) == Button(j)
  {
    ComposedButtonWord(ms, cur);
    ButtonWordBits(ms, j);
    var ts := TargetList(ms);
    if Button(j) in ts {
      var i :| 0 <= i < |ts| && ts[i] == Button(j);
      assert TargetOf(ms[i].action) == Button(j);
    }
  }

  /** ORing in the bit of a button target sets bit `j` exactly when the target is button `j`, and keeps the bits already set. */
  lemma ButtonStep(w: bv16, t: Target, j: nat)
    requires j < 16 && (t.Button? ==> t.bit < 16)
    ensures BitSet(WithButton(w, t), j) <==> BitSet(w, j) || t == Button(j)
  {
    if t.Button? {
      BitSetOr(w, Bit(t.bit), j);
      BitsDisjoint(t.bit, j);
    }
  }

  /** One entry ORs in its button bit, if it targets a button, and leaves the buttons alone otherwise. */
  lemma ApplyEntryButtons(rep: Gamepad, m: MappingEntry, cur: map<string, real>)
    ensures ApplyEntry(rep, m, cur).wButtons == WithButton(rep.wButtons, TargetOf(m.action))
  {
  }

  /** The buttons depend only on which entries exist, never on the signals' values. */
  lemma ButtonsIgnoreValues(ms: seq<MappingEntry>, cur1: map<string, real>, cur2: map<string, real>)
    ensures Composed(ms, cur1).wButtons == Composed(ms, cur2).wButtons
  {
    ComposedButtonWord(ms, cur1);
    ComposedButtonWord(ms, cur2);
  }

  /** An entry whose action lacks the "x360:" prefix contributes nothing, wherever it stands. */
  lemma {:induction false} NonX360Ignored(ms: seq<MappingEntry>, m: MappingEntry, rest: seq<MappingEntry>, cur: map<string, real>)
    requires !HasX360Prefix(m.action)
    ensures Composed(ms + [m] + rest, cur) == Composed(ms + rest, cur)
    decreases |rest|
  {
    if rest == [] {
      assert (ms + [m] + rest)[..|ms|] == ms;
      assert ms + rest == ms;
    } else {
      var r' := rest[..|rest| - 1];
      NonX360Ignored(ms, m, r', cur);
      assert (ms + [m] + rest)[..|ms + [m] + rest| - 1] == ms + [m] + r';
      assert (ms + rest)[..|ms + rest| - 1] == ms + r';
    }
  }

  lemma ComposedNext(ms: seq<MappingEntry>, i: nat, cur: map<string, real>)
    requires i < |ms|
    ensures Composed(ms[..i + 1], cur) == ApplyEntry(Composed(ms[..i], cur), ms[i], cur)
  {
    assert ms[..i + 1][..i] == ms[..i];
  }

  /** One entry of the composition loop: the switch on its target, buttons collected in a separate mask. */
  method ApplyToReport(rep: Gamepad, buttonMask: bv16, m: MappingEntry, cur: map<string, real>)
    returns (rep': Gamepad, buttonMask': bv16)
    ensures rep'.(wButtons := buttonMask') == ApplyEntry(rep.(wButtons := buttonMask), m, cur)
    ensures rep'.wButtons == rep.wButtons
  {
    rep', buttonMask' := rep, buttonMask;
    var v := ValueOf(cur, m.signalId);
    match TargetOf(m.action) {
      case ThumbLX => rep' := rep.(sThumbLX := ToShort(v));
      case ThumbLY => rep' := rep.(sThumbLY := ToShort(-v));
      case ThumbRX => rep' := rep.(sThumbRX := ToShort(v));
      case ThumbRY => rep' := rep.(sThumbRY := ToShort(-v));
      case LeftTrig => rep' := rep.(bLeftTrigger := ToTrig(v));
      case RightTrig => rep' := rep.(bRightTrigger := ToTrig(v));
      case Button(b) => buttonMask' := buttonMask | Bit(b);
      case NoTarget =>
    }
  }

  /** The composition loop of the publisher. */
  method ComposeReport(ms: seq<MappingEntry>, cur: map<string, real>) returns (rep: Gamepad)
    ensures rep == Composed(ms, cur)
  {
    rep := EmptyReport;
    var buttonMask: bv16 := 0;
    var i := 0;
    while i < |ms|
      invariant 0 <= i <= |ms|
      invariant rep.(wButtons := buttonMask) == Composed(ms[..i], cur)
      invariant rep.wButtons == 0
    {
      ComposedNext(ms, i, cur);
      rep, buttonMask := ApplyToReport(rep, buttonMask, ms[i], cur);
      i := i + 1;
    }
    assert ms[..i] == ms;
    rep := rep.(wButtons := buttonMask);
  }


  // ---------------------------------------------------------------------------
  // The mapper object.
  // ---------------------------------------------------------------------------

  class Mapper {
    /** The mapping list (a process-wide vector in the source). */
    var mappings: seq<MappingEntry>
    /** Samples accepted since the last drain. */
    var pending: seq<PendingSample>
    /** The publisher's latest value per signal id (a local of its thread in the source). */
    var curvals: map<string, real>

    constructor ()
      ensures mappings == [] && pending == [] && curvals == map[]
    {
      mappings, pending, curvals := [], [], map[];
    }

    /** `accept_sample`: queue one sample. */
    method AcceptSample(id: string, value: real, ts: real)
      modifies this
      ensures pending == old(pending) + [PendingSample(id, value, ts)]
      ensures mappings == old(mappings) && curvals == old(curvals)
    {
      pending := pending + [PendingSample(id, value, ts)];
    }

    /** `add_mapping`: append the entry unless its id is taken; a list with unique ids keeps them. */
    method AddMapping(e: MappingEntry) returns (ok: bool)
      modifies this
      ensures ok <==> !HasId(old(mappings), e.id)
      ensures mappings == if ok then old(mappings) + [e] else old(mappings)
      ensures UniqueIds(old(mappings)) ==> UniqueIds(mappings)
      ensures pending == old(pending) && curvals == old(curvals)
    {
      var i := 0;
      while i < |mappings|
        invariant 0 <= i <= |mappings|
        invariant forall j :: 0 <= j < i ==> mappings[j].id != e.id
      {
        if mappings[i].id == e.id {
          return false;
        }
        i := i + 1;
      }
      mappings := mappings + [e];
      ok := true;
    }

    /** `remove_mapping`: erase the first entry with the id, reporting whether there was one. */
    method RemoveMapping(id: string) returns (ok: bool)
      modifies this
      ensures ok <==> HasId(old(mappings), id)
      ensures mappings == RemoveFirst(old(mappings), id)
      ensures pending == old(pending) && curvals == old(curvals)
    {
      var i := 0;
      while i < |mappings|
        invariant 0 <= i <= |mappings|
        invariant forall j :: 0 <= j < i ==> mappings[j].id != id
      {
        if mappings[i].id == id {
          RemoveFirstAt(mappings, id, i);
          mappings := mappings[..i] + mappings[i + 1..];
          return true;
        }
        i := i + 1;
      }
      RemoveFirstAbsent(mappings, id);
      ok := false;
    }

    /** `list_mapping_entries`: a copy of the list. */
    method ListMappingEntries() returns (r: seq<MappingEntry>)
      ensures r == mappings
    {
      r := mappings;
    }

    /**
     * `load_profile` once the file has been read: `parsed` is the entry list
     * when the document had a "mappings" array, none when it could not be read,
     * parsed or had the wrong shape. A failure keeps the list; a success
     * replaces it whole.
     */
    method LoadProfile(parsed: Option<seq<MappingEntry>>) returns (ok: bool)
      modifies this
      ensures ok == parsed.Some?
      ensures mappings == if ok then parsed.value else old(mappings)
      ensures pending == old(pending) && curvals == old(curvals)
    {
      if parsed.None? {
        return false;
      }
      mappings := parsed.value;
      ok := true;
    }

    /** The drain at the top of a publisher cycle: every queued sample sets its id's value, then the queue empties. */
    method Drain()
      modifies this
      ensures curvals == Drained(old(curvals), old(pending))
      ensures pending == [] && mappings == old(mappings)
    {
      if pending != [] {
        var i := 0;
        while i < |pending|
          invariant 0 <= i <= |pending|
          invariant curvals == Drained(old(curvals), pending[..i])
          invariant pending == old(pending) && mappings == old(mappings)
        {
          assert pending[..i + 1][..i] == pending[..i];
          curvals := curvals[pending[i].id := pending[i].value];
          i := i + 1;
        }
        assert pending[..i] == pending;
        pending := [];
      }
    }

    /**
     * One publisher cycle: drain, then compose a report when the virtual pad
     * is ready and the list is not empty. A failed send is only logged, so the
     * outcome of the send does not enter the model.
     */
    method PublishStep(ready: bool) returns (report: Option<Gamepad>)
      modifies this
      ensures curvals == Drained(old(curvals), old(pending)) && pending == [] && mappings == old(mappings)
      ensures report == if ready && mappings != [] then Some(Composed(mappings, curvals)) else None
    {
      Drain();
      report := None;
      if ready && mappings != [] {
        var rep := ComposeReport(mappings, curvals);
        report := Some(rep);
      }
    }
  }
}
