/**
 * Start-up migration of mapping entries written before signal ids carried a
 * device prefix. A table from signal id to device is built from the reader's
 * signal list, marking ids that occur more than once as ambiguous; every
 * entry whose signal id has no ':' and names exactly one known signal is
 * removed and re-added with "stick:" or "throttle:" in front of its signal id.
 */
module LegacyMigration {
  import opened Wrappers
  import opened HotasReader
  import opened HotasFilter
  import opened HotasMapper

  /** What the table records of an id: the device of its first signal, and whether another signal has it too. */
  datatype DevInfo = DevInfo(dk: DeviceKind, ambiguous: bool)

  /** How many signals carry `id`. */
  function CountId(sigs: seq<DeviceSignal>, id: string): nat
  {
    if sigs == [] then 0
    else CountId(sigs[..|sigs| - 1], id) + (if sigs[|sigs| - 1].desc.id == id then 1 else 0)
  }

  /** The table the loop over the signal list builds. */
  function IdTable(sigs: seq<DeviceSignal>): map<string, DevInfo>
  {
    if sigs == [] then map[]
    else
      var m := IdTable(sigs[..|sigs| - 1]);
      var sd := sigs[|sigs| - 1];
      if sd.desc.id in m then m[sd.desc.id := m[sd.desc.id].(ambiguous := true)]
      else m[sd.desc.id := DevInfo(sd.device, false)]
  }

  /**
   * An id is in the table exactly when some signal carries it; it is ambiguous
   * exactly when two or more do; otherwise its device is that of the one signal.
   */
  lemma {:induction false} IdTableSpec(sigs: seq<DeviceSignal>, id: string)
    ensures id in IdTable(sigs) <==> CountId(sigs, id) > 0
    ensures id in IdTable(sigs) ==> (IdTable(sigs)[id].ambiguous <==> CountId(sigs, id) >= 2)
    ensures id in IdTable(sigs) && !IdTable(sigs)[id].ambiguous ==>
      exists j :: 0 <= j < |sigs| && sigs[j].desc.id == id && IdTable(sigs)[id].dk == sigs[j].device
  {
    if sigs != [] {
      var front := sigs[..|sigs| - 1];
      IdTableSpec(front, id);
      if id in IdTable(front) && !IdTable(front)[id].ambiguous {
        var j :| 0 <= j < |front| && front[j].desc.id == id && IdTable(front)[id].dk == front[j].device;
        assert sigs[j] == front[j];
      }
    }
  }

  /** The loop that fills the table. */
  method BuildIdTable(sigs: seq<DeviceSignal>) returns (m: map<string, DevInfo>)
    ensures m == IdTable(sigs)
  {
    m := map[];
    var i := 0;
    while i < |sigs|
      invariant 0 <= i <= |sigs|
      invariant m == IdTable(sigs[..i])
    {
      assert sigs[..i + 1][..i] == sigs[..i];
      var sd := sigs[i];
      if sd.desc.id in m {
        m := m[sd.desc.id := m[sd.desc.id].(ambiguous := true)];
      } else {
        m := m[sd.desc.id := DevInfo(sd.device, false)];
      }
      i := i + 1;
    }
    assert sigs[..i] == sigs;
  }

  predicate HasColon(s: string)
  {
    exists j :: 0 <= j < |s| && s[j] == ':'
  }

  /** The prefixed signal id an entry migrates to, if it migrates. */
  function NewSignal(table: map<string, DevInfo>, sid: string): Option<string>
  {
    if HasColon(sid) then None
    else if sid in table && !table[sid].ambiguous then Some(DevicePrefix(table[sid].dk) + ":" + sid)
    else None
  }

  /**
   * An unprefixed signal id migrates exactly when one signal of the list
   * carries it, and it then gains that signal's device prefix; ambiguous,
   * unknown and already prefixed ids stay as they are.
   */
  lemma NewSignalSpec(sigs: seq<DeviceSignal>, sid: string)
    ensures NewSignal(IdTable(sigs), sid).Some? <==> !HasColon(sid) && CountId(sigs, sid) == 1
    ensures NewSignal(IdTable(sigs), sid).Some? ==>
      exists j :: 0 <= j < |sigs| && sigs[j].desc.id == sid &&
        NewSignal(IdTable(sigs), sid).value == DevicePrefix(sigs[j].device) + ":" + sid
  {
    IdTableSpec(sigs, sid);
  }

  /** An entry after migration. */
  function Migrated(table: map<string, DevInfo>, e: MappingEntry): MappingEntry
  {
    match NewSignal(table, e.signalId)
    case None => e
    case Some(ns) => e.(signalId := ns)
  }

  /** `add_mapping` on a list: append unless the id is taken. */
  function AddIfNew(ms: seq<MappingEntry>, e: MappingEntry): seq<MappingEntry>
  {
    if HasId(ms, e.id) then ms else ms + [e]
  }

  /** The list after the entries `es`, in order, have been processed. */
  function MigrateAll(ms: seq<MappingEntry>, es: seq<MappingEntry>, table: map<string, DevInfo>): seq<MappingEntry>
  {
    if es == [] then ms
    else
      var s := MigrateAll(ms, es[..|es| - 1], table);
      var me := es[|es| - 1];
      match NewSignal(table, me.signalId)
      case None => s
      case Some(ns) => AddIfNew(RemoveFirst(s, me.id), me.(signalId := ns))
  }

  /** One more entry processed. */
  lemma MigrateAllNext(ms: seq<MappingEntry>, es: seq<MappingEntry>, table: map<string, DevInfo>, i: nat)
    requires i < |es|
    ensures var s, me := MigrateAll(ms, es[..i], table), es[i];
      MigrateAll(ms, es[..i + 1], table) ==
        match NewSignal(table, me.signalId)
        case None => s
        case Some(ns) => AddIfNew(RemoveFirst(s, me.id), me.(signalId := ns))
  {
    assert es[..i + 1][..i] == es[..i];
  }

  /** The entries with the first `k` migrated and the rest as loaded. */
  function Expected(es: seq<MappingEntry>, table: map<string, DevInfo>, k: nat): (r: seq<MappingEntry>)
    ensures |r| == |es|
    ensures forall j :: 0 <= j < |es| ==> r[j].id == es[j].id
  {
    seq(|es|, j requires 0 <= j < |es| => if j < k then Migrated(table, es[j]) else es[j])
  }

  /** The list midway: the entries of `Expected(…, k)` in some order, ids unique. */
  ghost predicate MidMigration(s: seq<MappingEntry>, es: seq<MappingEntry>, table: map<string, DevInfo>, k: nat)
  {
    UniqueIds(s) && |s| == |es| && forall e :: e in s <==> e in Expected(es, table, k)
  }

  /** Removing the entry with a given id from a list with unique ids keeps exactly the entries with other ids. */
  lemma RemovedMembers(s: seq<MappingEntry>, id: string)
    requires UniqueIds(s) && HasId(s, id)
    ensures UniqueIds(RemoveFirst(s, id)) && |RemoveFirst(s, id)| == |s| - 1
    ensures forall e :: e in RemoveFirst(s, id) <==> e in s && e.id != id
  {
    var r := RemoveFirst(s, id);
    RemoveFirstUnique(s, id);
    forall e ensures e in r <==> e in s && e.id != id {
      if e.id != id {
        RemoveFirstKeepsOthers(s, id, e);
      } else {
        assert e !in r;
      }
    }
  }

  /** Entry `k` re-added with its new signal id takes the place of the loaded one. */
  lemma MigrateStepMoved(s: seq<MappingEntry>, es: seq<MappingEntry>, table: map<string, DevInfo>, k: nat, ns: string)
    requires k < |es| && UniqueIds(es) && MidMigration(s, es, table, k)
    requires NewSignal(table, es[k].signalId) == Some(ns)
    ensures MidMigration(AddIfNew(RemoveFirst(s, es[k].id), es[k].(signalId := ns)), es, table, k + 1)
  {
    var me := es[k];
    var me' := me.(signalId := ns);
    var x := Expected(es, table, k);
    assert x[k] == me;
    assert me in s;
    assert HasId(s, me.id);
    var r := RemoveFirst(s, me.id);
    RemovedMembers(s, me.id);
    var s' := r + [me'];
    assert AddIfNew(r, me') == s';
    MovedMembers(r, es, table, k, ns);
    forall a, b | 0 <= a < b < |s'| ensures s'[a].id != s'[b].id {
      if b == |s'| - 1 {
        assert s'[a] in r;
      }
    }
  }

  lemma MovedMembers(r: seq<MappingEntry>, es: seq<MappingEntry>, table: map<string, DevInfo>, k: nat, ns: string)
    requires k < |es| && UniqueIds(es) && NewSignal(table, es[k].signalId) == Some(ns)
    requires forall e :: e in r <==> e in Expected(es, table, k) && e.id != es[k].id
    ensures forall e :: e in r + [es[k].(signalId := ns)] <==> e in Expected(es, table, k + 1)
  {
    var me' := es[k].(signalId := ns);
    var x, x' := Expected(es, table, k), Expected(es, table, k + 1);
    forall e ensures e in r + [me'] <==> e in x'
    {
      if e == me' {
        assert x'[k] == me';
      } else if e in r {
        var j :| 0 <= j < |x| && x[j] == e;
        assert j != k;
        assert x'[j] == e;
      }
    }
  }

  /** Processing entry `k` moves the list from `k` entries migrated to `k + 1`. */
  lemma MigrateStep(s: seq<MappingEntry>, es: seq<MappingEntry>, table: map<string, DevInfo>, k: nat)
    requires k < |es| && UniqueIds(es) && MidMigration(s, es, table, k)
    ensures var me := es[k];
      MidMigration(match NewSignal(table, me.signalId)
                   case None => s
                   case Some(ns) => AddIfNew(RemoveFirst(s, me.id), me.(signalId := ns)), es, table, k + 1)
  {
    match NewSignal(table, es[k].signalId)
    case None =>
      assert Expected(es, table, k) == Expected(es, table, k + 1);
    case Some(ns) =>
      MigrateStepMoved(s, es, table, k, ns);
  }

  /**
   * On a loaded list with unique ids, migrating the list against itself keeps
   * the ids unique and the length, and leaves exactly the migrated entries:
   * each entry's unprefixed signal id gains its device's prefix when exactly
   * one signal carries it, and every other entry is unchanged.
   */
  lemma {:induction false} MigrationResult(es: seq<MappingEntry>, table: map<string, DevInfo>, k: nat)
    requires k <= |es| && UniqueIds(es)
    ensures MidMigration(MigrateAll(es, es[..k], table), es, table, k)
  {
    if k == 0 {
      assert es[..0] == [];
      assert Expected(es, table, 0) == es;
    } else {
      MigrationResult(es, table, k - 1);
      assert es[..k][..k - 1] == es[..k - 1];
      MigrateStep(MigrateAll(es, es[..k - 1], table), es, table, k - 1);
    }
  }

  /**
   * The whole pass: on a loaded list with unique ids the migrated list has
   * the same length, unique ids, and holds exactly the migrated form of every
   * loaded entry.
   */
  lemma MigrationComplete(es: seq<MappingEntry>, table: map<string, DevInfo>)
    requires UniqueIds(es)
    ensures var r := MigrateAll(es, es, table);
      UniqueIds(r) && |r| == |es| &&
      forall e :: e in r <==> exists j :: 0 <= j < |es| && e == Migrated(table, es[j])
  {
    MigrationResult(es, table, |es|);
    assert es[..|es|] == es;
    var x := Expected(es, table, |es|);
    forall e ensures e in x <==> exists j :: 0 <= j < |es| && e == Migrated(table, es[j]) {
      if j :| 0 <= j < |es| && e == Migrated(table, es[j]) {
        assert x[j] == e;
      }
    }
  }

  /** The body of the migration loop for one entry: re-add it under its prefixed signal id when it migrates. */
  method MigrateEntry(mapper: Mapper, table: map<string, DevInfo>, me: MappingEntry) returns (moved: bool)
    modifies mapper
    ensures moved <==> NewSignal(table, me.signalId).Some?
    ensures mapper.mappings ==
      match NewSignal(table, me.signalId)
      case None => old(mapper.mappings)
      case Some(ns) => AddIfNew(RemoveFirst(old(mapper.mappings), me.id), me.(signalId := ns))
    ensures mapper.pending == old(mapper.pending) && mapper.curvals == old(mapper.curvals)
  {
    moved := false;
    if !HasColon(me.signalId) && me.signalId in table && !table[me.signalId].ambiguous {
      var newSig := DevicePrefix(table[me.signalId].dk) + ":" + me.signalId;
      assert NewSignal(table, me.signalId) == Some(newSig);
      var _ := mapper.RemoveMapping(me.id);
      var _ := mapper.AddMapping(me.(signalId := newSig));
      moved := true;
    }
  }

  /**
   * The migration block: snapshot the list, build the table, then re-add each
   * entry that migrates under its prefixed signal id. `changed` (which makes
   * the source save the profile) tells whether any entry migrated.
   */
  method Migrate(mapper: Mapper, sigs: seq<DeviceSignal>) returns (changed: bool)
    modifies mapper
    ensures var es := old(mapper.mappings);
      mapper.mappings == MigrateAll(es, es, IdTable(sigs)) &&
      (changed <==> exists j :: 0 <= j < |es| && NewSignal(IdTable(sigs), es[j].signalId).Some?)
    ensures mapper.pending == old(mapper.pending) && mapper.curvals == old(mapper.curvals)
  {
    var entries := mapper.ListMappingEntries();
    changed := false;
    if entries == [] {
      return;
    }
    var table := BuildIdTable(sigs);
    var i := 0;
    while i < |entries|
      invariant 0 <= i <= |entries|
      invariant mapper.mappings == MigrateAll(entries, entries[..i], table)
      invariant changed <==> exists j :: 0 <= j < i && NewSignal(table, entries[j].signalId).Some?
      invariant mapper.pending == old(mapper.pending) && mapper.curvals == old(mapper.curvals)
    {
      MigrateAllNext(entries, entries, table, i);
      var moved := MigrateEntry(mapper, table, entries[i]);
      changed := changed || moved;
      i := i + 1;
    }
    assert entries[..i] == entries;
  }
}
