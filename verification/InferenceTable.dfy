/**
  The `inferred_source_path` table: the upsert of `api/adapters/hooks_adapters.py` and the re-keying a clean slate
  does in `core/import_store.py`, over plain rows. That one row per entry is a promise the operations keep among
  themselves; the unique constraint would turn a breach into an error.
 */
module InferenceTable {
  import opened Wrappers
  import opened BeetsEntries

  datatype Key = Key(subject: Subject, beetsId: int)

  datatype Row = Row(key: Key, sourcePath: string, provider: string)

  const HOOK_METHOD := "downloader_hook"

  predicate UniqueKeys(rows: seq<Row>) {
    forall i, k :: 0 <= i < k < |rows| ==> rows[i].key != rows[k].key
  }

  /** `DELETE ... WHERE` the key is one of `keys`. */
  function Deleted(rows: seq<Row>, keys: set<Key>): seq<Row> {
    if rows == [] then []
    else if rows[0].key in keys then Deleted(rows[1..], keys)
    else [rows[0]] + Deleted(rows[1..], keys)
  }

  function Rekeyed(rows: seq<Row>, from: Key, to: Key): seq<Row> {
    if rows == [] then []
    else [if rows[0].key == from then rows[0].(key := to) else rows[0]] + Rekeyed(rows[1..], from, to)
  }

  /** What the table says about an entry. */
  function Lookup(rows: seq<Row>, key: Key): Option<Row> {
    if rows == [] then None
    else if rows[0].key == key then Some(rows[0])
    else Lookup(rows[1..], key)
  }

  lemma {:induction false} LookupDeleted(rows: seq<Row>, keys: set<Key>, key: Key)
    ensures Lookup(Deleted(rows, keys), key) == if key in keys then None else Lookup(rows, key)
  {
    if rows == [] {
    } else {
      LookupDeleted(rows[1..], keys, key);
      if rows[0].key !in keys {
        assert Deleted(rows, keys)[1..] == Deleted(rows[1..], keys);
      }
    }
  }

  lemma {:induction false} LookupRekeyed(rows: seq<Row>, from: Key, to: Key, key: Key)
    requires from != to && Lookup(rows, to).None?
    ensures Lookup(Rekeyed(rows, from, to), key) ==
      if key == from then None
      else if key == to then (var row := Lookup(rows, from); if row.Some? then Some(row.value.(key := to)) else None)
      else Lookup(rows, key)
  {
    if rows == [] {
    } else {
      LookupRekeyed(rows[1..], from, to, key);
      assert Rekeyed(rows, from, to)[1..] == Rekeyed(rows[1..], from, to);
    }
  }

  lemma {:induction false} LookupFinds(rows: seq<Row>, key: Key)
    ensures Lookup(rows, key).None? <==> forall i :: 0 <= i < |rows| ==> rows[i].key != key
    ensures Lookup(rows, key).Some? ==> Lookup(rows, key).value in rows && Lookup(rows, key).value.key == key
  {
    if rows == [] {
    } else {
      LookupFinds(rows[1..], key);
    }
  }

  lemma {:induction false} DeletedIsUnique(rows: seq<Row>, keys: set<Key>)
    requires UniqueKeys(rows)
    ensures UniqueKeys(Deleted(rows, keys))
    ensures forall row :: row in Deleted(rows, keys) <==> row in rows && row.key !in keys
  {
    if rows == [] {
    } else {
      DeletedIsUnique(rows[1..], keys);
    }
  }

  lemma {:induction false} RekeyedIsUnique(rows: seq<Row>, from: Key, to: Key)
    requires UniqueKeys(rows) && forall i :: 0 <= i < |rows| ==> rows[i].key != to
    ensures UniqueKeys(Rekeyed(rows, from, to))
    ensures |Rekeyed(rows, from, to)| == |rows|
    ensures forall i :: 0 <= i < |rows| ==>
      Rekeyed(rows, from, to)[i] == if rows[i].key == from then rows[i].(key := to) else rows[i]
  {
    if rows == [] {
    } else {
      RekeyedIsUnique(rows[1..], from, to);
    }
  }

  function TrackKeys(ids: set<int>): set<Key> {
    set id | id in ids :: Key(Track, id)
  }

  /** The tracks whose inferences go with the removed entry: all of its items, a re-keyed track itself excepted. */
  function StaleTracks(subject: Subject, oldId: int, oldItemIds: set<int>): set<Key> {
    TrackKeys(if subject.Track? then oldItemIds - {oldId} else oldItemIds)
  }

  /** What a retarget leaves at `key`, told from the table before. */
  function RetargetedAt(
      rows: seq<Row>, subject: Subject, oldId: int, newId: Option<int>, oldItemIds: set<int>, key: Key)
    : Option<Row>
  {
    var here, stale := Key(subject, oldId), StaleTracks(subject, oldId, oldItemIds);
    if Lookup(rows, here).Some? && newId.Some? && key == Key(subject, newId.value)
    then Some(Lookup(rows, here).value.(key := key))
    else if key == here || key in stale then None
    else Lookup(rows, key)
  }

  function MovedAt(rows: seq<Row>, here: Key, there: Key, key: Key): Option<Row> {
    if key == here then None
    else if key != there then Lookup(rows, key)
    else if Lookup(rows, here).Some? then Some(Lookup(rows, here).value.(key := there))
    else None
  }

  class InferredSourcePaths {
    var rows: seq<Row>

    predicate Valid()
      reads this
    {
      UniqueKeys(rows)
    }

    constructor ()
      ensures Valid() && rows == []
    {
      rows := [];
    }

    /** `record_inferred_source_path`: a fresh lookup replaces any earlier inference. */
    method Record(subject: Subject, beetsId: int, sourcePath: string)
      requires Valid()
      modifies this
      ensures Valid()
      ensures forall key :: (
        Lookup(rows, key) ==
        if key == Key(subject, beetsId) then Some(Row(key, sourcePath, "downloader_hook")) else Lookup(old(rows), key))
    {
      var key := Key(subject, beetsId);
      var row := Row(key, sourcePath, HOOK_METHOD);
      ghost var before := rows;
      DeletedIsUnique(rows, {key});
      rows := Deleted(rows, {key});
      forall other ensures Lookup(rows + [row], other) == if other == key then Some(row) else Lookup(before, other) {
        LookupDeleted(before, {key}, other);
        LookupAppended(rows, row, other);
      }
      forall i | 0 <= i < |rows| ensures rows[i].key != key {
        assert rows[i] in rows;
      }
      rows := rows + [row];
    }

    /** `retarget_inferred_source_paths`: neither `scalar_one_or_none` nor the unique constraint raises here. */
    method Retarget(subject: Subject, oldId: int, newId: Option<int>, oldItemIds: set<int>)
      requires Valid()
      modifies this
      ensures Valid()
      ensures forall key :: Lookup(rows, key) == RetargetedAt(old(rows), subject, oldId, newId, oldItemIds, key)
    {
      ghost var before := rows;
      var here, stale := Key(subject, oldId), StaleTracks(subject, oldId, oldItemIds);
      DeletedIsUnique(rows, stale);
      rows := Deleted(rows, stale);
      forall key ensures Lookup(rows, key) == if key in stale then None else Lookup(before, key) {
        LookupDeleted(before, stale, key);
      }
      assert here !in stale;
      LookupFinds(before, here);
      if Lookup(rows, here).Some? {
        if newId.None? {
          ghost var kept := rows;
          DeletedIsUnique(rows, {here});
          rows := Deleted(rows, {here});
          forall key ensures Lookup(rows, key) == if key == here then None else Lookup(kept, key) {
            LookupDeleted(kept, {here}, key);
          }
        } else if newId.value != oldId {
          MoveRow(here, Key(subject, newId.value));
        }
      }
    }

    /** The DELETE at the new key and the UPDATE of the row's id. */
    method MoveRow(here: Key, there: Key)
      requires Valid() && here != there
      modifies this
      ensures Valid()
      ensures forall key :: Lookup(rows, key) == MovedAt(old(rows), here, there, key)
    {
      ghost var before := rows;
      DeletedIsUnique(rows, {there});
      rows := Deleted(rows, {there});
      ghost var kept := rows;
      LookupDeleted(before, {there}, there);
      LookupFinds(kept, there);
      RekeyedIsUnique(kept, here, there);
      rows := Rekeyed(rows, here, there);
      forall key ensures Lookup(kept, key) == if key == there then None else Lookup(before, key) {
        LookupDeleted(before, {there}, key);
      }
      forall key ensures Lookup(rows, key) == MovedAt(before, here, there, key) {
        LookupRekeyed(kept, here, there, key);
      }
    }
  }

  /** What a finished clean slate knows: the removed entry, and what the import that followed added. */
  datatype Outcome = Outcome(
    subject: Subject, oldId: int, oldItemIds: set<int>, importedAlbums: seq<int>, importedItems: seq<int>)

  /** The single new entry of the removed one's kind, if there is exactly one. */
  function NewId(o: Outcome): Option<int> {
    var imported := if o.subject.Album? then o.importedAlbums else o.importedItems;
    if |imported| == 1 then Some(imported[0]) else None
  }

  /**
    What a finished clean slate leaves at every key, told from its outcome. The removed entry's inference is at the
    single new entry of its kind, unchanged, and nowhere if there is none or several; it is gone from its old key, the
    inferences of the removed tracks are gone, and every other entry has what it had.
   */
  lemma {:induction false} RetargetMovesTheInference(rows: seq<Row>, o: Outcome, key: Key)
    ensures var inference := Lookup(rows, Key(o.subject, o.oldId));
      RetargetedAt(rows, o.subject, o.oldId, NewId(o), o.oldItemIds, key) ==
      if inference.Some? && o.subject == Album && key.subject == Album && o.importedAlbums == [key.beetsId]
      then Some(Row(key, inference.value.sourcePath, inference.value.provider))
      else if inference.Some? && o.subject == Track && key.subject == Track && o.importedItems == [key.beetsId]
      then Some(Row(key, inference.value.sourcePath, inference.value.provider))
      else if key == Key(o.subject, o.oldId) then None
      else if key.subject == Track && key.beetsId in o.oldItemIds then None
      else Lookup(rows, key)
  {
    LookupFinds(rows, Key(o.subject, o.oldId));
    assert key in StaleTracks(o.subject, o.oldId, o.oldItemIds) <==>
      key.subject.Track? && key.beetsId in o.oldItemIds && !(o.subject.Track? && key.beetsId == o.oldId);
    assert |o.importedAlbums| == 1 ==> o.importedAlbums == [o.importedAlbums[0]];
    assert |o.importedItems| == 1 ==> o.importedItems == [o.importedItems[0]];
  }

  /** `_retarget_inferences`. */
  method RetargetInferences(table: InferredSourcePaths, o: Outcome)
    requires table.Valid()
    modifies table
    ensures table.Valid()
    ensures var inference := Lookup(old(table.rows), Key(o.subject, o.oldId));
      forall key :: Lookup(table.rows, key) == (
        if inference.Some? && o.subject == Album && key.subject == Album && o.importedAlbums == [key.beetsId]
        then Some(Row(key, inference.value.sourcePath, inference.value.provider))
        else if inference.Some? && o.subject == Track && key.subject == Track && o.importedItems == [key.beetsId]
        then Some(Row(key, inference.value.sourcePath, inference.value.provider))
        else if key == Key(o.subject, o.oldId) then None
        else if key.subject == Track && key.beetsId in o.oldItemIds then None
        else Lookup(old(table.rows), key))
  {
    ghost var before := table.rows;
    var newId := NewId(o);
    table.Retarget(o.subject, o.oldId, newId, o.oldItemIds);
    forall key {
      RetargetMovesTheInference(before, o, key);
    }
  }

  lemma {:induction false} LookupAppended(rows: seq<Row>, row: Row, key: Key)
    ensures Lookup(rows + [row], key) ==
      if Lookup(rows, key).Some? then Lookup(rows, key) else if key == row.key then Some(row) else None
  {
    if rows == [] {
    } else {
      LookupAppended(rows[1..], row, key);
      assert (rows + [row])[1..] == rows[1..] + [row];
    }
  }
}
