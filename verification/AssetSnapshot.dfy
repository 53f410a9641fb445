/** Compaction and live backups: a store written out as snapshot records replays to the same store. */
module AssetSnapshot {
  import opened AssetLog
  import opened Ordering

  function ReceiptEvents(st: State, keys: seq<string>): seq<Event>
    requires forall k | k in keys :: k in st.receipts
  {
    seq(|keys|, i requires 0 <= i < |keys| => OperationReceipt(st.receipts[keys[i]]))
  }

  /** `writeOperationSnapshot` */
  function OperationSnapshot(st: State, keys: seq<string>): seq<Event>
    requires forall k | k in keys :: k in st.receipts
  {
    (if st.generation > 1 then [OperationGeneration(st.generation)] else []) + ReceiptEvents(st, keys)
  }

  function Tombstones(st: State, ids: seq<string>): seq<Deletion>
    requires forall id | id in ids :: id in st.deleted
  {
    seq(|ids|, i requires 0 <= i < |ids| => Deletion(ids[i], st.deleted[ids[i]]))
  }

  function ValueEvents(st: State, ids: seq<string>): seq<Event>
    requires forall id | id in ids :: id in st.items
  {
    seq(|ids|, i requires 0 <= i < |ids| => Snapshot(st.items[ids[i]]))
  }

  function DeletedSnapshot(st: State, ids: seq<string>): seq<Event>
    requires forall id | id in ids :: id in st.deleted
  {
    if st.deleted == map[] then [] else [Forgotten(Tombstones(st, ids))]
  }

  /** `writeLiveSnapshot`, which is also what compaction writes: generation, receipts by key, one record of
      all tombstones by id, then the current version of every asset by id. */
  function LiveSnapshot(st: State): seq<Event> {
    OperationSnapshot(st, Sorted(st.receipts.Keys)) + DeletedSnapshot(st, Sorted(st.deleted.Keys))
    + ValueEvents(st, Sorted(st.items.Keys))
  }

  // ---------------------------------------------------------------- round trip

  function Stored(receipts: map<string, Receipt>, keys: seq<string>): map<string, Receipt>
    requires forall k | k in keys :: k in receipts
  {
    map k | k in keys :: receipts[k]
  }

  function Kept(items: map<string, Information>, ids: seq<string>): map<string, Information>
    requires forall id | id in ids :: id in items
  {
    map id | id in ids :: items[id]
  }

  lemma StoredSnoc(st: State, keys: seq<string>)
    requires keys != [] && Distinct(keys) && forall k | k in keys :: k in st.receipts
    ensures var front, last := keys[..|keys| - 1], keys[|keys| - 1];
            last !in front && last in st.receipts && Distinct(front) && (forall k | k in front :: k in st.receipts)
            && ReceiptEvents(st, keys) == ReceiptEvents(st, front) + [OperationReceipt(st.receipts[last])]
            && Stored(st.receipts, keys) == Stored(st.receipts, front)[last := st.receipts[last]]
  {
    assert keys == keys[..|keys| - 1] + [keys[|keys| - 1]];
  }

  lemma KeptSnoc(st: State, ids: seq<string>)
    requires ids != [] && Distinct(ids) && forall id | id in ids :: id in st.items
    ensures var front, last := ids[..|ids| - 1], ids[|ids| - 1];
            last !in front && last in st.items && Distinct(front) && (forall id | id in front :: id in st.items)
            && ValueEvents(st, ids) == ValueEvents(st, front) + [Snapshot(st.items[last])]
            && Kept(st.items, ids) == Kept(st.items, front)[last := st.items[last]]
  {
    assert ids == ids[..|ids| - 1] + [ids[|ids| - 1]];
  }

  lemma ApplyReceipt(mid: State, r: Receipt)
    requires r.operation.Complete() && r.operation.Key() !in mid.receipts && r.operation.generation == mid.generation
    ensures Apply(mid, OperationReceipt(r)) == Ok(mid.(receipts := mid.receipts[r.operation.Key() := r]))
  {
  }

  lemma ApplySnapshot(mid: State, v: Information)
    requires v.Valid() && v.id !in mid.deleted && v.id !in mid.items
    ensures Apply(mid, Snapshot(v)) == Ok(mid.(items := mid.items[v.id := v]))
  {
  }

  lemma {:induction false} ReplayReceipts(st: State, from: State, keys: seq<string>)
    requires WellFormed(st) && Distinct(keys) && forall k | k in keys :: k in st.receipts
    requires from.receipts == map[] && from.generation == st.generation
    ensures Replay(from, ReceiptEvents(st, keys)) == Ok(from.(receipts := Stored(st.receipts, keys)))
  {
    if keys == [] {
      assert Stored(st.receipts, keys) == map[];
    } else {
      var front, last := keys[..|keys| - 1], keys[|keys| - 1];
      StoredSnoc(st, keys);
      ReplayReceipts(st, from, front);
      ReplaySnoc(from, ReceiptEvents(st, front), OperationReceipt(st.receipts[last]));
      ApplyReceipt(from.(receipts := Stored(st.receipts, front)), st.receipts[last]);
    }
  }

  lemma {:induction false} ReplayValues(st: State, from: State, ids: seq<string>)
    requires WellFormed(st) && Distinct(ids) && forall id | id in ids :: id in st.items
    requires from.items == map[] && from.deleted == st.deleted
    ensures Replay(from, ValueEvents(st, ids)) == Ok(from.(items := Kept(st.items, ids)))
  {
    if ids == [] {
      assert Kept(st.items, ids) == map[];
    } else {
      var front, last := ids[..|ids| - 1], ids[|ids| - 1];
      KeptSnoc(st, ids);
      ReplayValues(st, from, front);
      ReplaySnoc(from, ValueEvents(st, front), Snapshot(st.items[last]));
      ApplySnapshot(from.(items := Kept(st.items, front)), st.items[last]);
    }
  }

  lemma TombstonesBury(st: State, ids: seq<string>)
    requires WellFormed(st) && Lists(ids, st.deleted.Keys)
    ensures Bury(map[], Tombstones(st, ids)) == st.deleted
  {
    var tombs := Tombstones(st, ids);
    BuryContents(map[], tombs);
    var after := Bury(map[], tombs);
    forall id ensures id in after <==> id in st.deleted {
      if id in st.deleted {
        var i :| 0 <= i < |ids| && ids[i] == id;
        assert tombs[i] in tombs;
      }
    }
    forall id | id in after ensures after[id] == st.deleted[id] {
      var i :| 0 <= i < |ids| && ids[i] == id;
      assert tombs[i].id == id;
    }
  }

  lemma TombstonesAccepted(st: State, from: State, ids: seq<string>)
    requires WellFormed(st) && Lists(ids, st.deleted.Keys) && st.deleted != map[]
    requires from.items == map[] && from.deleted == map[]
    ensures AcceptsDeletions(from, Tombstones(st, ids), false)
  {
    var id :| id in st.deleted;
    assert id in ids;
    forall i | 0 <= i < |ids| ensures AcceptsDeletion(from, Tombstones(st, ids)[i], false) {
      assert ids[i] in st.deleted.Keys;
    }
  }

  lemma ReplayTombstones(st: State, from: State, ids: seq<string>)
    requires WellFormed(st) && Lists(ids, st.deleted.Keys)
    requires from.items == map[] && from.deleted == map[]
    ensures Replay(from, DeletedSnapshot(st, ids)) == Ok(from.(deleted := st.deleted))
  {
    if st.deleted != map[] {
      TombstonesBury(st, ids);
      TombstonesAccepted(st, from, ids);
      ReplayOne(from, Forgotten(Tombstones(st, ids)));
      assert from.items - DeletedIds(Tombstones(st, ids)) == from.items;
    }
  }

  lemma ReplayOperations(st: State, keys: seq<string>)
    requires WellFormed(st) && Lists(keys, st.receipts.Keys)
    ensures Replay(EMPTY, OperationSnapshot(st, keys)) == Ok(State(map[], map[], st.receipts, st.generation))
  {
    var bump := if st.generation > 1 then [OperationGeneration(st.generation)] else [];
    var mid := EMPTY.(generation := st.generation);
    assert Replay(EMPTY, bump) == Ok(mid) by {
      if st.generation > 1 {
        assert bump[..0] == [];
        assert Replay(EMPTY, bump) == Apply(EMPTY, bump[0]);
      }
    }
    ReplayConcat(EMPTY, bump, ReceiptEvents(st, keys));
    ReplayReceipts(st, mid, keys);
    assert Stored(st.receipts, keys) == st.receipts;
  }

  /** Snapshot round trip, in whatever order the three tables are listed: an empty store that replays the
      snapshot is the store that wrote it. */
  lemma SnapshotRoundTrip(st: State, keys: seq<string>, tombs: seq<string>, ids: seq<string>)
    requires WellFormed(st)
    requires Lists(keys, st.receipts.Keys) && Lists(tombs, st.deleted.Keys) && Lists(ids, st.items.Keys)
    ensures Replay(EMPTY, OperationSnapshot(st, keys) + DeletedSnapshot(st, tombs) + ValueEvents(st, ids)) == Ok(st)
  {
    var a, b, c := OperationSnapshot(st, keys), DeletedSnapshot(st, tombs), ValueEvents(st, ids);
    ReplayOperations(st, keys);
    var first := State(map[], map[], st.receipts, st.generation);
    ReplayTombstones(st, first, tombs);
    var second := first.(deleted := st.deleted);
    ReplayValues(st, second, ids);
    assert Kept(st.items, ids) == st.items;
    ReplayConcat(EMPTY, a, b);
    ReplayConcat(EMPTY, a + b, c);
  }

  /** Compaction changes nothing: every log that replays may be replaced by the snapshot of what it replays
      to, and any later records then mean the same. */
  lemma CompactionPreservesMeaning(log: seq<Event>, later: seq<Event>)
    requires Replay(EMPTY, log).Ok?
    ensures Replay(EMPTY, LiveSnapshot(Replay(EMPTY, log).value)) == Replay(EMPTY, log)
    ensures Replay(EMPTY, LiveSnapshot(Replay(EMPTY, log).value) + later) == Replay(EMPTY, log + later)
  {
    var st := Replay(EMPTY, log).value;
    ReplayKeepsWellFormed(EMPTY, log);
    SnapshotRoundTrip(st, Sorted(st.receipts.Keys), Sorted(st.deleted.Keys), Sorted(st.items.Keys));
    ReplayConcat(EMPTY, LiveSnapshot(st), later);
    ReplayConcat(EMPTY, log, later);
  }
}
