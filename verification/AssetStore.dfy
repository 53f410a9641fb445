/** The running store: tables updated in place, a log file, and methods that do what the outcomes of
    `AssetRuns` say, with the derived tables kept in step. */
module AssetStore {
  import opened Options
  import opened AssetLog
  import opened AssetHistory
  import opened Ordering
  import opened SourceIndex
  import opened Text
  import AssetSnapshot
  import R = AssetRuns

  class Store {
    var items: map<string, Information>
    var fingerprints: map<string, Fingerprint>
    var qualifiers: map<string, set<string>>
    var deleted: map<string, uint64>
    var receipts: map<string, Receipt>
    var generation: uint64
    var poisoned: bool
    var open: bool
    var disk: R.Disk
    var cursor: R.Cursor
    /** Every record this store has ever made durable, compacted away or not. */
    ghost var history: seq<Event>

    function Memory(): State
      reads this
    {
      State(items, deleted, receipts, generation)
    }

    ghost function Whole(): R.Store
      reads this
    {
      R.Store(Memory(), disk, history, poisoned, open, cursor)
    }

    /** The tables are well formed and the derived ones say what a scan of the items says. */
    ghost predicate Valid()
      reads this
    {
      WellFormed(Memory()) && fingerprints == Fingerprints(items) && Matches(qualifiers, items)
    }

    constructor ()
      ensures Valid() && Whole() == R.FRESH
    {
      items, fingerprints, qualifiers := map[], map[], map[];
      deleted, receipts, generation := map[], map[], 1;
      poisoned, open, disk, cursor, history := false, true, R.Disk([], false), R.End, [];
    }

    /** `removeSource`: take a stored source out of the derived tables; the items are not touched. */
    method RemoveSource(id: string)
      requires Tidy(qualifiers)
      modifies this`qualifiers, this`fingerprints
      ensures Left(old(qualifiers), qualifiers, if id in items then items[id].relations else [], id)
      ensures fingerprints == old(fingerprints) - {id}
    {
      var relations := if id in items then items[id].relations else [];
      for i := 0 to |relations|
        invariant Left(old(qualifiers), qualifiers, relations[..i], id)
        invariant fingerprints == old(fingerprints)
      {
        var r := relations[i];
        if r.kind == QUALIFIES {
          LeaveStep(old(qualifiers), qualifiers, relations[..i], r, id);
          var rest := Bucket(qualifiers, r.target) - {id};
          qualifiers := if rest == {} then qualifiers - {r.target} else qualifiers[r.target := rest];
        } else {
          LeaveStep(old(qualifiers), qualifiers, relations[..i], r, id);
        }
        assert relations[..i + 1] == relations[..i] + [r];
      }
      assert relations[..|relations|] == relations;
      fingerprints := fingerprints - {id};
    }

    /** `setItem`: put a version in place of what was stored under its identifier. */
    method SetItem(v: Information)
      requires fingerprints == Fingerprints(items) && Matches(qualifiers, items)
      modifies this`items, this`qualifiers, this`fingerprints
      ensures items == old(items)[v.id := v]
      ensures fingerprints == Fingerprints(items) && Matches(qualifiers, items)
    {
      ghost var others := items - {v.id};
      RemoveSource(v.id);
      LeftMatches(old(qualifiers), qualifiers, items, v.id);
      ghost var start := qualifiers;
      items := items[v.id := v];
      fingerprints := fingerprints[v.id := Digest(v)];
      EnterRelations(v);
      EnteredMatches(start, qualifiers, others, v);
      assert others[v.id := v] == items;
    }

    /** Enter an asset under everything it qualifies. */
    method EnterRelations(v: Information)
      requires Tidy(qualifiers)
      modifies this`qualifiers
      ensures Entered(old(qualifiers), qualifiers, v.relations, v.id)
    {
      for i := 0 to |v.relations|
        invariant Entered(old(qualifiers), qualifiers, v.relations[..i], v.id)
      {
        var r := v.relations[i];
        EnterStep(old(qualifiers), qualifiers, v.relations[..i], r, v.id);
        if r.kind == QUALIFIES {
          qualifiers := qualifiers[r.target := Bucket(qualifiers, r.target) + {v.id}];
        }
        assert v.relations[..i + 1] == v.relations[..i] + [r];
      }
      assert v.relations[..|v.relations|] == v.relations;
    }

    /** `ReadSource`: the asset with its fingerprint and every clarification of it, exactly those of a full
        ordered scan of the items. */
    method ReadSource(id: string) returns (r: Option<Option<(Information, Fingerprint, seq<Clarification>)>>)
      requires Valid()
      ensures r == if !open || poisoned then None
                   else if id !in items then Some(None)
                   else Some(Some((items[id], Digest(items[id]), Scan(items, id))))
    {
      if !open || poisoned {
        return None;
      }
      if id !in items {
        return Some(None);
      }
      var ids := Sorted(Bucket(qualifiers, id));
      IndexReadIsScan(qualifiers, items, id);
      var notes := Gather(ids, id);
      return Some(Some((items[id], fingerprints[id], notes)));
    }

    method Gather(ids: seq<string>, target: string) returns (notes: seq<Clarification>)
      requires fingerprints == Fingerprints(items) && forall id | id in ids :: id in items
      ensures notes == Collect(items, ids, target)
    {
      notes := [];
      for i := 0 to |ids|
        invariant notes == Collect(items, ids[..i], target)
      {
        assert ids[..i + 1][..i] == ids[..i];
        var more := NotesAbout(items[ids[i]], fingerprints[ids[i]], target);
        notes := notes + more;
      }
      assert ids[..|ids|] == ids;
    }

    static method NotesAbout(note: Information, fingerprint: Fingerprint, target: string) returns (notes: seq<Clarification>)
      requires fingerprint == Digest(note)
      ensures notes == Notes(note, note.relations, target)
    {
      notes := [];
      for j := 0 to |note.relations|
        invariant notes == Notes(note, note.relations[..j], target)
      {
        var r := note.relations[j];
        assert note.relations[..j + 1][..j] == note.relations[..j];
        if r.kind == QUALIFIES && r.target == target {
          notes := notes + [Clarification(note, fingerprint, r.selector)];
        }
      }
      assert note.relations[..|note.relations|] == note.relations;
    }

    /** `replayOperation`: the one way an operation record reaches memory, live or at recovery. */
    method ReplayOperation(e: Event) returns (r: Result<()>)
      requires Valid() && (e.Mutation? || e.OperationReceipt? || e.OperationGeneration?)
      modifies this`items, this`qualifiers, this`fingerprints, this`receipts, this`generation
      ensures Valid()
      ensures r == match Apply(old(Memory()), e) case Ok(_) => Ok(()) case Err(error) => Err(error)
      ensures Memory() == if Apply(old(Memory()), e).Ok? then Apply(old(Memory()), e).value else old(Memory())
    {
      ghost var st := Memory();
      if Apply(st, e).Ok? { ApplyKeepsWellFormed(st, e); }
      if e.OperationGeneration? {
        if e.generation <= generation {
          return Err(NotIncreasing);
        }
        generation, receipts := e.generation, map[];
        return Ok(());
      }
      var op := e.receipt.operation;
      var found := Lookup(Memory(), op);
      if found.Err? {
        return Err(found.error);
      }
      if found.value.Some? {
        return Err(AlreadyCommitted);
      }
      if e.Mutation? {
        if !AcceptsMutation(Memory(), e.receipt, e.values, e.expected) {
          return Err(Rejected);
        }
        PutValues(e.values);
      }
      receipts := receipts[op.Key() := e.receipt];
      return Ok(());
    }

    method PutValues(values: seq<Information>)
      requires fingerprints == Fingerprints(items) && Matches(qualifiers, items)
      modifies this`items, this`qualifiers, this`fingerprints
      ensures fingerprints == Fingerprints(items) && Matches(qualifiers, items)
      ensures items == PutAll(old(items), values)
    {
      for i := 0 to |values|
        invariant fingerprints == Fingerprints(items) && Matches(qualifiers, items)
        invariant items == PutAll(old(items), values[..i])
      {
        assert values[..i + 1][..i] == values[..i];
        SetItem(values[i]);
      }
      assert values[..|values|] == values;
    }

    /** `replayDeletion`: all of the deletions or none of them. */
    method ReplayDeletion(e: Event) returns (r: Result<()>)
      requires Valid() && (e.Forget? || e.Forgotten?)
      modifies this`items, this`qualifiers, this`fingerprints, this`deleted
      ensures Valid()
      ensures r == match Apply(old(Memory()), e) case Ok(_) => Ok(()) case Err(error) => Err(error)
      ensures Memory() == if Apply(old(Memory()), e).Ok? then Apply(old(Memory()), e).value else old(Memory())
    {
      if !AcceptsDeletions(Memory(), e.deleted, e.Forget?) {
        return Err(Rejected);
      }
      ApplyKeepsWellFormed(Memory(), e);
      BuryAll(e.deleted);
      return Ok(());
    }

    method BuryAll(gone: seq<Deletion>)
      requires fingerprints == Fingerprints(items) && Matches(qualifiers, items)
      modifies this`items, this`qualifiers, this`fingerprints, this`deleted
      ensures fingerprints == Fingerprints(items) && Matches(qualifiers, items)
      ensures items == old(items) - DeletedIds(gone) && deleted == Bury(old(deleted), gone)
    {
      assert items - {} == items;
      for i := 0 to |gone|
        invariant fingerprints == Fingerprints(items) && Matches(qualifiers, items)
        invariant items == old(items) - DeletedIds(gone[..i])
        invariant deleted == Bury(old(deleted), gone[..i])
      {
        assert gone[..i + 1][..i] == gone[..i];
        assert gone[..i + 1] == gone[..i] + [gone[i]];
        assert DeletedIds(gone[..i + 1]) == DeletedIds(gone[..i]) + {gone[i].id};
        BuryOne(gone[i]);
      }
      assert gone[..|gone|] == gone;
    }

    method BuryOne(d: Deletion)
      requires fingerprints == Fingerprints(items) && Matches(qualifiers, items)
      modifies this`items, this`qualifiers, this`fingerprints, this`deleted
      ensures fingerprints == Fingerprints(items) && Matches(qualifiers, items)
      ensures items == old(items) - {d.id} && deleted == old(deleted)[d.id := d.revision]
    {
      ghost var index := qualifiers;
      RemoveSource(d.id);
      LeftMatches(index, qualifiers, items, d.id);
      items := items - {d.id};
      deleted := deleted[d.id := d.revision];
    }

    /** Write one line where the file stands. */
    method Write(e: Event, write: R.Write, over: R.Over)
      modifies this`disk, this`cursor, this`history
      ensures disk == R.Written(old(disk), old(cursor), e, write, over) && cursor == R.Moved(old(disk), old(cursor))
      ensures history == if write == R.Synced || write == R.Unsynced then old(history) + [e] else old(history)
    {
      disk, cursor := R.Written(disk, cursor, e, write, over), R.Moved(disk, cursor);
      if write == R.Synced || write == R.Unsynced {
        history := history + [e];
      }
    }

    /** `appendOperationEvent`: write where the file stands, and on any doubt stop writing until the file has been
        replayed. */
    method AppendOperationEvent(e: Event, write: R.Write, over: R.Over) returns (reply: R.Reply)
      requires Valid() && (e.Mutation? || e.OperationGeneration?)
      modifies this
      ensures Valid()
      ensures (Whole(), reply) == R.AppendOutcome(old(Whole()), e, write, over)
    {
      if !open || poisoned {
        return R.NeedsRecovery;
      }
      if write == R.NotBegun {
        return R.Failed;
      }
      reply := WriteAndApply(e, write, over);
    }

    method WriteAndApply(e: Event, write: R.Write, over: R.Over) returns (reply: R.Reply)
      requires Valid() && (e.Mutation? || e.OperationGeneration?) && open && !poisoned && write != R.NotBegun
      modifies this
      ensures Valid()
      ensures (Whole(), reply) == R.AppendOutcome(old(Whole()), e, write, over)
    {
      Write(e, write, over);
      if write != R.Synced {
        poisoned := true;
        return R.Uncertain;
      }
      reply := ApplyWritten(e);
    }

    method ApplyWritten(e: Event) returns (reply: R.Reply)
      requires Valid() && (e.Mutation? || e.OperationGeneration?)
      modifies this`items, this`qualifiers, this`fingerprints, this`receipts, this`generation
      ensures Valid() && Memory() == R.AfterApply(old(Memory()), e)
      ensures reply == match Apply(old(Memory()), e) case Ok(_) => R.Done case Err(error) => R.Refused(error)
    {
      var replayed := ReplayOperation(e);
      return match replayed case Ok(_) => R.Done case Err(error) => R.Refused(error);
    }

    /** `CommitMutation`: an operation already committed changes nothing and succeeds; a full receipt table is
        emptied by a new generation, and the operation is told it has expired. */
    method CommitMutation(receipt: Receipt, values: seq<Information>, expected: seq<uint64>, write: R.Write, over: R.Over)
      returns (reply: R.Reply)
      requires Valid()
      modifies this
      ensures Valid()
      ensures (Whole(), reply) == R.CommitOutcome(old(Whole()), receipt, values, expected, write, over)
    {
      var found := Lookup(Memory(), receipt.operation);
      if found.Err? {
        return R.Refused(found.error);
      }
      if found.value.Some? {
        return R.Done;
      }
      if |receipts| >= OPERATION_LIMIT {
        reply := AppendOperationEvent(OperationGeneration(Next(generation)), write, over);
        return if reply == R.Done then R.Refused(Expired) else reply;
      }
      if !AcceptsMutation(Memory(), receipt, values, expected) {
        return R.Refused(Rejected);
      }
      reply := AppendOperationEvent(Mutation(receipt, values, expected), write, over);
    }

    /** Move to the end, write one record of a direct change and take the file back on failure, if it can be. */
    method WriteOrRollBack(e: Event, write: R.Write, back: R.Rollback) returns (written: bool)
      modifies this`disk, this`cursor, this`history
      ensures (written <==> write == R.Synced) && cursor == R.End
      ensures disk == if !written && back == R.RolledBack then old(disk) else R.After(old(disk), e, write)
      ensures history == if written || (write == R.Unsynced && back == R.Stuck) then old(history) + [e] else old(history)
    {
      var offset := disk;
      cursor := R.End;
      disk := R.After(disk, e, write);
      if write == R.Synced || (write == R.Unsynced && back == R.Stuck) {
        history := history + [e];
      }
      if write == R.Synced {
        return true;
      }
      if back == R.RolledBack {
        disk := offset;
      }
      return false;
    }

    /** `Delete`: forget a batch of assets, all or none. */
    method Delete(gone: seq<Deletion>, write: R.Write, back: R.Rollback) returns (reply: R.Reply)
      requires Valid()
      modifies this
      ensures Valid()
      ensures (Whole(), reply) == R.DirectOutcome(old(Whole()), Forget(gone), write, back)
    {
      if !open || poisoned {
        return R.Failed;
      }
      if !AcceptsDeletions(Memory(), gone, true) {
        return R.Refused(Rejected);
      }
      if write == R.NotBegun {
        return R.Failed;
      }
      var written := WriteOrRollBack(Forget(gone), write, back);
      if !written {
        return R.Failed;
      }
      var _ := ReplayDeletion(Forget(gone));
      return R.Done;
    }

    /** `Create` */
    method Create(v: Information, write: R.Write, back: R.Rollback) returns (reply: R.Reply)
      requires Valid()
      modifies this
      ensures Valid()
      ensures (Whole(), reply) == R.DirectOutcome(old(Whole()), Event.Create(v), write, back)
    {
      reply := Put(Event.Create(v), write, back);
    }

    /** `Update`, of the revision its caller has seen. */
    method Update(v: Information, expected: uint64, write: R.Write, back: R.Rollback) returns (reply: R.Reply)
      requires Valid()
      modifies this
      ensures Valid()
      ensures (Whole(), reply)
              == if v.id in old(items) && old(items)[v.id].revision == expected
                 then R.DirectOutcome(old(Whole()), Event.Update(v), write, back) else (old(Whole()), R.Refused(Rejected))
    {
      if v.id !in items || items[v.id].revision != expected {
        return R.Refused(Rejected);
      }
      reply := Put(Event.Update(v), write, back);
    }

    /** One version, written on its own after its checks. */
    method Put(e: Event, write: R.Write, back: R.Rollback) returns (reply: R.Reply)
      requires Valid() && (e.Create? || e.Update?)
      modifies this
      ensures Valid()
      ensures (Whole(), reply) == R.DirectOutcome(old(Whole()), e, write, back)
    {
      var accepted := Checked(e);
      if !accepted {
        return R.Refused(Rejected);
      }
      if !open || poisoned || write == R.NotBegun {
        return R.Failed;
      }
      reply := PutAccepted(e, write, back);
    }

    method PutAccepted(e: Event, write: R.Write, back: R.Rollback) returns (reply: R.Reply)
      requires Valid() && (e.Create? || e.Update?) && Apply(Memory(), e).Ok? && open && !poisoned && write != R.NotBegun
      modifies this
      ensures Valid() && (Whole(), reply) == R.DirectOutcome(old(Whole()), e, write, back)
    {
      PutOutcome(Whole(), e, write, back);
      var written := WriteOrRollBack(e, write, back);
      if !written {
        return R.Failed;
      }
      SetItem(e.value);
      return R.Done;
    }

    static lemma PutOutcome(s: R.Store, e: Event, write: R.Write, back: R.Rollback)
      requires WellFormed(s.memory) && (e.Create? || e.Update?) && Apply(s.memory, e).Ok? && s.open && !s.poisoned
      requires write != R.NotBegun
      ensures var now := s.memory.(items := s.memory.items[e.value.id := e.value]);
              && WellFormed(now)
              && R.DirectOutcome(s, e, write, back)
                 == if write == R.Synced then (R.Store(now, R.After(s.disk, e, write), s.history + [e], false, true, R.End), R.Done)
                    else if back == R.RolledBack then (s.(cursor := R.End), R.Failed)
                    else (s.(disk := R.After(s.disk, e, write), cursor := R.End,
                             history := if write == R.Unsynced then s.history + [e] else s.history), R.Failed)
    {
      ApplyKeepsWellFormed(s.memory, e);
    }

    /** The checks on a single version, in the order they are made, live and at replay. */
    method Checked(e: Event) returns (ok: bool)
      requires Valid() && (e.Create? || e.Update? || e.Snapshot?)
      ensures ok <==> Apply(Memory(), e).Ok?
    {
      var v := e.value;
      if !v.Valid() || Tombstone(deleted, v.id) != 0 {
        return false;
      }
      match e
      case Create(_) => return v.id !in items && v.revision == 1;
      case Update(_) =>
        if v.id !in items {
          return false;
        }
        return v.revision == Next(items[v.id].revision) && v.created == items[v.id].created;
      case Snapshot(_) => return v.id !in items;
    }

    /** `Compact`: write a new file, close the old one, put the new one in its place and open what is there. */
    method Compact(outcome: R.Compaction) returns (reply: R.Reply)
      requires Valid()
      modifies this`disk, this`cursor, this`open
      ensures (Whole(), reply) == R.CompactOutcome(old(Whole()), outcome)
    {
      if !open || poisoned || outcome == R.Untouched {
        return R.Failed;
      }
      if outcome == R.KeptAtStart || outcome == R.KeptClosed {
        if outcome == R.KeptClosed {
          open := false;
        } else {
          cursor := R.Before(0);
        }
        return R.Failed;
      }
      disk, cursor := R.AsFile(AssetSnapshot.LiveSnapshot(Memory())), R.End;
      if outcome == R.ReplacedClosed {
        open := false;
        return R.Failed;
      }
      if outcome == R.ReplacedAtStart {
        cursor := R.Before(0);
        return R.Failed;
      }
      return R.Done;
    }

    method Clear()
      modifies this`items, this`qualifiers, this`fingerprints, this`deleted, this`receipts, this`generation
      ensures Valid() && Memory() == EMPTY
    {
      items, fingerprints, qualifiers := map[], map[], map[];
      deleted, receipts, generation := map[], map[], 1;
    }

    /** The process stops at any moment and the store is opened again. */
    method Reopen() returns (reply: R.Reply)
      requires Valid()
      modifies this
      ensures Valid()
      ensures var (after, expected) := R.ReopenOutcome(old(Whole()));
              reply == expected && disk == after.disk && history == after.history && open == after.open
              && (reply == R.Done ==> Whole() == after)
    {
      disk := disk.(torn := false);
      Clear();
      if !disk.Parses() {
        open := false;
        return R.Failed;
      }
      poisoned, cursor := false, R.End;
      var readable := ReplayAll(disk.Events());
      open := readable;
      return if readable then R.Done else R.Failed;
    }

    /** `replay`: every record of the file, in order, until one is refused. */
    method ReplayAll(events: seq<Event>) returns (ok: bool)
      requires Valid() && Memory() == EMPTY
      modifies this`items, this`qualifiers, this`fingerprints, this`deleted, this`receipts, this`generation
      ensures Valid()
      ensures ok <==> Replay(EMPTY, events).Ok?
      ensures ok ==> Replay(EMPTY, events) == Ok(Memory())
    {
      assert events[..0] == [];
      for i := 0 to |events|
        invariant Valid()
        invariant Replay(EMPTY, events[..i]) == Ok(Memory())
      {
        assert events[..i + 1][..i] == events[..i];
        var replayed := ReplayEvent(events[i]);
        if !replayed {
          if Replay(EMPTY, events).Ok? { PrefixReplays(EMPTY, events, i + 1); }
          return false;
        }
      }
      assert events[..|events|] == events;
      return true;
    }

    /** One turn of `replay`. */
    method ReplayEvent(e: Event) returns (ok: bool)
      requires Valid()
      modifies this`items, this`qualifiers, this`fingerprints, this`deleted, this`receipts, this`generation
      ensures Valid()
      ensures ok <==> Apply(old(Memory()), e).Ok?
      ensures Memory() == if ok then Apply(old(Memory()), e).value else old(Memory())
    {
      if e.Forget? || e.Forgotten? {
        var r := ReplayDeletion(e);
        return r.Ok?;
      }
      if e.Mutation? || e.OperationReceipt? || e.OperationGeneration? {
        var r := ReplayOperation(e);
        return r.Ok?;
      }
      if Apply(Memory(), e).Ok? { ApplyKeepsWellFormed(Memory(), e); }
      ok := Checked(e);
      if ok {
        SetItem(e.value);
      }
    }
  }
}
