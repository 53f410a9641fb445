/** The store with its log file, one operation at a time and over whole runs: writes that end half way, compactions
    that do, recovery, and what stays true through all of them. */
module AssetRuns {
  import opened Options
  import opened AssetLog
  import opened AssetHistory
  import opened AssetOverwrite
  import opened AssetSnapshot
  import opened Ordering
  import opened Text

  /** A line of the log file: a record, or bytes that do not parse. */
  datatype Line = Record(event: Event) | Garbled

  /** The log file: its complete lines, and whether an unfinished line follows them. */
  datatype Disk = Disk(lines: seq<Line>, torn: bool)
  {
    predicate Parses() {
      forall l | l in lines :: l.Record?
    }

    function Events(): seq<Event>
      requires Parses()
    {
      seq(|lines|, i requires 0 <= i < |lines| => lines[i].event)
    }
  }

  /** How a write and its sync end: acknowledged; failed with nothing, part, or all of the line written; or not begun,
      because the manifest's format could not be switched or the end of the file not found. */
  datatype Write = Synced | Nothing | Partial | Unsynced | NotBegun

  /** How the truncation after a failed direct write ends. */
  datatype Rollback = RolledBack | Stuck

  /** What the file holds after one line is written, before any rollback. */
  function After(d: Disk, e: Event, w: Write): Disk {
    match w
    case Nothing => d
    case NotBegun => d
    case Partial => d.(torn := true)
    case _ => Disk(d.lines + [if d.torn then Garbled else Record(e)], false)
  }

  /** Where the open file is written next: after everything, or over what stands from this line on. */
  datatype Cursor = End | Before(line: nat)

  /** How far a line written over others reaches: how many it destroys, and whether it ends where the last of them
      ended. */
  datatype Over = Over(lines: nat, exact: bool)

  predicate AtEnd(d: Disk, c: Cursor) {
    c.End? || (|d.lines| <= c.line && !d.torn)
  }

  /** The number of lines destroyed from `line` on: all that is reached, the first at least. A generation record is
      shorter than any record with a receipt, so it cannot reach over a full table of them. */
  function Reach(d: Disk, line: nat, e: Event, over: Over): (k: nat)
    requires line <= |d.lines|
    ensures k <= |d.lines| - line && (line < |d.lines| ==> k > 0) && (e.OperationGeneration? ==> k < OPERATION_LIMIT)
  {
    var left := |d.lines| - line;
    var lines := if e.OperationGeneration? && over.lines >= OPERATION_LIMIT then OPERATION_LIMIT - 1 else over.lines;
    if lines > left then left else if lines == 0 && left > 0 then 1 else lines
  }

  /** What the file holds after one line is written at the cursor. Over other lines, the remains of the last line
      reached do not parse, nor does a part of the new line with what it did not reach. */
  function Written(d: Disk, c: Cursor, e: Event, w: Write, over: Over): Disk {
    if AtEnd(d, c) || |d.lines| < c.line then After(d, e, w)
    else
      var k := Reach(d, c.line, e, over);
      var head, rest := d.lines[..c.line], d.lines[c.line + k..];
      var cut := over.exact && rest == [];
      match w
      case Nothing => d
      case NotBegun => d
      case Partial => if cut then Disk(head, true) else Disk(head + [Garbled] + rest, d.torn)
      case _ => Disk(head + [Record(e)] + (if over.exact then [] else [Garbled]) + rest, d.torn && !cut)
  }

  function Moved(d: Disk, c: Cursor): Cursor {
    if AtEnd(d, c) then End else Before(c.line + 1)
  }

  /** The store as a value: memory, file, and (for specification) every record ever made durable. */
  datatype Store = Store(memory: State, disk: Disk, history: seq<Event>, poisoned: bool, open: bool, cursor: Cursor)

  const FRESH := Store(EMPTY, Disk([], false), [], false, true, End)

  datatype Reply = Done | Refused(error: Error) | NeedsRecovery | Uncertain | Failed

  /** What `CommitMutation` decides before it writes. */
  datatype Plan = Refuse(error: Error) | Already | Append(event: Event)

  function CommitPlan(st: State, receipt: Receipt, values: seq<Information>, expected: seq<uint64>): Plan {
    match Lookup(st, receipt.operation)
    case Err(error) => Refuse(error)
    case Ok(Some(_)) => Already
    case Ok(None) =>
      if |st.receipts| >= OPERATION_LIMIT then Append(OperationGeneration(Next(st.generation)))
      else if AcceptsMutation(st, receipt, values, expected) then Append(Mutation(receipt, values, expected))
      else Refuse(Rejected)
  }

  function AfterApply(st: State, e: Event): State {
    match Apply(st, e) case Ok(after) => after case Err(_) => st
  }

  /** `appendOperationEvent`: write where the file stands, and on any doubt stop writing until the file has been
      replayed. */
  function AppendOutcome(s: Store, e: Event, w: Write, over: Over): (Store, Reply) {
    if !s.open || s.poisoned then (s, NeedsRecovery)
    else if w == NotBegun then (s, Failed)
    else
      var written := s.(disk := Written(s.disk, s.cursor, e, w, over), cursor := Moved(s.disk, s.cursor),
                        history := if w == Synced || w == Unsynced then s.history + [e] else s.history);
      if w != Synced then (written.(poisoned := true), Uncertain)
      else (written.(memory := AfterApply(s.memory, e)),
            match Apply(s.memory, e) case Ok(_) => Done case Err(error) => Refused(error))
  }

  /** `CommitMutation` */
  function CommitOutcome(s: Store, receipt: Receipt, values: seq<Information>, expected: seq<uint64>, w: Write, over: Over)
    : (Store, Reply)
  {
    match CommitPlan(s.memory, receipt, values, expected)
    case Refuse(error) => (s, Refused(error))
    case Already => (s, Done)
    case Append(e) =>
      var (after, reply) := AppendOutcome(s, e, w, over);
      (after, if e.OperationGeneration? && reply == Done then Refused(Expired) else reply)
  }

  /** `Delete`, `Create` and `Update`: one record, after a move to the end of the file, taken back when its write
      fails, if it can be. A version is checked before the store's own condition is, a deletion after. */
  function DirectOutcome(s: Store, e: Event, w: Write, back: Rollback): (Store, Reply) {
    if !e.Forget? && Apply(s.memory, e).Err? then (s, Refused(Rejected))
    else if !s.open || s.poisoned then (s, Failed)
    else if Apply(s.memory, e).Err? then (s, Refused(Rejected))
    else if w == NotBegun then (s, Failed)
    else if w == Synced then (Store(AfterApply(s.memory, e), After(s.disk, e, w), s.history + [e], false, true, End), Done)
    else if back == RolledBack then (s.(cursor := End), Failed)
    else (s.(disk := After(s.disk, e, w), cursor := End,
             history := if w == Unsynced then s.history + [e] else s.history), Failed)
  }

  /** How a compaction ends: before the old file is closed; with the old file kept, because the new one could not take
      its place, and opened again at its start or not at all; or with the new file, open at its end, at its start, or
      not at all. */
  datatype Compaction = Untouched | KeptAtStart | KeptClosed | Replaced | ReplacedAtStart | ReplacedClosed

  /** `Compact` */
  function CompactOutcome(s: Store, c: Compaction): (Store, Reply) {
    if !s.open || s.poisoned then (s, Failed)
    else
      var replaced := s.(disk := AsFile(LiveSnapshot(s.memory)), cursor := End);
      match c
      case Untouched => (s, Failed)
      case KeptAtStart => (s.(cursor := Before(0)), Failed)
      case KeptClosed => (s.(open := false), Failed)
      case Replaced => (replaced, Done)
      case ReplacedAtStart => (replaced.(cursor := Before(0)), Failed)
      case ReplacedClosed => (replaced.(open := false), Failed)
  }

  function AsFile(events: seq<Event>): (d: Disk)
    ensures d.Parses() && !d.torn && d.Events() == events
  {
    var d := Disk(seq(|events|, i requires 0 <= i < |events| => Record(events[i])), false);
    assert d.Events() == events;
    d
  }

  /** The process stops and the store is opened again: an unfinished last line is dropped, the rest replayed. */
  function ReopenOutcome(s: Store): (Store, Reply) {
    var d := s.disk.(torn := false);
    if d.Parses() && Replay(EMPTY, d.Events()).Ok?
    then (Store(Replay(EMPTY, d.Events()).value, d, s.history, false, true, End), Done)
    else (s.(disk := d, open := false), Failed)
  }

  // ---------------------------------------------------------------- one step

  /** The file and the history of the store mean the same store, within the receipt bound. */
  ghost predicate Durable(d: Disk, history: seq<Event>) {
    && d.Parses() && Headed(d.Events())
    && (forall e | e in history :: Live(e))
    && Replay(EMPTY, history).Ok?
    && Replay(EMPTY, d.Events()) == Replay(EMPTY, history)
    && |Replay(EMPTY, history).value.receipts| <= OPERATION_LIMIT
  }

  /** File, history and memory agree: memory is the replay of the file, except that a poisoned store may lack
      the one record whose write was not acknowledged. */
  ghost predicate InStep(s: Store) {
    && Durable(s.disk, s.history)
    && (!s.poisoned ==> !s.disk.torn && (s.cursor == End || s.cursor == Before(0)))
    && (Replay(EMPTY, s.history) == Ok(s.memory)
        || (s.poisoned && s.history != [] && Replay(EMPTY, s.history[..|s.history| - 1]) == Ok(s.memory)))
  }

  lemma DurableAppend(d: Disk, history: seq<Event>, e: Event)
    requires Durable(d, history) && !d.torn && Live(e)
    requires Apply(Replay(EMPTY, history).value, e).Ok?
    requires |Apply(Replay(EMPTY, history).value, e).value.receipts| <= OPERATION_LIMIT
    ensures Durable(Disk(d.lines + [Record(e)], false), history + [e])
    ensures Replay(EMPTY, history + [e]) == Apply(Replay(EMPTY, history).value, e)
  {
    OneMoreLine(d, e);
    HeadedStays(d.Events(), e);
    ReplaySnoc(EMPTY, d.Events(), e);
    ReplaySnoc(EMPTY, history, e);
  }

  lemma OneMoreLine(d: Disk, e: Event)
    requires d.Parses()
    ensures var after := Disk(d.lines + [Record(e)], false); after.Parses() && after.Events() == d.Events() + [e]
  {
    var after := Disk(d.lines + [Record(e)], false);
    assert after.Events() == d.Events() + [e];
  }

  /** A record that cannot be replayed has no place in any file. */
  lemma NotDurableAfter(d: Disk, e: Event, history: seq<Event>)
    requires Replay(EMPTY, history).Ok? && Apply(Replay(EMPTY, history).value, e).Err?
    ensures !Durable(d, history + [e])
  {
    ReplaySnoc(EMPTY, history, e);
  }

  lemma OneMoreReceipt(st: State, e: Event)
    requires e.Mutation? && Apply(st, e).Ok?
    ensures |Apply(st, e).value.receipts| == |st.receipts| + 1
  {
    var key := e.receipt.operation.Key();
    var after := st.receipts[key := e.receipt];
    assert key !in st.receipts && after.Keys == st.receipts.Keys + {key};
    assert |after| == |after.Keys| && |st.receipts| == |st.receipts.Keys|;
  }

  /** A full table at the last generation: the one commit whose record wraps. */
  predicate Wraps(st: State, receipt: Receipt) {
    Lookup(st, receipt.operation) == Ok(None) && |st.receipts| >= OPERATION_LIMIT && st.generation == MAX_UINT64
  }

  /** Every record that passes the checks of a commit replays, except the generation record of a full table
      at the last generation; and the receipt bound is kept. */
  lemma PlannedCommitReplays(st: State, receipt: Receipt, values: seq<Information>, expected: seq<uint64>)
    requires WellFormed(st) && |st.receipts| <= OPERATION_LIMIT
    requires CommitPlan(st, receipt, values, expected).Append?
    ensures var e := CommitPlan(st, receipt, values, expected).event;
            && Live(e)
            && (Apply(st, e).Ok? <==> !Wraps(st, receipt))
            && (Apply(st, e).Ok? ==> |Apply(st, e).value.receipts| <= OPERATION_LIMIT)
  {
    var e := CommitPlan(st, receipt, values, expected).event;
    if |st.receipts| < OPERATION_LIMIT {
      assert e == Mutation(receipt, values, expected);
      OneMoreReceipt(st, e);
    }
  }

  /** A commit that has something to write, after a failed compaction left the file open at its start. */
  predicate Overwrites(s: Store, receipt: Receipt, values: seq<Information>, expected: seq<uint64>) {
    s.open && !s.poisoned && !AtEnd(s.disk, s.cursor) && CommitPlan(s.memory, receipt, values, expected).Append?
  }

  /** The file after a record was written over its head. */
  lemma HeadOverwritten(d: Disk, e: Event, over: Over)
    requires d.Parses() && !d.torn && d.lines != []
    ensures var k, after := Reach(d, 0, e, over), Written(d, Before(0), e, Synced, over);
            && 0 < k <= |d.Events()|
            && (after.Parses() ==> after.Events() == [e] + d.Events()[k..])
  {
    var k, after := Reach(d, 0, e, over), Written(d, Before(0), e, Synced, over);
    assert !over.exact ==> after.lines[1] == Garbled && after.lines[1] in after.lines;
    if after.Parses() {
      assert after.lines == [Record(e)] + d.lines[k..];
      assert after.Events() == [e] + d.Events()[k..];
    }
  }

  lemma OverwrittenRecord(s: Store, e: Event, over: Over)
    requires InStep(s) && WellFormed(s.memory) && !s.poisoned && !AtEnd(s.disk, s.cursor)
    requires Apply(s.memory, e).Ok?
    requires e.Mutation? || (e.OperationGeneration? && |s.memory.receipts| >= OPERATION_LIMIT)
    ensures !Durable(Written(s.disk, s.cursor, e, Synced, over), s.history + [e])
  {
    var after, log := Written(s.disk, s.cursor, e, Synced, over), s.disk.Events();
    var k := Reach(s.disk, 0, e, over);
    HeadOverwritten(s.disk, e, over);
    ReplaySnoc(EMPTY, s.history, e);
    if after.Parses() {
      if e.Mutation? { MutationOverwrites(log, k, e); } else { GenerationOverwrites(log, k, e.generation); }
    }
  }

  /** Nor does a file survive a part of a record over its head. */
  lemma OverwrittenPart(s: Store, e: Event, over: Over)
    requires InStep(s) && !s.poisoned && !AtEnd(s.disk, s.cursor)
    ensures !Durable(Written(s.disk, s.cursor, e, Partial, over), s.history)
  {
    var after := Written(s.disk, s.cursor, e, Partial, over);
    if after.lines == [] {
      assert after.Events() == [];
      LogLeavesTrace(s.disk.Events());
    } else {
      assert after.lines[0] == Garbled && after.lines[0] in after.lines;
    }
  }

  /** A commit leaves file, history and memory in step, whatever became of its write, exactly when its record did not
      have to wrap and was not written over the head of the file, or nothing of it reached the file. */
  lemma CommitInStep(s: Store, receipt: Receipt, values: seq<Information>, expected: seq<uint64>, w: Write, over: Over)
    requires InStep(s) && WellFormed(s.memory)
    ensures InStep(CommitOutcome(s, receipt, values, expected, w, over).0)
            <==> !(s.open && !s.poisoned && Wraps(s.memory, receipt) && (w == Synced || w == Unsynced))
                 && !(Overwrites(s, receipt, values, expected) && w != Nothing && w != NotBegun)
  {
    var plan := CommitPlan(s.memory, receipt, values, expected);
    if s.open && !s.poisoned && plan.Append? {
      PlannedCommitReplays(s.memory, receipt, values, expected);
      if AtEnd(s.disk, s.cursor) { AppendInStep(s, plan.event, w, over); } else { OverwriteInStep(s, plan.event, w, over); }
    }
  }

  lemma AppendInStep(s: Store, e: Event, w: Write, over: Over)
    requires InStep(s) && s.open && !s.poisoned && AtEnd(s.disk, s.cursor) && Live(e)
    requires Apply(s.memory, e).Ok? ==> |Apply(s.memory, e).value.receipts| <= OPERATION_LIMIT
    ensures InStep(AppendOutcome(s, e, w, over).0)
            <==> Apply(s.memory, e).Ok? || w == Nothing || w == Partial || w == NotBegun
  {
    assert (s.history + [e])[..|s.history|] == s.history;
    if Apply(s.memory, e).Ok? {
      DurableAppend(s.disk, s.history, e);
    } else {
      NotDurableAfter(After(s.disk, e, w), e, s.history);
    }
  }

  lemma OverwriteInStep(s: Store, e: Event, w: Write, over: Over)
    requires InStep(s) && WellFormed(s.memory) && s.open && !s.poisoned && !AtEnd(s.disk, s.cursor)
    requires e.Mutation? || (e.OperationGeneration? && |s.memory.receipts| >= OPERATION_LIMIT)
    ensures InStep(AppendOutcome(s, e, w, over).0) <==> w == Nothing || w == NotBegun
  {
    match w
    case Nothing =>
    case NotBegun =>
    case Partial => OverwrittenPart(s, e, over);
    case _ => OverwrittenWhole(s, e, w, over);
  }

  lemma OverwrittenWhole(s: Store, e: Event, w: Write, over: Over)
    requires InStep(s) && WellFormed(s.memory) && !s.poisoned && !AtEnd(s.disk, s.cursor) && (w == Synced || w == Unsynced)
    requires e.Mutation? || (e.OperationGeneration? && |s.memory.receipts| >= OPERATION_LIMIT)
    ensures !Durable(Written(s.disk, s.cursor, e, w, over), s.history + [e])
  {
    if Apply(s.memory, e).Ok? {
      OverwrittenRecord(s, e, over);
    } else {
      NotDurableAfter(Written(s.disk, s.cursor, e, w, over), e, s.history);
    }
  }

  /** The condition is not idle: once a compaction of a store with something in its file could not put the new file in
      place, the next commit that passes its checks is reported done, and the file no longer means what was committed. */
  lemma FailedReplacementOverwrites(s: Store, receipt: Receipt, values: seq<Information>, expected: seq<uint64>, over: Over)
    requires InStep(s) && s.open && !s.poisoned && s.disk.lines != []
    requires CommitPlan(s.memory, receipt, values, expected) == Append(Mutation(receipt, values, expected))
    ensures var kept := CompactOutcome(s, KeptAtStart).0;
            var (after, reply) := CommitOutcome(kept, receipt, values, expected, Synced, over);
            && InStep(kept) && reply == Done
            && Replay(EMPTY, after.history) == Ok(after.memory)
            && !(after.disk.Parses() && Replay(EMPTY, after.disk.Events()) == Ok(after.memory))
  {
    var e, kept := Mutation(receipt, values, expected), CompactOutcome(s, KeptAtStart).0;
    MemoryWellFormed(s);
    PlannedCommitReplays(s.memory, receipt, values, expected);
    HeadOverwritten(s.disk, e, over);
    ReplaySnoc(EMPTY, s.history, e);
    MutationOverwrites(s.disk.Events(), Reach(s.disk, 0, e, over), e);
  }

  /** A failed write whose remains stay in the file and are not what memory says. */
  predicate Strays(s: Store, e: Event, w: Write, back: Rollback) {
    && s.open && !s.poisoned && back == Stuck && Apply(s.memory, e).Ok?
    && (w == Partial || (w == Unsynced && Apply(s.memory, e).value != s.memory))
  }

  /** A direct change leaves file, history and memory in step exactly when no remains of a failed write
      stray. */
  lemma DirectInStep(s: Store, e: Event, w: Write, back: Rollback)
    requires InStep(s) && (e.Create? || e.Update? || e.Forget?)
    ensures InStep(DirectOutcome(s, e, w, back).0) <==> !Strays(s, e, w, back)
  {
    if s.open && !s.poisoned && Apply(s.memory, e).Ok? && w != NotBegun {
      DirectKeepsReceipts(s.memory, e);
      DurableAppend(s.disk, s.history, e);
      WrittenInStep(s, e, w, back);
    }
  }

  lemma WrittenInStep(s: Store, e: Event, w: Write, back: Rollback)
    requires InStep(s) && s.open && !s.poisoned && Apply(s.memory, e).Ok? && w != NotBegun
    requires Durable(Disk(s.disk.lines + [Record(e)], false), s.history + [e])
    requires Replay(EMPTY, s.history + [e]) == Apply(s.memory, e)
    ensures InStep(DirectOutcome(s, e, w, back).0) <==> !Strays(s, e, w, back)
  {
  }

  lemma DirectKeepsReceipts(st: State, e: Event)
    requires (e.Create? || e.Update? || e.Forget?) && Apply(st, e).Ok?
    ensures Apply(st, e).value.receipts == st.receipts && Live(e)
  {
  }

  /** The condition is not idle: a forgetting whose record reached the file, whose sync failed and whose
      rollback failed leaves memory with an asset the file has forgotten. */
  lemma FailedRollbackStrays(s: Store, v: Information)
    requires s.open && !s.poisoned && WellFormed(s.memory) && v.id in s.memory.items && s.memory.items[v.id] == v
    ensures Strays(s, Forget([Deletion(v.id, v.revision)]), Unsynced, Stuck)
  {
    var d := Deletion(v.id, v.revision);
    assert DeletedIds([d]) == {v.id} by { assert d in [d]; }
    assert v.Valid() && v.id !in s.memory.deleted;
    assert AcceptsDeletion(s.memory, d, true);
    assert v.id !in (s.memory.items - DeletedIds([d]));
  }

  lemma SnapshotIsHeaded(st: State)
    ensures Headed(LiveSnapshot(st))
  {
  }

  /** A compaction keeps file, history and memory in step however it ends. */
  lemma CompactInStep(s: Store, c: Compaction)
    requires InStep(s)
    ensures InStep(CompactOutcome(s, c).0)
  {
    if s.open && !s.poisoned { SnapshotIsDurable(s); }
  }

  lemma SnapshotIsDurable(s: Store)
    requires Durable(s.disk, s.history) && Replay(EMPTY, s.history) == Ok(s.memory)
    ensures Durable(AsFile(LiveSnapshot(s.memory)), s.history)
  {
    CompactionPreservesMeaning(s.history, []);
    SnapshotIsHeaded(s.memory);
  }

  /** Recovery from any point a store in step can stop at succeeds and yields the durable state. */
  lemma ReopenInStep(s: Store)
    requires InStep(s)
    ensures var (after, reply) := ReopenOutcome(s);
            InStep(after) && reply == Done && Ok(after.memory) == Replay(EMPTY, s.history)
  {
    assert s.disk.(torn := false).Events() == s.disk.Events();
  }

  // ---------------------------------------------------------------- whole runs

  datatype Step =
    | Commit(receipt: Receipt, values: seq<Information>, expected: seq<uint64>, write: Write, over: Over)
    | Direct(event: Event, write: Write, back: Rollback)
    | Compact(outcome: Compaction)
    | Crash

  predicate Possible(a: Step) {
    a.Direct? ==> a.event.Create? || a.event.Update? || a.event.Forget?
  }

  function Do(s: Store, a: Step): (Store, Reply) {
    match a
    case Commit(receipt, values, expected, w, over) => CommitOutcome(s, receipt, values, expected, w, over)
    case Direct(e, w, back) => DirectOutcome(s, e, w, back)
    case Compact(c) => CompactOutcome(s, c)
    case Crash => ReopenOutcome(s)
  }

  function Run(steps: seq<Step>): Store {
    if steps == [] then FRESH else Do(Run(steps[..|steps| - 1]), steps[|steps| - 1]).0
  }

  /** The three accidents after which file and memory part. */
  predicate Accident(s: Store, a: Step) {
    match a
    case Commit(receipt, values, expected, w, _) =>
      || (s.open && !s.poisoned && Wraps(s.memory, receipt) && (w == Synced || w == Unsynced))
      || (Overwrites(s, receipt, values, expected) && w != Nothing && w != NotBegun)
    case Direct(e, w, back) => Strays(s, e, w, back)
    case _ => false
  }

  predicate Uneventful(steps: seq<Step>) {
    forall i :: 0 <= i < |steps| ==> Possible(steps[i]) && !Accident(Run(steps[..i]), steps[i])
  }

  lemma MemoryWellFormed(s: Store)
    requires InStep(s)
    ensures WellFormed(s.memory)
  {
    if Replay(EMPTY, s.history) == Ok(s.memory) {
      ReplayKeepsWellFormed(EMPTY, s.history);
    } else {
      ReplayKeepsWellFormed(EMPTY, s.history[..|s.history| - 1]);
    }
  }

  lemma StepInStep(s: Store, a: Step)
    requires InStep(s) && WellFormed(s.memory) && Possible(a)
    ensures InStep(Do(s, a).0) <==> !Accident(s, a)
    ensures !Accident(s, a) ==> WellFormed(Do(s, a).0.memory)
  {
    match a {
      case Commit(receipt, values, expected, w, over) => CommitInStep(s, receipt, values, expected, w, over);
      case Direct(e, w, back) => DirectInStep(s, e, w, back);
      case Compact(c) => CompactInStep(s, c);
      case Crash => ReopenInStep(s);
    }
    var after := Do(s, a).0;
    if !Accident(s, a) { MemoryWellFormed(after); }
  }

  lemma UneventfulPrefix(steps: seq<Step>)
    requires Uneventful(steps) && steps != []
    ensures Uneventful(steps[..|steps| - 1])
    ensures !Accident(Run(steps[..|steps| - 1]), steps[|steps| - 1]) && Possible(steps[|steps| - 1])
  {
    var front := steps[..|steps| - 1];
    forall i | 0 <= i < |front| ensures Possible(front[i]) && !Accident(Run(front[..i]), front[i]) {
      assert front[..i] == steps[..i] && front[i] == steps[i];
    }
  }

  /** Over every run of commits, direct changes, compactions, failed writes, failed replacements and crashes without
      such an accident, the file replays to the history of the store, the receipt table keeps its bound, and memory
      equals the replay of the file while the store is not poisoned. */
  lemma {:induction false} RunsStayInStep(steps: seq<Step>)
    requires Uneventful(steps)
    ensures InStep(Run(steps)) && WellFormed(Run(steps).memory)
    ensures !Run(steps).poisoned ==> Replay(EMPTY, Run(steps).disk.Events()) == Ok(Run(steps).memory)
                                     && |Run(steps).memory.receipts| <= OPERATION_LIMIT
  {
    if steps == [] {
      assert FRESH.disk.Events() == [];
    } else {
      var front := steps[..|steps| - 1];
      UneventfulPrefix(steps);
      RunsStayInStep(front);
      StepInStep(Run(front), steps[|steps| - 1]);
    }
  }

  /** At most once, over runs: among all records the store ever made durable, no two mutations carry one
      operation identity. */
  lemma RunsCommitOnce(steps: seq<Step>, i: nat, j: nat)
    requires Uneventful(steps)
    requires i < j < |Run(steps).history| && Run(steps).history[i].Mutation? && Run(steps).history[j].Mutation?
    ensures Run(steps).history[i].receipt.operation != Run(steps).history[j].receipt.operation
  {
    RunsStayInStep(steps);
    AtMostOnce(EMPTY, Run(steps).history, i, j);
  }

  /** Revisions and forgetting, over runs: an asset's durable versions carry revisions 1, 2, 3, ... under one
      creation time, and memory holds the last of them unless the asset is forgotten. */
  lemma RunsKeepRevisions(steps: seq<Step>, id: string)
    requires Uneventful(steps) && !Run(steps).poisoned
    ensures Tracks(Run(steps).memory, VersionsOf(Run(steps).history, id), id)
  {
    RunsStayInStep(steps);
    RevisionsRunInOrder(Run(steps).history, id);
  }

  lemma AppendHistory(s: Store, e: Event, w: Write, over: Over)
    ensures AppendOutcome(s, e, w, over).0.history in {s.history, s.history + [e]}
  {
  }

  lemma DirectHistory(s: Store, e: Event, w: Write, back: Rollback)
    ensures DirectOutcome(s, e, w, back).0.history in {s.history, s.history + [e]}
  {
  }

  lemma OtherHistory(s: Store, a: Step)
    requires a.Compact? || a.Crash?
    ensures Do(s, a).0.history == s.history
  {
  }

  lemma HistoryStays(s: Store, a: Step)
    ensures s.history <= Do(s, a).0.history
  {
    match a
    case Commit(receipt, values, expected, w, over) =>
      var plan := CommitPlan(s.memory, receipt, values, expected);
      if plan.Append? { AppendHistory(s, plan.event, w, over); }
    case Direct(e, w, back) => DirectHistory(s, e, w, back);
    case _ => OtherHistory(s, a);
  }

  lemma {:induction false} HistoryGrows(steps: seq<Step>, more: seq<Step>)
    ensures Run(steps).history <= Run(steps + more).history
    decreases |more|
  {
    if more == [] {
      assert steps + more == steps;
    } else {
      assert (steps + more)[..|steps + more| - 1] == steps + more[..|more| - 1];
      HistoryGrows(steps, more[..|more| - 1]);
      HistoryStays(Run(steps + more[..|more| - 1]), more[|more| - 1]);
    }
  }

  /** What a run has committed a longer run still answers from: a committed operation is found with its first
      receipt or refused, in every later unpoisoned state, so a retry never commits again. */
  lemma CommittedStaysAnswered(steps: seq<Step>, more: seq<Step>, i: nat)
    requires Uneventful(steps + more) && !Run(steps + more).poisoned
    requires i < |Run(steps).history| && Run(steps).history[i].Mutation?
    ensures var receipt := Run(steps).history[i].receipt;
            var now := Run(steps + more).memory;
            if receipt.operation.generation == now.generation then Lookup(now, receipt.operation) == Ok(Some(receipt))
            else Lookup(now, receipt.operation).Err?
  {
    HistoryGrows(steps, more);
    RunsStayInStep(steps + more);
    RetryFindsFirstReceipt(EMPTY, Run(steps + more).history, i);
  }
}
