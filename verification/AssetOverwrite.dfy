/** A record written over the head of a log instead of after its end: what is left never means what the log and the
    record meant. */
module AssetOverwrite {
  import opened Options
  import opened AssetLog
  import opened AssetHistory

  /** A record of tombstones stands only in the head that a compaction wrote, after generation and receipts. */
  ghost predicate Headed(log: seq<Event>) {
    forall i, j :: 0 <= i < j < |log| && log[j].Forgotten? ==> log[i].OperationGeneration? || log[i].OperationReceipt?
  }

  lemma HeadedStays(log: seq<Event>, e: Event)
    requires Headed(log) && !e.Forgotten?
    ensures Headed(log + [e])
  {
  }

  predicate HasReceipt(e: Event) {
    e.Mutation? || e.OperationReceipt?
  }

  function Receipts(log: seq<Event>): nat {
    if log == [] then 0
    else Receipts(log[..|log| - 1]) + if HasReceipt(log[|log| - 1]) then 1 else 0
  }

  lemma {:induction false} ReceiptsConcat(a: seq<Event>, b: seq<Event>)
    ensures Receipts(a + b) == Receipts(a) + Receipts(b)
    decreases |b|
  {
    if b == [] {
      assert a + b == a;
    } else {
      assert (a + b)[..|a + b| - 1] == a + b[..|b| - 1];
      ReceiptsConcat(a, b[..|b| - 1]);
    }
  }

  lemma {:induction false} FewReceipts(log: seq<Event>)
    ensures Receipts(log) <= |log|
  {
    if log != [] { FewReceipts(log[..|log| - 1]); }
  }

  lemma {:induction false} NoReceipts(log: seq<Event>, i: nat)
    requires Receipts(log) == 0 && i < |log|
    ensures !HasReceipt(log[i])
  {
    var n := |log| - 1;
    if i < n { NoReceipts(log[..n], i); }
  }

  // ---------------------------------------------------------------- generations

  lemma {:induction false} GenerationGrows(st: State, log: seq<Event>)
    requires Replay(st, log).Ok?
    ensures st.generation <= Replay(st, log).value.generation
  {
    if log != [] { GenerationGrows(st, log[..|log| - 1]); }
  }

  /** The states before and after the last record of a log. */
  lemma LastStep(st: State, log: seq<Event>) returns (before: State, after: State)
    requires log != [] && Replay(st, log).Ok?
    ensures Replay(st, log[..|log| - 1]) == Ok(before) && Replay(st, log) == Ok(after)
    ensures Apply(before, log[|log| - 1]) == Ok(after)
  {
    before, after := Replay(st, log[..|log| - 1]).value, Replay(st, log).value;
  }

  /** A log that ends in the generation it began in: its table grows by its receipts. */
  lemma {:induction false} SameGeneration(st: State, log: seq<Event>)
    requires Replay(st, log).Ok? && Replay(st, log).value.generation == st.generation
    ensures |Replay(st, log).value.receipts| == |st.receipts| + Receipts(log)
  {
    if log != [] {
      var before, after := LastStep(st, log);
      GenerationGrows(st, log[..|log| - 1]);
      SameGenerationStep(before, log[|log| - 1], st.generation);
      SameGeneration(st, log[..|log| - 1]);
    }
  }

  /** Nor does its first record begin a generation. */
  lemma FirstKeepsGeneration(st: State, log: seq<Event>)
    requires log != [] && Replay(st, log).Ok? && Replay(st, log).value.generation == st.generation
    ensures !log[0].OperationGeneration?
  {
    StepOfReplay(st, log, 0);
    var first := Replay(st, log[..1]).value;
    ReplayConcat(st, log[..1], log[1..]);
    GenerationGrows(first, log[1..]);
    GenerationGrows(st, log[..1]);
    SameGenerationStep(st, log[0], st.generation);
  }

  lemma SameGenerationStep(st: State, e: Event, start: uint64)
    requires Apply(st, e).Ok? && start <= st.generation && Apply(st, e).value.generation == start
    ensures st.generation == start && !e.OperationGeneration?
    ensures |Apply(st, e).value.receipts| == |st.receipts| + if HasReceipt(e) then 1 else 0
  {
    if HasReceipt(e) {
      var key := e.receipt.operation.Key();
      var after := st.receipts[key := e.receipt];
      assert key !in st.receipts && after.Keys == st.receipts.Keys + {key};
      assert |after| == |after.Keys| && |st.receipts| == |st.receipts.Keys|;
    }
  }

  lemma {:induction false} TableIsBounded(st: State, log: seq<Event>)
    requires Replay(st, log).Ok?
    ensures |Replay(st, log).value.receipts| <= |st.receipts| + Receipts(log)
  {
    if log != [] {
      var before, after := LastStep(st, log);
      TableIsBounded(st, log[..|log| - 1]);
      TableStep(before, log[|log| - 1]);
    }
  }

  lemma TableStep(st: State, e: Event)
    requires Apply(st, e).Ok?
    ensures |Apply(st, e).value.receipts| <= |st.receipts| + if HasReceipt(e) then 1 else 0
  {
    if !e.OperationGeneration? { SameGenerationStep(st, e, st.generation); }
  }

  /** A receipt of an earlier generation is refused. */
  lemma {:induction false} OldReceiptFails(st: State, later: State, log: seq<Event>)
    requires Replay(st, log).Ok? && Replay(st, log).value.generation < later.generation && Receipts(log) > 0
    ensures Replay(later, log).Err?
  {
    var front, last := log[..|log| - 1], log[|log| - 1];
    GenerationGrows(Replay(st, front).value, [last]);
    ReplayOne(Replay(st, front).value, last);
    if Receipts(front) > 0 {
      OldReceiptFails(st, later, front);
    } else if Replay(later, front).Ok? {
      GenerationGrows(later, front);
      OldReceipt(Replay(st, front).value, Replay(later, front).value, last);
    }
  }

  lemma OldReceipt(st: State, later: State, e: Event)
    requires HasReceipt(e) && Apply(st, e).Ok? && st.generation < later.generation
    ensures Apply(later, e).Err?
  {
  }

  /** A new generation written over the head of a log with a full table: a receipt of the old one is left. */
  lemma GenerationOverwrites(log: seq<Event>, k: nat, generation: uint64)
    requires Replay(EMPTY, log).Ok? && k <= |log| && Replay(EMPTY, log).value.generation < generation
    requires k < |Replay(EMPTY, log).value.receipts|
    ensures Replay(EMPTY, [OperationGeneration(generation)] + log[k..]).Err?
  {
    var mid := ReceiptIsLeft(log, k);
    GenerationGrows(EMPTY, log);
    BeginsAt(generation, log[k..]);
    OldReceiptFails(mid, EMPTY.(generation := generation), log[k..]);
  }

  lemma BeginsAt(generation: uint64, rest: seq<Event>)
    requires generation > 1
    ensures Replay(EMPTY, [OperationGeneration(generation)] + rest) == Replay(EMPTY.(generation := generation), rest)
  {
    ReplayOne(EMPTY, OperationGeneration(generation));
    ReplayConcat(EMPTY, [OperationGeneration(generation)], rest);
  }

  /** More receipts in the table than records in the head: some receipt comes after it. */
  lemma ReceiptIsLeft(log: seq<Event>, k: nat) returns (mid: State)
    requires Replay(EMPTY, log).Ok? && k <= |log| && k < |Replay(EMPTY, log).value.receipts|
    ensures Replay(mid, log[k..]) == Replay(EMPTY, log) && Receipts(log[k..]) > 0
  {
    assert log == log[..k] + log[k..];
    ReplayConcat(EMPTY, log[..k], log[k..]);
    mid := Replay(EMPTY, log[..k]).value;
    TableIsBounded(EMPTY, log[..k]);
    FewReceipts(log[..k]);
    TableIsBounded(mid, log[k..]);
  }

  // ---------------------------------------------------------------- assets

  /** The store knows of the asset: it holds it or has forgotten it. */
  predicate Known(st: State, id: string) {
    id in st.items || id in st.deleted
  }

  lemma KnownStays(st: State, e: Event, id: string)
    requires WellFormed(st) && Apply(st, e).Ok? && Known(st, id)
    ensures Known(Apply(st, e).value, id)
  {
    match e
    case Mutation(_, values, _) => PutAllContents(st.items, values);
    case Forget(deleted) => BuryContents(st.deleted, deleted);
    case Forgotten(deleted) => BuryContents(st.deleted, deleted);
    case _ =>
  }

  lemma {:induction false} KnownForever(st: State, log: seq<Event>, id: string)
    requires WellFormed(st) && Replay(st, log).Ok? && Known(st, id)
    ensures Known(Replay(st, log).value, id)
  {
    if log != [] {
      KnownForever(st, log[..|log| - 1], id);
      ReplayKeepsWellFormed(st, log[..|log| - 1]);
      KnownStays(Replay(st, log[..|log| - 1]).value, log[|log| - 1], id);
    }
  }

  /** What a mutation expects of an asset tells whether the store knows it. */
  lemma ExpectationTells(st: State, e: Event, i: nat)
    requires WellFormed(st) && e.Mutation? && Apply(st, e).Ok? && i < |e.values|
    ensures |e.expected| == |e.values| && (Known(st, e.values[i].id) <==> e.expected[i] != 0)
  {
    assert AcceptsWrite(st.items, e.values[i], e.expected[i]);
    assert Tombstone(st.deleted, e.values[i].id) == 0;
  }

  lemma NotWritten(st: State, other: State, e: Event, id: string)
    requires WellFormed(st) && WellFormed(other) && e.Mutation? && Apply(st, e).Ok? && Apply(other, e).Ok?
    requires Known(st, id) && !Known(other, id)
    ensures !Known(Apply(other, e).value, id)
  {
    forall i | 0 <= i < |e.values| ensures e.values[i].id != id {
      ExpectationTells(st, e, i);
      ExpectationTells(other, e, i);
    }
    UnwrittenStays(other, e, id);
  }

  lemma UnwrittenStays(st: State, e: Event, id: string)
    requires e.Mutation? && Apply(st, e).Ok? && forall i :: 0 <= i < |e.values| ==> e.values[i].id != id
    ensures Known(Apply(st, e).value, id) <==> Known(st, id)
  {
    PutAllContents(st.items, e.values);
  }

  /** No record but one of tombstones, accepted where an asset is known, makes it known where it is not. */
  lemma StaysUnknown(st: State, other: State, e: Event, id: string)
    requires WellFormed(st) && WellFormed(other) && Apply(st, e).Ok? && Apply(other, e).Ok? && !e.Forgotten?
    requires Known(st, id) && !Known(other, id)
    ensures !Known(Apply(other, e).value, id)
  {
    match e
    case Mutation(_, _, _) => NotWritten(st, other, e, id);
    case Forget(deleted) => ForgetsKnown(other, deleted, id);
    case _ =>
  }

  lemma ForgetsKnown(st: State, deleted: seq<Deletion>, id: string)
    requires WellFormed(st) && AcceptsDeletions(st, deleted, true) && !Known(st, id)
    ensures id !in DeletedIds(deleted) && id !in Bury(st.deleted, deleted)
  {
    BuryContents(st.deleted, deleted);
    forall d | d in deleted ensures d.id != id {
      var i :| 0 <= i < |deleted| && deleted[i] == d;
      assert AcceptsDeletion(st, deleted[i], true);
    }
  }

  lemma {:induction false} UnknownForever(st: State, other: State, log: seq<Event>, id: string)
    requires WellFormed(st) && WellFormed(other) && Replay(st, log).Ok? && Replay(other, log).Ok?
    requires forall i :: 0 <= i < |log| ==> !log[i].Forgotten?
    requires Known(st, id) && !Known(other, id)
    ensures !Known(Replay(other, log).value, id)
  {
    if log != [] {
      var front, last := log[..|log| - 1], log[|log| - 1];
      UnknownForever(st, other, front, id);
      KnownForever(st, front, id);
      ReplayKeepsWellFormed(st, front);
      ReplayKeepsWellFormed(other, front);
      StaysUnknown(Replay(st, front).value, Replay(other, front).value, last, id);
    }
  }

  lemma NothingToForget(deleted: seq<Deletion>)
    ensures !AcceptsDeletions(EMPTY, deleted, true)
  {
    if deleted != [] { assert !AcceptsDeletion(EMPTY, deleted[0], true); }
  }

  /** The first record of a log that is neither a receipt nor a generation makes some asset known. */
  lemma FirstIsKnown(e: Event) returns (id: string)
    requires Apply(EMPTY, e).Ok? && !HasReceipt(e) && !e.OperationGeneration?
    ensures Known(Apply(EMPTY, e).value, id)
  {
    match e
    case Create(v) => id := v.id;
    case Snapshot(v) => id := v.id;
    case Forget(deleted) => NothingToForget(deleted);
    case Forgotten(deleted) =>
      id := deleted[0].id;
      BuryContents(EMPTY.deleted, deleted);
      assert deleted[0] in deleted;
  }

  /** A mutation written over the head of a log: a receipt is missing, or what the first record made known. */
  lemma MutationOverwrites(log: seq<Event>, k: nat, e: Event)
    requires Replay(EMPTY, log).Ok? && Headed(log) && 0 < k <= |log|
    requires e.Mutation? && Apply(Replay(EMPTY, log).value, e).Ok?
    ensures Replay(EMPTY, [e] + log[k..]) != Apply(Replay(EMPTY, log).value, e)
  {
    var st, rest := Replay(EMPTY, log).value, log[k..];
    ReplayConcat(EMPTY, [e], rest);
    ReplayOne(EMPTY, e);
    if Replay(EMPTY, [e] + rest) == Apply(st, e) {
      NothingMissing(log, k, e);
      var id := FirstIsKnown(log[0]);
      HeadIsMissing(log, k, e, id);
    }
  }

  /** If the overwritten log meant the same, what was lost held no receipt and no generation. */
  lemma NothingMissing(log: seq<Event>, k: nat, e: Event)
    requires Replay(EMPTY, log).Ok? && 0 < k <= |log| && e.Mutation? && Apply(Replay(EMPTY, log).value, e).Ok?
    requires Apply(EMPTY, e).Ok? && Replay(Apply(EMPTY, e).value, log[k..]) == Apply(Replay(EMPTY, log).value, e)
    ensures !HasReceipt(log[0]) && !log[0].OperationGeneration? && Apply(EMPTY, log[0]).Ok?
  {
    var st, start := Replay(EMPTY, log).value, Apply(EMPTY, e).value;
    assert st.generation == 1;
    SameGeneration(EMPTY, log);
    FirstKeepsGeneration(EMPTY, log);
    SameGeneration(start, log[k..]);
    SameGenerationStep(st, e, 1);
    SameGenerationStep(EMPTY, e, 1);
    assert log == log[..k] + log[k..];
    ReceiptsConcat(log[..k], log[k..]);
    NoReceipts(log[..k], 0);
    StepOfReplay(EMPTY, log, 0);
  }

  lemma HeadIsMissing(log: seq<Event>, k: nat, e: Event, id: string)
    requires Replay(EMPTY, log).Ok? && Headed(log) && 0 < k <= |log| && e.Mutation? && Apply(Replay(EMPTY, log).value, e).Ok?
    requires Apply(EMPTY, e).Ok? && !HasReceipt(log[0]) && !log[0].OperationGeneration?
    requires Apply(EMPTY, log[0]).Ok? && Known(Apply(EMPTY, log[0]).value, id)
    ensures Replay(Apply(EMPTY, e).value, log[k..]) != Apply(Replay(EMPTY, log).value, e)
  {
    var st, start, rest := Replay(EMPTY, log).value, Apply(EMPTY, e).value, log[k..];
    var mid := KnownMidway(log, k, id);
    ReplayKeepsWellFormed(EMPTY, log);
    KnownForever(mid, rest, id);
    NotWritten(st, EMPTY, e, id);
    KnownStays(st, e, id);
    ApplyKeepsWellFormed(EMPTY, e);
    forall i | 0 <= i < |rest| ensures !rest[i].Forgotten? {
      assert rest[i] == log[k + i];
    }
    if Replay(start, rest).Ok? { UnknownForever(mid, start, rest, id); }
  }

  lemma KnownMidway(log: seq<Event>, k: nat, id: string) returns (mid: State)
    requires Replay(EMPTY, log).Ok? && 0 < k <= |log|
    requires Apply(EMPTY, log[0]).Ok? && Known(Apply(EMPTY, log[0]).value, id)
    ensures WellFormed(mid) && Known(mid, id) && Replay(mid, log[k..]) == Replay(EMPTY, log)
  {
    var first := Apply(EMPTY, log[0]).value;
    assert log == log[..k] + log[k..];
    ReplayConcat(EMPTY, log[..k], log[k..]);
    mid := Replay(EMPTY, log[..k]).value;
    assert log[..k] == [log[0]] + log[1..k];
    ReplayOne(EMPTY, log[0]);
    ReplayConcat(EMPTY, [log[0]], log[1..k]);
    ApplyKeepsWellFormed(EMPTY, log[0]);
    KnownForever(first, log[1..k], id);
    ReplayKeepsWellFormed(first, log[1..k]);
  }

  // ---------------------------------------------------------------- an empty file

  /** Something has ever been recorded. */
  ghost predicate Traced(st: State) {
    st.generation > 1 || st.receipts != map[] || exists id :: Known(st, id)
  }

  lemma TraceStays(st: State, e: Event)
    requires WellFormed(st) && Apply(st, e).Ok? && Traced(st)
    ensures Traced(Apply(st, e).value)
  {
    GenerationGrows(st, [e]);
    ReplayOne(st, e);
    if id :| Known(st, id) {
      KnownStays(st, e, id);
    } else if st.receipts != map[] && HasReceipt(e) {
      assert e.receipt.operation.Key() in Apply(st, e).value.receipts;
    }
  }

  /** No log but the empty one means the empty store. */
  lemma {:induction false} LogLeavesTrace(log: seq<Event>)
    requires log != [] && Replay(EMPTY, log).Ok?
    ensures Traced(Replay(EMPTY, log).value) && Replay(EMPTY, log).value != EMPTY
  {
    var front, last := log[..|log| - 1], log[|log| - 1];
    if front == [] {
      if HasReceipt(last) {
        assert last.receipt.operation.Key() in Apply(EMPTY, last).value.receipts;
      } else if !last.OperationGeneration? {
        var id := FirstIsKnown(last);
      }
    } else {
      LogLeavesTrace(front);
      ReplayKeepsWellFormed(EMPTY, front);
      TraceStays(Replay(EMPTY, front).value, last);
    }
  }
}
