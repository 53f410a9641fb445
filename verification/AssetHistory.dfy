/** What every replayable log of the asset store guarantees: an operation commits once, revisions of an
    asset run 1, 2, 3, ... under one creation time, and a forgotten asset stays forgotten. */
module AssetHistory {
  import opened Options
  import opened AssetLog

  /** The operation identities a record spends. */
  predicate Commits(e: Event, op: OperationIdentity) {
    (e.Mutation? || e.OperationReceipt?) && e.receipt.operation == op
  }

  /** An identity that can no longer commit: its window is over, or its key is taken. */
  predicate Spent(st: State, op: OperationIdentity) {
    op.generation < st.generation || (op.generation == st.generation && op.Key() in st.receipts)
  }

  /** Once spent, an identity stays spent whatever the log goes on to say. */
  lemma {:induction false} SpentForever(st: State, log: seq<Event>, op: OperationIdentity)
    requires Replay(st, log).Ok? && Spent(st, op)
    ensures Spent(Replay(st, log).value, op)
  {
    if log != [] {
      SpentForever(st, log[..|log| - 1], op);
    }
  }

  /** After a record with this identity has been replayed, the identity is spent. */
  lemma {:induction false} CommittedIsSpent(st: State, log: seq<Event>, i: nat, op: OperationIdentity)
    requires Replay(st, log).Ok? && i < |log| && Commits(log[i], op)
    ensures Spent(Replay(st, log).value, op)
  {
    var n := |log| - 1;
    if i < n {
      assert log[..n][i] == log[i];
      CommittedIsSpent(st, log[..n], i, op);
      assert log == log[..n] + [log[n]];
    }
  }

  lemma {:induction false} PrefixReplays(st: State, log: seq<Event>, n: nat)
    requires n <= |log| && Replay(st, log).Ok?
    ensures Replay(st, log[..n]).Ok?
  {
    assert log == log[..n] + log[n..];
    ReplayConcat(st, log[..n], log[n..]);
  }

  /** A record commits only an identity that is not spent. */
  lemma SpentCannotCommit(st: State, e: Event, op: OperationIdentity)
    requires Apply(st, e).Ok? && (e.Mutation? || e.OperationReceipt?) && Spent(st, op)
    ensures op.generation != e.receipt.operation.generation || op.Key() != e.receipt.operation.Key()
  {
  }

  lemma CommittedBefore(st: State, log: seq<Event>, i: nat, j: nat)
    requires Replay(st, log).Ok? && i < j <= |log| && (log[i].Mutation? || log[i].OperationReceipt?)
    requires Replay(st, log[..j]).Ok?
    ensures Spent(Replay(st, log[..j]).value, log[i].receipt.operation)
  {
    assert log[..j][i] == log[i];
    CommittedIsSpent(st, log[..j], i, log[i].receipt.operation);
  }

  /** At most once: in a log that replays, no two records commit under one key and generation, so no
      operation identity changes the items twice, however often the receipt table was emptied between. */
  lemma AtMostOnce(st: State, log: seq<Event>, i: nat, j: nat)
    requires Replay(st, log).Ok?
    requires i < j < |log| && (log[i].Mutation? || log[i].OperationReceipt?) && (log[j].Mutation? || log[j].OperationReceipt?)
    ensures log[i].receipt.operation.generation != log[j].receipt.operation.generation
            || log[i].receipt.operation.Key() != log[j].receipt.operation.Key()
    ensures log[i].receipt.operation != log[j].receipt.operation
  {
    StepOfReplay(st, log, j);
    CommittedBefore(st, log, i, j);
    SpentCannotCommit(Replay(st, log[..j]).value, log[j], log[i].receipt.operation);
  }

  /** A retry of a committed operation inside its generation is answered with the receipt of the record
      that committed it; after the generation it is refused, never executed. */
  lemma RetryFindsFirstReceipt(st: State, log: seq<Event>, i: nat)
    requires Replay(st, log).Ok? && i < |log| && (log[i].Mutation? || log[i].OperationReceipt?)
    ensures var now := Replay(st, log).value;
            var op := log[i].receipt.operation;
            if op.generation == now.generation then Lookup(now, op) == Ok(Some(log[i].receipt)) else Lookup(now, op).Err?
  {
    StepOfReplay(st, log, i);
    var before, start := Replay(st, log[..i]).value, Replay(st, log[..i + 1]).value;
    CommitStoresReceipt(before, log[i]);
    ReplayConcat(st, log[..i + 1], log[i + 1..]);
    ReceiptKept(start, log[i + 1..], log[i].receipt);
  }

  lemma StepOfReplay(st: State, log: seq<Event>, i: nat)
    requires Replay(st, log).Ok? && i < |log|
    ensures Replay(st, log[..i]).Ok? && log == log[..i + 1] + log[i + 1..]
    ensures Replay(st, log[..i + 1]) == Apply(Replay(st, log[..i]).value, log[i])
    ensures Replay(st, log[..i + 1]).Ok?
  {
    PrefixReplays(st, log, i);
    PrefixReplays(st, log, i + 1);
    assert log[..i + 1][..i] == log[..i];
  }

  lemma CommitStoresReceipt(st: State, e: Event)
    requires Apply(st, e).Ok? && (e.Mutation? || e.OperationReceipt?)
    ensures Answers(Apply(st, e).value, e.receipt) && e.receipt.operation.Complete()
  {
  }

  ghost predicate Answers(st: State, r: Receipt) {
    if r.operation.generation == st.generation then r.operation.Key() in st.receipts && st.receipts[r.operation.Key()] == r
    else r.operation.generation < st.generation && (r.operation.Key() in st.receipts ==> st.receipts[r.operation.Key()].operation.generation == st.generation)
  }

  /** A receipt stays stored until a later generation empties the table, and then nothing stands in for it
      but a receipt of the later generation. */
  lemma {:induction false} ReceiptKept(st: State, log: seq<Event>, r: Receipt)
    requires Replay(st, log).Ok? && Answers(st, r)
    ensures Answers(Replay(st, log).value, r)
  {
    if log != [] {
      ReceiptKept(st, log[..|log| - 1], r);
      AnswersStay(Replay(st, log[..|log| - 1]).value, log[|log| - 1], r);
    }
  }

  lemma AnswersStay(st: State, e: Event, r: Receipt)
    requires Apply(st, e).Ok? && Answers(st, r)
    ensures Answers(Apply(st, e).value, r)
  {
  }

  /** Some record of the log commits this very receipt. */
  ghost predicate CommittedIn(log: seq<Event>, r: Receipt) {
    exists i :: 0 <= i < |log| && log[i].Mutation? && log[i].receipt == r
  }

  lemma CommittedInLonger(log: seq<Event>, more: seq<Event>, r: Receipt)
    requires CommittedIn(log, r)
    ensures CommittedIn(log + more, r)
  {
    var i :| 0 <= i < |log| && log[i].Mutation? && log[i].receipt == r;
    assert (log + more)[i] == log[i];
  }

  /** A log commits at most one receipt for an operation. */
  lemma OneReceiptPerOperation(st: State, log: seq<Event>, p: Receipt, q: Receipt)
    requires Replay(st, log).Ok? && CommittedIn(log, p) && CommittedIn(log, q) && p.operation == q.operation
    ensures p == q
  {
    var i :| 0 <= i < |log| && log[i].Mutation? && log[i].receipt == p;
    var j :| 0 <= j < |log| && log[j].Mutation? && log[j].receipt == q;
    if i < j { AtMostOnce(st, log, i, j); }
    if j < i { AtMostOnce(st, log, j, i); }
  }

  /** In a store that never restored a snapshot, every stored receipt is one some record committed. */
  lemma {:induction false} ReceiptsAreCommitted(log: seq<Event>, key: string)
    requires (forall e | e in log :: Live(e)) && Replay(EMPTY, log).Ok?
    requires key in Replay(EMPTY, log).value.receipts
    ensures CommittedIn(log, Replay(EMPTY, log).value.receipts[key])
  {
    if log != [] {
      var front, last := log[..|log| - 1], log[|log| - 1];
      var before := Replay(EMPTY, front).value;
      ReceiptOrigin(before, last, key);
      if !(last.Mutation? && last.receipt == Replay(EMPTY, log).value.receipts[key]) {
        ReceiptsAreCommitted(front, key);
        CommittedInLonger(front, [last], before.receipts[key]);
        assert log == front + [last];
      }
    }
  }

  lemma ReceiptOrigin(st: State, e: Event, key: string)
    requires Live(e) && Apply(st, e).Ok? && key in Apply(st, e).value.receipts
    ensures (e.Mutation? && Apply(st, e).value.receipts[key] == e.receipt)
            || (key in st.receipts && st.receipts[key] == Apply(st, e).value.receipts[key])
  {
  }

  // ---------------------------------------------------------------- revisions and forgetting

  /** A record that a running store appends, as opposed to the records only a snapshot contains. */
  predicate Live(e: Event) {
    e.Create? || e.Update? || e.Mutation? || e.OperationGeneration? || e.Forget?
  }

  function Written(values: seq<Information>, id: string): seq<Information> {
    if values == [] then []
    else Written(values[..|values| - 1], id) + if values[|values| - 1].id == id then [values[|values| - 1]] else []
  }

  function WrittenBy(e: Event, id: string): seq<Information> {
    match e
    case Create(v) => Written([v], id)
    case Update(v) => Written([v], id)
    case Mutation(_, values, _) => Written(values, id)
    case _ => []
  }

  /** Every version of one asset that a log writes, in order. */
  function VersionsOf(log: seq<Event>, id: string): seq<Information> {
    if log == [] then [] else VersionsOf(log[..|log| - 1], id) + WrittenBy(log[|log| - 1], id)
  }

  predicate Chain(versions: seq<Information>, id: string) {
    forall k :: 0 <= k < |versions| ==>
      versions[k].id == id && versions[k].revision == k + 1 && versions[k].created == versions[0].created
  }

  lemma {:induction false} WrittenOnce(values: seq<Information>, id: string)
    requires DistinctIds(values)
    ensures (exists i :: 0 <= i < |values| && values[i].id == id) <==> Written(values, id) != []
    ensures forall i :: 0 <= i < |values| && values[i].id == id ==> Written(values, id) == [values[i]]
  {
    if values != [] {
      var n := |values| - 1;
      assert forall i :: 0 <= i < n ==> values[..n][i] == values[i];
      WrittenOnce(values[..n], id);
      if values[n].id == id {
        assert Written(values[..n], id) == [];
      } else {
        if i :| 0 <= i < |values| && values[i].id == id { assert values[..n][i].id == id; }
      }
    }
  }

  /** The asset's place in a state, told by the versions written so far. */
  ghost predicate Tracks(st: State, versions: seq<Information>, id: string) {
    && Chain(versions, id)
    && (id in st.items <==> versions != [] && id !in st.deleted)
    && (id in st.items ==> st.items[id] == versions[|versions| - 1])
    && (id in st.deleted ==> versions != [] && st.deleted[id] == |versions|)
  }

  lemma ExtendChain(versions: seq<Information>, v: Information, id: string)
    requires Chain(versions, id) && v.id == id && v.revision == |versions| + 1
    requires versions != [] ==> v.created == versions[|versions| - 1].created
    ensures Chain(versions + [v], id)
  {
    forall k | 0 <= k < |versions| + 1
      ensures (versions + [v])[k].created == (versions + [v])[0].created
    {
      if versions != [] { assert versions[|versions| - 1].created == versions[0].created; }
    }
  }

  /** One accepted version extends the chain by one. */
  lemma TracksWrite(st: State, after: State, versions: seq<Information>, v: Information, id: string)
    requires Tracks(st, versions, id) && v.id == id && v.revision != 0 && id !in st.deleted && after.deleted == st.deleted
    requires id in after.items && after.items[id] == v
    requires if id in st.items then v.revision == Next(st.items[id].revision) && v.created == st.items[id].created
             else v.revision == 1
    ensures Tracks(after, versions + [v], id)
  {
    ExtendChain(versions, v, id);
  }

  lemma MutationWrites(st: State, e: Event, id: string)
    requires WellFormed(st) && e.Mutation? && Apply(st, e).Ok?
    ensures var after := Apply(st, e).value;
            after.deleted == st.deleted
            && (Written(e.values, id) == [] ==> (id in after.items <==> id in st.items)
                                                && (id in st.items ==> after.items[id] == st.items[id]))
            && (Written(e.values, id) != [] ==>
                  var v := Written(e.values, id)[0];
                  Written(e.values, id) == [v] && v.id == id && v.revision != 0 && id !in st.deleted
                  && id in after.items && after.items[id] == v
                  && if id in st.items then v.revision == Next(st.items[id].revision) && v.created == st.items[id].created
                     else v.revision == 1)
  {
    PutAllContents(st.items, e.values);
    WrittenOnce(e.values, id);
    if i :| 0 <= i < |e.values| && e.values[i].id == id {
      var _, _ := AcceptsWrite(st.items, e.values[i], e.expected[i]), Tombstone(st.deleted, e.values[i].id);
    }
  }

  lemma TracksStep(st: State, e: Event, versions: seq<Information>, id: string)
    requires WellFormed(st) && Live(e) && Apply(st, e).Ok? && Tracks(st, versions, id)
    ensures Tracks(Apply(st, e).value, versions + WrittenBy(e, id), id)
    ensures id in st.deleted ==> WrittenBy(e, id) == []
  {
    assert versions + [] == versions;
    var after := Apply(st, e).value;
    match e
    case Create(v) =>
      WrittenOnce([v], id);
      if v.id == id {
        assert [v][0] == v;
        TracksWrite(st, after, versions, v, id);
      }
    case Update(v) =>
      WrittenOnce([v], id);
      if v.id == id {
        assert [v][0] == v;
        TracksWrite(st, after, versions, v, id);
      }
    case Mutation(_, values, _) =>
      MutationWrites(st, e, id);
      if Written(values, id) != [] {
        TracksWrite(st, after, versions, Written(values, id)[0], id);
      }
    case Forget(_) => TracksForget(st, e, versions, id);
    case OperationGeneration(_) =>
  }

  lemma TracksForget(st: State, e: Event, versions: seq<Information>, id: string)
    requires WellFormed(st) && e.Forget? && Apply(st, e).Ok? && Tracks(st, versions, id)
    ensures Tracks(Apply(st, e).value, versions, id)
  {
    BuryContents(st.deleted, e.deleted);
    if id in DeletedIds(e.deleted) {
      var d :| d in e.deleted && d.id == id;
      var i :| 0 <= i < |e.deleted| && e.deleted[i] == d;
      assert AcceptsDeletion(st, e.deleted[i], true);
    }
  }

  /** Revision chains: over the whole history of a store, the versions of an asset carry revisions
      1, 2, 3, ... and one creation time; the store holds the last of them until the asset is forgotten,
      and the tombstone names the revision that was forgotten. */
  lemma {:induction false} RevisionsRunInOrder(log: seq<Event>, id: string)
    requires (forall e | e in log :: Live(e)) && Replay(EMPTY, log).Ok?
    ensures Tracks(Replay(EMPTY, log).value, VersionsOf(log, id), id)
  {
    if log != [] {
      var front := log[..|log| - 1];
      RevisionsRunInOrder(front, id);
      ReplayKeepsWellFormed(EMPTY, front);
      TracksStep(Replay(EMPTY, front).value, log[|log| - 1], VersionsOf(front, id), id);
    }
  }

  lemma ForgottenStep(st: State, e: Event, id: string)
    requires WellFormed(st) && Apply(st, e).Ok? && id in st.deleted
    ensures var now := Apply(st, e).value; id in now.deleted && now.deleted[id] == st.deleted[id] && id !in now.items
  {
    match e
    case Mutation(_, values, _) =>
      PutAllContents(st.items, values);
      if i :| 0 <= i < |values| && values[i].id == id {
        var _ := Tombstone(st.deleted, values[i].id);
      }
    case Forget(deleted) => BuryAgain(st, deleted, true, id);
    case Forgotten(deleted) => BuryAgain(st, deleted, false, id);
    case _ =>
  }

  lemma BuryAgain(st: State, deleted: seq<Deletion>, request: bool, id: string)
    requires WellFormed(st) && AcceptsDeletions(st, deleted, request) && id in st.deleted
    ensures id in Bury(st.deleted, deleted) && Bury(st.deleted, deleted)[id] == st.deleted[id]
  {
    BuryContents(st.deleted, deleted);
    if id in DeletedIds(deleted) {
      var d :| d in deleted && d.id == id;
      var i :| 0 <= i < |deleted| && deleted[i] == d;
      assert AcceptsDeletion(st, deleted[i], request);
    }
  }

  /** A forgotten asset never returns: whatever a log goes on to say, its tombstone is unchanged and the
      asset is absent. */
  lemma {:induction false} ForgottenForever(st: State, log: seq<Event>, id: string)
    requires WellFormed(st) && Replay(st, log).Ok? && id in st.deleted
    ensures var now := Replay(st, log).value; id in now.deleted && now.deleted[id] == st.deleted[id] && id !in now.items
  {
    if log != [] {
      var front := log[..|log| - 1];
      ForgottenForever(st, front, id);
      ReplayKeepsWellFormed(st, front);
      ForgottenStep(Replay(st, front).value, log[|log| - 1], id);
    }
  }
}
