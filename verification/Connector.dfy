/** The host connector over the asset store: requests and replies that may be lost, late or repeated, a
    client and a store that may stop at any step. */
module Connector {
  import opened Options
  import opened AssetLog
  import opened AssetHistory
  import opened Text
  import R = AssetRuns

  /** A success reply: the operation and the receipt the store answered with. */
  datatype Success = Success(operation: OperationIdentity, receipt: Receipt)

  /** The connector's record: the pending operation of each request, and the requests whose operation was drawn with
      its organization deferred. */
  datatype Book = Book(operations: map<string, OperationIdentity>, deferred: set<string>)

  /** `memory` and `saved` are the record in the process and in its vault; `issued`, `sent`, `modes`, `replies` and `done`
      are what has ever been drawn (and whether deferred), sent, sent in which mode, answered by the store, and reported
      to the caller as a success. */
  datatype System = System(
    memory: Book, saved: Book, issued: map<OperationIdentity, bool>,
    sent: set<OperationIdentity>, modes: set<(OperationIdentity, bool)>, replies: set<Success>,
    done: set<OperationIdentity>, store: R.Store)

  const START := System(Book(map[], {}), Book(map[], {}), map[], {}, {}, {}, {}, R.FRESH)

  function Drawn(b: Book, op: OperationIdentity, deferred: bool): Book {
    Book(b.operations[op.digest := op], if deferred then b.deferred + {op.digest} else b.deferred)
  }

  function LetGo(b: Book, key: string): Book {
    Book(b.operations - {key}, b.deferred - {key})
  }

  /** How a call ends whose operation succeeded: the caller is told; the record could not be saved, and the caller is told
      of a failure; or the process stops after the save and nobody is told. */
  datatype Ending = Told | SaveFailed | Untold

  datatype Action =
    | Record(op: OperationIdentity, deferred: bool, stored: bool)
    | Send(key: string)
    | Deliver(op: OperationIdentity, results: seq<Outcome>, values: seq<Information>, expected: seq<uint64>, write: R.Write,
              over: R.Over)
    | Acknowledge(key: string, ending: Ending)
    | SaveRecord
    | ClientCrash
    | Elsewhere(step: R.Step)

  predicate Enabled(s: System, a: Action) {
    match a
    // no operation recorded for this request: draw an identity never drawn before, in a generation the store reported
    case Record(op, _, _) =>
      && op.digest !in s.memory.operations && op.generation <= s.store.memory.generation
      && (forall o | o in s.issued :: o.Key() != op.Key())
      && forall e | e in s.store.history :: e.Mutation? ==> e.receipt.operation.Key() != op.Key()
    // `exists` is all that is asked before a request goes out
    case Send(key) => key in s.memory.operations
    // a request arrives, now or at any later time, once or again
    case Deliver(op, _, _, _, _, _) => op in s.sent
    case Acknowledge(key, _) => key in s.memory.operations && exists r | r in s.replies :: r.operation == s.memory.operations[key]
    // the record goes to the vault for another reason, a decision or a delivery that is noted in it
    case SaveRecord => true
    case ClientCrash => true
    // whatever else happens to the store: other clients' operations, forgetting, compaction, recovery
    case Elsewhere(step) =>
      R.Possible(step) && (step.Commit? ==> forall o | o in s.issued :: o.Key() != step.receipt.operation.Key())
  }

  function Do(s: System, a: Action): System
    requires Enabled(s, a)
  {
    match a
    case Record(op, deferred, stored) =>
      var memory := Drawn(s.memory, op, deferred);
      s.(memory := memory, saved := if stored then memory else s.saved, issued := s.issued[op := deferred])
    case Send(key) =>
      var op := s.memory.operations[key];
      s.(sent := s.sent + {op}, modes := s.modes + {(op, key in s.memory.deferred)})
    case Deliver(op, results, values, expected, write, over) =>
      var (store, reply) := R.CommitOutcome(s.store, Receipt(op, results), values, expected, write, over);
      s.(store := store,
         replies := if reply == R.Done && op.Key() in store.memory.receipts
                    then s.replies + {Success(op, store.memory.receipts[op.Key()])} else s.replies)
    case Acknowledge(key, ending) =>
      var memory := LetGo(s.memory, key);
      s.(memory := memory, saved := if ending == SaveFailed then s.saved else memory,
         done := if ending == Told then s.done + {s.memory.operations[key]} else s.done)
    case SaveRecord => s.(saved := s.memory)
    case ClientCrash => s.(memory := s.saved)
    case Elsewhere(step) => s.(store := R.Do(s.store, step).0)
  }

  predicate Accident(s: System, a: Action) {
    match a
    case Deliver(op, results, values, expected, write, over) =>
      R.Accident(s.store, R.Commit(Receipt(op, results), values, expected, write, over))
    case Elsewhere(step) => R.Accident(s.store, step)
    case _ => false
  }

  /** The vault holds an operation of this request that went out, and would hold it no more with this record. */
  predicate Drops(s: System, b: Book, key: string) {
    && key in s.saved.operations && s.saved.operations[key] in s.sent
    && !(key in b.operations && b.operations[key] == s.saved.operations[key])
  }

  /** The step lets an operation be out that is neither reported nor in the vault: a request goes out unsaved, or a save
      writes a record from which an operation that went out is missing. A success reported by this very step may go. */
  predicate Loses(s: System, a: Action, key: string) {
    match a
    case Send(k) =>
      k == key && k in s.memory.operations
      && !(k in s.saved.operations && s.saved.operations[k] == s.memory.operations[k])
    case Record(op, deferred, stored) => stored && Drops(s, Drawn(s.memory, op, deferred), key)
    case Acknowledge(k, Told) =>
      Drops(s, LetGo(s.memory, k), key)
      && !(k == key && k in s.memory.operations && s.memory.operations[k] == s.saved.operations[k])
    case Acknowledge(k, Untold) => Drops(s, LetGo(s.memory, k), key)
    case SaveRecord => Drops(s, s.memory, key)
    case _ => false
  }

  predicate Safe(s: System, a: Action) {
    forall key | key in s.saved.operations.Keys + s.memory.operations.Keys :: !Loses(s, a, key)
  }

  /** A run from some system; an action that is not enabled does nothing. */
  function RunFrom(s: System, actions: seq<Action>): System {
    if actions == [] then s
    else
      var before := RunFrom(s, actions[..|actions| - 1]);
      var a := actions[|actions| - 1];
      if Enabled(before, a) then Do(before, a) else before
  }

  /** The step does nothing, or neither parts the store from its file nor loses an operation that went out. */
  predicate Clean(s: System, a: Action) {
    Enabled(s, a) ==> !Accident(s, a) && Safe(s, a)
  }

  predicate SmoothFrom(s: System, actions: seq<Action>) {
    forall i :: 0 <= i < |actions| ==> Clean(RunFrom(s, actions[..i]), actions[i])
  }

  function Run(actions: seq<Action>): System {
    RunFrom(START, actions)
  }

  predicate Smooth(actions: seq<Action>) {
    SmoothFrom(START, actions)
  }

  // ---------------------------------------------------------------- invariants

  predicate Vaulted(s: System, op: OperationIdentity) {
    op.digest in s.saved.operations && s.saved.operations[op.digest] == op
  }

  /** The connector's bookkeeping: every operation that is out is reported or in the vault, what is recorded is not
      reported yet, and each operation is filed under its digest. */
  ghost predicate Bookkept(s: System) {
    && (forall op | op in s.sent :: op in s.issued && (op in s.done || Vaulted(s, op)))
    && s.done <= s.sent && Filed(s, s.memory) && Filed(s, s.saved)
    && forall p, q | p in s.issued && q in s.issued :: p.Key() == q.Key() ==> p == q
  }

  /** Every operation is filed under its request, with the mode it was drawn in, and unreported. */
  ghost predicate Filed(s: System, b: Book) {
    && b.deferred <= b.operations.Keys
    && forall k | k in b.operations ::
         && b.operations[k].digest == k && b.operations[k] !in s.done
         && b.operations[k] in s.issued && s.issued[b.operations[k]] == (k in b.deferred)
  }

  /** Every request went out in the mode its operation was drawn in. */
  ghost predicate OneMode(s: System) {
    forall m | m in s.modes :: m.0 in s.issued && s.issued[m.0] == m.1
  }

  /** An operation of this connector that some durable record has carried out. */
  ghost predicate Applied(s: System, op: OperationIdentity) {
    op in s.issued && exists i :: 0 <= i < |s.store.history| && s.store.history[i].Mutation? && s.store.history[i].receipt.operation == op
  }

  ghost predicate Answered(s: System) {
    && R.InStep(s.store) && WellFormed(s.store.memory)
    && (forall r | r in s.replies :: r.receipt.operation == r.operation && CommittedIn(s.store.history, r.receipt)
                                     && r.operation in s.sent)
    && (forall op | op in s.done :: exists r | r in s.replies :: r.operation == op)
  }

  ghost predicate OnlySentApplied(s: System) {
    forall op | Applied(s, op) :: op in s.sent
  }

  ghost predicate Inv(s: System) {
    Bookkept(s) && OneMode(s) && Answered(s) && OnlySentApplied(s)
  }

  lemma DrawnIsFiled(s: System, op: OperationIdentity, deferred: bool, stored: bool)
    requires Bookkept(s) && Enabled(s, Record(op, deferred, stored))
    ensures var t := Do(s, Record(op, deferred, stored));
            && Filed(t, t.memory) && Filed(t, t.saved) && t.sent == s.sent && t.done == s.done
            && s.issued.Keys <= t.issued.Keys
            && forall p, q | p in t.issued && q in t.issued :: p.Key() == q.Key() ==> p == q
  {
    assert op !in s.issued;
    var t := Do(s, Record(op, deferred, stored));
    FiledStays(s, t, s.memory);
    FiledStays(s, t, s.saved);
    FiledWithDrawn(t, s.memory, op, deferred);
  }

  lemma FiledStays(s: System, t: System, b: Book)
    requires Filed(s, b) && t.done == s.done && forall o | o in s.issued :: o in t.issued && t.issued[o] == s.issued[o]
    ensures Filed(t, b)
  {
  }

  lemma FiledWithDrawn(t: System, b: Book, op: OperationIdentity, deferred: bool)
    requires Filed(t, b) && op in t.issued && t.issued[op] == deferred && op !in t.done && op.digest !in b.operations
    ensures Filed(t, Drawn(b, op, deferred))
  {
  }

  lemma RecordKeepsBooks(s: System, op: OperationIdentity, deferred: bool, stored: bool)
    requires Bookkept(s) && Enabled(s, Record(op, deferred, stored)) && Safe(s, Record(op, deferred, stored))
    ensures Bookkept(Do(s, Record(op, deferred, stored)))
  {
    var t := Do(s, Record(op, deferred, stored));
    DrawnIsFiled(s, op, deferred, stored);
    forall o | o in t.sent ensures o in t.issued && (o in t.done || Vaulted(t, o)) {
      if o !in s.done { assert !Loses(s, Record(op, deferred, stored), o.digest); }
    }
  }

  /** Sending keeps the books exactly when it is safe. */
  lemma SendKeepsBooks(s: System, key: string)
    requires Bookkept(s) && Enabled(s, Send(key))
    ensures Bookkept(Do(s, Send(key))) <==> Safe(s, Send(key))
  {
    var op, t := s.memory.operations[key], Do(s, Send(key));
    assert op in t.sent && op !in t.done;
    if Vaulted(s, op) {
      assert Filed(t, t.memory) && Filed(t, t.saved);
    } else {
      assert Loses(s, Send(key), key);
    }
  }

  lemma SafeEndKeepsBooks(s: System, key: string, ending: Ending)
    requires Bookkept(s) && Answered(s) && Enabled(s, Acknowledge(key, ending)) && Safe(s, Acknowledge(key, ending))
    ensures Bookkept(Do(s, Acknowledge(key, ending)))
  {
    var a := Acknowledge(key, ending);
    var t := Do(s, a);
    assert s.memory.operations[key] in s.sent;
    forall o | o in t.sent ensures o in t.issued && (o in t.done || Vaulted(t, o)) {
      if o !in s.done { assert !Loses(s, a, o.digest); }
    }
  }

  /** Ending a call keeps the books exactly when it is safe. */
  lemma AcknowledgeKeepsBooks(s: System, key: string, ending: Ending)
    requires Bookkept(s) && Answered(s) && Enabled(s, Acknowledge(key, ending))
    ensures Bookkept(Do(s, Acknowledge(key, ending))) <==> Safe(s, Acknowledge(key, ending))
  {
    var a := Acknowledge(key, ending);
    var t := Do(s, a);
    if Safe(s, a) {
      SafeEndKeepsBooks(s, key, ending);
    } else {
      var k :| k in s.saved.operations.Keys + s.memory.operations.Keys && Loses(s, a, k);
      assert s.saved.operations[k] in t.sent && s.saved.operations[k] !in t.done;
    }
  }

  lemma SaveKeepsBooks(s: System)
    requires Bookkept(s)
    ensures Bookkept(Do(s, SaveRecord)) <==> Safe(s, SaveRecord)
  {
    var t := Do(s, SaveRecord);
    if Safe(s, SaveRecord) {
      forall o | o in t.sent ensures o in t.issued && (o in t.done || Vaulted(t, o)) {
        if o !in s.done { assert !Loses(s, SaveRecord, o.digest); }
      }
    } else {
      var k :| k in s.saved.operations.Keys + s.memory.operations.Keys && Loses(s, SaveRecord, k);
      assert s.saved.operations[k] in t.sent;
    }
  }

  lemma StepKeepsBooks(s: System, a: Action)
    requires Bookkept(s) && Answered(s) && Enabled(s, a) && Safe(s, a)
    ensures Bookkept(Do(s, a))
  {
    match a
    case Send(key) => SendKeepsBooks(s, key);
    case Record(op, deferred, stored) => RecordKeepsBooks(s, op, deferred, stored);
    case Acknowledge(key, ending) => AcknowledgeKeepsBooks(s, key, ending);
    case SaveRecord => SaveKeepsBooks(s);
    case _ =>
  }

  lemma StepKeepsModes(s: System, a: Action)
    requires Bookkept(s) && OneMode(s) && Enabled(s, a)
    ensures OneMode(Do(s, a))
  {
    if a.Record? { assert a.op !in s.issued; }
  }

  lemma StoreStepKeeps(s: System, step: R.Step)
    requires R.InStep(s.store) && WellFormed(s.store.memory) && R.Possible(step) && !R.Accident(s.store, step)
    ensures var after := R.Do(s.store, step).0;
            R.InStep(after) && WellFormed(after.memory) && s.store.history <= after.history
            && |after.history| <= |s.store.history| + 1
            && (forall i :: |s.store.history| <= i < |after.history| && after.history[i].Mutation? ==>
                  step.Commit? && after.history[i].receipt == step.receipt)
  {
    R.StepInStep(s.store, step);
    StepHistory(s.store, step);
  }

  lemma StepHistory(st: R.Store, step: R.Step)
    requires R.Possible(step)
    ensures var after := R.Do(st, step).0;
            st.history <= after.history && |after.history| <= |st.history| + 1
            && (forall i :: |st.history| <= i < |after.history| && after.history[i].Mutation? ==>
                  step.Commit? && after.history[i].receipt == step.receipt)
  {
    if step.Commit? { CommitHistory(st, step); } else { DirectHistory(st, step); }
  }

  lemma CommitHistory(st: R.Store, step: R.Step)
    requires step.Commit?
    ensures var after := R.Do(st, step).0;
            after.history == st.history
            || exists e :: after.history == st.history + [e] && (e.Mutation? ==> e.receipt == step.receipt)
  {
    var plan := R.CommitPlan(st.memory, step.receipt, step.values, step.expected);
    if plan.Append? {
      var (after, _) := R.AppendOutcome(st, plan.event, step.write, step.over);
      R.AppendHistory(st, plan.event, step.write, step.over);
      assert after.history == st.history || after.history == st.history + [plan.event];
    }
  }

  lemma DirectHistory(st: R.Store, step: R.Step)
    requires R.Possible(step) && !step.Commit?
    ensures var after := R.Do(st, step).0;
            after.history == st.history || (step.Direct? && after.history == st.history + [step.event])
  {
    if step.Direct? { R.DirectHistory(st, step.event, step.write, step.back); } else { R.OtherHistory(st, step); }
  }

  lemma StoredIsCommitted(st: R.Store, key: string)
    requires R.InStep(st) && key in st.memory.receipts
    ensures CommittedIn(st.history, st.memory.receipts[key])
  {
    if Replay(EMPTY, st.history) == Ok(st.memory) {
      ReceiptsAreCommitted(st.history, key);
    } else {
      StoredBefore(st.history, st.memory, key);
    }
  }

  lemma StoredBefore(history: seq<Event>, memory: State, key: string)
    requires history != [] && Replay(EMPTY, history[..|history| - 1]) == Ok(memory) && key in memory.receipts
    requires forall e | e in history :: Live(e)
    ensures CommittedIn(history, memory.receipts[key])
  {
    var front, last := history[..|history| - 1], history[|history| - 1];
    assert forall e | e in front :: e in history;
    ReceiptsAreCommitted(front, key);
    CommittedInLonger(front, [last], memory.receipts[key]);
    assert history == front + [last];
  }

  /** A commit that reports success leaves a stored receipt for its operation that a durable record committed. */
  lemma SuccessIsCommitted(s: System, receipt: Receipt, values: seq<Information>, expected: seq<uint64>,
                            write: R.Write, over: R.Over)
    requires R.InStep(s.store) && WellFormed(s.store.memory)
    requires !R.Accident(s.store, R.Commit(receipt, values, expected, write, over))
    ensures var (after, reply) := R.CommitOutcome(s.store, receipt, values, expected, write, over);
            var key := receipt.operation.Key();
            reply == R.Done && key in after.memory.receipts ==>
              after.memory.receipts[key].operation == receipt.operation && CommittedIn(after.history, after.memory.receipts[key])
  {
    var step := R.Commit(receipt, values, expected, write, over);
    R.StepInStep(s.store, step);
    if receipt.operation.Key() in R.Do(s.store, step).0.memory.receipts {
      StoredIsCommitted(R.Do(s.store, step).0, receipt.operation.Key());
    }
    SuccessIsItsOwn(s.store, receipt, values, expected, write, over);
  }

  lemma SuccessIsItsOwn(st: R.Store, receipt: Receipt, values: seq<Information>, expected: seq<uint64>, write: R.Write,
                        over: R.Over)
    ensures var (after, reply) := R.CommitOutcome(st, receipt, values, expected, write, over);
            var key := receipt.operation.Key();
            reply == R.Done && key in after.memory.receipts ==> after.memory.receipts[key].operation == receipt.operation
  {
  }

  lemma RepliesStay(s: System, t: System)
    requires Answered(s) && s.store.history <= t.store.history && R.InStep(t.store) && WellFormed(t.store.memory)
    requires t.replies == s.replies && s.sent <= t.sent
    requires forall op | op in t.done :: op in s.done || exists r | r in s.replies :: r.operation == op
    ensures Answered(t)
  {
    forall r | r in t.replies ensures CommittedIn(t.store.history, r.receipt) {
      CommittedStays(s.store.history, t.store.history, r.receipt);
    }
    DoneStays(s, t);
  }

  lemma CommittedStays(before: seq<Event>, after: seq<Event>, r: Receipt)
    requires before <= after && CommittedIn(before, r)
    ensures CommittedIn(after, r)
  {
    CommittedInLonger(before, after[|before|..], r);
    assert after == before + after[|before|..];
  }

  lemma DoneStays(s: System, t: System)
    requires Answered(s) && t.replies == s.replies
    requires forall op | op in t.done :: op in s.done || exists r | r in s.replies :: r.operation == op
    ensures forall op | op in t.done :: exists r | r in t.replies :: r.operation == op
  {
  }

  lemma DeliverKeepsAnswered(s: System, a: Action)
    requires Answered(s) && a.Deliver? && Enabled(s, a) && !Accident(s, a)
    ensures Answered(Do(s, a))
  {
    var receipt := Receipt(a.op, a.results);
    var step := R.Commit(receipt, a.values, a.expected, a.write, a.over);
    StoreStepKeeps(s, step);
    SuccessIsCommitted(s, receipt, a.values, a.expected, a.write, a.over);
    DeliverAnswers(s, a);
    RepliesStay(s, s.(store := R.Do(s.store, step).0));
  }

  lemma DeliverAnswers(s: System, a: Action)
    requires a.Deliver? && Enabled(s, a)
    ensures var t := Do(s, a);
            var (after, reply) := R.CommitOutcome(s.store, Receipt(a.op, a.results), a.values, a.expected, a.write, a.over);
            && t == s.(store := after, replies := t.replies)
            && forall r | r in t.replies ::
                 r in s.replies || (reply == R.Done && a.op.Key() in after.memory.receipts
                                    && r == Success(a.op, after.memory.receipts[a.op.Key()]))
  {
  }

  lemma StepKeepsAnswered(s: System, a: Action)
    requires Answered(s) && Enabled(s, a) && !Accident(s, a)
    ensures Answered(Do(s, a))
  {
    match a
    case Deliver(_, _, _, _, _, _) => DeliverKeepsAnswered(s, a);
    case Elsewhere(step) =>
      StoreStepKeeps(s, step);
      RepliesStay(s, Do(s, a));
    case Record(_, _, _) => RepliesStay(s, Do(s, a));
    case Send(_) => RepliesStay(s, Do(s, a));
    case Acknowledge(_, _) => RepliesStay(s, Do(s, a));
    case SaveRecord => RepliesStay(s, Do(s, a));
    case ClientCrash => RepliesStay(s, Do(s, a));
  }

  lemma StoreActionApplies(s: System, t: System, step: R.Step)
    requires OnlySentApplied(s) && R.Possible(step)
    requires t.store == R.Do(s.store, step).0 && t.sent == s.sent && t.issued == s.issued
    requires step.Commit? ==> step.receipt.operation !in s.issued || step.receipt.operation in s.sent
    ensures OnlySentApplied(t)
  {
    StepHistory(s.store, step);
    forall op | Applied(t, op) ensures op in t.sent {
      var i :| 0 <= i < |t.store.history| && t.store.history[i].Mutation? && t.store.history[i].receipt.operation == op;
      if i < |s.store.history| {
        assert s.store.history[i] == t.store.history[i];
        assert Applied(s, op);
      }
    }
  }

  lemma StepKeepsApplied(s: System, a: Action)
    requires OnlySentApplied(s) && Enabled(s, a)
    ensures OnlySentApplied(Do(s, a))
  {
    match a
    case Deliver(op, results, values, expected, write, over) =>
      StoreActionApplies(s, Do(s, a), R.Commit(Receipt(op, results), values, expected, write, over));
    case Elsewhere(step) => StoreActionApplies(s, Do(s, a), step);
    case Record(_, _, _) =>
      forall other | Applied(Do(s, a), other) ensures other in s.sent {
        var i :| 0 <= i < |s.store.history| && s.store.history[i].Mutation? && s.store.history[i].receipt.operation == other;
        assert s.store.history[i] in s.store.history;
        assert Applied(s, other);
      }
    case _ =>
      forall op | Applied(Do(s, a), op) ensures op in Do(s, a).sent { assert Applied(s, op); }
  }

  lemma StepKeepsInv(s: System, a: Action)
    requires Inv(s) && Enabled(s, a) && !Accident(s, a) && Safe(s, a)
    ensures Inv(Do(s, a))
  {
    StepKeepsBooks(s, a);
    StepKeepsModes(s, a);
    StepKeepsAnswered(s, a);
    StepKeepsApplied(s, a);
  }

  lemma SmoothFront(s: System, actions: seq<Action>)
    requires SmoothFrom(s, actions) && actions != []
    ensures SmoothFrom(s, actions[..|actions| - 1])
    ensures Clean(RunFrom(s, actions[..|actions| - 1]), actions[|actions| - 1])
  {
    var front := actions[..|actions| - 1];
    forall i | 0 <= i < |front| ensures Clean(RunFrom(s, front[..i]), front[i]) {
      assert front[..i] == actions[..i] && front[i] == actions[i];
    }
  }

  lemma {:induction false} RunFromKeepsInv(s: System, actions: seq<Action>)
    requires Inv(s) && SmoothFrom(s, actions)
    ensures Inv(RunFrom(s, actions))
  {
    if actions != [] {
      var front, a := actions[..|actions| - 1], actions[|actions| - 1];
      SmoothFront(s, actions);
      RunFromKeepsInv(s, front);
      if Enabled(RunFrom(s, front), a) { StepKeepsInv(RunFrom(s, front), a); }
    }
  }

  /** Over every run with losses, repetitions and crashes on both sides. */
  lemma RunKeepsInv(actions: seq<Action>)
    requires Smooth(actions)
    ensures Inv(Run(actions))
  {
    assert R.FRESH.disk.Events() == [];
    RunFromKeepsInv(START, actions);
  }

  // ---------------------------------------------------------------- what the user gets

  /** Effects and reports, counted: for each request, an operation is carried out by at most one durable record; every
      operation reported to the caller as a success has been carried out; and beyond those at most one more has, the one
      in the vault, which the next call takes up again, if need be after a restart. */
  lemma AppliedAndAcknowledged(actions: seq<Action>, op: OperationIdentity)
    requires Smooth(actions)
    ensures var s := Run(actions);
            && (forall i, j :: 0 <= i < j < |s.store.history| && s.store.history[i].Mutation? && s.store.history[j].Mutation? ==>
                  s.store.history[i].receipt.operation != s.store.history[j].receipt.operation)
            && (op in s.done ==> exists i :: 0 <= i < |s.store.history| && s.store.history[i].Mutation?
                                             && s.store.history[i].receipt.operation == op)
            && (Applied(s, op) && op !in s.done ==> Vaulted(s, op))
  {
    RunKeepsInv(actions);
    var s := Run(actions);
    forall i, j | 0 <= i < j < |s.store.history| && s.store.history[i].Mutation? && s.store.history[j].Mutation?
      ensures s.store.history[i].receipt.operation != s.store.history[j].receipt.operation
    {
      AtMostOnce(EMPTY, s.store.history, i, j);
    }
    if op in s.done {
      var r :| r in s.replies && r.operation == op;
      assert CommittedIn(s.store.history, r.receipt);
    }
  }

  /** Two operations recorded for the same request are never both carried out and unreported. */
  lemma AtMostOneUnacknowledged(actions: seq<Action>, a: OperationIdentity, b: OperationIdentity)
    requires Smooth(actions) && a.digest == b.digest
    requires Applied(Run(actions), a) && a !in Run(actions).done
    requires Applied(Run(actions), b) && b !in Run(actions).done
    ensures a == b
  {
    AppliedAndAcknowledged(actions, a);
    AppliedAndAcknowledged(actions, b);
  }

  /** However often an operation is delivered and whatever is lost in between, every success that is ever
      reported for it carries one and the same receipt. */
  lemma RepliesAgree(actions: seq<Action>, p: Success, q: Success)
    requires Smooth(actions) && p in Run(actions).replies && q in Run(actions).replies && p.operation == q.operation
    ensures p == q
  {
    RunKeepsInv(actions);
    OneReceiptPerOperation(EMPTY, Run(actions).store.history, p.receipt, q.receipt);
  }

  /** A retry of an operation already carried out, while its generation lasts, changes nothing in the store and
      is answered with the first commit's receipt; after the generation it changes nothing and is refused. */
  lemma RetryGetsFirstReceipt(actions: seq<Action>, i: nat, retry: Action)
    requires Smooth(actions) && !Run(actions).store.poisoned
    requires i < |Run(actions).store.history| && Run(actions).store.history[i].Mutation?
    requires retry.Deliver? && retry.op == Run(actions).store.history[i].receipt.operation && Enabled(Run(actions), retry)
    ensures var s, t := Run(actions), Do(Run(actions), retry);
            && t.store == s.store
            && t.replies == if retry.op.generation == s.store.memory.generation
                            then s.replies + {Success(retry.op, s.store.history[i].receipt)} else s.replies
  {
    RunKeepsInv(actions);
    var s := Run(actions);
    RetryFindsFirstReceipt(EMPTY, s.store.history, i);
  }

  /** An operation is never sent with its organization deferred one time and not another. */
  lemma RetriesKeepMode(actions: seq<Action>, op: OperationIdentity, a: bool, b: bool)
    requires Smooth(actions) && (op, a) in Run(actions).modes && (op, b) in Run(actions).modes
    ensures a == b
  {
    RunKeepsInv(actions);
    assert (op, a).0 in Run(actions).issued && (op, b).0 in Run(actions).issued;
  }
}
