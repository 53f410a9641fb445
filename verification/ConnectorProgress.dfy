/** Which requests can still be brought to an end: an operation in the vault that can be reported to its caller as a
    success, and one that no run reports any more. */
module ConnectorProgress {
  import opened Options
  import opened AssetLog
  import opened AssetHistory
  import opened AssetOverwrite
  import opened Connector
  import opened LostRecords
  import R = AssetRuns

  /** A success for the operation is on its way. */
  ghost predicate Replied(s: System, op: OperationIdentity) {
    exists r :: r in s.replies && r.operation == op
  }

  /** The receipt of the operation is stored. */
  predicate Receipted(st: State, op: OperationIdentity) {
    Lookup(st, op).Ok? && Lookup(st, op).value.Some?
  }

  /** The operation is committed in this state's generation, or open in it while the table has room. */
  predicate Stands(st: State, op: OperationIdentity) {
    Receipted(st, op) || (Lookup(st, op) == Ok(None) && |st.receipts| < OPERATION_LIMIT)
  }

  /** A success is on its way, or the running store would send one, or the durable records stand for one. */
  ghost predicate Completable(s: System, op: OperationIdentity)
    requires R.InStep(s.store)
  {
    Replied(s, op) || Receipted(s.store.memory, op) || Stands(Now(s), op)
  }

  // ---------------------------------------------------------------- to the end

  /** With its success on its way, the operation is taken from the vault and reported. */
  lemma ReportsReplied(s: System, u: System, op: OperationIdentity) returns (t: System)
    requires Reaches(s, u) && Vaulted(u, op) && Replied(u, op)
    ensures Reaches(s, t) && op in t.done
  {
    ReachesStep(s, u, ClientCrash);
    var v := Do(u, ClientCrash);
    assert Safe(v, Acknowledge(op.digest, Told));
    ReachesStep(s, v, Acknowledge(op.digest, Told));
    t := Do(v, Acknowledge(op.digest, Told));
  }

  const NOTHING_NEW := R.Over(1, true)

  /** The request as it goes out again, for a store that already has the receipt. */
  function Again(op: OperationIdentity): Action {
    Deliver(op, [], [], [], R.Nothing, NOTHING_NEW)
  }

  lemma ReceiptedReplies(u: System, op: OperationIdentity)
    requires op in u.sent && Receipted(u.store.memory, op)
    ensures Enabled(u, Again(op)) && !Accident(u, Again(op)) && Safe(u, Again(op))
    ensures var t := Do(u, Again(op)); t.saved == u.saved && Replied(t, op)
  {
    var t := Do(u, Again(op));
    assert Success(op, u.store.memory.receipts[op.Key()]) in t.replies;
  }

  /** With its receipt stored, it is asked for again and reported. */
  lemma ReportsReceipted(s: System, u: System, op: OperationIdentity) returns (t: System)
    requires Reaches(s, u) && Vaulted(u, op) && Receipted(u.store.memory, op)
    ensures Reaches(s, t) && op in t.done
  {
    ReachesStep(s, u, ClientCrash);
    var v := Do(u, ClientCrash);
    assert Safe(v, Send(op.digest));
    ReachesStep(s, v, Send(op.digest));
    v := Do(v, Send(op.digest));
    ReceiptedReplies(v, op);
    ReachesStep(s, v, Again(op));
    t := ReportsReplied(s, Do(v, Again(op)), op);
  }

  /** Still open with room for its receipt, it is carried out first. */
  lemma ReportsOpen(s: System, u: System, op: OperationIdentity) returns (t: System)
    requires Reaches(s, u) && Vaulted(u, op) && op in u.issued && Takes(u.store, 1) && Lookup(u.store.memory, op) == Ok(None)
    ensures Reaches(s, t) && op in t.done
  {
    ReachesStep(s, u, ClientCrash);
    var v := Do(u, ClientCrash);
    assert Safe(v, Send(op.digest));
    ReachesStep(s, v, Send(op.digest));
    v := Do(v, Send(op.digest));
    var asset := FreshAsset(v.store.memory);
    EffectTakesHold(v, op, asset, 0);
    assert Safe(v, Effect(op, asset));
    ReachesStep(s, v, Effect(op, asset));
    t := ReportsReceipted(s, Do(v, Effect(op, asset)), op);
  }

  lemma CompletableIsReported(s: System, op: OperationIdentity) returns (t: System)
    requires Inv(s) && Vaulted(s, op) && Completable(s, op)
    ensures Reaches(s, t) && op in t.done
  {
    ReachesSelf(s);
    if Replied(s, op) {
      t := ReportsReplied(s, s, op);
    } else if Receipted(s.store.memory, op) {
      t := ReportsReceipted(s, s, op);
    } else {
      Reopens(s);
      ReachesStep(s, s, REOPEN);
      var u := Do(s, REOPEN);
      if Receipted(Now(s), op) { t := ReportsReceipted(s, u, op); } else { t := ReportsOpen(s, u, op); }
    }
  }

  // ---------------------------------------------------------------- never again

  /** What no longer stands does not stand after any record a store appends. */
  lemma FallenStays(st: State, e: Event, op: OperationIdentity)
    requires Live(e) && Apply(st, e).Ok? && !Stands(st, op) && op.generation <= st.generation
    requires e.Mutation? ==> |st.receipts| < OPERATION_LIMIT
    ensures !Stands(Apply(st, e).value, op) && op.generation <= Apply(st, e).value.generation
  {
  }

  /** What one step of the store appends, and what it leaves in memory. */
  lemma StoreMoves(st: R.Store, step: R.Step)
    requires R.InStep(st) && WellFormed(st.memory) && R.Possible(step) && !R.Accident(st, step)
    ensures var after := R.Do(st, step).0;
            && R.InStep(after) && (after.poisoned ==> after.memory == st.memory)
            && (after.history == st.history
                || exists e :: after.history == st.history + [e] && Live(e)
                               && (e.Mutation? ==> !st.poisoned && |st.memory.receipts| < OPERATION_LIMIT))
  {
    R.StepInStep(st, step);
    MemoryMoves(st, step);
    AppendsOne(st, step);
  }

  lemma MemoryMoves(st: R.Store, step: R.Step)
    ensures R.Do(st, step).0.poisoned ==> R.Do(st, step).0.memory == st.memory
  {
  }

  lemma AppendsOne(st: R.Store, step: R.Step)
    requires R.Possible(step)
    ensures var after := R.Do(st, step).0;
            after.history == st.history
            || exists e :: after.history == st.history + [e] && Live(e)
                           && (e.Mutation? ==> !st.poisoned && |st.memory.receipts| < OPERATION_LIMIT)
  {
    var after := R.Do(st, step).0;
    match step
    case Commit(receipt, values, expected, write, over) =>
      var plan := R.CommitPlan(st.memory, receipt, values, expected);
      if plan.Append? {
        R.AppendHistory(st, plan.event, write, over);
        assert after.history == st.history || after.history == st.history + [plan.event];
      }
    case Direct(e, write, back) => R.DirectHistory(st, e, write, back);
    case _ => R.OtherHistory(st, step);
  }

  /** The operation does not stand in the store, neither running nor reopened. */
  ghost predicate Fallen(st: R.Store, op: OperationIdentity)
    requires R.InStep(st)
  {
    var now := Replay(EMPTY, st.history).value;
    !Stands(now, op) && !Receipted(st.memory, op) && op.generation <= now.generation
  }

  lemma StepStaysFallen(st: R.Store, step: R.Step, op: OperationIdentity)
    requires R.InStep(st) && WellFormed(st.memory) && R.Possible(step) && !R.Accident(st, step) && Fallen(st, op)
    ensures R.InStep(R.Do(st, step).0) && Fallen(R.Do(st, step).0, op)
  {
    StoreMoves(st, step);
    var after := R.Do(st, step).0;
    if after.history != st.history {
      var e :| after.history == st.history + [e] && Live(e)
               && (e.Mutation? ==> !st.poisoned && |st.memory.receipts| < OPERATION_LIMIT);
      ReplaySnoc(EMPTY, st.history, e);
      FallenStays(Replay(EMPTY, st.history).value, e, op);
    }
  }

  /** No success is on its way for it either. */
  ghost predicate Stuck(s: System, op: OperationIdentity) {
    R.InStep(s.store) && op in s.issued && !Replied(s, op) && Fallen(s.store, op)
  }

  lemma DeliverStaysStuck(s: System, a: Action, op: OperationIdentity)
    requires Inv(s) && a.Deliver? && Enabled(s, a) && !Accident(s, a) && Stuck(s, op)
    ensures Stuck(Do(s, a), op)
  {
    var receipt := Receipt(a.op, a.results);
    StepStaysFallen(s.store, R.Commit(receipt, a.values, a.expected, a.write, a.over), op);
    StepKeepsAnswered(s, a);
    DeliverAnswers(s, a);
    SuccessIsItsOwn(s.store, receipt, a.values, a.expected, a.write, a.over);
    var t := Do(s, a);
    forall r | r in t.replies ensures r.operation != op {
      if r !in s.replies { assert Receipted(t.store.memory, r.operation); }
    }
  }

  lemma StepStaysStuck(s: System, a: Action, op: OperationIdentity)
    requires Inv(s) && Enabled(s, a) && !Accident(s, a) && Stuck(s, op)
    ensures Stuck(Do(s, a), op)
  {
    match a
    case Deliver(_, _, _, _, _, _) => DeliverStaysStuck(s, a, op);
    case Elsewhere(step) => StepStaysFallen(s.store, step, op);
    case _ =>
  }

  lemma {:induction false} StuckForever(s: System, actions: seq<Action>, op: OperationIdentity)
    requires Inv(s) && SmoothFrom(s, actions) && Stuck(s, op)
    ensures Inv(RunFrom(s, actions)) && Stuck(RunFrom(s, actions), op)
  {
    if actions != [] {
      var front, a := actions[..|actions| - 1], actions[|actions| - 1];
      SmoothFront(s, actions);
      StuckForever(s, front, op);
      var before := RunFrom(s, front);
      if Enabled(before, a) {
        StepKeepsInv(before, a);
        StepStaysStuck(before, a, op);
      }
    }
  }

  /** Operations are drawn in generations that the durable records have reached. */
  ghost predicate Timely(s: System) {
    R.InStep(s.store) && forall op | op in s.issued :: op.generation <= Now(s).generation
  }

  lemma MemoryIsNotAhead(st: R.Store)
    requires R.InStep(st)
    ensures st.memory.generation <= Replay(EMPTY, st.history).value.generation
  {
    if Replay(EMPTY, st.history) != Ok(st.memory) {
      var n := |st.history| - 1;
      assert st.history == st.history[..n] + [st.history[n]];
      ReplayConcat(EMPTY, st.history[..n], [st.history[n]]);
      GenerationGrows(st.memory, [st.history[n]]);
    }
  }

  lemma HistoryIsNotBehind(before: seq<Event>, after: seq<Event>)
    requires before <= after && Replay(EMPTY, after).Ok? && Replay(EMPTY, before).Ok?
    ensures Replay(EMPTY, before).value.generation <= Replay(EMPTY, after).value.generation
  {
    var rest := after[|before|..];
    assert after == before + rest;
    ReplayConcat(EMPTY, before, rest);
    GenerationGrows(Replay(EMPTY, before).value, rest);
  }

  lemma StepKeepsTimely(s: System, a: Action)
    requires Inv(s) && Timely(s) && Enabled(s, a) && !Accident(s, a)
    ensures Timely(Do(s, a))
  {
    StepKeepsAnswered(s, a);
    MemoryIsNotAhead(s.store);
    HistoryOnlyGrows(s, a);
    HistoryIsNotBehind(s.store.history, Do(s, a).store.history);
  }

  lemma HistoryOnlyGrows(s: System, a: Action)
    requires Enabled(s, a)
    ensures s.store.history <= Do(s, a).store.history
  {
    match a
    case Deliver(op, results, values, expected, write, over) =>
      R.HistoryStays(s.store, R.Commit(Receipt(op, results), values, expected, write, over));
    case Elsewhere(step) => R.HistoryStays(s.store, step);
    case _ =>
  }

  lemma {:induction false} RunIsTimely(actions: seq<Action>)
    requires Smooth(actions)
    ensures Inv(Run(actions)) && Timely(Run(actions))
  {
    RunKeepsInv(actions);
    if actions != [] {
      var front, a := actions[..|actions| - 1], actions[|actions| - 1];
      SmoothFront(START, actions);
      RunIsTimely(front);
      if Enabled(Run(front), a) { StepKeepsTimely(Run(front), a); }
    }
  }

  /** From every system a smooth run reaches, an operation in the vault is reported to its caller by some later smooth
      run exactly if a success for it is on its way, or the running store has its receipt, or the durable records have
      it or leave it open in their generation with room in the table. Otherwise no run ever reports it, though each call
      for its request sends it again. */
  lemma VaultedCanComplete(actions: seq<Action>, op: OperationIdentity)
    requires Smooth(actions) && Vaulted(Run(actions), op)
    ensures R.InStep(Run(actions).store)
    ensures (exists t :: Reaches(Run(actions), t) && op in t.done) <==> Completable(Run(actions), op)
  {
    RunIsTimely(actions);
    var s := Run(actions);
    if Completable(s, op) {
      var t := CompletableIsReported(s, op);
    } else {
      forall t | Reaches(s, t) ensures op !in t.done {
        var more :| SmoothFrom(s, more) && RunFrom(s, more) == t;
        StuckForever(s, more, op);
      }
    }
  }
}
