/** What it takes for a request to be carried out twice without the caller learning of either: exactly a step after which
    an operation is out that is neither reported nor in the vault. */
module LostRecords {
  import opened Options
  import opened AssetLog
  import opened AssetHistory
  import opened Connector
  import opened Text
  import R = AssetRuns

  /** Two operations of one request have been carried out and neither was reported as a success. */
  ghost predicate Doubled(s: System, key: string) {
    exists a, b :: Pending(s, key, a) && Pending(s, key, b) && a != b
  }

  ghost predicate Pending(s: System, key: string, op: OperationIdentity) {
    op.digest == key && Applied(s, op) && op !in s.done
  }

  /** A smooth run leads from one system to the other. */
  ghost predicate Reaches(s: System, t: System) {
    exists more :: SmoothFrom(s, more) && RunFrom(s, more) == t
  }

  lemma ReachesSelf(s: System)
    ensures Reaches(s, s)
  {
    assert SmoothFrom(s, []) && RunFrom(s, []) == s;
  }

  lemma ReachesStep(s: System, t: System, a: Action)
    requires Reaches(s, t) && Enabled(t, a) && !Accident(t, a) && Safe(t, a)
    ensures Reaches(s, Do(t, a))
  {
    var more :| SmoothFrom(s, more) && RunFrom(s, more) == t;
    SmoothSnoc(s, more, a);
  }

  lemma SmoothSnoc(s: System, actions: seq<Action>, a: Action)
    requires SmoothFrom(s, actions) && Clean(RunFrom(s, actions), a)
    ensures var before := RunFrom(s, actions);
            SmoothFrom(s, actions + [a]) && RunFrom(s, actions + [a]) == if Enabled(before, a) then Do(before, a) else before
  {
    var all := actions + [a];
    assert all[..|actions|] == actions && all[..|all| - 1] == actions;
    forall i | 0 <= i < |all| ensures Clean(RunFrom(s, all[..i]), all[i]) {
      if i < |actions| { assert all[..i] == actions[..i] && all[i] == actions[i]; }
    }
  }

  // ---------------------------------------------------------------- nothing lost

  lemma NeverDoubled(s: System, key: string)
    requires Inv(s)
    ensures !Doubled(s, key)
  {
    forall a, b | Pending(s, key, a) && Pending(s, key, b) ensures a == b {
      assert a in s.sent && b in s.sent;
    }
  }

  lemma StaysSingle(s: System, t: System, key: string)
    requires Inv(s) && Reaches(s, t)
    ensures !Doubled(t, key)
  {
    var more :| SmoothFrom(s, more) && RunFrom(s, more) == t;
    RunFromKeepsInv(s, more);
    NeverDoubled(t, key);
  }

  // ---------------------------------------------------------------- a name never used

  function Filler(n: nat): (r: string)
    ensures |r| == n + 1 && r[0] == 'x'
  {
    if n == 0 then "x" else Filler(n - 1) + "x"
  }

  /** Longer than every name of a finite set. */
  lemma {:induction false} Longest(names: set<string>) returns (n: nat)
    ensures forall name | name in names :: |name| <= n
  {
    n := 0;
    if names != {} {
      var name :| name in names;
      var rest := Longest(names - {name});
      n := if |name| <= rest then rest else |name|;
    }
  }

  lemma FillerIsNotBlank(n: nat)
    ensures !GoBlank(Filler(n))
  {
    assert Filler(n)[0] in Filler(n) && !GoSpace('x');
  }

  // ---------------------------------------------------------------- the first effect of an operation

  const ASSET := Information(ASSET_SCHEMA, "a", 1, 1, 1, "information", "text", [], [], ("", ""))

  /** One new asset, created and answered for. */
  function Effect(op: OperationIdentity, asset: string): Action {
    Deliver(op, [Outcome(AssetVersion(asset, 1), "")], [ASSET.(id := asset)], [0], R.Synced, R.Over(1, true))
  }

  /** The store takes commits, at the end of its file, and has room for more receipts. */
  ghost predicate Takes(st: R.Store, room: nat) {
    && st.open && !st.poisoned && R.AtEnd(st.disk, st.cursor) && WellFormed(st.memory)
    && |st.memory.receipts| + room <= OPERATION_LIMIT
  }

  lemma NewAssetAccepted(st: State, op: OperationIdentity, asset: string)
    requires Lookup(st, op) == Ok(None) && !GoBlank(asset) && asset !in st.items && asset !in st.deleted
    ensures var r := Receipt(op, [Outcome(AssetVersion(asset, 1), "")]);
            var v := ASSET.(id := asset);
            Apply(st, Mutation(r, [v], [0])) == Ok(st.(items := st.items[asset := v], receipts := st.receipts[op.Key() := r]))
            && AcceptsMutation(st, r, [v], [0])
  {
    var outcome, v := Outcome(AssetVersion(asset, 1), ""), ASSET.(id := asset);
    assert v.Valid() by { assert 't' in v.content && !GoSpace('t'); }
    assert Succeeded([]) == [] && [outcome][..0] == [];
    assert Succeeded([outcome]) == [AssetVersion(asset, 1)];
    assert Versions([v]) == [AssetVersion(asset, 1)];
    assert [v][..0] == [] && PutAll(st.items, []) == st.items;
    assert PutAll(st.items, [v]) == st.items[asset := v];
    assert AcceptsWrite(st.items, v, 0);
  }

  lemma EffectTakesHold(s: System, op: OperationIdentity, asset: string, room: nat)
    requires op in s.sent && Takes(s.store, room + 1) && Lookup(s.store.memory, op) == Ok(None)
    requires !GoBlank(asset) && asset !in s.store.memory.items && asset !in s.store.memory.deleted
    ensures var a := Effect(op, asset);
            var t := Do(s, a);
            var r := Receipt(op, a.results);
            && Enabled(s, a) && !Accident(s, a) && Takes(t.store, room)
            && t.store.history == s.store.history + [Mutation(r, a.values, a.expected)]
            && t.store.memory.generation == s.store.memory.generation
            && t.store.memory.receipts == s.store.memory.receipts[op.Key() := r]
            && t == s.(store := t.store, replies := t.replies) && s.replies <= t.replies
  {
    var a := Effect(op, asset);
    var e := Mutation(Receipt(op, a.results), a.values, a.expected);
    NewAssetAccepted(s.store.memory, op, asset);
    TakesMutation(s.store, e, room);
  }

  /** What a mutation that passes its checks does to a store that takes it. */
  lemma TakesMutation(st: R.Store, e: Event, room: nat)
    requires Takes(st, room + 1) && e.Mutation? && Lookup(st.memory, e.receipt.operation) == Ok(None)
    requires AcceptsMutation(st.memory, e.receipt, e.values, e.expected)
    ensures var (t, reply) := R.CommitOutcome(st, e.receipt, e.values, e.expected, R.Synced, R.Over(1, true));
            && Takes(t, room) && t.history == st.history + [e] && reply == R.Done
            && t.memory.generation == st.memory.generation
            && t.memory.receipts == st.memory.receipts[e.receipt.operation.Key() := e.receipt]
    ensures !R.Accident(st, R.Commit(e.receipt, e.values, e.expected, R.Synced, R.Over(1, true)))
  {
    R.OneMoreReceipt(st.memory, e);
    ApplyKeepsWellFormed(st.memory, e);
    assert R.CommitPlan(st.memory, e.receipt, e.values, e.expected) == R.Append(e);
  }

  lemma EffectApplies(s: System, op: OperationIdentity, asset: string)
    requires op in s.sent && op in s.issued && Takes(s.store, 1) && Lookup(s.store.memory, op) == Ok(None)
    requires !GoBlank(asset) && asset !in s.store.memory.items && asset !in s.store.memory.deleted
    ensures Applied(Do(s, Effect(op, asset)), op)
    ensures forall other | Applied(s, other) :: Applied(Do(s, Effect(op, asset)), other)
  {
    EffectTakesHold(s, op, asset, 0);
    var t := Do(s, Effect(op, asset));
    assert t.store.history[|s.store.history|].Mutation? && t.store.history[|s.store.history|].receipt.operation == op;
    forall other | Applied(s, other) ensures Applied(t, other) {
      var i :| 0 <= i < |s.store.history| && s.store.history[i].Mutation? && s.store.history[i].receipt.operation == other;
      assert t.store.history[i] == s.store.history[i];
    }
  }

  lemma FreshAsset(st: State) returns (asset: string)
    ensures !GoBlank(asset) && asset !in st.items && asset !in st.deleted
  {
    var n := Longest(st.items.Keys + st.deleted.Keys);
    FillerIsNotBlank(n);
    asset := Filler(n);
  }

  // ---------------------------------------------------------------- the store opened again

  /** What the durable records say, whatever the running store has in memory. */
  ghost function Now(s: System): State
    requires R.InStep(s.store)
  {
    Replay(EMPTY, s.store.history).value
  }

  ghost predicate HasRoom(s: System, room: nat)
    requires R.InStep(s.store)
  {
    |Now(s).receipts| + room <= OPERATION_LIMIT
  }

  /** The operation has been carried out, or still can be. */
  ghost predicate Effective(s: System, op: OperationIdentity)
    requires R.InStep(s.store)
  {
    Applied(s, op) || Lookup(Now(s), op) == Ok(None)
  }

  const REOPEN := Elsewhere(R.Crash)

  lemma Reopens(s: System)
    requires Answered(s)
    ensures var t := Do(s, REOPEN);
            && Enabled(s, REOPEN) && !Accident(s, REOPEN) && Safe(s, REOPEN) && t == s.(store := t.store)
            && t.store.history == s.store.history && Answered(t) && t.store.memory == Now(s)
            && t.store.open && !t.store.poisoned && R.AtEnd(t.store.disk, t.store.cursor)
  {
    R.ReopenInStep(s.store);
    StepKeepsAnswered(s, REOPEN);
  }

  // ---------------------------------------------------------------- something lost

  /** The operation is out, and neither reported nor in the vault. */
  ghost predicate Exposed(s: System, key: string, op: OperationIdentity) {
    op.digest == key && op in s.sent && op in s.issued && op !in s.done && !Vaulted(s, op)
  }

  /** What the vault holds for the request instead can still be carried out, under its own key. */
  ghost predicate Replaceable(s: System, key: string, op: OperationIdentity)
    requires R.InStep(s.store)
  {
    key in s.saved.operations ==>
      var other := s.saved.operations[key];
      Effective(s, other) && other in s.issued && other !in s.done && other.digest == key && other.Key() != op.Key()
  }

  /** Both stop and start again: the store is what its records say, the connector what its vault says. */
  lemma Restarted(s: System, key: string, op: OperationIdentity) returns (t: System)
    requires Answered(s) && Exposed(s, key, op) && Effective(s, op) && Replaceable(s, key, op) && HasRoom(s, 2)
    ensures Reaches(s, t) && Answered(t) && Takes(t.store, 2) && t.memory == t.saved == s.saved && t.done == s.done
    ensures t.store.memory == Now(s) && Now(t) == Now(s)
    ensures Exposed(t, key, op) && Effective(t, op) && Replaceable(t, key, op)
  {
    ReachesSelf(s);
    Reopens(s);
    ReachesStep(s, s, REOPEN);
    var u := Do(s, REOPEN);
    ReachesStep(s, u, ClientCrash);
    StepKeepsAnswered(u, ClientCrash);
    t := Do(u, ClientCrash);
    AppliedStays(s, t, op);
    if key in s.saved.operations { AppliedStays(s, t, s.saved.operations[key]); }
  }

  lemma AppliedStays(u: System, v: System, op: OperationIdentity)
    requires v.store.history == u.store.history && u.issued.Keys <= v.issued.Keys
    ensures Applied(u, op) ==> Applied(v, op)
  {
  }

  /** An operation that is out is carried out, if it has not been yet; nothing else that counts changes. */
  lemma CarriedOut(s: System, u: System, op: OperationIdentity, room: nat) returns (t: System)
    requires Reaches(s, u) && op in u.sent && op in u.issued && Takes(u.store, room + 1)
    requires Applied(u, op) || Lookup(u.store.memory, op) == Ok(None)
    ensures Reaches(s, t) && t == u.(store := t.store, replies := t.replies) && Applied(t, op) && Takes(t.store, room)
    ensures t.store.memory.generation == u.store.memory.generation
    ensures forall other | Applied(u, other) :: Applied(t, other)
    ensures forall other | Lookup(u.store.memory, other) == Ok(None) && other.Key() != op.Key() ::
              Lookup(t.store.memory, other) == Ok(None)
  {
    t := u;
    if !Applied(u, op) {
      var asset := FreshAsset(u.store.memory);
      EffectTakesHold(u, op, asset, room);
      EffectApplies(u, op, asset);
      assert Safe(u, Effect(op, asset));
      ReachesStep(s, u, Effect(op, asset));
      t := Do(u, Effect(op, asset));
      OthersStayOpen(u.store.memory, t.store.memory, op);
    }
  }

  lemma OthersStayOpen(before: State, after: State, op: OperationIdentity)
    requires op.Key() in after.receipts && after.receipts == before.receipts[op.Key() := after.receipts[op.Key()]]
    requires after.generation == before.generation
    ensures forall other | Lookup(before, other) == Ok(None) && other.Key() != op.Key() :: Lookup(after, other) == Ok(None)
  {
  }

  /** The same work under an identity never drawn. */
  lemma FreshOperation(s: System, op: OperationIdentity) returns (again: OperationIdentity)
    requires WellFormed(s.store.memory) && op.Complete()
    ensures again == op.(id := again.id, generation := s.store.memory.generation)
    ensures again !in s.issued && again !in s.done && Lookup(s.store.memory, again) == Ok(None)
    ensures forall o | o in s.issued :: o.Key() != again.Key()
    ensures forall e | e in s.store.history && e.Mutation? :: e.receipt.operation.Key() != again.Key()
  {
    var used := s.store.memory.receipts.Keys + (set o | o in s.issued :: o.Key()) + (set d | d in s.done :: d.Key())
                + (set e | e in s.store.history && e.Mutation? :: e.receipt.operation.Key());
    var n := Longest(used);
    again := op.(id := Filler(n), generation := s.store.memory.generation);
    assert |again.Key()| >= |again.id| && again.Key() !in used;
    assert forall o | o in s.issued :: o.Key() in used;
    assert forall d | d in s.done :: d.Key() in used;
    assert forall e | e in s.store.history && e.Mutation? :: e.receipt.operation.Key() in used;
  }

  /** A second operation for the request: the one the vault holds, or one drawn now. */
  lemma Second(s: System, u: System, key: string, op: OperationIdentity) returns (t: System, again: OperationIdentity)
    requires Reaches(s, u) && u.memory == u.saved && Takes(u.store, 1) && op.digest == key && op.Complete()
    requires key in u.saved.operations ==>
               var other := u.saved.operations[key];
               other in u.issued && other !in u.done && other.digest == key && other != op
               && (Applied(u, other) || Lookup(u.store.memory, other) == Ok(None))
    requires op in u.issued
    ensures Reaches(s, t) && again in t.sent && again in t.issued && again.digest == key && again != op && again !in t.done
    ensures t.store == u.store && t.done == u.done && u.issued.Keys <= t.issued.Keys
    ensures Applied(t, again) || Lookup(t.store.memory, again) == Ok(None)
  {
    var v := u;
    if key in u.memory.operations {
      again := u.memory.operations[key];
    } else {
      again := FreshOperation(u, op);
      assert Safe(u, Record(again, false, true));
      ReachesStep(s, u, Record(again, false, true));
      v := Do(u, Record(again, false, true));
    }
    assert Safe(v, Send(key));
    ReachesStep(s, v, Send(key));
    t := Do(v, Send(key));
    AppliedStays(u, t, again);
  }

  lemma EffectiveIsComplete(s: System, op: OperationIdentity)
    requires R.InStep(s.store) && Effective(s, op)
    ensures op.Complete()
  {
    if Applied(s, op) {
      var i :| 0 <= i < |s.store.history| && s.store.history[i].Mutation? && s.store.history[i].receipt.operation == op;
      StepOfReplay(EMPTY, s.store.history, i);
    }
  }

  lemma ExposedDoubles(s: System, key: string, op: OperationIdentity)
    requires Answered(s) && Exposed(s, key, op) && Effective(s, op) && Replaceable(s, key, op) && HasRoom(s, 2)
    ensures exists t :: Reaches(s, t) && Doubled(t, key)
  {
    EffectiveIsComplete(s, op);
    var u := Restarted(s, key, op);
    var v := CarriedOut(s, u, op, 1);
    var w, again := Second(s, v, key, op);
    AppliedStays(v, w, op);
    var t := CarriedOut(s, w, again, 0);
    assert Pending(t, key, op) && Pending(t, key, again);
  }

  // ---------------------------------------------------------------- the exact condition

  /** The operations of a request that may be out or recorded. */
  ghost predicate Open(s: System, key: string, op: OperationIdentity) {
    && op.digest == key && op in s.issued && op !in s.done
    && (op in s.sent || (key in s.saved.operations && s.saved.operations[key] == op))
  }

  /** The store has room for two more receipts, and what is open for the request has been carried out or can be. */
  ghost predicate CarriesOn(s: System, key: string) {
    R.InStep(s.store) && HasRoom(s, 2) && forall op | op in s.issued && Open(s, key, op) :: Effective(s, op)
  }

  /** What a step loses is exposed after it. */
  lemma LostIsExposed(s: System, a: Action, key: string) returns (op: OperationIdentity)
    requires Inv(s) && Enabled(s, a) && Loses(s, a, key)
    ensures Exposed(Do(s, a), key, op)
  {
    op := if a.Send? then s.memory.operations[key] else s.saved.operations[key];
  }

  lemma BooksAfter(s: System, a: Action)
    requires Inv(s) && Enabled(s, a)
    ensures var t := Do(s, a);
            && (forall p, q | p in t.issued && q in t.issued :: p.Key() == q.Key() ==> p == q)
            && (forall k | k in t.saved.operations ::
                  t.saved.operations[k].digest == k && t.saved.operations[k] !in t.done && t.saved.operations[k] in t.issued)
  {
    match a
    case Record(op, _, _) => assert op !in s.issued;
    case Send(_) =>
    case Acknowledge(key, ending) => ClosingKeepsFiled(s, key, ending);
    case SaveRecord =>
    case ClientCrash =>
    case Deliver(_, _, _, _, _, _) => DeliverAnswers(s, a);
    case Elsewhere(_) =>
  }

  lemma ClosingKeepsFiled(s: System, key: string, ending: Ending)
    requires Inv(s) && Enabled(s, Acknowledge(key, ending))
    ensures var t := Do(s, Acknowledge(key, ending));
            t.issued == s.issued && forall k | k in t.saved.operations ::
              t.saved.operations[k].digest == k && t.saved.operations[k] !in t.done && t.saved.operations[k] in t.issued
  {
  }

  /** From every system a smooth run reaches, and for every step that parts nothing from its file: some later smooth run
      carries a request out twice unreported exactly when the step loses an operation that went out, provided that the
      operations open for what it loses can still be carried out. */
  lemma LossIsExact(actions: seq<Action>, a: Action)
    requires Smooth(actions) && Enabled(Run(actions), a) && !Accident(Run(actions), a)
    requires forall key | Loses(Run(actions), a, key) :: CarriesOn(Do(Run(actions), a), key)
    ensures var s := Run(actions);
            (exists t, key :: Reaches(Do(s, a), t) && Doubled(t, key)) <==> !Safe(s, a)
  {
    RunKeepsInv(actions);
    var s := Run(actions);
    var after := Do(s, a);
    if Safe(s, a) {
      StepKeepsInv(s, a);
      forall t, key | Reaches(after, t) ensures !Doubled(t, key) {
        StaysSingle(after, t, key);
      }
    } else {
      var key :| key in s.saved.operations.Keys + s.memory.operations.Keys && Loses(s, a, key);
      StepKeepsAnswered(s, a);
      var op := LostIsExposed(s, a, key);
      BooksAfter(s, a);
      assert Open(after, key, op);
      assert key in after.saved.operations ==> Open(after, key, after.saved.operations[key]);
      ExposedDoubles(after, key, op);
    }
  }

  // ---------------------------------------------------------------- where losses come from

  /** A draw whose save fails leaves an operation that the next call would send, and lose by that. */
  lemma FailedSaveIsUnsafe(actions: seq<Action>, op: OperationIdentity, deferred: bool)
    requires Smooth(actions) && Enabled(Run(actions), Record(op, deferred, false))
    ensures var longer := actions + [Record(op, deferred, false)];
            && Smooth(longer) && Enabled(Run(longer), Send(op.digest)) && !Safe(Run(longer), Send(op.digest))
            && Run(longer).memory.operations[op.digest] == op && Run(longer).store == Run(actions).store
  {
    RunKeepsInv(actions);
    SmoothSnoc(START, actions, Record(op, deferred, false));
    assert Loses(Run(actions + [Record(op, deferred, false)]), Send(op.digest), op.digest);
  }

  /** The step writes the record of the process into the vault. */
  predicate Saves(a: Action) {
    (a.Record? && a.stored) || (a.Acknowledge? && a.ending != SaveFailed) || a.SaveRecord?
  }

  lemma VaultAloneIsLost(s: System, key: string, a: Action)
    requires key in s.saved.operations && s.saved.operations[key] in s.sent && key !in s.memory.operations
    requires Filed(s, s.saved) && Enabled(s, a) && Saves(a)
    ensures !Safe(s, a)
  {
    if a.Record? { assert a.op != s.saved.operations[key]; }
    assert Loses(s, a, key);
  }

  /** The operation has been carried out, was not reported, and only the vault still has it. */
  ghost predicate InVaultAlone(s: System, key: string, op: OperationIdentity) {
    && op.digest == key && op in s.sent && Vaulted(s, op) && Applied(s, op) && op !in s.done
    && key !in s.memory.operations
  }

  lemma ClosedBadly(s: System, key: string)
    requires Inv(s) && Enabled(s, Acknowledge(key, SaveFailed))
    ensures var op, t := s.memory.operations[key], Do(s, Acknowledge(key, SaveFailed));
            Safe(s, Acknowledge(key, SaveFailed)) && InVaultAlone(t, key, op)
  {
    var op := s.memory.operations[key];
    AnsweredIsApplied(s, op);
    AppliedStays(s, Do(s, Acknowledge(key, SaveFailed)), op);
  }

  /** A success whose closing save fails leaves the operation in the vault alone, and the caller with an error. Whatever
      is saved next loses it, the caller's next call for the same request above all, which draws a new operation. Only a
      restart that comes first brings the operation back. */
  lemma FailedClosingIsUnsafe(actions: seq<Action>, key: string)
    requires Smooth(actions) && Enabled(Run(actions), Acknowledge(key, SaveFailed))
    ensures var op, longer := Run(actions).memory.operations[key], actions + [Acknowledge(key, SaveFailed)];
            var s := Run(longer);
            && Smooth(longer) && InVaultAlone(s, key, op)
            && (forall a | Enabled(s, a) && Saves(a) :: !Safe(s, a))
            && Safe(s, ClientCrash)
            && key in Do(s, ClientCrash).memory.operations && Do(s, ClientCrash).memory.operations[key] == op
  {
    RunKeepsInv(actions);
    ClosedBadly(Run(actions), key);
    SmoothSnoc(START, actions, Acknowledge(key, SaveFailed));
    RunKeepsInv(actions + [Acknowledge(key, SaveFailed)]);
    SavesLose(Run(actions + [Acknowledge(key, SaveFailed)]), key, Run(actions).memory.operations[key]);
  }

  lemma SavesLose(s: System, key: string, op: OperationIdentity)
    requires Inv(s) && InVaultAlone(s, key, op)
    ensures forall a | Enabled(s, a) && Saves(a) :: !Safe(s, a)
    ensures Safe(s, ClientCrash)
    ensures key in Do(s, ClientCrash).memory.operations && Do(s, ClientCrash).memory.operations[key] == op
  {
    forall a | Enabled(s, a) && Saves(a) ensures !Safe(s, a) {
      VaultAloneIsLost(s, key, a);
    }
  }

  lemma AnsweredIsApplied(s: System, op: OperationIdentity)
    requires Inv(s) && op !in s.done && exists r :: r in s.replies && r.operation == op
    ensures op in s.sent && Vaulted(s, op) && Applied(s, op)
  {
    var r :| r in s.replies && r.operation == op;
    assert CommittedIn(s.store.history, r.receipt);
  }

  /** A success saved and never told is lost by that save. */
  lemma UntoldIsUnsafe(actions: seq<Action>, key: string)
    requires Smooth(actions) && Enabled(Run(actions), Acknowledge(key, Untold))
    ensures !Safe(Run(actions), Acknowledge(key, Untold))
  {
    RunKeepsInv(actions);
    AnsweredIsApplied(Run(actions), Run(actions).memory.operations[key]);
    assert Loses(Run(actions), Acknowledge(key, Untold), key);
  }

  /** So the caller who repeats the request gets it carried out twice, and is told of neither. */
  lemma RepeatedAfterError(actions: seq<Action>, key: string, again: OperationIdentity, mode: bool)
    requires Smooth(actions) && Enabled(Run(actions), Acknowledge(key, SaveFailed)) && again.digest == key
    requires var s := Run(actions + [Acknowledge(key, SaveFailed)]);
             Enabled(s, Record(again, mode, true)) && R.InStep(s.store) && HasRoom(s, 2) && Lookup(Now(s), again) == Ok(None)
    ensures var s := Run(actions + [Acknowledge(key, SaveFailed)]);
            exists t :: Reaches(Do(s, Record(again, mode, true)), t) && Doubled(t, key)
  {
    RunKeepsInv(actions);
    ClosedBadly(Run(actions), key);
    SmoothSnoc(START, actions, Acknowledge(key, SaveFailed));
    RunKeepsInv(actions + [Acknowledge(key, SaveFailed)]);
    RedrawnDoubles(Run(actions + [Acknowledge(key, SaveFailed)]), key, Run(actions).memory.operations[key], again, mode);
  }

  lemma RedrawnDoubles(s: System, key: string, op: OperationIdentity, again: OperationIdentity, mode: bool)
    requires Inv(s) && InVaultAlone(s, key, op) && again.digest == key
    requires Enabled(s, Record(again, mode, true)) && Lookup(Now(s), again) == Ok(None) && HasRoom(s, 2)
    ensures exists t :: Reaches(Do(s, Record(again, mode, true)), t) && Doubled(t, key)
  {
    var after := Do(s, Record(again, mode, true));
    StepKeepsAnswered(s, Record(again, mode, true));
    AppliedStays(s, after, op);
    RedrawnIsExposed(s, key, op, again, mode);
    ExposedDoubles(after, key, op);
  }

  /** A request drawn again while the vault alone holds its operation. */
  lemma RedrawnIsExposed(s: System, key: string, op: OperationIdentity, again: OperationIdentity, mode: bool)
    requires Inv(s) && Vaulted(s, op) && op.digest == key && op in s.sent && again.digest == key
    requires Enabled(s, Record(again, mode, true)) && Lookup(Now(s), again) == Ok(None)
    ensures var t := Do(s, Record(again, mode, true));
            Exposed(t, key, op) && t.store == s.store && Replaceable(t, key, op)
  {
    assert again !in s.issued && op in s.issued;
  }
}
