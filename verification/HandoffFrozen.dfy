/** A frozen transfer: it can still be retired while no control decision has come since the freeze, and never once one
    has. */
module HandoffFrozen {
  import opened Options
  import opened Handoff
  import opened HandoffInvariant
  import opened HandoffProgress

  // ---------------------------------------------------------------- what freezing relies on

  /** Every earlier cancelled transfer has been cleaned up where it was to go. */
  ghost predicate AllClean(src: Source) {
    forall id | id in src.cancelled :: src.cancelled[id].cleaned
  }

  /** A destination that answered a reservation holds it until the source cancels it. */
  ghost predicate Reserved(s: System) {
    forall m | m in s.net && m.PrepareReply? ::
      m.id in s.source.cancelled
      || (m.at in s.destinations && s.destinations[m.at].receiver.Some? && s.destinations[m.at].receiver.value.id == m.id)
  }

  /** A destination gives up a reservation only after its cancellation at the source. */
  ghost predicate GivenUp(src: Source, d: Destination) {
    d.receiver.Some? && d.receiver.value.status == ReceiverCancelled ==> d.receiver.value.id in src.cancelled
  }

  ghost predicate Promised(s: System) {
    && (IsFrozen(s.source) ==> AllClean(s.source))
    && (s.source.transfer.Some? ==> PrepareReply(s.source.transfer.value.id, s.source.transfer.value.target) in s.net)
    && Reserved(s) && forall l | l in s.destinations :: GivenUp(s.source, s.destinations[l])
  }

  lemma SourceStaysClean(s: System, a: Action)
    requires At(a) == None && (IsFrozen(s.source) ==> AllClean(s.source))
    ensures IsFrozen(Do(s, a).source) ==> AllClean(Do(s, a).source)
  {
  }

  /** The source forgets no cancellation, takes back no message and prepares only what was answered. */
  lemma SourceRemembers(s: System, a: Action)
    requires At(a) == None
    ensures var t := Do(s, a);
            && t.destinations == s.destinations && s.net <= t.net
            && (forall m | m in t.net && m.PrepareReply? :: m in s.net)
            && s.source.cancelled.Keys <= t.source.cancelled.Keys
            && (t.source.transfer.Some? ==>
                  || (s.source.transfer.Some? && t.source.transfer.value.id == s.source.transfer.value.id
                      && t.source.transfer.value.target == s.source.transfer.value.target)
                  || PrepareReply(t.source.transfer.value.id, t.source.transfer.value.target) in s.net)
  {
  }

  lemma SourceKeepsPromised(s: System, a: Action)
    requires Promised(s) && At(a) == None
    ensures Promised(Do(s, a))
  {
    SourceStaysClean(s, a);
    SourceRemembers(s, a);
    forall l | l in s.destinations ensures GivenUp(Do(s, a).source, s.destinations[l]) {
      assert GivenUp(s.source, s.destinations[l]);
    }
  }

  /** A destination answers a reservation only while it holds it, and replaces only one it has given up. */
  lemma ReceiverMoves(s: System, l: Location, a: Action)
    requires NetInv(s) && l in s.destinations && DestinationStep(s, s.destinations[l], a).Some? && At(a) == Some(l)
    requires GivenUp(s.source, s.destinations[l])
    ensures var (d, replies) := DestinationStep(s, s.destinations[l], a).value;
            && GivenUp(s.source, d)
            && (forall m | m in replies && m.PrepareReply? :: m.at == l && d.receiver.Some? && d.receiver.value.id == m.id)
            && (s.destinations[l].receiver.Some? ==>
                  d.receiver.Some? && (d.receiver.value.id == s.destinations[l].receiver.value.id
                                       || s.destinations[l].receiver.value.id in s.source.cancelled))
  {
  }

  lemma DestinationKeepsPromised(s: System, l: Location, a: Action)
    requires NetInv(s) && Promised(s) && At(a) == Some(l)
    ensures Promised(Do(s, a))
  {
    if l in s.destinations && DestinationStep(s, s.destinations[l], a).Some? {
      assert GivenUp(s.source, s.destinations[l]);
      ReceiverMoves(s, l, a);
      ReservedStays(s, l, DestinationStep(s, s.destinations[l], a).value.0, DestinationStep(s, s.destinations[l], a).value.1);
    }
  }

  lemma ReservedStays(s: System, l: Location, d: Destination, replies: set<Message>)
    requires Promised(s) && l in s.destinations && GivenUp(s.source, d)
    requires forall m | m in replies && m.PrepareReply? :: m.at == l && d.receiver.Some? && d.receiver.value.id == m.id
    requires s.destinations[l].receiver.Some? ==>
               d.receiver.Some? && (d.receiver.value.id == s.destinations[l].receiver.value.id
                                    || s.destinations[l].receiver.value.id in s.source.cancelled)
    ensures Promised(s.(destinations := s.destinations[l := d], net := s.net + replies))
  {
  }

  lemma {:induction false} ReachablePromised(data: string, places: set<Location>, actions: seq<Action>)
    ensures Inv(Run(Start(data, places), actions)) && Promised(Run(Start(data, places), actions))
    decreases |actions|
  {
    ReachableInv(data, places, actions);
    if actions != [] {
      var front, a := actions[..|actions| - 1], actions[|actions| - 1];
      ReachablePromised(data, places, front);
      var s := Run(Start(data, places), front);
      if At(a) == None { SourceKeepsPromised(s, a); } else { DestinationKeepsPromised(s, At(a).value, a); }
    }
  }

  // ---------------------------------------------------------------- finishing

  lemma {:induction false} RunKeepsInv(s: System, actions: seq<Action>)
    requires Inv(s)
    ensures Inv(Run(s, actions))
    decreases |actions|
  {
    if actions != [] {
      RunKeepsInv(s, actions[..|actions| - 1]);
      StepKeeps(Run(s, actions[..|actions| - 1]), actions[|actions| - 1]);
    }
  }

  /** The place the frozen transfer goes to waits for it. */
  ghost predicate Awaits(d: Destination, id: Id) {
    && d.up && d.handler == Waiting && d.receiver.Some? && d.receiver.value.id == id
    && d.receiver.value.status != ReceiverCancelled && d.receiver.value.status != ReceiverActive
  }

  ghost predicate Ready(s: System, t: Transfer) {
    && s.source.up && s.source.running && s.source.job == Idle && s.source.data.Some?
    && s.source.transfer == Some(t) && t.phase == Frozen && s.source.revision == t.revision && AllClean(s.source)
    && t.target in s.destinations && Awaits(s.destinations[t.target], t.id)
  }

  lemma FrozenIsAwaited(s: System, t: Transfer)
    requires Inv(s) && Promised(s) && IsFrozen(s.source) && s.source.transfer == Some(t)
    ensures t.target in s.destinations && s.destinations[t.target].receiver.Some?
    ensures var r := s.destinations[t.target].receiver.value;
            r.id == t.id && r.status != ReceiverCancelled && r.status != ReceiverActive
  {
    assert DestinationInv(s.source, t.target, s.destinations[t.target]);
    assert GivenUp(s.source, s.destinations[t.target]);
    assert PrepareReply(t.id, t.target) in s.net;
  }

  lemma StoppingKeepsReceiver(s: System, l: Location)
    requires l in s.destinations
    ensures var p := Do(Do(s, DestinationCrash(l)), DestinationStart(l));
            p.source == s.source && l in p.destinations && p.destinations[l].receiver == s.destinations[l].receiver
  {
    DestinationStops(s, l);
    DestinationOpens(Do(s, DestinationCrash(l)), l);
  }

  lemma RestartIsReady(s: System, t: Transfer)
    requires Inv(s) && Promised(s) && IsFrozen(s.source) && s.source.transfer == Some(t) && s.source.revision == t.revision
    ensures Inv(Run(s, Restart(t.target))) && Ready(Run(s, Restart(t.target)), t)
  {
    var p := Do(Do(s, SourceCrash), SourceStart);
    FrozenIsAwaited(s, t);
    RestartRuns(s, t.target);
    SourceRestarts(s);
    DestinationRestarts(p, t.target);
    StoppingKeepsReceiver(p, t.target);
  }

  /** The source takes up the frozen transfer, exports it and starts the upload. */
  const SENDING := [Execute(true)] + [Export] + [Upload]

  lemma SendingStarts(s: System, t: Transfer)
    requires Inv(s) && Ready(s, t)
    ensures var p := Run(s, SENDING);
            && Inv(p) && p.destinations == s.destinations && p.source == s.source.(exports := s.source.exports + 1, job := p.source.job)
            && p.source.job.Uploading? && p.source.job.transfer == t && Carries(p.source.job.archive, t)
            && p.source.job.archive.number == s.source.exports
  {
    RunKeepsInv(s, SENDING);
    SendingRuns(s);
    TakesUp(s, t);
    ExportsAndSends(Do(s, Execute(true)), t);
  }

  lemma SendingRuns(s: System)
    ensures Run(s, SENDING) == Do(Do(Do(s, Execute(true)), Export), Upload)
  {
    RunOne(s, Execute(true));
    RunThen(s, [Execute(true)], Export);
    RunThen(s, [Execute(true)] + [Export], Upload);
  }

  lemma TakesUp(s: System, t: Transfer)
    requires Ready(s, t)
    ensures Do(s, Execute(true)) == s.(source := s.source.(job := Froze(t)))
  {
  }

  lemma ExportsAndSends(s: System, t: Transfer)
    requires s.source.running && s.source.job == Froze(t) && s.source.data.Some? && s.source.transfer == Some(t)
    requires s.source.revision == t.revision
    ensures var a := Archive(s.source.exports, s.source.data.value, s.source.revision, true, t.id, t.target);
            Do(Do(s, Export), Upload) == s.(source := s.source.(exports := s.source.exports + 1, job := Uploading(t, a)))
  {
  }

  ghost predicate Carries(a: Archive, t: Transfer) {
    a.frozen && a.id == t.id && a.target == t.target
  }

  /** The destination takes the upload in, stages it and records it. */
  function Receiving(l: Location): seq<Action> {
    [ReceiveArchive(l)] + [WriteCandidate(l)] + [SaveReady(l)]
  }

  lemma ReceivingRuns(s: System, l: Location)
    ensures Run(s, Receiving(l)) == Do(Do(Do(s, ReceiveArchive(l)), WriteCandidate(l)), SaveReady(l))
  {
    RunOne(s, ReceiveArchive(l));
    RunThen(s, [ReceiveArchive(l)], WriteCandidate(l));
    RunThen(s, [ReceiveArchive(l)] + [WriteCandidate(l)], SaveReady(l));
  }

  lemma UploadTaken(s: System, a: Archive)
    requires a.target in s.destinations && s.source.job.Uploading? && s.source.job.archive == a
    requires s.source.job.transfer.id == a.id && s.source.job.transfer.target == a.target
    requires Awaits(s.destinations[a.target], a.id)
    requires s.destinations[a.target].receiver.value.status == ReceiverReady ==> s.destinations[a.target].receiver.value.snapshot != Some(a)
    ensures var p := Do(s, ReceiveArchive(a.target));
            && p.source == s.source && a.target in p.destinations && p.destinations[a.target].handler == Staging(a, false)
            && p.destinations[a.target].receiver == s.destinations[a.target].receiver
  {
  }

  lemma UploadKept(s: System, a: Archive)
    requires a.target in s.destinations && s.destinations[a.target].handler == Staging(a, false) && a.frozen
    requires s.destinations[a.target].receiver.Some? && s.destinations[a.target].receiver.value.id == a.id
    ensures var p := Do(Do(s, WriteCandidate(a.target)), SaveReady(a.target));
            p.source == s.source && ReadyReply(a) in p.net
  {
    var p := Do(s, WriteCandidate(a.target));
    assert p.source == s.source && a.target in p.destinations;
    assert p.destinations[a.target].handler == Staging(a, true) && p.destinations[a.target].receiver.Some?;
  }

  lemma ReceivingAnswers(s: System, a: Archive)
    requires a.target in s.destinations && s.source.job.Uploading? && s.source.job.archive == a && a.frozen
    requires s.source.job.transfer.id == a.id && s.source.job.transfer.target == a.target
    requires Awaits(s.destinations[a.target], a.id)
    requires s.destinations[a.target].receiver.value.status == ReceiverReady ==> s.destinations[a.target].receiver.value.snapshot != Some(a)
    ensures var p := Run(s, Receiving(a.target)); p.source == s.source && ReadyReply(a) in p.net
  {
    ReceivingRuns(s, a.target);
    UploadTaken(s, a);
    UploadKept(Do(s, ReceiveArchive(a.target)), a);
  }

  /** An archive exported just now is no one's snapshot. */
  lemma FreshIsNotHeld(s: System, p: System, l: Location, a: Archive)
    requires Inv(s) && l in s.destinations && p.destinations == s.destinations && a.number == s.source.exports
    ensures s.destinations[l].receiver.Some? && s.destinations[l].receiver.value.status == ReceiverReady ==>
              p.destinations[l].receiver.value.snapshot != Some(a)
  {
  }

  ghost predicate Retires(s: System, id: Id) {
    IsRetired(s.source) && s.source.transfer.value.id == id
  }

  lemma AnswerRetires(s: System, t: Transfer)
    requires s.source.running && s.source.job.Uploading? && s.source.job.transfer == t && IsFrozen(s.source)
    requires s.source.transfer == Some(t) && s.source.revision == t.revision && ReadyReply(s.source.job.archive) in s.net
    ensures Retires(Do(s, Retire), t.id) && Do(s, Retire).source.transfer.value.target == t.target
  {
  }

  /** Restart both hosts, send, receive, retire. */
  function Completing(l: Location): seq<Action> {
    Restart(l) + SENDING + Receiving(l) + [Retire]
  }

  lemma CompletingWorks(s: System, t: Transfer)
    requires Inv(s) && Promised(s) && IsFrozen(s.source) && s.source.transfer == Some(t) && s.source.revision == t.revision
    ensures Retires(Run(s, Completing(t.target)), t.id)
    ensures Run(s, Completing(t.target)).source.transfer.value.target == t.target
  {
    var l := t.target;
    var p := Run(s, Restart(l));
    RestartIsReady(s, t);
    var q := Run(p, SENDING);
    SendingStarts(p, t);
    var a := q.source.job.archive;
    FreshIsNotHeld(p, q, l, a);
    ReceivingAnswers(q, a);
    AnswerRetires(Run(q, Receiving(l)), t);
    RunTwo(s, Restart(l), SENDING);
    RunTwo(s, Restart(l) + SENDING, Receiving(l));
    RunThen(s, Restart(l) + SENDING + Receiving(l), Retire);
  }

  // ---------------------------------------------------------------- never again

  /** The transfer was cancelled, or a control decision came after its freeze. */
  ghost predicate Overtaken(src: Source, t: Transfer) {
    t.id in src.cancelled || (src.transfer == Some(t) && t.phase == Frozen && t.revision < src.revision)
  }

  lemma OvertakenStays(s: System, t: Transfer, a: Action)
    requires JobInv(s) && Overtaken(s.source, t)
    ensures Overtaken(Do(s, a).source, t)
  {
  }

  lemma {:induction false} OvertakenForever(s: System, t: Transfer, actions: seq<Action>)
    requires Inv(s) && Overtaken(s.source, t)
    ensures Inv(Run(s, actions)) && Overtaken(Run(s, actions).source, t)
    decreases |actions|
  {
    if actions != [] {
      OvertakenForever(s, t, actions[..|actions| - 1]);
      RunKeepsInv(s, actions);
      OvertakenStays(Run(s, actions[..|actions| - 1]), t, actions[|actions| - 1]);
    }
  }

  lemma OvertakenIsNotRetired(s: System, t: Transfer)
    requires Inv(s) && Overtaken(s.source, t)
    ensures !Retires(s, t.id)
  {
  }

  /** The transfer was carried through: its source retired, its destination serves, the source's copy is gone. */
  ghost predicate Moved(s: System, t: Transfer) {
    Retires(s, t.id) && DestinationServes(s, t.target) && s.source.data == None && !s.source.running
  }

  lemma RetiredMoves(s: System, t: Transfer)
    requires Inv(s) && Retires(s, t.id) && s.source.transfer.value.target == t.target
    ensures Moved(Run(s, Restart(t.target) + Resending(s.source.transfer.value)), t)
  {
    var retired := s.source.transfer.value;
    RestartWorks(s, retired);
    ResendingWorks(Run(s, Restart(t.target)), retired);
    RunTwo(s, Restart(t.target), Resending(retired));
  }

  lemma FrozenMoves(s: System, t: Transfer)
    requires Inv(s) && Promised(s) && IsFrozen(s.source) && s.source.transfer == Some(t) && s.source.revision == t.revision
    ensures exists more :: Moved(Run(s, more), t)
  {
    CompletingWorks(s, t);
    RunKeepsInv(s, Completing(t.target));
    var r := Run(s, Completing(t.target));
    var rest := Restart(t.target) + Resending(r.source.transfer.value);
    RetiredMoves(r, t);
    RunTwo(s, Completing(t.target), rest);
    assert Moved(Run(s, Completing(t.target) + rest), t);
  }

  /** From every reachable state with a frozen transfer, whatever step either host stands at: while no control decision
      has come since the freeze, some continuation carries the transfer through; after one, none even retires it. */
  lemma FrozenCanFinish(data: string, places: set<Location>, actions: seq<Action>)
    requires IsFrozen(Run(Start(data, places), actions).source)
    ensures var s := Run(Start(data, places), actions);
            var t := s.source.transfer.value;
            && ((exists more :: Moved(Run(s, more), t)) <==> s.source.revision == t.revision)
            && (s.source.revision != t.revision ==> forall more :: !Retires(Run(s, more), t.id))
  {
    ReachablePromised(data, places, actions);
    var s := Run(Start(data, places), actions);
    var t := s.source.transfer.value;
    if s.source.revision == t.revision {
      FrozenMoves(s, t);
    } else {
      forall more ensures !Retires(Run(s, more), t.id) {
        OvertakenForever(s, t, more);
        OvertakenIsNotRetired(Run(s, more), t);
      }
    }
  }
}
