/** What follows for the user of a handoff: one place serves, the data that arrives is the data that was frozen, a
    cancelled transfer never starts, and retirement is for good. */
module HandoffSafety {
  import opened Options
  import opened Handoff
  import opened HandoffInvariant

  /** One place serves: in every reachable state, if a destination serves then the source is durably retired in
      its favour, so the source does not serve and no other destination does. */
  lemma OnePlaceServes(data: string, places: set<Location>, actions: seq<Action>, l: Location, m: Location)
    ensures var s := Run(Start(data, places), actions);
            && (DestinationServes(s, l) ==> Due(s.source, l) && !SourceServes(s))
            && (DestinationServes(s, l) && DestinationServes(s, m) ==> l == m)
  {
    ReachableInv(data, places, actions);
    var s := Run(Start(data, places), actions);
    if DestinationServes(s, l) { assert DestinationInv(s.source, l, s.destinations[l]); }
    if DestinationServes(s, m) { assert DestinationInv(s.source, m, s.destinations[m]); }
  }

  /** What a destination installs or serves is exactly what was frozen for its transfer, and that transfer was
      never cancelled. */
  lemma FrozenDataArrives(data: string, places: set<Location>, actions: seq<Action>, l: Location)
    ensures var s := Run(Start(data, places), actions);
            l in s.destinations && s.destinations[l].installed.Some? ==>
              Arrived(s.source, s.destinations[l].installed.value)
  {
    ReachableInv(data, places, actions);
    var s := Run(Start(data, places), actions);
    if l in s.destinations { assert DestinationInv(s.source, l, s.destinations[l]); }
  }

  /** The source is retired, and the candidate is its transfer with the data frozen for it. */
  ghost predicate Arrived(src: Source, c: Candidate) {
    && IsRetired(src) && c.activated.Some? && c.activated.value.id == src.transfer.value.id
    && src.transfer.value.id !in src.cancelled
    && src.transfer.value.id in src.frozenData && c.archive.data == src.frozenData[src.transfer.value.id]
  }

  ghost predicate Starts(d: Destination, id: Id) {
    || (d.installed.Some? && d.installed.value.activated.Some? && d.installed.value.activated.value.id == id)
    || (id in d.candidates && d.candidates[id].activated.Some?)
    || (d.handler.Activating? && d.handler.permit.id == id)
    || (d.receiver.Some? && d.receiver.value.id == id && d.receiver.value.status == ReceiverActive)
  }

  lemma CancelledIsForGood(s: System, a: Action, id: Id)
    requires id in s.source.cancelled
    ensures id in Do(s, a).source.cancelled
  {
  }

  lemma {:induction false} CancelledForever(s: System, actions: seq<Action>, id: Id)
    requires Inv(s) && id in s.source.cancelled
    ensures Inv(Run(s, actions)) && id in Run(s, actions).source.cancelled
    decreases |actions|
  {
    if actions != [] {
      CancelledForever(s, actions[..|actions| - 1], id);
      CancelledIsForGood(Run(s, actions[..|actions| - 1]), actions[|actions| - 1], id);
      StepKeeps(Run(s, actions[..|actions| - 1]), actions[|actions| - 1]);
    }
  }

  /** A transfer cancelled at the source never starts anywhere, then or at any later time. */
  lemma CancelledNeverStarts(data: string, places: set<Location>, actions: seq<Action>, more: seq<Action>, id: Id, l: Location)
    requires id in Run(Start(data, places), actions).source.cancelled
    ensures var s := Run(Run(Start(data, places), actions), more);
            l in s.destinations ==> !Starts(s.destinations[l], id)
  {
    ReachableInv(data, places, actions);
    CancelledForever(Run(Start(data, places), actions), more, id);
    var s := Run(Run(Start(data, places), actions), more);
    if l in s.destinations { CancelledDoesNotStart(s, id, l); }
  }

  lemma CancelledDoesNotStart(s: System, id: Id, l: Location)
    requires Inv(s) && id in s.source.cancelled && l in s.destinations
    ensures !Starts(s.destinations[l], id)
  {
    assert DestinationInv(s.source, l, s.destinations[l]);
  }

  /** Retirement is for good: whatever happens later, the source neither serves nor changes its transfer. */
  lemma {:induction false} RetiredForever(s: System, actions: seq<Action>)
    requires Inv(s) && IsRetired(s.source)
    ensures Inv(Run(s, actions)) && Run(s, actions).source.transfer == s.source.transfer && !SourceServes(Run(s, actions))
    ensures Run(s, actions).destinations.Keys == s.destinations.Keys
    decreases |actions|
  {
    if actions != [] {
      RetiredForever(s, actions[..|actions| - 1]);
      var before := Run(s, actions[..|actions| - 1]);
      StepKeeps(before, actions[|actions| - 1]);
      RetiredStep(before, actions[|actions| - 1]);
    }
  }

  lemma RetiredStep(s: System, a: Action)
    requires Inv(s) && IsRetired(s.source)
    ensures Do(s, a).source.transfer == s.source.transfer && Do(s, a).destinations.Keys == s.destinations.Keys
  {
    if At(a).Some? {
      DestinationFrame(s, a);
    } else if a == Retire {
      assert SourceStep(s, a) == None;
    } else {
      SourceFrame(s, a);
    }
  }

  /** A destination's action changes that destination and adds messages, nothing else. */
  lemma DestinationFrame(s: System, a: Action)
    requires At(a).Some?
    ensures var t := Do(s, a);
            && t.source == s.source && t.destinations.Keys == s.destinations.Keys && s.net <= t.net
            && forall l | l in s.destinations && l != At(a).value :: t.destinations[l] == s.destinations[l]
  {
    var l := At(a).value;
    if l in s.destinations {
      var step := DestinationStep(s, s.destinations[l], a);
    }
  }

  /** A cancel of one transfer leaves another's reservation and everything staged for it as they were. */
  lemma CancelLeavesOthers(s: System, id: Id, other: Id, l: Location, m: Location)
    requires l in s.destinations && m in s.destinations && id != other
    ensures var t := Do(s, ReceiveCancel(other, m));
            t.source == s.source && l in t.destinations && Untouched(s.destinations[l], t.destinations[l], id)
  {
  }

  /** All that a destination holds for this transfer is as it was. */
  ghost predicate Untouched(before: Destination, after: Destination, id: Id) {
    && after.running == before.running && after.handler == before.handler && after.installed == before.installed
    && (before.receiver.Some? && before.receiver.value.id == id ==> after.receiver == before.receiver)
    && (id in after.candidates <==> id in before.candidates)
    && (id in before.candidates ==> after.candidates[id] == before.candidates[id])
  }

  /** Cancels delivered in any order, with repetitions. */
  function Cancels(late: seq<(Id, Location)>): seq<Action> {
    if late == [] then [] else Cancels(late[..|late| - 1]) + [ReceiveCancel(late[|late| - 1].0, late[|late| - 1].1)]
  }

  lemma {:induction false} CancelsLeaveIt(s: System, late: seq<(Id, Location)>, id: Id, l: Location)
    requires Inv(s) && InTransfer(s.source, id) && l in s.destinations
    ensures var t := Run(s, Cancels(late));
            Inv(t) && t.source == s.source && l in t.destinations && Untouched(s.destinations[l], t.destinations[l], id)
  {
    if late != [] {
      var front := late[..|late| - 1];
      var (other, m) := late[|late| - 1];
      CancelsLeaveIt(s, front, id, l);
      assert Cancels(late)[..|Cancels(late)| - 1] == Cancels(front);
      OneCancel(Run(s, Cancels(front)), id, other, l, m);
    }
  }

  lemma NoCancelOnItsWay(s: System, id: Id)
    requires Inv(s) && InTransfer(s.source, id)
    ensures forall m | m in s.net && m.CancelRequest? :: m.id != id
  {
  }

  lemma OneCancel(s: System, id: Id, other: Id, l: Location, m: Location)
    requires Inv(s) && InTransfer(s.source, id) && l in s.destinations
    ensures var t := Do(s, ReceiveCancel(other, m));
            Inv(t) && t.source == s.source && l in t.destinations && Untouched(s.destinations[l], t.destinations[l], id)
  {
    StepKeeps(s, ReceiveCancel(other, m));
    DestinationFrame(s, ReceiveCancel(other, m));
    NoCancelOnItsWay(s, id);
    if other != id && m in s.destinations { CancelLeavesOthers(s, id, other, l, m); }
  }

  lemma UntouchedStaysReady(before: Destination, after: Destination, t: Transfer, a: Archive)
    requires Untouched(before, after, t.id) && a.id == t.id
    ensures HoldsReady(before, a) ==> HoldsReady(after, a)
    ensures Follows(t, before) ==> Follows(t, after)
  {
  }

  /** In every reachable state no cancel on its way names the source's live transfer, so whatever cancels arrive, in
      any order and number, every place keeps what it holds for that transfer, ready or due to take over. */
  lemma LateCancelIsHarmless(data: string, places: set<Location>, actions: seq<Action>, late: seq<(Id, Location)>,
                             l: Location, a: Archive)
    requires var s := Run(Start(data, places), actions);
             s.source.transfer.Some? && l in s.destinations && a.id == s.source.transfer.value.id
    ensures var s := Run(Start(data, places), actions);
            var t := Run(s, Cancels(late));
            var live := s.source.transfer.value;
            && (forall m | m in t.net && m.CancelRequest? :: m.id != live.id)
            && t.source == s.source && l in t.destinations && Untouched(s.destinations[l], t.destinations[l], live.id)
            && (HoldsReady(s.destinations[l], a) ==> HoldsReady(t.destinations[l], a))
            && (Follows(live, s.destinations[l]) ==> Follows(live, t.destinations[l]))
  {
    ReachableInv(data, places, actions);
    var s := Run(Start(data, places), actions);
    var t := Run(s, Cancels(late));
    CancelsLeaveIt(s, late, a.id, l);
    NoCancelOnItsWay(t, a.id);
    UntouchedStaysReady(s.destinations[l], t.destinations[l], s.source.transfer.value, a);
  }
}
