/** A retired source can always be followed by its destination, from whatever step both hosts were stopped at. */
module HandoffProgress {
  import opened Options
  import opened Handoff
  import opened HandoffInvariant

  lemma RunThen(s: System, actions: seq<Action>, a: Action)
    ensures Run(s, actions + [a]) == Do(Run(s, actions), a)
  {
    assert (actions + [a])[..|actions + [a]| - 1] == actions;
  }

  lemma RunOne(s: System, a: Action)
    ensures Run(s, [a]) == Do(s, a)
  {
    RunThen(s, [], a);
    assert [] + [a] == [a];
  }

  lemma {:induction false} RunTwo(s: System, first: seq<Action>, second: seq<Action>)
    ensures Run(s, first + second) == Run(Run(s, first), second)
    decreases |second|
  {
    if second == [] {
      assert first + second == first;
    } else {
      var front := second[..|second| - 1];
      assert (first + second)[..|first + second| - 1] == first + front;
      RunTwo(s, first, front);
    }
  }

  /** Both hosts stop and start again. */
  function Restart(l: Location): seq<Action> {
    [SourceCrash] + [SourceStart] + [DestinationCrash(l)] + [DestinationStart(l)]
  }

  /** The source takes up the retired transfer and sends its permit again. */
  const RESEND := [Execute(true)] + [SendPermit]

  /** The permit arrives and its handler runs on. */
  function Activation(t: Transfer): seq<Action> {
    [ReceivePermit(t, t.target)] + [Activate(t.target)] + [Activate(t.target)] + [Activate(t.target)]
    + [Activate(t.target)] + [Activate(t.target)]
  }

  ghost predicate Restarted(p: System, t: Transfer)
  {
    && IsRetired(p.source) && p.source.transfer == Some(t) && p.source.up && p.source.job == Idle
    && t.target in p.destinations && p.destinations[t.target].up && p.destinations[t.target].handler == Waiting
    && p.destinations[t.target].running == p.destinations[t.target].installed.Some?
  }

  lemma SourceStops(s: System)
    ensures Do(s, SourceCrash) == s.(source := s.source.(up := false, running := false, job := Idle))
  {
  }

  lemma SourceOpens(s: System)
    requires !s.source.up
    ensures Do(s, SourceStart) == s.(source := s.source.(up := true, running := !IsRetired(s.source)))
  {
  }

  lemma SourceRestarts(s: System)
    requires Inv(s)
    ensures var p := Do(Do(s, SourceCrash), SourceStart);
            Inv(p) && p == s.(source := s.source.(up := true, running := !IsRetired(s.source), job := Idle))
  {
    SourceStops(s);
    SourceOpens(Do(s, SourceCrash));
    StepKeeps(s, SourceCrash);
    StepKeeps(Do(s, SourceCrash), SourceStart);
  }

  lemma DestinationStops(s: System, l: Location)
    requires l in s.destinations
    ensures var p := Do(s, DestinationCrash(l));
            && p.source == s.source && l in p.destinations
            && p.destinations[l] == s.destinations[l].(up := false, running := false, handler := Waiting)
  {
  }

  lemma DestinationOpens(s: System, l: Location)
    requires l in s.destinations && !s.destinations[l].up
    ensures var p := Do(s, DestinationStart(l));
            && p.source == s.source && l in p.destinations
            && p.destinations[l]
               == s.destinations[l].(up := true, running := s.destinations[l].installed.Some?
                                                            && s.destinations[l].installed.value.activated.Some?)
  {
  }

  lemma DestinationRestarts(s: System, l: Location)
    requires Inv(s) && l in s.destinations
    ensures var p := Do(Do(s, DestinationCrash(l)), DestinationStart(l));
            && Inv(p) && p.source == s.source && l in p.destinations
            && p.destinations[l].up && p.destinations[l].handler == Waiting
            && p.destinations[l].running == p.destinations[l].installed.Some?
  {
    var p := Do(s, DestinationCrash(l));
    StepKeeps(s, DestinationCrash(l));
    DestinationStops(s, l);
    StepKeeps(p, DestinationStart(l));
    DestinationOpens(p, l);
    assert DestinationInv(p.source, l, p.destinations[l]);
  }

  lemma RestartWorks(s: System, t: Transfer)
    requires Inv(s) && IsRetired(s.source) && s.source.transfer == Some(t)
    ensures Inv(Run(s, Restart(t.target))) && Restarted(Run(s, Restart(t.target)), t)
  {
    var l := t.target;
    RestartRuns(s, l);
    SourceRestarts(s);
    DestinationRestarts(Do(Do(s, SourceCrash), SourceStart), l);
  }

  lemma RestartRuns(s: System, l: Location)
    ensures Run(s, Restart(l)) == Do(Do(Do(Do(s, SourceCrash), SourceStart), DestinationCrash(l)), DestinationStart(l))
  {
    var a, b, c := [SourceCrash], [SourceStart], [DestinationCrash(l)];
    RunOne(s, SourceCrash);
    RunThen(s, a, SourceStart);
    RunThen(s, a + b, DestinationCrash(l));
    RunThen(s, a + b + c, DestinationStart(l));
  }

  lemma ResendDelivers(s: System, t: Transfer)
    requires Inv(s) && IsRetired(s.source) && s.source.transfer == Some(t) && s.source.up && s.source.job == Idle
    ensures var p := Run(s, RESEND);
            Inv(p) && p.source == s.source.(job := Finishing(t)) && ActivateRequest(t) in p.net && p.destinations == s.destinations
  {
    RunOne(s, Execute(true));
    RunThen(s, [Execute(true)], SendPermit);
    StepKeeps(s, Execute(true));
    StepKeeps(Do(s, Execute(true)), SendPermit);
    Resent(s, t);
  }

  lemma Resent(s: System, t: Transfer)
    requires IsRetired(s.source) && s.source.transfer == Some(t) && s.source.up && s.source.job == Idle
    ensures Do(Do(s, Execute(true)), SendPermit)
            == s.(source := s.source.(job := Finishing(t)), net := s.net + {ActivateRequest(t)})
  {
  }

  lemma OneActivation(s: System, t: Transfer)
    requires Inv(s) && IsRetired(s.source) && s.source.transfer == Some(t) && t.target in s.destinations
    requires s.destinations[t.target].handler.Activating?
    ensures var d, after := s.destinations[t.target], Do(s, Activate(t.target));
            var next := after.destinations[t.target];
            && Inv(after) && after.source == s.source && after.destinations.Keys == s.destinations.Keys
            && (d.handler.step == SavePermit ==> next.handler == Activating(t, MarkActive))
            && (d.handler.step == MarkActive ==> next.handler == Activating(t, Install) || next.handler == Activating(t, Open))
            && (d.handler.step == Install ==> next.handler == Activating(t, Open))
            && (d.handler.step == Open ==> next.handler == Activating(t, SaveActive))
            && (d.handler.step == SaveActive ==> Activated(after, t))
  {
    assert DestinationInv(s.source, t.target, s.destinations[t.target]);
    StepKeeps(s, Activate(t.target));
    ActivationAdvances(s, t);
  }

  /** One step of the activation handler at a place whose invariant holds. */
  lemma ActivationAdvances(s: System, t: Transfer)
    requires IsRetired(s.source) && s.source.transfer == Some(t) && t.target in s.destinations
    requires SourceInv(s) && DestinationInv(s.source, t.target, s.destinations[t.target])
    requires s.destinations[t.target].handler.Activating?
    ensures var d, after := s.destinations[t.target], Do(s, Activate(t.target));
            && after.source == s.source && after.destinations.Keys == s.destinations.Keys
            && var next := after.destinations[t.target];
               && (d.handler.step == SavePermit ==> next.handler == Activating(t, MarkActive))
               && (d.handler.step == MarkActive ==> next.handler == Activating(t, Install) || next.handler == Activating(t, Open))
               && (d.handler.step == Install ==> next.handler == Activating(t, Open))
               && (d.handler.step == Open ==> next.handler == Activating(t, SaveActive))
               && (d.handler.step == SaveActive ==> Activated(after, t))
  {
  }

  ghost predicate Activated(s: System, t: Transfer) {
    t.target in s.destinations && s.destinations[t.target].handler == Waiting && s.destinations[t.target].running
    && ActivateReply(t.id, t.target) in s.net
  }

  /** A refused step of an idle handler changes nothing. */
  lemma IdleActivation(s: System, t: Transfer)
    requires Activated(s, t)
    ensures Do(s, Activate(t.target)) == s
  {
  }

  /** The remaining steps of an activation, five at most. */
  ghost predicate Within(s: System, t: Transfer, steps: nat) {
    t.target in s.destinations
    && var h := s.destinations[t.target].handler;
       if Activated(s, t) then true
       else h.Activating? && match h.step
                             case SavePermit => steps >= 5
                             case MarkActive => steps >= 4
                             case Install => steps >= 3
                             case Open => steps >= 2
                             case SaveActive => steps >= 1
  }

  lemma CountDown(s: System, t: Transfer, steps: nat)
    requires Inv(s) && IsRetired(s.source) && s.source.transfer == Some(t) && Within(s, t, steps) && steps > 0
    ensures var after := Do(s, Activate(t.target)); Inv(after) && after.source == s.source && Within(after, t, steps - 1)
  {
    if Activated(s, t) { IdleActivation(s, t); } else { OneActivation(s, t); }
  }

  lemma PermitArrives(s: System, t: Transfer)
    requires Inv(s) && IsRetired(s.source) && s.source.transfer == Some(t) && t.target in s.destinations
    requires ActivateRequest(t) in s.net && s.destinations[t.target].up && s.destinations[t.target].handler == Waiting
    requires s.destinations[t.target].running == s.destinations[t.target].installed.Some?
    ensures var after := Do(s, ReceivePermit(t, t.target)); Inv(after) && after.source == s.source && Within(after, t, 5)
  {
    assert DestinationInv(s.source, t.target, s.destinations[t.target]);
    StepKeeps(s, ReceivePermit(t, t.target));
    PermitTaken(s, t);
  }

  lemma PermitTaken(s: System, t: Transfer)
    requires Due(s.source, t.target) && s.source.transfer == Some(t) && t.target in s.destinations
    requires DestinationInv(s.source, t.target, s.destinations[t.target])
    requires ActivateRequest(t) in s.net && s.destinations[t.target].up && s.destinations[t.target].handler == Waiting
    requires s.destinations[t.target].running == s.destinations[t.target].installed.Some?
    ensures var after := Do(s, ReceivePermit(t, t.target)); after.source == s.source && Within(after, t, 5)
  {
  }

  lemma ActivationCompletes(s: System, t: Transfer)
    requires Inv(s) && IsRetired(s.source) && s.source.transfer == Some(t) && t.target in s.destinations
    requires ActivateRequest(t) in s.net && s.destinations[t.target].up && s.destinations[t.target].handler == Waiting
    requires s.destinations[t.target].running == s.destinations[t.target].installed.Some?
    ensures var q := Run(s, Activation(t)); Inv(q) && q.source == s.source && Activated(q, t)
  {
    var r, a := [ReceivePermit(t, t.target)], [Activate(t.target)];
    RunOne(s, ReceivePermit(t, t.target));
    PermitArrives(s, t);
    RunThen(s, r, a[0]);
    CountDown(Run(s, r), t, 5);
    RunThen(s, r + a, a[0]);
    CountDown(Run(s, r + a), t, 4);
    RunThen(s, r + a + a, a[0]);
    CountDown(Run(s, r + a + a), t, 3);
    RunThen(s, r + a + a + a, a[0]);
    CountDown(Run(s, r + a + a + a), t, 2);
    RunThen(s, r + a + a + a + a, a[0]);
    CountDown(Run(s, r + a + a + a + a), t, 1);
  }

  lemma LettingGo(s: System, t: Transfer)
    requires s.source.up && s.source.job == Finishing(t) && Activated(s, t)
    ensures var q := Do(s, Finish);
            && DestinationServes(q, t.target) && q.source.data == None && !q.source.running
            && q.source.transfer == s.source.transfer
  {
  }

  /** The permit sent again, its activation, and the answer. */
  function Resending(t: Transfer): seq<Action> {
    RESEND + Activation(t) + [Finish]
  }

  lemma ResendingWorks(p: System, t: Transfer)
    requires Inv(p) && Restarted(p, t)
    ensures var q := Run(p, Resending(t));
            && DestinationServes(q, t.target) && q.source.data == None && !q.source.running && q.source.transfer == Some(t)
  {
    ResendDelivers(p, t);
    var q := Run(p, RESEND);
    ActivationCompletes(q, t);
    RunTwo(p, RESEND, Activation(t));
    RunThen(p, RESEND + Activation(t), Finish);
    LettingGo(Run(q, Activation(t)), t);
  }

  /** Nothing is lost by retiring: from every reachable state with a retired source, whatever step either host
      was stopped at, resending the same permit makes its destination serve, and the source then lets go of its
      copy. */
  lemma RetiredCanAlwaysFinish(data: string, places: set<Location>, actions: seq<Action>)
    requires IsRetired(Run(Start(data, places), actions).source)
    ensures var s := Run(Start(data, places), actions);
            var t := s.source.transfer.value;
            var q := Run(Run(s, Restart(t.target)), Resending(t));
            && DestinationServes(q, t.target) && q.source.data == None && !q.source.running
            && q.source.transfer == s.source.transfer
  {
    ReachableInv(data, places, actions);
    var s := Run(Start(data, places), actions);
    RestartWorks(s, s.source.transfer.value);
    ResendingWorks(Run(s, Restart(s.source.transfer.value.target)), s.source.transfer.value);
  }
}
