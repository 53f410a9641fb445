/** Publishing analysed batches: units finish in any order and the process may stop anywhere, yet batches are
    published in order, once each, and all of them if all units finish. */
module Publication {

  /** The batch of each unit, the number of batches, and whether no source brings an earlier organization. */
  datatype Plan = Plan(units: seq<nat>, batches: nat, cold: bool)

  /** What is on disk: unit results, combined analyses, finished submissions in the order they were made, and the
      checkpoint. */
  datatype Disk = Disk(units: set<nat>, combined: set<nat>, submitted: seq<nat>, organized: nat, order: seq<nat>)

  /** The running process; `answered` holds between a batch's submission and its checkpoint. */
  datatype Process =
    | Down
    | Up(next: nat, analyses: set<nat>, results: set<nat>, waiting: set<nat>, answered: bool)

  datatype State = State(disk: Disk, process: Process)

  const START := State(Disk({}, {}, [], 0, []), Down)

  datatype Action =
    | Begin | Worker(unit: nat) | Notice(unit: nat) | Combine | Submit | Checkpoint | Crash

  function Range(n: nat): seq<nat> {
    seq(n, i => i)
  }

  function UnitsOf(p: Plan, batch: nat): set<nat> {
    set u | 0 <= u < |p.units| && p.units[u] == batch
  }

  /** The units of the batches still to be published that have no combined analysis. */
  function Needed(p: Plan, from: nat, analyses: set<nat>): set<nat> {
    set u | 0 <= u < |p.units| && p.units[u] >= from && p.units[u] !in analyses
  }

  /** Publishing is held back until every unit has been noticed, unless all inputs are cold. */
  predicate MayPublish(p: Plan, q: Process)
    requires q.Up?
  {
    (p.cold || q.waiting == {}) && q.next < p.batches
  }

  /** The next batch is analysed, or all its units have results. */
  predicate Ready(p: Plan, q: Process)
    requires q.Up?
  {
    MayPublish(p, q) && (q.next in q.analyses || UnitsOf(p, q.next) <= q.results)
  }

  function Do(p: Plan, s: State, a: Action): State {
    var d, q := s.disk, s.process;
    match a
    case Begin =>
      if q.Up? || d.organized > p.batches || d.order != Range(d.organized) then s
      else
        var analyses := set b | b in d.combined && d.organized <= b < p.batches;
        var needed := Needed(p, d.organized, analyses);
        State(d, Up(d.organized, analyses, needed * d.units, needed - d.units, false))
    // the unit's worker writes its result
    case Worker(u) =>
      if q.Up? && u in q.waiting then s.(disk := d.(units := d.units + {u})) else s
    case Notice(u) =>
      if q.Up? && u in q.waiting && u in d.units
      then s.(process := q.(results := q.results + {u}, waiting := q.waiting - {u})) else s
    case Combine =>
      if q.Up? && !q.answered && Ready(p, q) && q.next !in q.analyses
      then State(d.(combined := d.combined + {q.next}), q.(analyses := q.analyses + {q.next})) else s
    // a submission already on disk is returned as it is
    case Submit =>
      if q.Up? && !q.answered && Ready(p, q) && q.next in q.analyses
      then State(if q.next in d.submitted then d else d.(submitted := d.submitted + [q.next]), q.(answered := true)) else s
    case Checkpoint =>
      if q.Up? && q.answered
      then State(d.(organized := q.next + 1, order := d.order + [q.next]), q.(next := q.next + 1, answered := false)) else s
    // a failed unit or submission ends the process too
    case Crash => s.(process := Down)
  }

  function Run(p: Plan, actions: seq<Action>): State {
    if actions == [] then START else Do(p, Run(p, actions[..|actions| - 1]), actions[|actions| - 1])
  }

  // ---------------------------------------------------------------- invariant

  predicate WellPlanned(p: Plan) {
    forall u :: 0 <= u < |p.units| ==> p.units[u] < p.batches
  }

  ghost predicate DiskInv(p: Plan, d: Disk) {
    && d.organized <= p.batches && d.order == Range(d.organized)
    && d.submitted == Range(|d.submitted|) && d.organized <= |d.submitted| <= d.organized + 1 && |d.submitted| <= p.batches
    && (forall b | b in d.combined :: UnitsOf(p, b) <= d.units)
    && (forall b :: 0 <= b < |d.submitted| ==> b in d.combined)
    && (!p.cold && d.submitted != [] ==> forall u :: 0 <= u < |p.units| ==> u in d.units)
  }

  ghost predicate ProcessInv(p: Plan, d: Disk, q: Process) {
    q.Up? ==>
      && q.next == d.organized && q.results <= d.units && q.analyses <= d.combined
      && (forall u :: 0 <= u < |p.units| && p.units[u] >= q.next ==>
            u in q.results || u in q.waiting || p.units[u] in q.analyses)
      && (q.answered ==> q.next < p.batches && |d.submitted| == q.next + 1)
  }

  ghost predicate Inv(p: Plan, s: State) {
    WellPlanned(p) && DiskInv(p, s.disk) && ProcessInv(p, s.disk, s.process)
  }

  /** Once every unit is noticed, a batch that is not combined has all its results, and so has every later one. */
  lemma NothingMissing(p: Plan, s: State)
    requires Inv(p, s) && s.process.Up? && s.process.waiting == {}
    ensures s.process.next in s.process.analyses || UnitsOf(p, s.process.next) <= s.process.results
  {
  }

  lemma AllUnitsDone(p: Plan, s: State)
    requires Inv(p, s) && s.process.Up? && s.process.waiting == {}
    ensures forall u :: 0 <= u < |p.units| ==> u in s.disk.units
  {
    forall u | 0 <= u < |p.units| ensures u in s.disk.units {
      var b := p.units[u];
      if b < s.process.next || b in s.process.analyses {
        assert b in s.disk.combined && u in UnitsOf(p, b);
      }
    }
  }

  lemma SubmitKeeps(p: Plan, s: State)
    requires Inv(p, s)
    ensures Inv(p, Do(p, s, Submit))
  {
    var d, q := s.disk, s.process;
    if q.Up? && !q.answered && Ready(p, q) && q.next in q.analyses {
      if q.next < |d.submitted| { assert d.submitted[q.next] == q.next; }
      if q.waiting == {} { AllUnitsDone(p, s); }
      if q.next !in d.submitted { assert d.submitted + [q.next] == Range(|d.submitted| + 1); }
    }
  }

  lemma StepKeeps(p: Plan, s: State, a: Action)
    requires Inv(p, s)
    ensures Inv(p, Do(p, s, a))
  {
    match a
    case Begin => BeginKeeps(p, s);
    case Worker(_) =>
    case Notice(_) =>
    case Combine =>
    case Submit => SubmitKeeps(p, s);
    case Checkpoint => CheckpointKeeps(p, s);
    case Crash =>
  }

  lemma BeginKeeps(p: Plan, s: State)
    requires Inv(p, s)
    ensures Inv(p, Do(p, s, Begin))
  {
    var t := Do(p, s, Begin);
    if t != s {
      forall u | 0 <= u < |p.units| && p.units[u] >= t.process.next
        ensures u in t.process.results || u in t.process.waiting || p.units[u] in t.process.analyses
      {
        assert p.units[u] in t.process.analyses || u in Needed(p, s.disk.organized, t.process.analyses);
      }
    }
  }

  lemma CheckpointKeeps(p: Plan, s: State)
    requires Inv(p, s)
    ensures Inv(p, Do(p, s, Checkpoint))
  {
    if s.process.Up? && s.process.answered {
      assert s.disk.order + [s.process.next] == Range(s.process.next + 1);
    }
  }

  lemma {:induction false} RunsKeepInv(p: Plan, actions: seq<Action>)
    requires WellPlanned(p)
    ensures Inv(p, Run(p, actions))
  {
    if actions == [] {
      assert START.disk.order == Range(0);
    } else {
      RunsKeepInv(p, actions[..|actions| - 1]);
      StepKeeps(p, Run(p, actions[..|actions| - 1]), actions[|actions| - 1]);
    }
  }

  // ---------------------------------------------------------------- order, no gap, no repeat

  /** In every run, whatever finishes first and wherever it stops, the batches submitted are 0, 1, 2 and so on, the
      checkpoint names all of them or all but the last, and every submitted batch has all its units' results. */
  lemma PublishedInOrder(p: Plan, actions: seq<Action>)
    requires WellPlanned(p)
    ensures var d := Run(p, actions).disk;
            && d.submitted == Range(|d.submitted|) && d.order == Range(d.organized)
            && d.organized <= |d.submitted| <= d.organized + 1
            && forall b :: 0 <= b < |d.submitted| ==> UnitsOf(p, b) <= d.units
  {
    RunsKeepInv(p, actions);
  }

  /** Submissions are only added, one batch at a time, by the step that submits. */
  lemma SubmissionsOnlyGrow(p: Plan, s: State, a: Action)
    ensures var before, after := s.disk.submitted, Do(p, s, a).disk.submitted;
            after == before || (a == Submit && s.process.Up? && after == before + [s.process.next] && s.process.next !in before)
  {
  }

  /** Where a source already has an organization, nothing is submitted before every unit has its result. */
  lemma HeldBackUntilAllFinish(p: Plan, actions: seq<Action>)
    requires WellPlanned(p) && !p.cold && Run(p, actions).disk.submitted != []
    ensures forall u :: 0 <= u < |p.units| ==> u in Run(p, actions).disk.units
  {
    RunsKeepInv(p, actions);
  }

  // ---------------------------------------------------------------- all are published

  /** `publish_ready`: while the next batch is ready, combine it unless that was done, submit it, and save. */
  function Publish(p: Plan, s: State): State
    requires s.process.Up?
    decreases p.batches - s.process.next
  {
    if s.process.answered || !Ready(p, s.process) then s
    else Publish(p, Do(p, Do(p, Do(p, s, Combine), Submit), Checkpoint))
  }

  lemma OnePublished(p: Plan, s: State)
    requires Inv(p, s) && s.process.Up? && !s.process.answered && Ready(p, s.process)
    ensures var t := Do(p, Do(p, Do(p, s, Combine), Submit), Checkpoint);
            && Inv(p, t) && t.process.Up? && t.process.next == s.process.next + 1 && !t.process.answered
            && t.process.waiting == s.process.waiting
  {
    StepKeeps(p, s, Combine);
    StepKeeps(p, Do(p, s, Combine), Submit);
    StepKeeps(p, Do(p, Do(p, s, Combine), Submit), Checkpoint);
  }

  /** With every unit noticed, publishing reaches the last batch. */
  lemma {:induction false} PublishFinishes(p: Plan, s: State)
    requires Inv(p, s) && s.process.Up? && !s.process.answered && s.process.waiting == {}
    ensures var t := Publish(p, s);
            && Inv(p, t) && t.process.Up? && t.process.next == p.batches && t.disk.order == Range(p.batches)
            && t.disk.submitted == Range(p.batches)
    decreases p.batches - s.process.next
  {
    if s.process.next < p.batches {
      NothingMissing(p, s);
      OnePublished(p, s);
      PublishFinishes(p, Do(p, Do(p, Do(p, s, Combine), Submit), Checkpoint));
    }
  }

  /** Publishing stops exactly where a batch is not ready. */
  lemma {:induction false} PublishStops(p: Plan, s: State)
    requires Inv(p, s) && s.process.Up? && !s.process.answered
    ensures var t := Publish(p, s);
            && Inv(p, t) && t.process.Up? && !t.process.answered && !Ready(p, t.process)
            && forall b :: s.process.next <= b < t.process.next ==> b in t.disk.combined
    decreases p.batches - s.process.next
  {
    if Ready(p, s.process) {
      OnePublished(p, s);
      PublishStops(p, Do(p, Do(p, Do(p, s, Combine), Submit), Checkpoint));
    }
  }

  /** The worker writes each of these units and the process notices it. */
  function Finish(p: Plan, s: State, units: seq<nat>): State {
    if units == [] then s
    else
      var t := Finish(p, s, units[..|units| - 1]);
      Do(p, Do(p, t, Worker(units[|units| - 1])), Notice(units[|units| - 1]))
  }

  lemma {:induction false} FinishNotices(p: Plan, s: State, units: seq<nat>)
    requires Inv(p, s) && s.process.Up? && !s.process.answered
    ensures var t := Finish(p, s, units);
            && Inv(p, t) && t.process.Up? && !t.process.answered && t.process.next == s.process.next
            && t.process.waiting == s.process.waiting - set u | u in units
  {
    if units != [] {
      var n := |units| - 1;
      FinishNotices(p, s, units[..n]);
      var t := Finish(p, s, units[..n]);
      StepKeeps(p, t, Worker(units[n]));
      StepKeeps(p, Do(p, t, Worker(units[n])), Notice(units[n]));
    }
  }

  /** From every reachable state, after any crash, starting again and letting the units finish, in whatever order,
      publishes every batch. */
  lemma AllFinishAllPublished(p: Plan, actions: seq<Action>, units: seq<nat>)
    requires WellPlanned(p)
    requires forall u :: 0 <= u < |p.units| ==> u in units
    ensures var begun := Do(p, Do(p, Run(p, actions), Crash), Begin);
            && begun.process.Up? && Finish(p, begun, units).process.Up?
            && var t := Publish(p, Finish(p, begun, units)).disk;
               t.order == Range(p.batches) && t.submitted == Range(p.batches)
  {
    var s := Run(p, actions);
    RunsKeepInv(p, actions);
    StepKeeps(p, s, Crash);
    StepKeeps(p, Do(p, s, Crash), Begin);
    var begun := Do(p, Do(p, s, Crash), Begin);
    FinishNotices(p, begun, units);
    assert begun.process.waiting - (set u | u in units) == {};
    PublishFinishes(p, Finish(p, begun, units));
  }

  // ---------------------------------------------------------------- the loop

  /** The variables of one process and its files. */
  class Publisher {
    const plan: Plan
    var units: set<nat>
    var combined: set<nat>
    var submitted: seq<nat>
    var organized: nat
    var order: seq<nat>
    var next: nat
    var analyses: set<nat>
    var results: set<nat>
    var waiting: set<nat>

    function Now(): State
      reads this
    {
      State(Disk(units, combined, submitted, organized, order), Up(next, analyses, results, waiting, false))
    }

    /** `begun` is the state just after starting. */
    constructor (plan: Plan, begun: State)
      requires begun.process.Up? && !begun.process.answered
      ensures this.plan == plan && Now() == begun
    {
      this.plan := plan;
      units, combined, submitted := begun.disk.units, begun.disk.combined, begun.disk.submitted;
      organized, order := begun.disk.organized, begun.disk.order;
      next, analyses, results, waiting := begun.process.next, begun.process.analyses, begun.process.results, begun.process.waiting;
    }

    /** Combine, submit and save the next batch. */
    method PublishOne()
      requires Ready(plan, Up(next, analyses, results, waiting, false))
      modifies this
      ensures Now() == Do(plan, Do(plan, Do(plan, old(Now()), Combine), Submit), Checkpoint)
    {
      if next !in analyses {
        analyses := analyses + {next};
        combined := combined + {next};
      }
      if next !in submitted {
        submitted := submitted + [next];
      }
      order := order + [next];
      organized := next + 1;
      next := next + 1;
    }

    /** `publish_ready`; `final` is set once no unit is waited for. */
    method PublishReady(final: bool)
      requires final ==> waiting == {}
      modifies this
      ensures Now() == if final || plan.cold then Publish(plan, old(Now())) else old(Now())
    {
      if !final && !plan.cold {
        return;
      }
      while next < plan.batches
        invariant Publish(plan, Now()) == Publish(plan, old(Now()))
        invariant final ==> waiting == {}
        decreases plan.batches - next
      {
        if next !in analyses && !(UnitsOf(plan, next) <= results) {
          break;
        }
        PublishOne();
      }
    }
  }
}
