/** Submitting one analysed batch source by source, with repair rounds for what is rejected and files that survive
    a stop at any point. */
module Submission {
  import opened Options

  /** A submission; its digest names its acceptance file and is taken as injective. `body` is the analysis with the
      inputs it used, the only part a repair may replace. */
  datatype Sub = Sub(work: string, asset: string, revision: int, body: string)

  /** The attempts allowed, and whether a capability for repairs was given. */
  datatype Settings = Settings(attempts: int, capable: bool)

  datatype Progress = Progress(attempt: nat, subs: seq<Sub>)

  /** Files: accepted submissions, the progress of repairs, and the finished submission. */
  datatype Disk = Disk(accepted: set<Sub>, progress: Option<Progress>, finished: Option<seq<Sub>>)

  datatype Process =
    | Idle
    | Sending(subs: seq<Sub>, attempt: nat, todo: seq<nat>, failed: seq<nat>)
    | Repairing(subs: seq<Sub>, attempt: nat, failed: seq<nat>)
    | Returned(subs: seq<Sub>)

  /** `repairs` and `interrupted` count the repair calls made and those whose outcome was never saved. */
  datatype State = State(disk: Disk, process: Process, repairs: nat, interrupted: nat)

  const START := State(Disk({}, None, None), Idle, 0, 0)

  datatype Action = Begin | Skip | Reply(ok: bool) | Finish | Repair | Repaired(bodies: map<string, string>) | Stop

  function All(n: nat): seq<nat> {
    seq(n, i => i)
  }

  /** The repaired bodies put into the rejected submissions; what was not repaired stays. */
  function Mend(subs: seq<Sub>, failed: seq<nat>, bodies: map<string, string>): (r: seq<Sub>)
    ensures |r| == |subs|
  {
    seq(|subs|, i requires 0 <= i < |subs| =>
          if i in failed && subs[i].work in bodies then subs[i].(body := bodies[subs[i].work]) else subs[i])
  }

  function Saved(initial: seq<Sub>, d: Disk): Progress {
    if d.progress.Some? then d.progress.value else Progress(0, initial)
  }

  function Do(c: Settings, initial: seq<Sub>, s: State, a: Action): State {
    var d, q := s.disk, s.process;
    match a
    case Begin =>
      if !q.Idle? then s
      else if d.finished.Some? then s.(process := Returned(d.finished.value))
      else
        var saved := Saved(initial, d);
        s.(process := Sending(saved.subs, saved.attempt, All(|saved.subs|), []))
    // an acceptance file answers without asking the host
    case Skip =>
      if q.Sending? && q.todo != [] && q.todo[0] < |q.subs| && q.subs[q.todo[0]] in d.accepted
      then s.(process := q.(todo := q.todo[1..])) else s
    case Reply(ok) =>
      if q.Sending? && q.todo != [] && q.todo[0] < |q.subs| && q.subs[q.todo[0]] !in d.accepted then
        if ok then s.(disk := d.(accepted := d.accepted + {q.subs[q.todo[0]]}), process := q.(todo := q.todo[1..]))
        else s.(process := q.(todo := q.todo[1..], failed := q.failed + [q.todo[0]]))
      else s
    case Finish =>
      if q.Sending? && q.todo == [] && q.failed == []
      then s.(disk := d.(finished := Some(q.subs)), process := Returned(q.subs)) else s
    case Repair =>
      if q.Sending? && q.todo == [] && q.failed != [] && c.capable && q.attempt < c.attempts - 1
      then s.(process := Repairing(q.subs, q.attempt + 1, q.failed), repairs := s.repairs + 1) else s
    case Repaired(bodies) =>
      if q.Repairing? then
        var mended := Mend(q.subs, q.failed, bodies);
        s.(disk := d.(progress := Some(Progress(q.attempt, mended))), process := Sending(mended, q.attempt, q.failed, []))
      else s
    // an error or a crash
    case Stop => s.(process := Idle, interrupted := s.interrupted + if q.Repairing? then 1 else 0)
  }

  function Run(c: Settings, initial: seq<Sub>, actions: seq<Action>): State {
    if actions == [] then START else Do(c, initial, Run(c, initial, actions[..|actions| - 1]), actions[|actions| - 1])
  }

  // ---------------------------------------------------------------- invariant

  /** The work ids of a batch are distinct. */
  ghost predicate OneEach(subs: seq<Sub>) {
    forall i, j :: 0 <= i < j < |subs| ==> subs[i].work != subs[j].work
  }

  /** Same works, sources and revisions, in the same places. */
  ghost predicate SameWork(initial: seq<Sub>, subs: seq<Sub>) {
    |subs| == |initial| && forall i :: 0 <= i < |subs| ==> subs[i].(body := initial[i].body) == initial[i]
  }

  ghost predicate AllAccepted(d: Disk, subs: seq<Sub>) {
    forall i :: 0 <= i < |subs| ==> subs[i] in d.accepted
  }

  /** The submissions as they stand: in the running process, else as saved. */
  function Current(initial: seq<Sub>, s: State): seq<Sub> {
    match s.process
    case Idle => if s.disk.finished.Some? then s.disk.finished.value else Saved(initial, s.disk).subs
    case Sending(subs, _, _, _) => subs
    case Repairing(subs, _, _) => subs
    case Returned(subs) => subs
  }

  predicate Below(failed: seq<nat>, n: nat) {
    forall k :: 0 <= k < |failed| ==> failed[k] < n
  }

  ghost predicate Rejected(d: Disk, subs: seq<Sub>, failed: seq<nat>) {
    Below(failed, |subs|) && forall k :: 0 <= k < |failed| ==> subs[failed[k]] !in d.accepted
  }

  /** Each submission is accepted, still to be sent, or rejected in this round. */
  ghost predicate Accounted(d: Disk, subs: seq<Sub>, todo: seq<nat>, failed: seq<nat>) {
    forall i :: 0 <= i < |subs| ==> subs[i] in d.accepted || i in todo || i in failed
  }

  predicate InAttempts(c: Settings, attempt: nat) {
    attempt == 0 || attempt <= c.attempts - 1
  }

  ghost predicate DiskInv(c: Settings, initial: seq<Sub>, d: Disk) {
    && SameWork(initial, Saved(initial, d).subs) && InAttempts(c, Saved(initial, d).attempt)
    && (d.finished.Some? ==> SameWork(initial, d.finished.value) && AllAccepted(d, d.finished.value))
  }

  ghost predicate ProcessInv(c: Settings, initial: seq<Sub>, d: Disk, q: Process) {
    match q
    case Idle => true
    case Sending(subs, attempt, todo, failed) =>
      && d.finished == None && subs == Saved(initial, d).subs && attempt == Saved(initial, d).attempt
      && Below(todo, |subs|) && Rejected(d, subs, failed) && Accounted(d, subs, todo, failed)
      && (forall i :: 0 <= i < |todo| ==> todo[i] !in failed)
      && (forall i, j :: 0 <= i < j < |todo| ==> todo[i] != todo[j])
      && (forall i, j :: 0 <= i < j < |failed| ==> failed[i] != failed[j])
    case Repairing(subs, attempt, failed) =>
      && d.finished == None && subs == Saved(initial, d).subs && attempt == Saved(initial, d).attempt + 1
      && InAttempts(c, attempt) && Rejected(d, subs, failed) && Accounted(d, subs, [], failed)
      && (forall i, j :: 0 <= i < j < |failed| ==> failed[i] != failed[j])
    case Returned(subs) => d.finished == Some(subs)
  }

  ghost predicate Counted(initial: seq<Sub>, s: State) {
    s.repairs == Saved(initial, s.disk).attempt + s.interrupted + if s.process.Repairing? then 1 else 0
  }

  ghost predicate Inv(c: Settings, initial: seq<Sub>, s: State) {
    DiskInv(c, initial, s.disk) && ProcessInv(c, initial, s.disk, s.process) && Counted(initial, s)
  }

  /** Another submission of the batch never shares an acceptance file. */
  lemma AcceptLeavesOthers(initial: seq<Sub>, subs: seq<Sub>, i: nat, j: nat)
    requires OneEach(initial) && SameWork(initial, subs) && i < |subs| && j < |subs| && i != j
    ensures subs[i] != subs[j]
  {
    assert subs[i].work == initial[i].work && subs[j].work == initial[j].work;
  }

  lemma ReplyKeeps(c: Settings, initial: seq<Sub>, s: State, ok: bool)
    requires OneEach(initial) && Inv(c, initial, s)
    ensures Inv(c, initial, Do(c, initial, s, Reply(ok)))
  {
    var d, q := s.disk, s.process;
    var t := Do(c, initial, s, Reply(ok));
    if t != s && ok {
      var i := q.todo[0];
      forall k | 0 <= k < |q.failed| ensures q.subs[q.failed[k]] !in t.disk.accepted {
        assert q.todo[0] !in q.failed && q.failed[k] in q.failed;
        AcceptLeavesOthers(initial, q.subs, q.failed[k], i);
      }
    }
  }

  lemma MendKeeps(initial: seq<Sub>, subs: seq<Sub>, failed: seq<nat>, bodies: map<string, string>)
    requires SameWork(initial, subs)
    ensures SameWork(initial, Mend(subs, failed, bodies))
  {
  }

  lemma RepairedKeeps(c: Settings, initial: seq<Sub>, s: State, bodies: map<string, string>)
    requires Inv(c, initial, s)
    ensures Inv(c, initial, Do(c, initial, s, Repaired(bodies)))
  {
    if s.process.Repairing? {
      MendKeeps(initial, s.process.subs, s.process.failed, bodies);
    }
  }

  lemma BeginKeeps(c: Settings, initial: seq<Sub>, s: State)
    requires Inv(c, initial, s)
    ensures Inv(c, initial, Do(c, initial, s, Begin))
  {
    if s.process.Idle? && s.disk.finished == None {
      AllHas(|Saved(initial, s.disk).subs|);
    }
  }

  lemma AllHas(n: nat)
    ensures forall i :: 0 <= i < n ==> i in All(n)
  {
    forall i | 0 <= i < n ensures i in All(n) {
      assert All(n)[i] == i;
    }
  }

  lemma StepKeeps(c: Settings, initial: seq<Sub>, s: State, a: Action)
    requires OneEach(initial) && Inv(c, initial, s)
    ensures Inv(c, initial, Do(c, initial, s, a))
  {
    match a
    case Begin => BeginKeeps(c, initial, s);
    case Skip =>
    case Reply(ok) => ReplyKeeps(c, initial, s, ok);
    case Finish =>
    case Repair =>
    case Repaired(bodies) => RepairedKeeps(c, initial, s, bodies);
    case Stop =>
  }

  lemma {:induction false} RunsKeepInv(c: Settings, initial: seq<Sub>, actions: seq<Action>)
    requires OneEach(initial)
    ensures Inv(c, initial, Run(c, initial, actions))
  {
    if actions != [] {
      RunsKeepInv(c, initial, actions[..|actions| - 1]);
      StepKeeps(c, initial, Run(c, initial, actions[..|actions| - 1]), actions[|actions| - 1]);
    }
  }

  // ---------------------------------------------------------------- what a batch is promised

  /** When submission returns, whatever was stopped and resumed before, every work item has an accepted submission in
      its original position with its original work, source and revision. */
  lemma ReturnedIsAccepted(c: Settings, initial: seq<Sub>, actions: seq<Action>)
    requires OneEach(initial) && Run(c, initial, actions).process.Returned?
    ensures var s := Run(c, initial, actions);
            SameWork(initial, s.process.subs) && AllAccepted(s.disk, s.process.subs)
  {
    RunsKeepInv(c, initial, actions);
  }

  /** No step alters a submission that has been accepted. */
  lemma AcceptedIsFinal(c: Settings, initial: seq<Sub>, s: State, a: Action, i: nat)
    requires OneEach(initial) && Inv(c, initial, s) && i < |initial|
    requires |Current(initial, s)| == |initial| && Current(initial, s)[i] in s.disk.accepted
    ensures var t := Do(c, initial, s, a);
            && |Current(initial, t)| == |initial| && Current(initial, t)[i] == Current(initial, s)[i]
            && Current(initial, t)[i] in t.disk.accepted
  {
    if a.Repaired? && s.process.Repairing? {
      assert forall k :: 0 <= k < |s.process.failed| ==> s.process.failed[k] != i;
    }
  }

  /** So an accepted submission stays as it was accepted to the end. */
  lemma {:induction false} AcceptedForever(c: Settings, initial: seq<Sub>, actions: seq<Action>, more: seq<Action>, i: nat)
    requires OneEach(initial) && i < |initial|
    requires var s := Run(c, initial, actions);
             |Current(initial, s)| == |initial| && Current(initial, s)[i] in s.disk.accepted
    ensures var s, t := Run(c, initial, actions), Run(c, initial, actions + more);
            && |Current(initial, t)| == |initial| && Current(initial, t)[i] == Current(initial, s)[i]
            && Current(initial, t)[i] in t.disk.accepted
    decreases |more|
  {
    if more == [] {
      assert actions + more == actions;
    } else {
      var front, last := more[..|more| - 1], more[|more| - 1];
      AcceptedForever(c, initial, actions, front, i);
      RunsKeepInv(c, initial, actions + front);
      assert actions + more == actions + front + [last];
      RunOneMore(c, initial, actions + front, last);
      AcceptedIsFinal(c, initial, Run(c, initial, actions + front), last, i);
    }
  }

  /** The saved repair rounds stay within the attempts across resumes; the repair calls are exactly those rounds, the
      ones stopped before their outcome was saved, and the one under way if there is one. */
  lemma RepairsAreBounded(c: Settings, initial: seq<Sub>, actions: seq<Action>)
    requires OneEach(initial)
    ensures var s := Run(c, initial, actions);
            && (Saved(initial, s.disk).attempt == 0 || Saved(initial, s.disk).attempt <= c.attempts - 1)
            && s.repairs == Saved(initial, s.disk).attempt + s.interrupted + (if s.process.Repairing? then 1 else 0)
            && (s.repairs == 0 || s.repairs <= c.attempts - 1 + s.interrupted)
            && (!c.capable ==> s.repairs == 0)
  {
    RunsKeepInv(c, initial, actions);
    NoCapabilityNoRepair(c, initial, actions);
  }

  lemma {:induction false} NoCapabilityNoRepair(c: Settings, initial: seq<Sub>, actions: seq<Action>)
    ensures !c.capable || c.attempts <= 1 ==> Run(c, initial, actions).repairs == 0
  {
    if actions != [] { NoCapabilityNoRepair(c, initial, actions[..|actions| - 1]); }
  }

  /** A round that is stopped each time is asked again each time: the calls alone have no bound. */
  const LOST := [Begin] + [Reply(false)] + [Repair] + [Stop]

  function Lost(n: nat): seq<Action> {
    if n == 0 then [] else Lost(n - 1) + LOST
  }

  lemma RunOneMore(c: Settings, initial: seq<Sub>, actions: seq<Action>, a: Action)
    ensures Run(c, initial, actions + [a]) == Do(c, initial, Run(c, initial, actions), a)
  {
    assert (actions + [a])[..|actions|] == actions;
  }

  lemma LostAsked(c: Settings, initial: seq<Sub>, s: State)
    requires |initial| == 1 && s.disk == START.disk && s.process == Idle
    ensures Do(c, initial, Do(c, initial, s, Begin), Reply(false)) == s.(process := Sending(initial, 0, [], [0]))
  {
    var asked := Do(c, initial, s, Begin);
    assert asked.process == Sending(initial, 0, All(1), []) && asked.disk == s.disk;
    assert All(1) == [0] && All(1)[1..] == [];
    assert initial[0] !in asked.disk.accepted;
    assert [] + [0] == [0];
  }

  lemma LostRepair(c: Settings, initial: seq<Sub>, s: State)
    requires |initial| == 1 && c.capable && c.attempts > 1
    requires s.disk == START.disk && s.process == Sending(initial, 0, [], [0])
    ensures var t := Do(c, initial, Do(c, initial, s, Repair), Stop);
            t.disk == START.disk && t.process == Idle && t.repairs == s.repairs + 1
  {
  }

  lemma LostRound(c: Settings, initial: seq<Sub>, actions: seq<Action>)
    requires |initial| == 1 && c.capable && c.attempts > 1
    requires var s := Run(c, initial, actions); s.disk == START.disk && s.process == Idle
    ensures var s, t := Run(c, initial, actions), Run(c, initial, actions + LOST);
            t.disk == START.disk && t.process == Idle && t.repairs == s.repairs + 1
  {
    LostAsked(c, initial, Run(c, initial, actions));
    LostRepair(c, initial, Run(c, initial, actions).(process := Sending(initial, 0, [], [0])));
    LostRun(c, initial, actions);
  }

  lemma LostRun(c: Settings, initial: seq<Sub>, actions: seq<Action>)
    ensures Run(c, initial, actions + LOST)
            == Do(c, initial, Do(c, initial, Do(c, initial, Do(c, initial, Run(c, initial, actions), Begin), Reply(false)), Repair), Stop)
  {
    RunOneMore(c, initial, actions, Begin);
    RunOneMore(c, initial, actions + [Begin], Reply(false));
    RunOneMore(c, initial, actions + [Begin] + [Reply(false)], Repair);
    RunOneMore(c, initial, actions + [Begin] + [Reply(false)] + [Repair], Stop);
    assert actions + LOST == actions + [Begin] + [Reply(false)] + [Repair] + [Stop];
  }

  lemma {:induction false} CallsAreUnbounded(c: Settings, initial: seq<Sub>, n: nat)
    requires |initial| == 1 && c.capable && c.attempts > 1
    ensures var s := Run(c, initial, Lost(n)); s.disk == START.disk && s.process == Idle && s.repairs == n
  {
    if n > 0 {
      CallsAreUnbounded(c, initial, n - 1);
      LostRound(c, initial, Lost(n - 1));
    }
  }

  // ---------------------------------------------------------------- one call without a stop

  /** The host and the repairing capability as one call meets them; None is an exception. */
  datatype World = World(accepts: (nat, Sub) -> Option<bool>, repairs: (nat, seq<Sub>) -> Option<map<string, string>>)

  class Batch {
    const settings: Settings
    const initial: seq<Sub>
    var accepted: set<Sub>
    var progress: Option<Progress>
    var finished: Option<seq<Sub>>

    ghost function Files(): Disk
      reads this
    {
      Disk(accepted, progress, finished)
    }

    constructor (settings: Settings, initial: seq<Sub>)
      ensures this.settings == settings && this.initial == initial && Files() == START.disk
    {
      this.settings, this.initial := settings, initial;
      accepted, progress, finished := {}, None, None;
    }

    /** Send what is due this round; the rejected positions, or None for an exception. */
    method SendRound(w: World, subs: seq<Sub>, attempt: nat, due: seq<nat>) returns (failed: Option<seq<nat>>)
      requires OneEach(initial) && SameWork(initial, subs) && Below(due, |subs|)
      requires forall i, j :: 0 <= i < j < |due| ==> due[i] != due[j]
      modifies this`accepted
      ensures old(accepted) <= accepted
      ensures failed.Some? ==> Rejected(Files(), subs, failed.value)
      ensures failed.Some? ==> forall i :: 0 <= i < |failed.value| ==> failed.value[i] in due
      ensures failed.Some? ==> forall i, j :: 0 <= i < j < |failed.value| ==> failed.value[i] != failed.value[j]
      ensures failed.Some? ==> forall k :: 0 <= k < |due| ==> subs[due[k]] in accepted || due[k] in failed.value
    {
      var rejected: seq<nat> := [];
      for k := 0 to |due|
        invariant old(accepted) <= accepted && Rejected(Files(), subs, rejected)
        invariant forall i :: 0 <= i < |rejected| ==> rejected[i] in due[..k]
        invariant forall i, j :: 0 <= i < j < |rejected| ==> rejected[i] != rejected[j]
        invariant forall i :: 0 <= i < k ==> subs[due[i]] in accepted || due[i] in rejected
      {
        var i := due[k];
        assert due[..k + 1] == due[..k] + [i] && i !in due[..k];
        if subs[i] !in accepted {
          var reply := w.accepts(attempt, subs[i]);
          if reply == None {
            return None;
          }
          if reply.value {
            forall j | 0 <= j < |rejected| ensures subs[rejected[j]] != subs[i] {
              AcceptLeavesOthers(initial, subs, rejected[j], i);
            }
            accepted := accepted + {subs[i]};
          } else {
            rejected := rejected + [i];
          }
        }
      }
      return Some(rejected);
    }

    /** `submit_semantic_batch`; None for an exception. */
    method SubmitBatch(w: World) returns (r: Option<seq<Sub>>)
      requires OneEach(initial) && DiskInv(settings, initial, Files())
      modifies this
      ensures DiskInv(settings, initial, Files()) && old(accepted) <= accepted
      ensures r.Some? ==> finished == r && SameWork(initial, r.value) && AllAccepted(Files(), r.value)
      ensures Saved(initial, old(Files())).attempt <= Saved(initial, Files()).attempt
      ensures old(finished).Some? ==> r == old(finished) && Files() == old(Files())
      ensures r.Some? && old(finished) == None ==>
                forall i :: 0 <= i < |initial| && Saved(initial, old(Files())).subs[i] in old(accepted) ==>
                  r.value[i] == Saved(initial, old(Files())).subs[i]
    {
      if finished.Some? {
        return finished;
      }
      var subs := if progress.Some? then progress.value.subs else initial;
      var attempt := if progress.Some? then progress.value.attempt else 0;
      var due := All(|subs|);
      ghost var start := subs;
      AllHas(|subs|);
      while true
        invariant DiskInv(settings, initial, Files()) && finished == None && old(accepted) <= accepted
        invariant subs == Saved(initial, Files()).subs && attempt == Saved(initial, Files()).attempt
        invariant Below(due, |subs|) && forall i, j :: 0 <= i < j < |due| ==> due[i] != due[j]
        invariant forall i :: 0 <= i < |subs| ==> subs[i] in accepted || i in due
        invariant forall i :: 0 <= i < |subs| && start[i] in old(accepted) ==> subs[i] == start[i]
        invariant attempt >= Saved(initial, old(Files())).attempt
        decreases settings.attempts - attempt
      {
        var failed := SendRound(w, subs, attempt, due);
        if failed == None {
          return None;
        }
        if failed.value == [] {
          break;
        }
        if !settings.capable || attempt >= settings.attempts - 1 {
          return None;
        }
        var bodies := w.repairs(attempt + 1, subs);
        if bodies == None {
          return None;
        }
        attempt := attempt + 1;
        MendKeeps(initial, subs, failed.value, bodies.value);
        subs := Mend(subs, failed.value, bodies.value);
        progress := Some(Progress(attempt, subs));
        due := failed.value;
      }
      finished := Some(subs);
      return finished;
    }
  }
}
