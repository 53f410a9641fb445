/** Preparing pending questions on a bounded number of workers; a failure that is not the question's own stops
    new work from starting. */
module Preparation {

  /** How one item ends. */
  datatype End = Prepared | QuestionFailed | SharedFailed

  datatype Row = Row(item: nat, end: End)

  /** Items are numbered in order; those below `next` have been started. */
  datatype State = State(next: nat, active: set<nat>, rows: seq<Row>, stopped: bool)

  /** `fill`: start items while there are any, workers are free and nothing stopped the run. */
  function Fill(n: nat, workers: nat, s: State): State
    decreases n - s.next
  {
    if s.stopped || |s.active| >= workers || s.next >= n then s
    else Fill(n, workers, s.(next := s.next + 1, active := s.active + {s.next}))
  }

  /** The futures a wait returned are taken in turn. */
  function Take(s: State, done: seq<Row>): State {
    if done == [] then s
    else
      var t, row := Take(s, done[..|done| - 1]), done[|done| - 1];
      State(t.next, t.active - {row.item}, t.rows + [row], t.stopped || row.end == SharedFailed)
  }

  /** Items that were active, each once. */
  ghost predicate Finished(s: State, done: seq<Row>) {
    && (forall i :: 0 <= i < |done| ==> done[i].item in s.active)
    && forall i, j :: 0 <= i < j < |done| ==> done[i].item != done[j].item
  }

  function Round(n: nat, workers: nat, s: State, done: seq<Row>): State {
    Fill(n, workers, Take(s, done))
  }

  function Run(n: nat, workers: nat, rounds: seq<seq<Row>>): State {
    if rounds == [] then Fill(n, workers, State(0, {}, [], false))
    else Round(n, workers, Run(n, workers, rounds[..|rounds| - 1]), rounds[|rounds| - 1])
  }

  /** Each round reports what was then active. */
  ghost predicate Possible(n: nat, workers: nat, rounds: seq<seq<Row>>) {
    forall i :: 0 <= i < |rounds| ==> Finished(Run(n, workers, rounds[..i]), rounds[i])
  }

  // ---------------------------------------------------------------- invariant

  /** The started items are the active ones and those with a row, each in exactly one place; a run is stopped exactly
      by a failure that is not a question's own. */
  ghost predicate Inv(n: nat, workers: nat, s: State) {
    && s.next <= n && |s.active| <= workers
    && (forall a | a in s.active :: a < s.next)
    && (forall i :: 0 <= i < |s.rows| ==> s.rows[i].item < s.next && s.rows[i].item !in s.active)
    && (forall i, j :: 0 <= i < j < |s.rows| ==> s.rows[i].item != s.rows[j].item)
    && (forall k :: 0 <= k < s.next ==> k in s.active || HasRow(s.rows, k))
    && (s.stopped <==> exists i :: 0 <= i < |s.rows| && s.rows[i].end == SharedFailed)
  }

  predicate HasRow(rows: seq<Row>, item: nat) {
    exists i :: 0 <= i < |rows| && rows[i].item == item
  }

  lemma StartOne(n: nat, workers: nat, s: State)
    requires Inv(n, workers, s) && |s.active| < workers && s.next < n
    ensures Inv(n, workers, s.(next := s.next + 1, active := s.active + {s.next}))
  {
    assert s.next !in s.active;
  }

  lemma {:induction false} FillKeeps(n: nat, workers: nat, s: State)
    requires Inv(n, workers, s)
    ensures var t := Fill(n, workers, s);
            && Inv(n, workers, t) && t.rows == s.rows && t.stopped == s.stopped && s.active <= t.active
            && (t.stopped || |t.active| >= workers || t.next == n)
            && (s.stopped ==> t == s)
    decreases n - s.next
  {
    if !(s.stopped || |s.active| >= workers || s.next >= n) {
      StartOne(n, workers, s);
      FillKeeps(n, workers, s.(next := s.next + 1, active := s.active + {s.next}));
    }
  }

  lemma TakeOne(n: nat, workers: nat, s: State, row: Row)
    requires Inv(n, workers, s) && row.item in s.active
    ensures Inv(n, workers, State(s.next, s.active - {row.item}, s.rows + [row], s.stopped || row.end == SharedFailed))
  {
    var rows := s.rows + [row];
    assert rows[|s.rows|] == row;
    forall k | 0 <= k < s.next ensures k in s.active - {row.item} || HasRow(rows, k) {
      if k !in s.active {
        var i :| 0 <= i < |s.rows| && s.rows[i].item == k;
        assert rows[i].item == k;
      }
    }
    if s.stopped {
      var i :| 0 <= i < |s.rows| && s.rows[i].end == SharedFailed;
      assert rows[i].end == SharedFailed;
    }
  }

  lemma {:induction false} TakeFrees(s: State, done: seq<Row>)
    ensures Take(s, done).active == s.active - set i | 0 <= i < |done| :: done[i].item
    ensures Take(s, done).next == s.next && Take(s, done).rows == s.rows + done
    ensures s.stopped ==> Take(s, done).stopped
  {
    if done != [] {
      var m := |done| - 1;
      TakeFrees(s, done[..m]);
      assert (set i | 0 <= i < |done| :: done[i].item) == (set i | 0 <= i < m :: done[..m][i].item) + {done[m].item};
    }
  }

  lemma {:induction false} TakeKeeps(n: nat, workers: nat, s: State, done: seq<Row>)
    requires Inv(n, workers, s) && Finished(s, done)
    ensures Inv(n, workers, Take(s, done))
  {
    if done != [] {
      var m := |done| - 1;
      TakeKeeps(n, workers, s, done[..m]);
      TakeFrees(s, done[..m]);
      TakeOne(n, workers, Take(s, done[..m]), done[m]);
    }
  }

  lemma {:induction false} RunsKeepInv(n: nat, workers: nat, rounds: seq<seq<Row>>)
    requires Possible(n, workers, rounds)
    ensures Inv(n, workers, Run(n, workers, rounds))
    ensures var s := Run(n, workers, rounds); s.stopped || |s.active| >= workers || s.next == n
  {
    if rounds == [] {
      FillKeeps(n, workers, State(0, {}, [], false));
    } else {
      var front := rounds[..|rounds| - 1];
      forall i | 0 <= i < |front| ensures Finished(Run(n, workers, front[..i]), front[i]) {
        assert front[..i] == rounds[..i];
      }
      RunsKeepInv(n, workers, front);
      TakeKeeps(n, workers, Run(n, workers, front), rounds[|rounds| - 1]);
      FillKeeps(n, workers, Take(Run(n, workers, front), rounds[|rounds| - 1]));
    }
  }

  /** When nothing is active any more, either every item has exactly one row and no failure was shared, or a shared
      failure stopped the run; whatever had been started has its row in both cases. */
  lemma EndIsComplete(n: nat, workers: nat, rounds: seq<seq<Row>>)
    requires workers > 0 && Possible(n, workers, rounds) && Run(n, workers, rounds).active == {}
    ensures var s := Run(n, workers, rounds);
            && (forall k :: 0 <= k < s.next ==> HasRow(s.rows, k))
            && (forall i, j :: 0 <= i < j < |s.rows| ==> s.rows[i].item != s.rows[j].item)
            && (!s.stopped ==> s.next == n)
            && (s.stopped <==> exists i :: 0 <= i < |s.rows| && s.rows[i].end == SharedFailed)
  {
    RunsKeepInv(n, workers, rounds);
  }

  /** After a stop nothing new starts; what was started still gets its row. */
  lemma StopStartsNothing(n: nat, workers: nat, rounds: seq<seq<Row>>, done: seq<Row>)
    requires Possible(n, workers, rounds) && Finished(Run(n, workers, rounds), done)
    requires Take(Run(n, workers, rounds), done).stopped
    ensures var s, t := Run(n, workers, rounds), Round(n, workers, Run(n, workers, rounds), done);
            && t.stopped && t.next == s.next && t.rows == s.rows + done && t.active <= s.active
  {
    RunsKeepInv(n, workers, rounds);
    var s := Run(n, workers, rounds);
    TakeKeeps(n, workers, s, done);
    FillKeeps(n, workers, Take(s, done));
    TakeFrees(s, done);
  }

  /** The loop of `prepare_pending`, as far as these waits go. */
  class Pool {
    const items: nat
    const workers: nat
    var next: nat
    var active: set<nat>
    var rows: seq<Row>
    var stopped: bool

    function Now(): State
      reads this
    {
      State(next, active, rows, stopped)
    }

    constructor (items: nat, workers: nat)
      ensures Now() == State(0, {}, [], false) && this.items == items && this.workers == workers
    {
      this.items, this.workers := items, workers;
      next, active, rows, stopped := 0, {}, [], false;
    }

    method FillPool()
      modifies this
      ensures Now() == Fill(items, workers, old(Now()))
    {
      while !stopped && |active| < workers && next < items
        invariant Fill(items, workers, Now()) == Fill(items, workers, old(Now()))
        decreases items - next
      {
        active := active + {next};
        next := next + 1;
      }
    }

    method TakeDone(done: seq<Row>)
      modifies this
      ensures Now() == Take(old(Now()), done)
    {
      for i := 0 to |done|
        invariant Now() == Take(old(Now()), done[..i])
      {
        assert done[..i + 1][..i] == done[..i];
        active := active - {done[i].item};
        rows := rows + [done[i]];
        if done[i].end == SharedFailed {
          stopped := true;
        }
      }
      assert done[..|done|] == done;
    }

    method PreparePending(waits: seq<seq<Row>>)
      requires Now() == State(0, {}, [], false)
      modifies this
      ensures Now() == Run(items, workers, waits)
    {
      FillPool();
      for i := 0 to |waits|
        invariant Now() == Run(items, workers, waits[..i])
      {
        assert waits[..i + 1][..i] == waits[..i];
        TakeDone(waits[i]);
        FillPool();
      }
      assert waits[..|waits|] == waits;
    }
  }
}
