/** Planning semantic analysis: work is packed in order into as few units as the three bounds allow, and no unit
    crosses a batch. */
module Packing {

  /** A work item: `graph` is the bytes of its source and candidate metadata, reserved when it asks for an
      organization. */
  datatype Work = Work(id: string, idBytes: nat, organized: bool, graph: nat)

  datatype Batch = Batch(index: int, work: seq<Work>)

  /** The bounds, and the prompt's size in bytes for a run of work. */
  datatype Settings = Settings(prompt: seq<Work> -> nat, input: int, output: int, works: int)

  datatype Group = Group(batch: int, work: seq<Work>)

  datatype Unit = Unit(batch: int, begin: nat, end: nat, work: seq<Work>)

  datatype Plan = Planned(units: seq<Unit>) | NothingFrozen | TooMuchInput(index: nat) | TooMuchOutput(index: nat)

  function SumIds(works: seq<Work>): nat {
    if works == [] then 0 else 512 + 320 + 4 * 100 + 4 * (200 + 40) + works[0].idBytes + SumIds(works[1..])
  }

  function SumGraphs(works: seq<Work>): nat {
    if works == [] then 0 else works[0].graph + SumGraphs(works[1..])
  }

  predicate Requested(works: seq<Work>) {
    works != [] && forall w | w in works :: w.organized
  }

  /** `semantic_output_reservation` */
  function Reservation(works: seq<Work>): nat {
    64 + SumIds(works) + if Requested(works) then SumGraphs(works) else 0
  }

  predicate Over(s: Settings, works: seq<Work>) {
    s.prompt(works) > s.input || Reservation(works) > s.output || |works| > s.works
  }

  // ---------------------------------------------------------------- greedy packing

  /** What is still to be grouped, given the open group. */
  function Pack(s: Settings, open: seq<Work>, rest: seq<Work>): seq<seq<Work>>
    decreases |rest|
  {
    if rest == [] then (if open == [] then [] else [open])
    else if open != [] && Over(s, open + [rest[0]]) then [open] + Pack(s, [rest[0]], rest[1..])
    else Pack(s, open + [rest[0]], rest[1..])
  }

  function Tagged(batch: int, groups: seq<seq<Work>>): (r: seq<Group>)
    ensures |r| == |groups| && forall i :: 0 <= i < |r| ==> r[i] == Group(batch, groups[i])
  {
    if groups == [] then [] else [Group(batch, groups[0])] + Tagged(batch, groups[1..])
  }

  /** The groups of all batches, in order. */
  function Groups(s: Settings, batches: seq<Batch>): seq<Group> {
    if batches == [] then []
    else
      var last := batches[|batches| - 1];
      Groups(s, batches[..|batches| - 1]) + Tagged(last.index, Pack(s, [], last.work))
  }

  /** The units made of the groups, placed one after another. */
  function Units(groups: seq<Group>): seq<Unit> {
    if groups == [] then []
    else
      var last := groups[|groups| - 1];
      var begin := Size(groups[..|groups| - 1]);
      Units(groups[..|groups| - 1]) + [Unit(last.batch, begin, begin + |last.work|, last.work)]
  }

  function Size(groups: seq<Group>): nat {
    if groups == [] then 0 else Size(groups[..|groups| - 1]) + |groups[|groups| - 1].work|
  }

  function Flat(groups: seq<seq<Work>>): seq<Work> {
    if groups == [] then [] else groups[0] + Flat(groups[1..])
  }

  function Entries(batches: seq<Batch>): seq<Work> {
    if batches == [] then [] else Entries(batches[..|batches| - 1]) + batches[|batches| - 1].work
  }

  function Packed(groups: seq<Group>): seq<Work> {
    if groups == [] then [] else Packed(groups[..|groups| - 1]) + groups[|groups| - 1].work
  }

  lemma PackStep(s: Settings, open: seq<Work>, work: seq<Work>, i: nat)
    requires i < |work|
    ensures Pack(s, open, work[i..])
            == if open != [] && Over(s, open + [work[i]]) then [open] + Pack(s, [work[i]], work[i + 1..])
               else Pack(s, open + [work[i]], work[i + 1..])
  {
    assert work[i..][0] == work[i] && work[i..][1..] == work[i + 1..];
  }

  method PackBatch(s: Settings, batch: Batch) returns (groups: seq<Group>)
    ensures groups == Tagged(batch.index, Pack(s, [], batch.work))
  {
    groups := [];
    var current: seq<Work> := [];
    ghost var done: seq<seq<Work>> := [];
    assert batch.work[0..] == batch.work;
    for i := 0 to |batch.work|
      invariant groups == Tagged(batch.index, done)
      invariant done + Pack(s, current, batch.work[i..]) == Pack(s, [], batch.work)
    {
      var trial := current + [batch.work[i]];
      PackStep(s, current, batch.work, i);
      if current != [] && Over(s, trial) {
        TaggedSnoc(batch.index, done, current);
        groups := groups + [Group(batch.index, current)];
        Regroup(done, current, Pack(s, [batch.work[i]], batch.work[i + 1..]));
        done := done + [current];
        current := [batch.work[i]];
      } else {
        current := trial;
      }
    }
    if current != [] {
      TaggedSnoc(batch.index, done, current);
      groups := groups + [Group(batch.index, current)];
    }
  }

  lemma Regroup(done: seq<seq<Work>>, current: seq<Work>, rest: seq<seq<Work>>)
    ensures done + ([current] + rest) == (done + [current]) + rest
  {
  }

  lemma TaggedSnoc(batch: int, groups: seq<seq<Work>>, last: seq<Work>)
    ensures Tagged(batch, groups + [last]) == Tagged(batch, groups) + [Group(batch, last)]
  {
  }

  method PackAll(s: Settings, batches: seq<Batch>) returns (groups: seq<Group>)
    ensures groups == Groups(s, batches)
  {
    groups := [];
    for i := 0 to |batches|
      invariant groups == Groups(s, batches[..i])
    {
      var more := PackBatch(s, batches[i]);
      GroupsSnoc(s, batches, i);
      groups := groups + more;
    }
    assert batches[..|batches|] == batches;
  }

  lemma GroupsSnoc(s: Settings, batches: seq<Batch>, i: nat)
    requires i < |batches|
    ensures Groups(s, batches[..i + 1]) == Groups(s, batches[..i]) + Tagged(batches[i].index, Pack(s, [], batches[i].work))
  {
    assert batches[..i + 1][..i] == batches[..i];
  }

  lemma UnitsSnoc(groups: seq<Group>, i: nat)
    requires i < |groups|
    ensures Size(groups[..i + 1]) == Size(groups[..i]) + |groups[i].work|
    ensures Units(groups[..i + 1])
            == Units(groups[..i]) + [Unit(groups[i].batch, Size(groups[..i]), Size(groups[..i + 1]), groups[i].work)]
  {
    assert groups[..i + 1][..i] == groups[..i];
  }

  /** `_semantic_analysis_units`: pack every batch, then check each unit's own size. The three closing checks of
      the original cannot fail. */
  method AnalysisUnits(s: Settings, batches: seq<Batch>) returns (plan: Plan)
    ensures batches == [] <==> plan == NothingFrozen
    ensures plan.Planned? ==> plan.units == Units(Groups(s, batches)) && AdmittedUpTo(s, Groups(s, batches), |Groups(s, batches)|)
    ensures plan.TooMuchInput? ==>
              plan.index < |Groups(s, batches)| && s.prompt(Groups(s, batches)[plan.index].work) > s.input
    ensures plan.TooMuchOutput? ==>
              plan.index < |Groups(s, batches)| && Reservation(Groups(s, batches)[plan.index].work) > s.output
    ensures plan.TooMuchInput? || plan.TooMuchOutput? ==> AdmittedUpTo(s, Groups(s, batches), plan.index)
  {
    if batches == [] {
      return NothingFrozen;
    }
    var groups := PackAll(s, batches);
    var units := [];
    var offset := 0;
    for index := 0 to |groups|
      invariant units == Units(groups[..index]) && offset == Size(groups[..index])
      invariant AdmittedUpTo(s, groups, index)
    {
      var work := groups[index].work;
      if s.prompt(work) > s.input {
        return TooMuchInput(index);
      }
      if Reservation(work) > s.output {
        return TooMuchOutput(index);
      }
      UnitsSnoc(groups, index);
      units := units + [Unit(groups[index].batch, offset, offset + |work|, work)];
      offset := offset + |work|;
    }
    assert groups[..|groups|] == groups;
    return Planned(units);
  }

  predicate AdmittedUpTo(s: Settings, groups: seq<Group>, n: nat) {
    n <= |groups| && forall i :: 0 <= i < n ==> Admitted(s, groups[i].work)
  }

  /** The check made on a finished unit; the number of works is not checked again. */
  predicate Admitted(s: Settings, works: seq<Work>) {
    s.prompt(works) <= s.input && Reservation(works) <= s.output
  }

  // ---------------------------------------------------------------- in order, inside one batch, inside the bounds

  lemma FlatFirst(first: seq<Work>, rest: seq<seq<Work>>)
    ensures Flat([first] + rest) == first + Flat(rest)
  {
    assert ([first] + rest)[1..] == rest;
  }

  /** Packing keeps the work and its order. */
  lemma {:induction false} PackKeepsWork(s: Settings, open: seq<Work>, rest: seq<Work>)
    ensures Flat(Pack(s, open, rest)) == open + rest
    decreases |rest|
  {
    if rest == [] {
      if open != [] { FlatFirst(open, []); }
    } else {
      var next, more := rest[0], rest[1..];
      assert rest == [next] + more;
      if open != [] && Over(s, open + [next]) {
        PackKeepsWork(s, [next], more);
        FlatFirst(open, Pack(s, [next], more));
      } else {
        PackKeepsWork(s, open + [next], more);
      }
    }
  }

  /** No group is empty, and a group of several fits every bound. */
  lemma {:induction false} PackKeepsBounds(s: Settings, open: seq<Work>, rest: seq<Work>)
    requires |open| > 1 ==> !Over(s, open)
    ensures forall g | g in Pack(s, open, rest) :: g != [] && (|g| > 1 ==> !Over(s, g))
    decreases |rest|
  {
    if rest != [] {
      if open != [] && Over(s, open + [rest[0]]) {
        PackKeepsBounds(s, [rest[0]], rest[1..]);
      } else {
        PackKeepsBounds(s, open + [rest[0]], rest[1..]);
      }
    }
  }

  lemma {:induction false} WorkSplits(left: seq<Group>, right: seq<Group>)
    ensures Packed(left + right) == Packed(left) + Packed(right)
  {
    if right == [] {
      assert left + right == left;
    } else {
      var front := right[..|right| - 1];
      assert (left + right)[..|left + right| - 1] == left + front;
      WorkSplits(left, front);
    }
  }

  lemma {:induction false} TaggedWork(batch: int, groups: seq<seq<Work>>)
    ensures Packed(Tagged(batch, groups)) == Flat(groups)
  {
    if groups != [] {
      TaggedWork(batch, groups[1..]);
      var first := [Group(batch, groups[0])];
      WorkSplits(first, Tagged(batch, groups[1..]));
      assert first[..0] == [];
      assert Packed(first) == groups[0];
    }
  }

  /** The groups of a plan, put end to end, are the frozen work in order. */
  lemma {:induction false} GroupsKeepWork(s: Settings, batches: seq<Batch>)
    ensures Packed(Groups(s, batches)) == Entries(batches)
  {
    if batches != [] {
      var front, last := batches[..|batches| - 1], batches[|batches| - 1];
      GroupsKeepWork(s, front);
      TaggedKeepsWork(s, last);
      WorkSplits(Groups(s, front), Tagged(last.index, Pack(s, [], last.work)));
    }
  }

  lemma TaggedKeepsWork(s: Settings, batch: Batch)
    ensures Packed(Tagged(batch.index, Pack(s, [], batch.work))) == batch.work
  {
    PackKeepsWork(s, [], batch.work);
    TaggedWork(batch.index, Pack(s, [], batch.work));
  }

  /** A group holds work of one batch, and a group of several works fits every bound. */
  ghost predicate Proper(s: Settings, batches: seq<Batch>, g: Group) {
    && g.work != [] && (|g.work| > 1 ==> !Over(s, g.work))
    && exists b :: b in batches && b.index == g.batch && g.work in Pack(s, [], b.work)
  }

  lemma {:induction false} GroupsAreProper(s: Settings, batches: seq<Batch>)
    ensures forall g | g in Groups(s, batches) :: Proper(s, batches, g)
  {
    if batches != [] {
      var front, last := batches[..|batches| - 1], batches[|batches| - 1];
      GroupsAreProper(s, front);
      PackKeepsBounds(s, [], last.work);
      forall g | g in Groups(s, batches) ensures Proper(s, batches, g) {
        if g in Groups(s, front) {
          assert Proper(s, front, g);
          var b :| b in front && b.index == g.batch && g.work in Pack(s, [], b.work);
          assert b in batches;
        } else {
          assert g in Tagged(last.index, Pack(s, [], last.work));
          assert last in batches && g.work in Pack(s, [], last.work);
        }
      }
    }
  }

  lemma {:induction false} SizeCounts(groups: seq<Group>)
    ensures Size(groups) == |Packed(groups)|
  {
    if groups != [] { SizeCounts(groups[..|groups| - 1]); }
  }

  /** Unit `k` is the slice of the work between its ends, and starts where the unit before it stops. */
  ghost predicate Placed(units: seq<Unit>, work: seq<Work>, k: nat)
    requires k < |units|
  {
    && units[k].begin == (if k == 0 then 0 else units[k - 1].end)
    && units[k].begin <= units[k].end <= |work| && work[units[k].begin..units[k].end] == units[k].work
  }

  /** There is one unit per group, with its batch and its work, and the last unit ends where the work does. */
  lemma {:induction false} UnitPerGroup(groups: seq<Group>)
    ensures var units := Units(groups);
            && |units| == |groups|
            && (forall k :: 0 <= k < |units| ==> units[k].batch == groups[k].batch && units[k].work == groups[k].work)
            && (if units == [] then Packed(groups) == [] else units[|units| - 1].end == |Packed(groups)|)
  {
    if groups != [] {
      UnitPerGroup(groups[..|groups| - 1]);
      SizeCounts(groups[..|groups| - 1]);
    }
  }

  lemma PlacedStays(units: seq<Unit>, last: Unit, work: seq<Work>, more: seq<Work>, k: nat)
    requires k < |units| && Placed(units, work, k)
    ensures Placed(units + [last], work + more, k)
  {
    assert (work + more)[units[k].begin..units[k].end] == work[units[k].begin..units[k].end];
  }

  /** The units tile the work: no gap, no overlap. */
  lemma {:induction false} UnitsTile(groups: seq<Group>, k: nat)
    requires k < |Units(groups)|
    ensures Placed(Units(groups), Packed(groups), k)
    decreases |groups|
  {
    var front, last := groups[..|groups| - 1], groups[|groups| - 1];
    LastUnit(groups);
    if k < |Units(front)| {
      UnitsTile(front, k);
      PlacedStays(Units(front), UnitAfter(front, last), Packed(front), last.work, k);
    } else {
      LastIsPlaced(Units(front), UnitAfter(front, last), Packed(front));
    }
  }

  function UnitAfter(front: seq<Group>, last: Group): Unit {
    Unit(last.batch, |Packed(front)|, |Packed(front)| + |last.work|, last.work)
  }

  lemma LastUnit(groups: seq<Group>)
    requires groups != []
    ensures var front, last := groups[..|groups| - 1], groups[|groups| - 1];
            && Units(groups) == Units(front) + [UnitAfter(front, last)] && Packed(groups) == Packed(front) + last.work
            && |Packed(front)| == if Units(front) == [] then 0 else Units(front)[|Units(front)| - 1].end
  {
    UnitPerGroup(groups[..|groups| - 1]);
    SizeCounts(groups[..|groups| - 1]);
  }

  lemma LastIsPlaced(units: seq<Unit>, unit: Unit, work: seq<Work>)
    requires unit.begin == |work| == (if units == [] then 0 else units[|units| - 1].end)
    requires unit.end == |work| + |unit.work|
    ensures Placed(units + [unit], work + unit.work, |units|)
  {
  }

  /** Every unit holds at most the configured number of works exactly when that number is positive or there is no
      work: a first work is always taken, and a finished unit's length is not checked. */
  lemma WorkBoundHolds(s: Settings, batches: seq<Batch>)
    ensures (forall g | g in Groups(s, batches) :: |g.work| <= s.works) <==> s.works >= 1 || Entries(batches) == []
  {
    GroupsKeepWork(s, batches);
    GroupsAreProper(s, batches);
    var groups := Groups(s, batches);
    if groups != [] {
      var g := groups[|groups| - 1];
      assert g in groups && Proper(s, batches, g);
    }
    if s.works >= 1 {
      forall g | g in groups ensures |g.work| <= s.works {
        assert Proper(s, batches, g);
      }
    }
  }

  // ---------------------------------------------------------------- no plan is shorter

  /** Among the runs of this work, whatever fits still fits with work taken off either end. */
  ghost predicate ClosedOn(s: Settings, work: seq<Work>) {
    forall a, i, j, b :: 0 <= a <= i < j <= b <= |work| && !Over(s, work[a..b]) ==> !Over(s, work[i..j])
  }

  lemma ClosedAt(s: Settings, work: seq<Work>, a: nat, i: nat, j: nat, b: nat)
    requires ClosedOn(s, work) && a <= i < j <= b <= |work|
    ensures Over(s, work[i..j]) ==> Over(s, work[a..b])
  {
  }

  /** One step of packing, with the open group as a run of the work. */
  lemma PackRun(s: Settings, work: seq<Work>, a: nat, k: nat)
    requires a <= k < |work|
    ensures Pack(s, work[a..k], work[k..])
            == if a < k && Over(s, work[a..k + 1]) then [work[a..k]] + Pack(s, work[k..k + 1], work[k + 1..])
               else Pack(s, work[a..k + 1], work[k + 1..])
  {
    PackStep(s, work[a..k], work, k);
    assert work[a..k] + [work[k]] == work[a..k + 1] && [work[k]] == work[k..k + 1];
  }

  /** Which runs of the work fit, by their ends. */
  function Fitting(s: Settings, work: seq<Work>): (nat, nat) -> bool {
    (a: nat, b: nat) => a <= b <= |work| && !Over(s, work[a..b])
  }

  /** The groups still to come when the run from `a` to `k` of `n` works is open. */
  function Cost(fits: (nat, nat) -> bool, n: nat, a: nat, k: nat): nat
    requires a <= k <= n
    decreases n - k
  {
    if k == n then (if a == k then 0 else 1)
    else if a < k && !fits(a, k + 1) then 1 + Cost(fits, n, k, k + 1)
    else Cost(fits, n, a, k + 1)
  }

  lemma PackRunSize(s: Settings, work: seq<Work>, a: nat, k: nat)
    requires a <= k < |work|
    ensures |Pack(s, work[a..k], work[k..])|
            == if a < k && !Fitting(s, work)(a, k + 1) then 1 + |Pack(s, work[k..k + 1], work[k + 1..])|
               else |Pack(s, work[a..k + 1], work[k + 1..])|
  {
    PackRun(s, work, a, k);
  }

  lemma {:induction false} CostIsPack(s: Settings, work: seq<Work>, a: nat, k: nat)
    requires a <= k <= |work|
    ensures |Pack(s, work[a..k], work[k..])| == Cost(Fitting(s, work), |work|, a, k)
    decreases |work| - k
  {
    if k < |work| {
      PackRunSize(s, work, a, k);
      if a < k && !Fitting(s, work)(a, k + 1) {
        CostIsPack(s, work, k, k + 1);
      } else {
        CostIsPack(s, work, a, k + 1);
      }
    }
  }

  ghost predicate Shrinks(fits: (nat, nat) -> bool, n: nat) {
    forall a: nat, i: nat, j: nat, b: nat :: a <= i < j <= b <= n && fits(a, b) ==> fits(i, j)
  }

  /** A shorter open group never costs more groups, and saves at most one. */
  lemma {:induction false} ShorterIsNoWorse(fits: (nat, nat) -> bool, n: nat, a: nat, b: nat, k: nat)
    requires Shrinks(fits, n) && a <= b < k <= n
    ensures Cost(fits, n, b, k) <= Cost(fits, n, a, k) <= 1 + Cost(fits, n, b, k)
    decreases n - k
  {
    if k < n {
      if fits(a, k + 1) {
        ShorterIsNoWorse(fits, n, a, b, k + 1);
      } else if fits(b, k + 1) {
        ShorterIsNoWorse(fits, n, b, k, k + 1);
      }
    }
  }

  /** A run that fits is taken whole. */
  lemma {:induction false} FittingRunIsTaken(fits: (nat, nat) -> bool, n: nat, a: nat, k: nat, m: nat)
    requires Shrinks(fits, n) && a <= k <= m <= n && a < m && fits(a, m)
    ensures Cost(fits, n, a, k) == Cost(fits, n, a, m)
    decreases m - k
  {
    if k < m {
      assert fits(a, k + 1);
      FittingRunIsTaken(fits, n, a, k + 1, m);
    }
  }

  lemma OpenCostsOne(fits: (nat, nat) -> bool, n: nat, a: nat, k: nat)
    requires Shrinks(fits, n) && a < k <= n
    ensures Cost(fits, n, a, k) <= 1 + Cost(fits, n, k, k)
  {
    if k < n {
      ShorterIsNoWorse(fits, n, a, k, k + 1);
    }
  }

  lemma ClosedShrinks(s: Settings, work: seq<Work>)
    requires ClosedOn(s, work)
    ensures Shrinks(Fitting(s, work), |work|)
  {
    var fits := Fitting(s, work);
    forall a: nat, i: nat, j: nat, b: nat | a <= i < j <= b <= |work| && fits(a, b)
      ensures fits(i, j)
    {
      ClosedAt(s, work, a, i, j, b);
    }
  }

  /** No way of cutting the work from `k` on into fitting groups, in order, uses fewer groups. */
  lemma {:induction false} PackIsShortest(s: Settings, work: seq<Work>, k: nat, other: seq<seq<Work>>)
    requires Shrinks(Fitting(s, work), |work|) && k <= |work| && Flat(other) == work[k..]
    requires forall g | g in other :: g != [] && !Over(s, g)
    ensures Cost(Fitting(s, work), |work|, k, k) <= |other|
    decreases |other|
  {
    if other != [] {
      assert other[0] in other && forall g | g in other[1..] :: g in other;
      var m := FirstGroup(work, k, other);
      PackIsShortest(s, work, m, other[1..]);
      FittingRunIsTaken(Fitting(s, work), |work|, k, k, m);
      OpenCostsOne(Fitting(s, work), |work|, k, m);
    }
  }

  lemma FirstGroup(work: seq<Work>, k: nat, other: seq<seq<Work>>) returns (m: nat)
    requires k <= |work| && Flat(other) == work[k..] && other != [] && other[0] != []
    ensures k < m <= |work| && work[k..m] == other[0] && Flat(other[1..]) == work[m..]
  {
    m := k + |other[0]|;
  }

  lemma BatchIsShortest(s: Settings, work: seq<Work>, other: seq<seq<Work>>)
    requires ClosedOn(s, work) && Flat(other) == work && forall g | g in other :: g != [] && !Over(s, g)
    ensures |Pack(s, [], work)| <= |other|
  {
    assert work[0..] == work && work[0..0] == [];
    ClosedShrinks(s, work);
    PackIsShortest(s, work, 0, other);
    CostIsPack(s, work, 0, 0);
  }

  function Count(split: seq<seq<seq<Work>>>): nat {
    if split == [] then 0 else Count(split[..|split| - 1]) + |split[|split| - 1]|
  }

  /** An in-order split of every batch into groups within the bounds. */
  ghost predicate Splits(s: Settings, batches: seq<Batch>, split: seq<seq<seq<Work>>>) {
    && |split| == |batches|
    && forall i :: 0 <= i < |batches| ==>
         Flat(split[i]) == batches[i].work && forall g | g in split[i] :: g != [] && !Over(s, g)
  }

  ghost predicate AllClosed(s: Settings, batches: seq<Batch>) {
    forall i :: 0 <= i < |batches| ==> ClosedOn(s, batches[i].work)
  }

  /** The plan uses no more units than any other split that respects the batches and the bounds. */
  lemma {:induction false} PlanIsShortest(s: Settings, batches: seq<Batch>, split: seq<seq<seq<Work>>>)
    requires AllClosed(s, batches) && Splits(s, batches, split)
    ensures |Groups(s, batches)| <= Count(split)
  {
    if batches != [] {
      var n := |batches| - 1;
      PlanIsShortest(s, batches[..n], split[..n]);
      BatchIsShortest(s, batches[n].work, split[n]);
    }
  }

  /** When a fitting split exists, the plan's units pass the closing size checks. */
  lemma {:induction false} FittingSplitMeansPlanned(s: Settings, batches: seq<Batch>, split: seq<seq<seq<Work>>>)
    requires AllClosed(s, batches) && Splits(s, batches, split)
    ensures forall g | g in Groups(s, batches) :: Admitted(s, g.work)
  {
    if batches != [] {
      var n := |batches| - 1;
      FittingSplitMeansPlanned(s, batches[..n], split[..n]);
      forall g | g in Pack(s, [], batches[n].work) ensures Admitted(s, g) {
        GroupIsAdmitted(s, batches[n].work, split[n], g);
      }
    }
  }

  lemma GroupIsAdmitted(s: Settings, work: seq<Work>, split: seq<seq<Work>>, g: seq<Work>)
    requires ClosedOn(s, work) && Flat(split) == work && forall h | h in split :: !Over(s, h)
    requires g in Pack(s, [], work)
    ensures Admitted(s, g)
  {
    PackKeepsBounds(s, [], work);
    if |g| == 1 {
      var k := Place(s, work, g);
      assert work[0..] == work;
      EachFits(s, work, 0, split, k);
    }
  }

  lemma Place(s: Settings, work: seq<Work>, g: seq<Work>) returns (k: nat)
    requires g in Pack(s, [], work) && |g| == 1
    ensures k < |work| && work[k..k + 1] == g
  {
    PackKeepsWork(s, [], work);
    FlatMembers(Pack(s, [], work), g);
    k :| 0 <= k < |work| && work[k] == g[0];
  }

  lemma {:induction false} FlatMembers(groups: seq<seq<Work>>, g: seq<Work>)
    requires g in groups
    ensures forall i :: 0 <= i < |g| ==> g[i] in Flat(groups)
  {
    if g != groups[0] { FlatMembers(groups[1..], g); }
  }

  /** Every single work of a fitting split fits. */
  lemma {:induction false} EachFits(s: Settings, work: seq<Work>, a: nat, split: seq<seq<Work>>, k: nat)
    requires ClosedOn(s, work) && a <= k < |work| && Flat(split) == work[a..]
    requires forall g | g in split :: !Over(s, g)
    ensures !Over(s, work[k..k + 1])
    decreases |split|
  {
    var b := a + |split[0]|;
    assert split[0] in split && forall g | g in split[1..] :: g in split;
    assert work[a..b] == split[0] && work[b..] == Flat(split[1..]);
    if k < b {
      ClosedAt(s, work, a, k, k + 1, b);
    } else {
      EachFits(s, work, b, split[1..], k);
    }
  }

  // ---------------------------------------------------------------- work that is closed

  lemma FrontOfTail(works: seq<Work>, j: nat)
    requires 0 < j <= |works|
    ensures works[0..j][0] == works[0] && works[0..j][1..] == works[1..][0..j - 1]
  {
  }

  lemma InsideTail(works: seq<Work>, i: nat, j: nat)
    requires 0 < i <= j <= |works|
    ensures works[i..j] == works[1..][i - 1..j - 1]
  {
    var tail := works[1..];
    assert forall k :: i <= k < j ==> works[k] == tail[k - 1];
  }

  lemma {:induction false} SumsGrow(works: seq<Work>, i: nat, j: nat)
    requires i <= j <= |works|
    ensures SumIds(works[i..j]) <= SumIds(works) && SumGraphs(works[i..j]) <= SumGraphs(works)
    decreases |works|
  {
    if i == j {
    } else if i > 0 {
      InsideTail(works, i, j);
      SumsGrow(works[1..], i - 1, j - 1);
    } else {
      FrontOfTail(works, j);
      SumsGrow(works[1..], 0, j - 1);
    }
  }

  /** All of the work asks for an organization, or none of it does. */
  predicate Uniform(works: seq<Work>) {
    (forall i :: 0 <= i < |works| ==> works[i].organized) || (forall i :: 0 <= i < |works| ==> !works[i].organized)
  }

  /** Among the runs of this work, a part never has the larger prompt. */
  ghost predicate PromptGrows(s: Settings, work: seq<Work>) {
    forall a, i, j, b :: 0 <= a <= i < j <= b <= |work| ==> s.prompt(work[i..j]) <= s.prompt(work[a..b])
  }

  /** The reservation for uniform work never shrinks when work is added. */
  lemma UniformReservesMore(works: seq<Work>, i: nat, j: nat)
    requires i < j <= |works| && Uniform(works)
    ensures Reservation(works[i..j]) <= Reservation(works)
  {
    SumsGrow(works, i, j);
    assert works[i..j][0] == works[i];
    assert works[i] in works && works[i] in works[i..j];
  }

  lemma RunOfRun(work: seq<Work>, a: nat, i: nat, j: nat, b: nat)
    requires a <= i <= j <= b <= |work|
    ensures work[a..b][i - a..j - a] == work[i..j]
  {
    var run := work[a..b];
    assert forall k :: i <= k < j ==> work[k] == run[k - a];
  }

  lemma UniformWorkIsClosed(s: Settings, work: seq<Work>)
    requires Uniform(work) && PromptGrows(s, work)
    ensures ClosedOn(s, work)
  {
    forall a, i, j, b | 0 <= a <= i < j <= b <= |work| && !Over(s, work[a..b])
      ensures !Over(s, work[i..j])
    {
      RunOfRun(work, a, i, j, b);
      UniformReservesMore(work[a..b], i - a, j - a);
    }
  }

  /** Uniform work whose prompt grows with it is planned in as few units as any fitting split has, and refused only
      when no split fits. */
  lemma UniformPlanIsBest(s: Settings, batches: seq<Batch>, split: seq<seq<seq<Work>>>)
    requires forall i :: 0 <= i < |batches| ==> Uniform(batches[i].work) && PromptGrows(s, batches[i].work)
    requires Splits(s, batches, split)
    ensures |Groups(s, batches)| <= Count(split) && forall g | g in Groups(s, batches) :: Admitted(s, g.work)
  {
    forall i | 0 <= i < |batches| ensures ClosedOn(s, batches[i].work) {
      UniformWorkIsClosed(s, batches[i].work);
    }
    PlanIsShortest(s, batches, split);
    FittingSplitMeansPlanned(s, batches, split);
  }

  /** Whatever the work, a plan is refused exactly for a work that stands alone in its group and is over a bound. */
  lemma RefusedOnlyAlone(s: Settings, batches: seq<Batch>)
    ensures (forall g | g in Groups(s, batches) :: Admitted(s, g.work))
            <==> forall g | g in Groups(s, batches) && |g.work| == 1 :: Admitted(s, g.work)
  {
    GroupsAreProper(s, batches);
    forall g | g in Groups(s, batches) && |g.work| != 1 ensures Admitted(s, g.work) {
      assert Proper(s, batches, g);
    }
  }

  /** So no plan is refused when every work is within the input and output bounds on its own, mixed or not. */
  lemma AloneWithinIsPlanned(s: Settings, batches: seq<Batch>)
    requires forall b, w | b in batches && w in b.work :: Admitted(s, [w])
    ensures forall g | g in Groups(s, batches) :: Admitted(s, g.work)
  {
    GroupsAreProper(s, batches);
    forall g | g in Groups(s, batches) && |g.work| == 1 ensures Admitted(s, g.work) {
      assert Proper(s, batches, g);
      var b :| b in batches && b.index == g.batch && g.work in Pack(s, [], b.work);
      var k := Place(s, b.work, g.work);
      assert b.work[k] in b.work && g.work == [b.work[k]];
    }
    RefusedOnlyAlone(s, batches);
  }

  /** Mixed work can be refused although it fits: the graph part is reserved only when every item of a run asks for it.
      Here two large organized items and a plain one fit together, yet the plan splits off the first alone and then
      refuses it. */
  lemma MixedWorkIsRefused()
    ensures var big, plain := Work("big", 1, true, 10000), Work("plain", 1, false, 0);
            var s := Settings(works => 100, 1000, 7000, 20);
            && !Over(s, [big, big, plain])
            && Pack(s, [], [big, big, plain]) == [[big], [big, plain]] && !Admitted(s, [big])
  {
    var big, plain := Work("big", 1, true, 10000), Work("plain", 1, false, 0);
    var s := Settings(works => 100, 1000, 7000, 20);
    var all := [big, big, plain];
    MixedSizes();
    assert [] + [big] == [big] && [big] + [big] == [big, big] && [big] + [plain] == [big, plain];
    assert all[1..] == [big, plain] && [big, plain][1..] == [plain] && [plain][1..] == [];
    assert Pack(s, [big, plain], []) == [[big, plain]];
    assert Pack(s, [big], [plain]) == [[big, plain]];
    assert Pack(s, [big], [big, plain]) == [[big]] + Pack(s, [big], [plain]);
    assert Pack(s, [], all) == Pack(s, [big], [big, plain]);
  }

  lemma MixedSizes()
    ensures var big, plain := Work("big", 1, true, 10000), Work("plain", 1, false, 0);
            Reservation([big, big, plain]) == 6643 && Reservation([big, plain]) == 4450
            && Reservation([big]) == 12257 && Reservation([big, big]) == 24450
  {
    var big, plain := Work("big", 1, true, 10000), Work("plain", 1, false, 0);
    var all := [big, big, plain];
    assert all[1..] == [big, plain] && [big, plain][1..] == [plain] && [plain][1..] == [];
    assert [big, big][1..] == [big] && [big][1..] == [];
    assert plain in all && plain in [big, plain];
    assert SumIds([plain]) == 2193 && SumIds([big, plain]) == 4386 && SumIds([big]) == 2193;
  }
}
