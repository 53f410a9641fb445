/** A stratified selection of one hundred questions: each category gets its share by largest remainder, and
    within a category the ranking by digest decides. */
module Selection {
  import opened Ordering

  datatype Question = Question(id: string, kind: string)

  datatype Row = Row(ordinal: nat, id: string, kind: string)

  datatype Outcome = Selected(rows: seq<Row>) | AssertionFails

  type Digest = (string, string) -> string

  const SIZE := 100

  // ---------------------------------------------------------------- sorting

  function Insert<T>(x: T, ys: seq<T>, before: (T, T) -> bool): (r: seq<T>)
    ensures multiset(r) == multiset(ys) + multiset{x}
  {
    if ys == [] || before(x, ys[0]) then [x] + ys
    else
      assert ys == [ys[0]] + ys[1..];
      [ys[0]] + Insert(x, ys[1..], before)
  }

  /** A stable sort. */
  function SortBy<T>(xs: seq<T>, before: (T, T) -> bool): (r: seq<T>)
    ensures multiset(r) == multiset(xs)
  {
    if xs == [] then []
    else
      assert xs == [xs[0]] + xs[1..];
      Insert(xs[0], SortBy(xs[1..], before), before)
  }

  ghost predicate Order<T(!new)>(before: (T, T) -> bool) {
    && (forall a, b :: before(a, b) || before(b, a))
    && forall a, b, c :: before(a, b) && before(b, c) ==> before(a, c)
  }

  ghost predicate InOrder<T(!new)>(xs: seq<T>, before: (T, T) -> bool) {
    forall i, j :: 0 <= i < j < |xs| ==> before(xs[i], xs[j])
  }

  lemma {:induction false} InsertOrders<T(!new)>(x: T, ys: seq<T>, before: (T, T) -> bool)
    requires Order(before) && InOrder(ys, before)
    ensures InOrder(Insert(x, ys, before), before)
  {
    if ys != [] && !before(x, ys[0]) {
      InsertOrders(x, ys[1..], before);
      var rest := Insert(x, ys[1..], before);
      forall j | 0 <= j < |rest| ensures before(ys[0], rest[j]) {
        assert rest[j] in multiset(rest);
        if rest[j] != x { assert rest[j] in ys[1..]; }
      }
    }
  }

  lemma {:induction false} SortByOrders<T(!new)>(xs: seq<T>, before: (T, T) -> bool)
    requires Order(before)
    ensures InOrder(SortBy(xs, before), before)
  {
    if xs != [] {
      SortByOrders(xs[1..], before);
      InsertOrders(xs[0], SortBy(xs[1..], before), before);
    }
  }

  lemma {:induction false} DistinctByCount<T>(xs: seq<T>)
    requires Distinct(xs)
    ensures forall x :: multiset(xs)[x] == if x in xs then 1 else 0
  {
    if xs != [] {
      assert xs == [xs[0]] + xs[1..];
      DistinctByCount(xs[1..]);
    }
  }

  lemma SameMembersDistinct<T>(xs: seq<T>, ys: seq<T>)
    requires multiset(xs) == multiset(ys) && Distinct(xs)
    ensures Distinct(ys) && |xs| == |ys| && forall x :: x in xs <==> x in ys
  {
    DistinctByCount(xs);
    forall x ensures x in xs <==> x in ys {
      assert x in xs <==> x in multiset(xs);
      assert x in ys <==> x in multiset(ys);
    }
    forall i, j | 0 <= i < j < |ys| ensures ys[i] != ys[j] {
      assert multiset(ys)[ys[j]] <= 1;
      CountedTwice(ys, i, j);
    }
    assert |multiset(xs)| == |xs| && |multiset(ys)| == |ys|;
  }

  lemma CountedTwice<T>(ys: seq<T>, i: nat, j: nat)
    requires i < j < |ys|
    ensures ys[i] == ys[j] ==> multiset(ys)[ys[j]] >= 2
  {
    assert ys == ys[..j] + [ys[j]] + ys[j + 1..];
    assert ys[..j][i] == ys[i];
    assert ys[i] in multiset(ys[..j]);
  }

  // ---------------------------------------------------------------- division

  /** `a // n`, by repeated subtraction. */
  function Quotient(a: nat, n: nat): nat
    requires n > 0
  {
    if a < n then 0 else 1 + Quotient(a - n, n)
  }

  function Residue(a: nat, n: nat): (r: nat)
    requires n > 0
    ensures r < n
  {
    if a < n then a else Residue(a - n, n)
  }

  lemma {:induction false} Division(a: nat, n: nat)
    requires n > 0
    ensures a == n * Quotient(a, n) + Residue(a, n)
  {
    if a >= n {
      Division(a - n, n);
      assert n * (1 + Quotient(a - n, n)) == n + n * Quotient(a - n, n);
    } else {
      assert n * 0 == 0;
    }
  }

  lemma DivisionIs(a: nat, n: nat)
    requires n > 0
    ensures Quotient(a, n) == a / n && Residue(a, n) == a % n
  {
    Division(a, n);
    Uniquely(n, Quotient(a, n), Residue(a, n), a / n, a % n);
  }

  lemma Uniquely(n: nat, q: nat, r: nat, p: nat, t: nat)
    requires n > 0 && r < n && t < n && n * q + r == n * p + t
    ensures q == p && r == t
  {
    Distribute(n, q, 1);
    Distribute(n, p, 1);
    SmallerFactor(n, q, p + 1);
    SmallerFactor(n, p, q + 1);
  }

  lemma SmallerFactor(n: int, a: int, b: int)
    requires n > 0
    ensures n * a < n * b ==> a < b
    ensures n * a <= n * b ==> a <= b
  {
  }

  lemma Distribute(n: int, a: int, b: int)
    ensures n * (a + b) == n * a + n * b && n * (a - b) == n * a - n * b
  {
  }

  // ---------------------------------------------------------------- shares

  function Kinds(questions: seq<Question>): set<string> {
    set q | q in questions :: q.kind
  }

  /** The question ids of one category, in dataset order. */
  function IdsOf(questions: seq<Question>, kind: string): seq<string> {
    if questions == [] then []
    else (if questions[0].kind == kind then [questions[0].id] else []) + IdsOf(questions[1..], kind)
  }

  function Count(questions: seq<Question>, kind: string): nat {
    |IdsOf(questions, kind)|
  }

  function Floor(questions: seq<Question>, kind: string): nat
    requires questions != []
  {
    Quotient(Count(questions, kind) * SIZE, |questions|)
  }

  function Rest(questions: seq<Question>, kind: string): nat
    requires questions != []
  {
    Residue(Count(questions, kind) * SIZE, |questions|)
  }

  /** `(-(counts[k] * 100 % len(questions)), k)` is not after that of `b`. */
  predicate Sooner(questions: seq<Question>, a: string, b: string)
    requires questions != []
  {
    Rest(questions, a) > Rest(questions, b) || (Rest(questions, a) == Rest(questions, b) && Leq(a, b))
  }

  /** The categories, largest remainder first. */
  function Queue(questions: seq<Question>): seq<string>
    requires questions != []
  {
    SortBy(Sorted(Kinds(questions)), (a, b) => Sooner(questions, a, b))
  }

  function SumFloors(questions: seq<Question>, kinds: seq<string>): nat
    requires questions != []
  {
    if kinds == [] then 0 else SumFloors(questions, kinds[..|kinds| - 1]) + Floor(questions, kinds[|kinds| - 1])
  }

  function SumRests(questions: seq<Question>, kinds: seq<string>): nat
    requires questions != []
  {
    if kinds == [] then 0 else SumRests(questions, kinds[..|kinds| - 1]) + Rest(questions, kinds[|kinds| - 1])
  }

  function SumCounts(questions: seq<Question>, kinds: seq<string>): nat {
    if kinds == [] then 0 else SumCounts(questions, kinds[..|kinds| - 1]) + Count(questions, kinds[|kinds| - 1])
  }

  /** What the floors leave to be given out. */
  function Left(questions: seq<Question>): int
    requires questions != []
  {
    SIZE - SumFloors(questions, Queue(questions))
  }

  /** `xs[:n]` */
  function Take<T>(xs: seq<T>, n: nat): seq<T> {
    if n <= |xs| then xs[..n] else xs
  }

  /** The categories that get one more: the first of the queue, as many as are left. */
  predicate Extra(questions: seq<Question>, kind: string)
    requires questions != []
  {
    Left(questions) > 0 && kind in Take(Queue(questions), Left(questions))
  }

  function Share(questions: seq<Question>, kind: string): nat
    requires questions != []
  {
    Floor(questions, kind) + if Extra(questions, kind) then 1 else 0
  }

  function SumShares(questions: seq<Question>, kinds: seq<string>): nat
    requires questions != []
  {
    if kinds == [] then 0 else SumShares(questions, kinds[..|kinds| - 1]) + Share(questions, kinds[|kinds| - 1])
  }

  lemma SoonerIsOrder(questions: seq<Question>)
    requires questions != []
    ensures Order((a, b) => Sooner(questions, a, b))
  {
    forall a, b ensures Sooner(questions, a, b) || Sooner(questions, b, a) {
      LeqTotal(a, b);
    }
    forall a, b, c | Sooner(questions, a, b) && Sooner(questions, b, c) ensures Sooner(questions, a, c) {
      if Leq(a, b) && Leq(b, c) { LeqTransitive(a, b, c); }
    }
  }

  lemma QueueLists(questions: seq<Question>)
    requires questions != []
    ensures Lists(Queue(questions), Kinds(questions))
  {
    SameMembersDistinct(Sorted(Kinds(questions)), Queue(questions));
  }

  lemma QueueInOrder(questions: seq<Question>, i: nat, j: nat)
    requires questions != [] && i < j < |Queue(questions)|
    ensures Sooner(questions, Queue(questions)[i], Queue(questions)[j])
  {
    SoonerIsOrder(questions);
    SortByOrders(Sorted(Kinds(questions)), (a, b) => Sooner(questions, a, b));
  }

  /** The questions whose category is among `kinds`. */
  function Among(questions: seq<Question>, kinds: set<string>): nat {
    if questions == [] then 0 else (if questions[0].kind in kinds then 1 else 0) + Among(questions[1..], kinds)
  }

  lemma {:induction false} AmongOne(questions: seq<Question>, kinds: set<string>, kind: string)
    requires kind !in kinds
    ensures Among(questions, kinds + {kind}) == Among(questions, kinds) + Count(questions, kind)
  {
    if questions != [] { AmongOne(questions[1..], kinds, kind); }
  }

  lemma {:induction false} AmongAll(questions: seq<Question>, kinds: set<string>)
    ensures (forall q | q in questions :: q.kind in kinds) ==> Among(questions, kinds) == |questions|
    ensures kinds == {} ==> Among(questions, kinds) == 0
  {
    if questions != [] {
      AmongAll(questions[1..], kinds);
      assert questions[0] in questions && forall q | q in questions[1..] :: q in questions;
    }
  }

  lemma {:induction false} CountsAdd(questions: seq<Question>, kinds: seq<string>)
    requires Distinct(kinds)
    ensures SumCounts(questions, kinds) == Among(questions, (set k | k in kinds))
  {
    if kinds == [] {
      AmongAll(questions, {});
      assert (set k | k in kinds) == {};
    } else {
      var front, last := kinds[..|kinds| - 1], kinds[|kinds| - 1];
      CountsAdd(questions, front);
      AmongOne(questions, (set k | k in front), last);
      assert (set k | k in kinds) == (set k | k in front) + {last};
    }
  }

  lemma {:induction false} SumsDivide(questions: seq<Question>, kinds: seq<string>)
    requires questions != []
    ensures SIZE * SumCounts(questions, kinds) == |questions| * SumFloors(questions, kinds) + SumRests(questions, kinds)
  {
    if kinds != [] {
      var front, last := kinds[..|kinds| - 1], kinds[|kinds| - 1];
      SumsDivide(questions, front);
      Division(Count(questions, last) * SIZE, |questions|);
      Distribute(|questions|, SumFloors(questions, front), Floor(questions, last));
    }
  }

  /** All categories together have every question. */
  lemma QueueCounts(questions: seq<Question>)
    requires questions != []
    ensures SumCounts(questions, Queue(questions)) == |questions|
  {
    QueueLists(questions);
    CountsAdd(questions, Queue(questions));
    assert (set k | k in Queue(questions)) == Kinds(questions);
    AmongAll(questions, Kinds(questions));
  }

  /** The remainders add up to as many whole questions as the floors leave over. */
  lemma LeftIsWhole(questions: seq<Question>)
    requires questions != []
    ensures |questions| * Left(questions) == SumRests(questions, Queue(questions)) && Left(questions) >= 0
  {
    var queue := Queue(questions);
    QueueCounts(questions);
    SumsDivide(questions, queue);
    LeftOver(|questions|, SumCounts(questions, queue), SumFloors(questions, queue), SumRests(questions, queue), Left(questions));
  }

  lemma LeftOver(n: nat, counts: nat, floors: nat, rests: nat, left: int)
    requires n > 0 && counts == n && SIZE * counts == n * floors + rests && left == SIZE - floors
    ensures n * left == rests && left >= 0
  {
    Distribute(n, SIZE, floors);
    SmallerFactor(n, 0, left);
  }

  /** A list whose entries from `m` on have no remainder sums to less than `m` whole questions. */
  lemma {:induction false} RestsBounded(questions: seq<Question>, kinds: seq<string>, m: nat)
    requires questions != [] && m <= |kinds|
    requires forall i :: m <= i < |kinds| ==> Rest(questions, kinds[i]) == 0
    ensures SumRests(questions, kinds) <= m * (|questions| - 1)
    decreases |kinds|
  {
    if kinds != [] {
      var k := |kinds| - 1;
      if m == |kinds| {
        RestsBounded(questions, kinds[..k], k);
        OneRest(questions, kinds[k], k);
      } else {
        RestsBounded(questions, kinds[..k], m);
      }
    }
  }

  lemma OneRest(questions: seq<Question>, kind: string, k: nat)
    requires questions != []
    ensures k * (|questions| - 1) + Rest(questions, kind) <= (k + 1) * (|questions| - 1)
  {
    assert (k + 1) * (|questions| - 1) == k * (|questions| - 1) + (|questions| - 1);
  }

  lemma LeftBound(questions: seq<Question>, kinds: seq<string>, left: int)
    requires questions != [] && |questions| * left == SumRests(questions, kinds)
    ensures left <= |kinds|
  {
    FewRests(questions, kinds, left, |kinds|);
  }

  /** The floors leave at most one for each category. */
  lemma EnoughCategories(questions: seq<Question>)
    requires questions != []
    ensures 0 <= Left(questions) <= |Queue(questions)|
  {
    LeftIsWhole(questions);
    LeftBound(questions, Queue(questions), Left(questions));
  }

  /** Only categories with a remainder get one more. */
  lemma FewRests(questions: seq<Question>, kinds: seq<string>, left: int, i: nat)
    requires questions != [] && |questions| * left == SumRests(questions, kinds) && i <= |kinds|
    requires forall j :: i <= j < |kinds| ==> Rest(questions, kinds[j]) == 0
    ensures left <= i
  {
    RestsBounded(questions, kinds, i);
    AtMost(|questions|, left, SumRests(questions, kinds), i);
  }

  lemma EntryHasRest(questions: seq<Question>, i: nat)
    requires questions != [] && i < |Queue(questions)| && i < Left(questions)
    ensures Rest(questions, Queue(questions)[i]) > 0
  {
    var queue := Queue(questions);
    if Rest(questions, queue[i]) == 0 {
      forall j | i <= j < |queue| ensures Rest(questions, queue[j]) == 0 {
        if i < j { QueueInOrder(questions, i, j); }
      }
      LeftIsWhole(questions);
      FewRests(questions, queue, Left(questions), i);
    }
  }

  lemma AtMost(n: int, m: int, rests: int, i: int)
    requires n > 0 && 0 <= i && n * m == rests && rests <= i * (n - 1)
    ensures m <= i
  {
    TooFew(n, m, i);
  }

  lemma TooFew(n: int, m: int, i: int)
    requires n > 0 && 0 <= i && n * m <= i * (n - 1)
    ensures m <= i
  {
    assert i * (n - 1) == n * i - i;
    SmallerFactor(n, m, i);
  }

  lemma ExtraAt(questions: seq<Question>, i: nat)
    requires questions != [] && i < |Queue(questions)|
    ensures Extra(questions, Queue(questions)[i]) <==> i < Left(questions)
  {
    QueueLists(questions);
    EnoughCategories(questions);
    InTake(Queue(questions), Left(questions), i);
  }

  lemma SumsStep(questions: seq<Question>, kinds: seq<string>, j: nat)
    requires questions != [] && j < |kinds|
    ensures SumShares(questions, kinds[..j + 1]) == SumShares(questions, kinds[..j]) + Share(questions, kinds[j])
    ensures SumFloors(questions, kinds[..j + 1]) == SumFloors(questions, kinds[..j]) + Floor(questions, kinds[j])
  {
    assert kinds[..j + 1][..j] == kinds[..j];
  }

  /** These kinds get their floors, the first `left` of them one more. */
  ghost predicate ExtrasFirst(questions: seq<Question>, kinds: seq<string>, left: int)
    requires questions != []
  {
    forall i :: 0 <= i < |kinds| ==> Share(questions, kinds[i]) == Floor(questions, kinds[i]) + if i < left then 1 else 0
  }

  lemma {:induction false} SharesAdd(questions: seq<Question>, kinds: seq<string>, left: nat, j: nat)
    requires questions != [] && ExtrasFirst(questions, kinds, left) && j <= |kinds|
    ensures SumShares(questions, kinds[..j]) == SumFloors(questions, kinds[..j]) + if j <= left then j else left
  {
    if j > 0 {
      SharesAdd(questions, kinds, left, j - 1);
      SumsStep(questions, kinds, j - 1);
    }
  }

  lemma QueueGetsExtras(questions: seq<Question>)
    requires questions != []
    ensures ExtrasFirst(questions, Queue(questions), Left(questions))
  {
    forall i | 0 <= i < |Queue(questions)|
      ensures Share(questions, Queue(questions)[i]) == Floor(questions, Queue(questions)[i]) + if i < Left(questions) then 1 else 0
    {
      ExtraAt(questions, i);
    }
  }

  lemma InTake<T>(xs: seq<T>, n: nat, i: nat)
    requires Distinct(xs) && i < |xs|
    ensures xs[i] in Take(xs, n) <==> i < n
  {
    if i < n { assert Take(xs, n)[i] == xs[i]; }
  }

  /** The shares add up to exactly one hundred. */
  lemma SharesAreHundred(questions: seq<Question>)
    requires questions != []
    ensures SumShares(questions, Queue(questions)) == SIZE
  {
    EnoughCategories(questions);
    QueueGetsExtras(questions);
    SharesAdd(questions, Queue(questions), Left(questions), |Queue(questions)|);
    assert Queue(questions)[..|Queue(questions)|] == Queue(questions);
  }

  /** The share of `c` among `n` is the exact quota rounded down or up, the quota itself when that is whole, and
      from one hundred questions on not above `c`. */
  predicate Fair(n: nat, c: nat, rest: nat, share: nat) {
    && n * (share - 1) < c * SIZE < n * (share + 1)
    && (rest == 0 ==> n * share == c * SIZE)
    && (n >= SIZE ==> share <= c)
  }

  lemma SharesAreFair(questions: seq<Question>, kind: string)
    requires questions != [] && kind in Kinds(questions)
    ensures Fair(|questions|, Count(questions, kind), Rest(questions, kind), Share(questions, kind))
  {
    ShareRounds(questions, kind);
    Division(Count(questions, kind) * SIZE, |questions|);
    RoundedIsFair(|questions|, Count(questions, kind), Floor(questions, kind), Rest(questions, kind), Share(questions, kind));
  }

  /** A share is its floor, or one more where there is a remainder. */
  lemma ShareRounds(questions: seq<Question>, kind: string)
    requires questions != [] && kind in Kinds(questions)
    ensures Share(questions, kind) == Floor(questions, kind)
            || (Share(questions, kind) == Floor(questions, kind) + 1 && Rest(questions, kind) > 0)
  {
    QueueLists(questions);
    assert kind in Queue(questions);
    var i :| 0 <= i < |Queue(questions)| && Queue(questions)[i] == kind;
    ExtraAt(questions, i);
    if Extra(questions, kind) { EntryHasRest(questions, i); }
  }

  lemma RoundedIsFair(n: nat, c: nat, floor: nat, rest: nat, share: nat)
    requires n > 0 && c * SIZE == n * floor + rest && rest < n
    requires share == floor || (share == floor + 1 && rest > 0)
    ensures Fair(n, c, rest, share)
  {
    Distribute(n, floor, 1);
    Distribute(n, floor, 2);
    if share == floor + 1 {
      assert share - 1 == floor && share + 1 == floor + 2;
    }
    if n >= SIZE {
      AtLeastTimes(n, c);
      SmallerFactor(n, floor, c);
    }
  }

  lemma AtLeastTimes(n: nat, c: nat)
    requires n >= SIZE
    ensures c * SIZE <= n * c
  {
  }

  /** A larger category never gets less; nor does the first in name order of two equal ones. */
  lemma LargerGetsMore(questions: seq<Question>, more: string, less: string)
    requires questions != [] && more in Kinds(questions) && less in Kinds(questions)
    requires Count(questions, more) > Count(questions, less)
             || (Count(questions, more) == Count(questions, less) && Leq(more, less))
    ensures Share(questions, more) >= Share(questions, less)
  {
    var n, queue := |questions|, Queue(questions);
    QueueLists(questions);
    assert more in queue && less in queue;
    var i :| 0 <= i < |queue| && queue[i] == more;
    var j :| 0 <= j < |queue| && queue[j] == less;
    ExtraAt(questions, i);
    ExtraAt(questions, j);
    FloorGrows(n, Count(questions, less) * SIZE, Count(questions, more) * SIZE);
    if Floor(questions, more) == Floor(questions, less) && i > j {
      QueueInOrder(questions, j, i);
      if Count(questions, more) == Count(questions, less) { LeqAntisymmetric(more, less); }
    }
  }

  lemma FloorGrows(n: nat, a: nat, b: nat)
    requires n > 0 && a <= b
    ensures Quotient(a, n) <= Quotient(b, n)
    ensures Quotient(a, n) == Quotient(b, n) ==> Residue(b, n) - Residue(a, n) == b - a
  {
    Division(a, n);
    Division(b, n);
    Distribute(n, Quotient(b, n), 1);
    SmallerFactor(n, Quotient(a, n), Quotient(b, n) + 1);
  }

  // ---------------------------------------------------------------- ranking and choosing

  /** The ids of a category, lowest digest first. */
  function Ranked(questions: seq<Question>, digest: Digest, kind: string): seq<string> {
    SortBy(IdsOf(questions, kind), (a, b) => Leq(digest(kind, a), digest(kind, b)))
  }

  function ChosenOf(questions: seq<Question>, digest: Digest, kind: string): seq<string>
    requires questions != []
  {
    Take(Ranked(questions, digest, kind), Share(questions, kind))
  }

  /** The ids chosen from the listed categories. */
  function ChosenFrom(questions: seq<Question>, digest: Digest, kinds: seq<string>): seq<string>
    requires questions != []
  {
    if kinds == [] then []
    else ChosenFrom(questions, digest, kinds[..|kinds| - 1]) + ChosenOf(questions, digest, kinds[|kinds| - 1])
  }

  function Rows(questions: seq<Question>, chosen: set<string>): seq<Row> {
    if questions == [] then []
    else
      var last := questions[|questions| - 1];
      Rows(questions[..|questions| - 1], chosen)
      + if last.id in chosen then [Row(|questions|, last.id, last.kind)] else []
  }

  ghost predicate DistinctIds(questions: seq<Question>) {
    forall i, j :: 0 <= i < j < |questions| ==> questions[i].id != questions[j].id
  }

  function SetOf(ids: seq<string>): set<string> {
    set id | id in ids
  }

  /** The chosen ids of all categories. */
  function Chosen(questions: seq<Question>, digest: Digest): set<string>
    requires questions != []
  {
    SetOf(ChosenFrom(questions, digest, Queue(questions)))
  }

  /** `selection` */
  method Select(questions: seq<Question>, digest: Digest) returns (r: Outcome)
    ensures r.Selected? ==>
              questions != [] && r.rows == Rows(questions, Chosen(questions, digest)) && |r.rows| == SIZE <= |questions|
    ensures DistinctIds(questions) && |questions| >= SIZE ==> r.Selected?
  {
    if questions == [] {
      return AssertionFails;
    }
    var allocation := Allocate(questions);
    var chosen := Choose(questions, digest, allocation);
    var rows := ListRows(questions, chosen);
    RowsAtMost(questions, chosen);
    if DistinctIds(questions) && |questions| >= SIZE {
      AllRowsFound(questions, digest);
    }
    if |rows| == |chosen| == SIZE {
      return Selected(rows);
    }
    return AssertionFails;
  }

  ghost predicate HasShares(questions: seq<Question>, allocation: map<string, nat>)
    requires questions != []
  {
    forall j :: 0 <= j < |Queue(questions)| ==>
      Queue(questions)[j] in allocation && allocation[Queue(questions)[j]] == Share(questions, Queue(questions)[j])
  }

  /** The allocation while the extras are given out to the first `i` of the queue. */
  ghost predicate Given(questions: seq<Question>, queue: seq<string>, allocation: map<string, nat>, n: nat, i: nat)
    requires questions != [] && n <= |queue|
  {
    forall j :: 0 <= j < n ==>
      queue[j] in allocation && allocation[queue[j]] == Floor(questions, queue[j]) + if j < i then 1 else 0
  }

  lemma FloorsStep(questions: seq<Question>, kinds: seq<string>, j: nat)
    requires questions != [] && j < |kinds|
    ensures SumFloors(questions, kinds[..j + 1]) == SumFloors(questions, kinds[..j]) + Floor(questions, kinds[j])
  {
    SumsStep(questions, kinds, j);
  }

  method FloorOf(questions: seq<Question>, kind: string) returns (floor: nat)
    requires questions != []
    ensures floor == Floor(questions, kind)
  {
    DivisionIs(Count(questions, kind) * SIZE, |questions|);
    floor := Count(questions, kind) * SIZE / |questions|;
  }

  lemma GivenStep(questions: seq<Question>, queue: seq<string>, allocation: map<string, nat>, i: nat)
    requires questions != [] && Distinct(queue) && i < |queue| && Given(questions, queue, allocation, i, 0)
    ensures Given(questions, queue, allocation[queue[i] := Floor(questions, queue[i])], i + 1, 0)
  {
  }

  method Floors(questions: seq<Question>, queue: seq<string>) returns (allocation: map<string, nat>, remainder: int)
    requires questions != [] && Distinct(queue)
    ensures remainder == SIZE - SumFloors(questions, queue) && Given(questions, queue, allocation, |queue|, 0)
  {
    allocation, remainder := map[], SIZE;
    for i := 0 to |queue|
      invariant Given(questions, queue, allocation, i, 0)
      invariant remainder == SIZE - SumFloors(questions, queue[..i])
    {
      FloorsStep(questions, queue, i);
      GivenStep(questions, queue, allocation, i);
      var floor := FloorOf(questions, queue[i]);
      allocation := allocation[queue[i] := floor];
      remainder := remainder - floor;
    }
    assert queue[..|queue|] == queue;
  }

  /** One more to each of the first `remainder` of the queue. */
  method AddExtras(questions: seq<Question>, queue: seq<string>, floors: map<string, nat>, remainder: nat)
    returns (allocation: map<string, nat>)
    requires questions != [] && Distinct(queue) && remainder <= |queue| && Given(questions, queue, floors, |queue|, 0)
    ensures Given(questions, queue, allocation, |queue|, remainder)
  {
    allocation := floors;
    for i := 0 to remainder
      invariant Given(questions, queue, allocation, |queue|, i)
    {
      allocation := allocation[queue[i] := allocation[queue[i]] + 1];
    }
  }

  method Allocate(questions: seq<Question>) returns (allocation: map<string, nat>)
    requires questions != []
    ensures HasShares(questions, allocation)
  {
    var queue := Queue(questions);
    QueueLists(questions);
    var floors, remainder := Floors(questions, queue);
    EnoughCategories(questions);
    allocation := AddExtras(questions, queue, floors, remainder);
    QueueGetsExtras(questions);
  }

  method Choose(questions: seq<Question>, digest: Digest, allocation: map<string, nat>) returns (chosen: set<string>)
    requires questions != [] && HasShares(questions, allocation)
    ensures chosen == Chosen(questions, digest)
  {
    var queue := Queue(questions);
    chosen := {};
    for i := 0 to |queue|
      invariant chosen == SetOf(ChosenFrom(questions, digest, queue[..i]))
    {
      ChosenStep(questions, digest, queue, i);
      var ids := Ranked(questions, digest, queue[i]);
      chosen := chosen + SetOf(Take(ids, allocation[queue[i]]));
    }
    assert queue[..|queue|] == queue;
  }

  lemma ChosenStep(questions: seq<Question>, digest: Digest, kinds: seq<string>, i: nat)
    requires questions != [] && i < |kinds|
    ensures SetOf(ChosenFrom(questions, digest, kinds[..i + 1]))
            == SetOf(ChosenFrom(questions, digest, kinds[..i])) + SetOf(ChosenOf(questions, digest, kinds[i]))
  {
    assert kinds[..i + 1][..i] == kinds[..i];
  }

  method ListRows(questions: seq<Question>, chosen: set<string>) returns (rows: seq<Row>)
    ensures rows == Rows(questions, chosen)
  {
    rows := [];
    for i := 0 to |questions|
      invariant rows == Rows(questions[..i], chosen)
    {
      assert questions[..i + 1][..i] == questions[..i];
      if questions[i].id in chosen {
        rows := rows + [Row(i + 1, questions[i].id, questions[i].kind)];
      }
    }
    assert questions[..|questions|] == questions;
  }

  lemma {:induction false} RowsAtMost(questions: seq<Question>, chosen: set<string>)
    ensures |Rows(questions, chosen)| <= |questions|
  {
    if questions != [] { RowsAtMost(questions[..|questions| - 1], chosen); }
  }

  /** An id belongs to the category of its question. */
  lemma {:induction false} IdsOfQuestions(questions: seq<Question>, kind: string)
    ensures forall id :: id in IdsOf(questions, kind) <==> Question(id, kind) in questions
    ensures DistinctIds(questions) ==> Distinct(IdsOf(questions, kind))
  {
    if questions != [] {
      IdsOfQuestions(questions[1..], kind);
    }
  }

  lemma ChosenOfQuestions(questions: seq<Question>, digest: Digest, kind: string)
    requires questions != []
    ensures forall id | id in ChosenOf(questions, digest, kind) :: Question(id, kind) in questions
    ensures DistinctIds(questions) ==> Distinct(ChosenOf(questions, digest, kind))
    ensures kind in Kinds(questions) && |questions| >= SIZE ==> |ChosenOf(questions, digest, kind)| == Share(questions, kind)
  {
    var ranked, ids := Ranked(questions, digest, kind), IdsOf(questions, kind);
    IdsOfQuestions(questions, kind);
    forall id | id in ChosenOf(questions, digest, kind) ensures Question(id, kind) in questions {
      assert id in ranked && id in multiset(ranked);
      assert id in multiset(ids);
    }
    if DistinctIds(questions) { SameMembersDistinct(ids, ranked); }
    assert |multiset(ranked)| == |ranked| && |multiset(ids)| == |ids|;
    if kind in Kinds(questions) { SharesAreFair(questions, kind); }
  }

  lemma {:induction false} ChosenCount(questions: seq<Question>, digest: Digest, kinds: seq<string>)
    requires |questions| >= SIZE && forall k | k in kinds :: k in Kinds(questions)
    ensures |ChosenFrom(questions, digest, kinds)| == SumShares(questions, kinds)
  {
    if kinds != [] {
      ChosenCount(questions, digest, kinds[..|kinds| - 1]);
      ChosenOfQuestions(questions, digest, kinds[|kinds| - 1]);
    }
  }

  lemma {:induction false} ChosenBelong(questions: seq<Question>, digest: Digest, kinds: seq<string>)
    requires questions != []
    ensures forall id | id in ChosenFrom(questions, digest, kinds) :: exists k :: k in kinds && Question(id, k) in questions
  {
    if kinds != [] {
      var front, last := kinds[..|kinds| - 1], kinds[|kinds| - 1];
      ChosenBelong(questions, digest, front);
      ChosenOfQuestions(questions, digest, last);
      forall id | id in ChosenFrom(questions, digest, kinds) ensures exists k :: k in kinds && Question(id, k) in questions {
        if id in ChosenFrom(questions, digest, front) {
          var k :| k in front && Question(id, k) in questions;
          assert k in kinds;
        } else {
          assert last in kinds && id in ChosenOf(questions, digest, last);
        }
      }
    }
  }

  lemma {:induction false} ChosenAreDistinct(questions: seq<Question>, digest: Digest, kinds: seq<string>)
    requires questions != [] && DistinctIds(questions) && Distinct(kinds)
    ensures Distinct(ChosenFrom(questions, digest, kinds))
  {
    if kinds != [] {
      var front, last := kinds[..|kinds| - 1], kinds[|kinds| - 1];
      ChosenAreDistinct(questions, digest, front);
      ChosenOfQuestions(questions, digest, last);
      ChosenBelong(questions, digest, front);
      var one, two := ChosenFrom(questions, digest, front), ChosenOf(questions, digest, last);
      forall id | id in one ensures id !in two {
        var k :| k in front && Question(id, k) in questions;
        if id in two { OneKind(questions, id, k, last); }
      }
      DistinctAppend(one, two);
    }
  }

  lemma DistinctAppend(one: seq<string>, two: seq<string>)
    requires Distinct(one) && Distinct(two) && forall id | id in one :: id !in two
    ensures Distinct(one + two)
  {
    var all := one + two;
    forall i, j | 0 <= i < j < |all| ensures all[i] != all[j] {
      if i < |one| <= j { assert all[i] in one && all[j] in two; }
    }
  }

  lemma OneKind(questions: seq<Question>, id: string, a: string, b: string)
    requires DistinctIds(questions) && Question(id, a) in questions && Question(id, b) in questions
    ensures a == b
  {
    var i :| 0 <= i < |questions| && questions[i] == Question(id, a);
    var j :| 0 <= j < |questions| && questions[j] == Question(id, b);
  }

  lemma {:induction false} DistinctCard(ids: seq<string>)
    requires Distinct(ids)
    ensures |SetOf(ids)| == |ids|
  {
    if ids != [] {
      var front, last := ids[..|ids| - 1], ids[|ids| - 1];
      DistinctCard(front);
      assert SetOf(ids) == SetOf(front) + {last};
    }
  }

  /** Every chosen id of a dataset without repeats becomes one row. */
  lemma {:induction false} RowPerId(questions: seq<Question>, chosen: set<string>)
    requires DistinctIds(questions)
    ensures |Rows(questions, chosen)| == |set q | q in questions && q.id in chosen :: q.id|
  {
    if questions != [] {
      var front, last := questions[..|questions| - 1], questions[|questions| - 1];
      RowPerId(front, chosen);
      var here := set q | q in questions && q.id in chosen :: q.id;
      var there := set q | q in front && q.id in chosen :: q.id;
      assert here == there + if last.id in chosen then {last.id} else {};
      assert last.id !in there;
    }
  }

  lemma AllRowsFound(questions: seq<Question>, digest: Digest)
    requires DistinctIds(questions) && |questions| >= SIZE
    ensures var chosen := SetOf(ChosenFrom(questions, digest, Queue(questions)));
            |Rows(questions, chosen)| == SIZE && |chosen| == SIZE
  {
    var ids := ChosenFrom(questions, digest, Queue(questions));
    var chosen := SetOf(ids);
    QueueLists(questions);
    ChosenAreDistinct(questions, digest, Queue(questions));
    ChosenBelong(questions, digest, Queue(questions));
    ChosenCount(questions, digest, Queue(questions));
    SharesAreHundred(questions);
    DistinctCard(ids);
    RowPerId(questions, chosen);
    assert chosen == set q | q in questions && q.id in chosen :: q.id;
  }

  // ---------------------------------------------------------------- what the rows are

  /** Rows carry each chosen question's position and category. */
  lemma {:induction false} RowsAreQuestions(questions: seq<Question>, chosen: set<string>, r: Row)
    ensures r in Rows(questions, chosen)
            <==> 1 <= r.ordinal <= |questions| && questions[r.ordinal - 1] == Question(r.id, r.kind) && r.id in chosen
  {
    if questions != [] {
      RowsAreQuestions(questions[..|questions| - 1], chosen, r);
    }
  }

  /** Rows keep the dataset's order. */
  lemma {:induction false} RowsInOrder(questions: seq<Question>, chosen: set<string>, i: nat, j: nat)
    requires i < j < |Rows(questions, chosen)|
    ensures Rows(questions, chosen)[i].ordinal < Rows(questions, chosen)[j].ordinal <= |questions|
  {
    var front := questions[..|questions| - 1];
    if j < |Rows(front, chosen)| {
      RowsInOrder(front, chosen, i, j);
    } else {
      assert Rows(front, chosen)[i] in Rows(front, chosen);
      RowsAreQuestions(front, chosen, Rows(front, chosen)[i]);
    }
  }

  lemma {:induction false} ChosenFromEach(questions: seq<Question>, digest: Digest, kinds: seq<string>, i: nat, id: string)
    requires questions != [] && i < |kinds| && id in ChosenOf(questions, digest, kinds[i])
    ensures id in ChosenFrom(questions, digest, kinds)
  {
    if i < |kinds| - 1 { ChosenFromEach(questions, digest, kinds[..|kinds| - 1], i, id); }
  }

  lemma {:induction false} ChosenFromSome(questions: seq<Question>, digest: Digest, kinds: seq<string>, id: string) returns (i: nat)
    requires questions != [] && id in ChosenFrom(questions, digest, kinds)
    ensures i < |kinds| && id in ChosenOf(questions, digest, kinds[i])
  {
    i := |kinds| - 1;
    if id !in ChosenOf(questions, digest, kinds[i]) {
      i := ChosenFromSome(questions, digest, kinds[..i], id);
    }
  }

  /** A question is chosen exactly when its own category chooses it, and a category chooses as many as its share. */
  lemma ChosenByCategory(questions: seq<Question>, digest: Digest, id: string, kind: string)
    requires DistinctIds(questions) && Question(id, kind) in questions
    ensures id in Chosen(questions, digest) <==> id in ChosenOf(questions, digest, kind)
    ensures Distinct(ChosenOf(questions, digest, kind))
    ensures |questions| >= SIZE ==> |ChosenOf(questions, digest, kind)| == Share(questions, kind)
  {
    var queue := Queue(questions);
    ChosenOfQuestions(questions, digest, kind);
    QueueLists(questions);
    assert kind in Kinds(questions) && kind in queue;
    var j :| 0 <= j < |queue| && queue[j] == kind;
    if id in ChosenOf(questions, digest, kind) { ChosenFromEach(questions, digest, queue, j, id); }
    if id in Chosen(questions, digest) {
      var i := ChosenFromSome(questions, digest, queue, id);
      ChosenOfQuestions(questions, digest, queue[i]);
      OneKind(questions, id, queue[i], kind);
    }
  }

  /** Within a category a chosen question never has a higher digest than one left out. */
  lemma LowestDigestsChosen(questions: seq<Question>, digest: Digest, kind: string, taken: string, left: string)
    requires questions != [] && taken in ChosenOf(questions, digest, kind)
    requires Question(left, kind) in questions && left !in ChosenOf(questions, digest, kind)
    ensures Leq(digest(kind, taken), digest(kind, left))
  {
    var ranked, ids := Ranked(questions, digest, kind), IdsOf(questions, kind);
    var before := (a: string, b: string) => Leq(digest(kind, a), digest(kind, b));
    forall a, b ensures before(a, b) || before(b, a) { LeqTotal(digest(kind, a), digest(kind, b)); }
    forall a, b, c | before(a, b) && before(b, c) ensures before(a, c) {
      LeqTransitive(digest(kind, a), digest(kind, b), digest(kind, c));
    }
    SortByOrders(ids, before);
    IdsOfQuestions(questions, kind);
    assert left in ids && left in multiset(ids) && left in multiset(ranked);
    var j :| 0 <= j < |ranked| && ranked[j] == left;
    var chosen := ChosenOf(questions, digest, kind);
    var i :| 0 <= i < |chosen| && chosen[i] == taken;
    assert forall k :: 0 <= k < |chosen| ==> chosen[k] == ranked[k];
    assert j >= |chosen|;
  }
}
