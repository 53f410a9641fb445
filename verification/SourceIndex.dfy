/** The reverse index kept beside the items, and what a full scan of the items would say instead. */
module SourceIndex {
  import opened Options
  import opened AssetLog
  import opened Ordering

  /** SHA-256 of the canonical encoding, taken as injective. */
  datatype Fingerprint = Digest(value: Information)

  datatype Clarification = Clarification(note: Information, fingerprint: Fingerprint, selector: Option<Text.Selector>)

  /** `qualifiers[target]`: empty for an absent key. */
  function Bucket(index: map<string, set<string>>, target: string): set<string> {
    if target in index then index[target] else {}
  }

  /** The sources that a scan of the items finds qualifying a target. */
  function Qualifying(items: map<string, Information>, target: string): set<string> {
    set id | id in items && items[id].Qualifies(target)
  }

  function Fingerprints(items: map<string, Information>): map<string, Fingerprint> {
    map id | id in items :: Digest(items[id])
  }

  ghost predicate Tidy(index: map<string, set<string>>) {
    forall t | t in index :: index[t] != {}
  }

  /** The index says exactly what the scan says, and holds no empty bucket. */
  ghost predicate Matches(index: map<string, set<string>>, items: map<string, Information>) {
    Tidy(index) && forall t :: Bucket(index, t) == Qualifying(items, t)
  }

  predicate TargetedBy(relations: seq<Relation>, target: string) {
    exists r | r in relations :: r.kind == QUALIFIES && r.target == target
  }

  /** One relation's part in `setItem` and in `removeSource`. */
  function Enter(index: map<string, set<string>>, r: Relation, id: string): map<string, set<string>> {
    if r.kind == QUALIFIES then index[r.target := Bucket(index, r.target) + {id}] else index
  }

  function Leave(index: map<string, set<string>>, r: Relation, id: string): map<string, set<string>> {
    if r.kind != QUALIFIES then index
    else if Bucket(index, r.target) - {id} == {} then index - {r.target}
    else index[r.target := Bucket(index, r.target) - {id}]
  }

  /** What the relations of a note contribute to the clarifications of a target, in their order. */
  function Notes(note: Information, relations: seq<Relation>, target: string): seq<Clarification> {
    if relations == [] then []
    else
      var r := relations[|relations| - 1];
      Notes(note, relations[..|relations| - 1], target)
      + if r.kind == QUALIFIES && r.target == target then [Clarification(note, Digest(note), r.selector)] else []
  }

  function Collect(items: map<string, Information>, ids: seq<string>, target: string): seq<Clarification>
    requires forall id | id in ids :: id in items
  {
    if ids == [] then []
    else Collect(items, ids[..|ids| - 1], target)
         + Notes(items[ids[|ids| - 1]], items[ids[|ids| - 1]].relations, target)
  }

  /** The reference reading: every item in order of id, every relation in order of writing. */
  function Scan(items: map<string, Information>, target: string): seq<Clarification> {
    Collect(items, Sorted(items.Keys), target)
  }

  lemma {:induction false} NotesOfOthers(note: Information, relations: seq<Relation>, target: string)
    requires !TargetedBy(relations, target)
    ensures Notes(note, relations, target) == []
  {
    if relations != [] {
      assert forall r | r in relations[..|relations| - 1] :: r in relations;
      NotesOfOthers(note, relations[..|relations| - 1], target);
    }
  }

  predicate Ascending(ids: seq<string>) {
    forall i, j :: 0 <= i < j < |ids| ==> Leq(ids[i], ids[j]) && ids[i] != ids[j]
  }

  lemma FrontOf(ids: seq<string>)
    requires Ascending(ids) && ids != []
    ensures Ascending(ids[..|ids| - 1])
    ensures forall id :: id in ids[..|ids| - 1] <==> id in ids && id != ids[|ids| - 1]
  {
    assert ids == ids[..|ids| - 1] + [ids[|ids| - 1]];
  }

  /** Dropping from an ordered listing the sources that contribute nothing leaves the clarifications. */
  lemma {:induction false} CollectSkips(items: map<string, Information>, all: seq<string>, some: seq<string>, target: string)
    requires Ascending(all) && Ascending(some)
    requires forall id | id in all :: id in items
    requires forall id :: id in some <==> id in all && items[id].Qualifies(target)
    ensures Collect(items, all, target) == Collect(items, some, target)
    decreases |all|
  {
    if all != [] {
      var front, last := all[..|all| - 1], all[|all| - 1];
      FrontOf(all);
      if items[last].Qualifies(target) {
        LastIsLast(all, some);
        FrontOf(some);
        CollectSkips(items, front, some[..|some| - 1], target);
      } else {
        NotesOfOthers(items[last], items[last].relations, target);
        CollectSkips(items, front, some, target);
      }
    }
  }

  /** The greatest member of an ordered listing is also the last of any ordered listing drawn from it
      that contains it. */
  lemma LastIsLast(all: seq<string>, some: seq<string>)
    requires Ascending(all) && Ascending(some) && all != [] && all[|all| - 1] in some
    requires forall id | id in some :: id in all
    ensures some[|some| - 1] == all[|all| - 1]
  {
    var last, top := all[|all| - 1], some[|some| - 1];
    var k :| 0 <= k < |some| && some[k] == last;
    assert top in some;
    var i :| 0 <= i < |all| && all[i] == top;
    if top != last { LeqAntisymmetric(top, last); }
  }

  /** A read through a matching index returns what the full scan returns. */
  lemma IndexReadIsScan(index: map<string, set<string>>, items: map<string, Information>, target: string)
    requires Matches(index, items)
    ensures forall id | id in Sorted(Bucket(index, target)) :: id in items
    ensures Collect(items, Sorted(Bucket(index, target)), target) == Scan(items, target)
  {
    var some, all := Sorted(Bucket(index, target)), Sorted(items.Keys);
    assert Bucket(index, target) == Qualifying(items, target);
    CollectSkips(items, all, some, target);
  }

  // ---------------------------------------------------------------- maintenance

  /** The index with the first relations of a source entered. */
  ghost predicate Entered(before: map<string, set<string>>, after: map<string, set<string>>, relations: seq<Relation>, id: string) {
    Tidy(after) && forall t :: Bucket(after, t) == Bucket(before, t) + if TargetedBy(relations, t) then {id} else {}
  }

  /** The index with the first relations of a source taken out. */
  ghost predicate Left(before: map<string, set<string>>, after: map<string, set<string>>, relations: seq<Relation>, id: string) {
    Tidy(after) && forall t :: Bucket(after, t) == Bucket(before, t) - if TargetedBy(relations, t) then {id} else {}
  }

  lemma TargetedSnoc(relations: seq<Relation>, r: Relation, t: string)
    ensures TargetedBy(relations + [r], t) <==> TargetedBy(relations, t) || (r.kind == QUALIFIES && r.target == t)
  {
    if TargetedBy(relations, t) {
      var x :| x in relations && x.kind == QUALIFIES && x.target == t;
      assert x in relations + [r];
    }
    assert r in relations + [r];
  }

  lemma EnterStep(before: map<string, set<string>>, index: map<string, set<string>>, relations: seq<Relation>, r: Relation, id: string)
    requires Entered(before, index, relations, id)
    ensures Entered(before, Enter(index, r, id), relations + [r], id)
  {
    var after := Enter(index, r, id);
    forall t ensures Bucket(after, t) == Bucket(before, t) + if TargetedBy(relations + [r], t) then {id} else {} {
      TargetedSnoc(relations, r, t);
      assert t != r.target ==> Bucket(after, t) == Bucket(index, t);
    }
  }

  lemma LeaveStep(before: map<string, set<string>>, index: map<string, set<string>>, relations: seq<Relation>, r: Relation, id: string)
    requires Left(before, index, relations, id)
    ensures Left(before, Leave(index, r, id), relations + [r], id)
  {
    var after := Leave(index, r, id);
    forall t ensures Bucket(after, t) == Bucket(before, t) - if TargetedBy(relations + [r], t) then {id} else {} {
      TargetedSnoc(relations, r, t);
      assert t != r.target ==> Bucket(after, t) == Bucket(index, t);
    }
  }

  /** Taking out all relations of a stored source leaves the index of the other items. */
  lemma LeftMatches(before: map<string, set<string>>, after: map<string, set<string>>, items: map<string, Information>, id: string)
    requires Matches(before, items)
    requires Left(before, after, if id in items then items[id].relations else [], id)
    ensures Matches(after, items - {id})
  {
    forall t ensures Bucket(after, t) == Qualifying(items - {id}, t) {
      assert Bucket(before, t) == Qualifying(items, t);
      assert id in items ==> (items[id].Qualifies(t) <==> TargetedBy(items[id].relations, t));
    }
  }

  lemma EnteredMatches(before: map<string, set<string>>, after: map<string, set<string>>, items: map<string, Information>, v: Information)
    requires v.id !in items && Matches(before, items) && Entered(before, after, v.relations, v.id)
    ensures Matches(after, items[v.id := v])
  {
    forall t ensures Bucket(after, t) == Qualifying(items[v.id := v], t) {
      assert Bucket(before, t) == Qualifying(items, t);
      assert v.Qualifies(t) <==> TargetedBy(v.relations, t);
    }
  }
}
