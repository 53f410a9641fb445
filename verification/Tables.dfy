/** The deduplicated form of a semantic request: items and candidates refer to the bodies of a table by name. */
module Tables {
  import opened Options
  import opened Json
  import opened Bodies

  /** One item of semantic work. */
  datatype Work = Work(id: Json, organized: bool, asset: Json, candidates: seq<Json>)

  datatype Item = Item(workId: Json, asset: string, id: string, revision: int, contexts: Json, candidates: seq<Fields>)

  /** The deduplicated form. */
  datatype Input = Input(bodies: seq<Body>, work: seq<Item>)

  // ---------------------------------------------------------------- the sources a work item mentions

  /** The candidates presented: all of them for organization work, else the first two; what is no object is passed over. */
  function Used(w: Work): seq<Fields> {
    Objects(if w.organized || |w.candidates| <= 2 then w.candidates else w.candidates[..2])
  }

  function Objects(values: seq<Json>): seq<Fields> {
    if values == [] then []
    else
      var front, last := Objects(values[..|values| - 1]), values[|values| - 1];
      if last.Obj? then front + [last.fields] else front
  }

  predicate Presentable(w: Work) {
    w.asset.Obj? && Identified(w.asset.fields) && forall c | c in Used(w) :: Identified(c)
  }

  /** The sources in the order in which they are first looked up: an item's candidates come before its own. */
  function Visits(work: seq<Work>): seq<Fields>
    requires forall w | w in work :: w.asset.Obj?
  {
    if work == [] then []
    else Visits(work[..|work| - 1]) + Used(work[|work| - 1]) + [work[|work| - 1].asset.fields]
  }

  // ---------------------------------------------------------------- items

  /** A candidate's fields other than its body; a field of its own called `body_ref` is among them. */
  function Metadata(v: Fields): Fields {
    v - {"content", "id", "revision"}
  }

  function Presented(digest: Digest, bodies: seq<Body>, v: Fields): Fields
    requires Identified(v)
  {
    map["body_ref" := Str(RefIn(digest, bodies, v)), "id" := v["id"], "revision" := v["revision"]] + Metadata(v)
  }

  function PresentedAll(digest: Digest, bodies: seq<Body>, vs: seq<Fields>): (r: seq<Fields>)
    requires forall v | v in vs :: Identified(v)
    ensures |r| == |vs|
  {
    seq(|vs|, i requires 0 <= i < |vs| => assert vs[i] in vs; Presented(digest, bodies, vs[i]))
  }

  /** `value.get(name, [])` */
  function OrEmpty(v: Fields, name: string): Json {
    if name in v then v[name] else List([])
  }

  function ItemOf(digest: Digest, bodies: seq<Body>, w: Work): Item
    requires Presentable(w)
  {
    var asset := w.asset.fields;
    Item(w.id, RefIn(digest, bodies, asset), asset["id"].text, asset["revision"].number, OrEmpty(asset, "contexts"),
         PresentedAll(digest, bodies, Used(w)))
  }

  predicate AllPresentable(work: seq<Work>) {
    forall w | w in work :: Presentable(w)
  }

  function ItemsOf(digest: Digest, bodies: seq<Body>, work: seq<Work>): (r: seq<Item>)
    requires AllPresentable(work)
    ensures |r| == |work|
  {
    seq(|work|, i requires 0 <= i < |work| => assert work[i] in work; ItemOf(digest, bodies, work[i]))
  }

  lemma {:induction false} VisitsIdentified(work: seq<Work>)
    requires AllPresentable(work)
    ensures forall v | v in Visits(work) :: Identified(v)
  {
    if work != [] {
      VisitsIdentified(work[..|work| - 1]);
      assert work[|work| - 1] in work;
    }
  }

  /** The input `default_semantic_input` builds. */
  function DefaultInput(digest: Digest, work: seq<Work>): Input
    requires AllPresentable(work)
  {
    VisitsIdentified(work);
    var bodies := TableOf(digest, Visits(work));
    Input(bodies, ItemsOf(digest, bodies, work))
  }

  // ---------------------------------------------------------------- building the input

  lemma PresentedGrows(digest: Digest, bodies: seq<Body>, after: seq<Body>, used: seq<Fields>)
    requires Covers(digest, bodies, used) && bodies <= after
    ensures PresentedAll(digest, after, used) == PresentedAll(digest, bodies, used)
  {
    CoversGrows(digest, bodies, after, used);
    forall i | 0 <= i < |used| ensures PresentedAll(digest, after, used)[i] == PresentedAll(digest, bodies, used)[i] {
      assert used[i] in used;
    }
  }

  /** One more lookup changes nothing presented so far. */
  lemma BuildStep(digest: Digest, before: seq<Fields>, used: seq<Fields>, v: Fields)
    requires AllIdentified(before + used) && Identified(v)
    ensures AllIdentified(before + (used + [v])) && AllIdentified(used) && AllIdentified(used + [v])
    ensures var was, now := TableOf(digest, before + used), TableOf(digest, before + (used + [v]));
            && now == Enter(digest, was, v)
            && PresentedAll(digest, now, used + [v]) == PresentedAll(digest, was, used) + [Presented(digest, now, v)]
  {
    var seen := before + used;
    assert seen + [v] == before + (used + [v]);
    assert forall u | u in used :: u in seen;
    TableStep(digest, seen, v);
    assert Covers(digest, TableOf(digest, seen), used);
    PresentedGrows(digest, TableOf(digest, seen), TableOf(digest, seen + [v]), used);
    PresentedSnoc(digest, TableOf(digest, seen + [v]), used, v);
  }

  lemma PresentedSnoc(digest: Digest, bodies: seq<Body>, used: seq<Fields>, v: Fields)
    requires AllIdentified(used) && Identified(v)
    ensures AllIdentified(used + [v])
    ensures PresentedAll(digest, bodies, used + [v]) == PresentedAll(digest, bodies, used) + [Presented(digest, bodies, v)]
  {
  }

  method PresentOne(digest: Digest, ghost before: seq<Fields>, ghost used: seq<Fields>, bodies: seq<Body>, refs: map<Key, string>,
                    candidates: seq<Fields>, v: Fields)
    returns (candidates': seq<Fields>, bodies': seq<Body>, refs': map<Key, string>)
    requires Identified(v) && Presenting(digest, before, used, bodies, refs, candidates)
    ensures Presenting(digest, before, used + [v], bodies', refs', candidates')
  {
    var ref;
    BuildStep(digest, before, used, v);
    ref, bodies', refs' := BodyReference(digest, bodies, refs, v);
    candidates' := candidates + [map["body_ref" := Str(ref), "id" := v["id"], "revision" := v["revision"]] + Metadata(v)];
  }

  /** After the sources `before`, these candidates have been looked up and presented. */
  ghost predicate Presenting(digest: Digest, before: seq<Fields>, used: seq<Fields>, bodies: seq<Body>, refs: map<Key, string>,
                             candidates: seq<Fields>) {
    AllIdentified(used) && Built(digest, before + used, bodies, refs) && candidates == PresentedAll(digest, bodies, used)
  }

  /** The candidates of one item, looked up and presented. */
  method PresentCandidates(digest: Digest, ghost before: seq<Fields>, bodies: seq<Body>, refs: map<Key, string>, used: seq<Fields>)
    returns (ok: bool, candidates: seq<Fields>, bodies': seq<Body>, refs': map<Key, string>)
    requires Built(digest, before, bodies, refs)
    ensures ok <==> AllIdentified(used)
    ensures ok ==> Presenting(digest, before, used, bodies', refs', candidates)
  {
    bodies', refs', candidates := bodies, refs, [];
    NothingPresented(digest, before, bodies, refs);
    ok := true;
    for i := 0 to |used|
      invariant Presenting(digest, before, Front(used, i), bodies', refs', candidates)
    {
      if !Identified(used[i]) {
        return false, candidates, bodies', refs';
      }
      candidates, bodies', refs' := PresentOne(digest, before, Front(used, i), bodies', refs', candidates, used[i]);
    }
  }

  lemma NothingPresented(digest: Digest, before: seq<Fields>, bodies: seq<Body>, refs: map<Key, string>)
    requires Built(digest, before, bodies, refs)
    ensures Presenting(digest, before, [], bodies, refs, [])
  {
    assert before + [] == before;
  }

  /** The first `i` members. */
  function Front<T>(xs: seq<T>, i: nat): (r: seq<T>)
    requires i <= |xs|
    ensures i == 0 ==> r == []
    ensures i > 0 ==> r == Front(xs, i - 1) + [xs[i - 1]]
    ensures i == |xs| ==> r == xs
  {
    xs[..i]
  }

  lemma ItemsGrow(digest: Digest, bodies: seq<Body>, after: seq<Body>, work: seq<Work>)
    requires AllPresentable(work) && Covers(digest, bodies, Visits(work)) && bodies <= after
    ensures ItemsOf(digest, after, work) == ItemsOf(digest, bodies, work)
  {
    forall i | 0 <= i < |work| ensures ItemsOf(digest, after, work)[i] == ItemsOf(digest, bodies, work)[i] {
      var w := work[i];
      assert w in work;
      VisitsHave(work, i);
      assert w.asset.fields in [w.asset.fields];
      CoversGrows(digest, bodies, after, [w.asset.fields]);
      PresentedGrows(digest, bodies, after, Used(w));
    }
  }

  lemma {:induction false} VisitsHave(work: seq<Work>, i: nat)
    requires AllPresentable(work) && i < |work|
    ensures Presentable(work[i]) && work[i].asset.fields in Visits(work) && forall v | v in Used(work[i]) :: v in Visits(work)
  {
    if i < |work| - 1 { VisitsHave(work[..|work| - 1], i); }
  }

  lemma ItemStep(digest: Digest, work: seq<Work>, w: Work)
    requires AllPresentable(work) && Presentable(w)
    ensures AllPresentable(work + [w]) && Visits(work + [w]) == Visits(work) + Used(w) + [w.asset.fields]
    ensures AllIdentified(Visits(work)) && AllIdentified(Visits(work + [w]))
    ensures var was, now := TableOf(digest, Visits(work)), TableOf(digest, Visits(work + [w]));
            ItemsOf(digest, now, work + [w]) == ItemsOf(digest, was, work) + [ItemOf(digest, now, w)]
  {
    assert (work + [w])[..|work|] == work;
    VisitsIdentified(work);
    VisitsIdentified(work + [w]);
    TableKeeps(digest, Visits(work));
    var more := Used(w) + [w.asset.fields];
    assert Visits(work) + more == Visits(work + [w]);
    TableExtends(digest, Visits(work), more);
    ItemsGrow(digest, TableOf(digest, Visits(work)), TableOf(digest, Visits(work + [w])), work);
  }

  /** One item: candidates first, then the source itself. */
  method PresentItem(digest: Digest, ghost before: seq<Fields>, bodies: seq<Body>, refs: map<Key, string>, w: Work)
    returns (item: Option<Item>, bodies': seq<Body>, refs': map<Key, string>)
    requires Built(digest, before, bodies, refs)
    ensures item.Some? <==> Presentable(w)
    ensures item.Some? ==> Built(digest, before + Used(w) + [w.asset.fields], bodies', refs') && item.value == ItemOf(digest, bodies', w)
  {
    bodies', refs' := bodies, refs;
    if !w.asset.Obj? {
      return None, bodies', refs';
    }
    var ok, candidates, ref;
    ok, candidates, bodies', refs' := PresentCandidates(digest, before, bodies, refs, Used(w));
    var asset := w.asset.fields;
    if !ok || !Identified(asset) {
      return None, bodies', refs';
    }
    ghost var seen := before + Used(w);
    BuildStep(digest, seen, [], asset);
    assert seen + [] == seen && [] + [asset] == [asset];
    ghost var was := bodies';
    ref, bodies', refs' := BodyReference(digest, bodies', refs', asset);
    TableKeeps(digest, seen);
    EnterKeeps(digest, was, asset);
    PresentedGrows(digest, was, bodies', Used(w));
    item := Some(Item(w.id, ref, asset["id"].text, asset["revision"].number, OrEmpty(asset, "contexts"), candidates));
  }

  /** These items have been presented, and the table is what their sources made it. */
  ghost predicate Listing(digest: Digest, work: seq<Work>, bodies: seq<Body>, refs: map<Key, string>, items: seq<Item>) {
    AllPresentable(work) && Built(digest, Visits(work), bodies, refs) && items == ItemsOf(digest, bodies, work)
  }

  method PresentNext(digest: Digest, ghost work: seq<Work>, bodies: seq<Body>, refs: map<Key, string>, items: seq<Item>, w: Work)
    returns (ok: bool, bodies': seq<Body>, refs': map<Key, string>, items': seq<Item>)
    requires Listing(digest, work, bodies, refs, items)
    ensures ok <==> Presentable(w)
    ensures ok ==> Listing(digest, work + [w], bodies', refs', items')
  {
    var item;
    item, bodies', refs' := PresentItem(digest, Visits(work), bodies, refs, w);
    items' := items;
    ok := item.Some?;
    if ok {
      ItemStep(digest, work, w);
      items' := items + [item.value];
    }
  }

  /** `default_semantic_input` */
  method DefaultSemanticInput(digest: Digest, work: seq<Work>) returns (r: Option<Input>)
    ensures r.Some? <==> AllPresentable(work)
    ensures r.Some? ==> r.value == DefaultInput(digest, work)
  {
    var bodies, refs, items := [], map[], [];
    for i := 0 to |work|
      invariant Listing(digest, Front(work, i), bodies, refs, items)
    {
      var ok;
      ok, bodies, refs, items := PresentNext(digest, Front(work, i), bodies, refs, items, work[i]);
      if !ok {
        return None;
      }
    }
    return Some(Input(bodies, items));
  }
}
