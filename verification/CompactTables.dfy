/** What the two forms of a semantic request lose: nothing, under conditions that can be read off the work. */
module CompactTables {
  import opened Options
  import opened Json
  import opened Bodies
  import opened Tables
  import opened Ordering

  // ---------------------------------------------------------------- the deduplicated form and its validator

  /** `by_ref.get(ref)`: the body of this name. */
  function Lookup(bodies: seq<Body>, ref: Json): (b: Option<Body>)
    ensures b.Some? ==> b.value in bodies && ref == Str(b.value.ref)
  {
    if bodies == [] || !ref.Str? then None
    else if bodies[|bodies| - 1].ref == ref.text then Some(bodies[|bodies| - 1])
    else Lookup(bodies[..|bodies| - 1], ref)
  }

  /** The body says what the source says. */
  predicate SameSource(b: Body, v: Fields) {
    && "id" in v && v["id"] == Str(b.id) && "revision" in v && v["revision"] == Number(b.revision)
    && "content" in v && v["content"] == Str(b.content)
  }

  predicate FindsSource(bodies: seq<Body>, ref: Json, v: Fields) {
    Lookup(bodies, ref).Some? && SameSource(Lookup(bodies, ref).value, v)
  }

  predicate CandidatePasses(bodies: seq<Body>, v: Fields, encoded: Fields) {
    && "body_ref" in encoded && FindsSource(bodies, encoded["body_ref"], v)
    && encoded - {"body_ref", "id", "revision"} == Metadata(v)
  }

  predicate ItemPasses(bodies: seq<Body>, w: Work, item: Item) {
    && item.workId == w.id && w.asset.Obj? && FindsSource(bodies, Str(item.asset), w.asset.fields)
    && item.contexts == OrEmpty(w.asset.fields, "contexts")
    && |item.candidates| == |Used(w)|
    && forall i :: 0 <= i < |Used(w)| ==> CandidatePasses(bodies, Used(w)[i], item.candidates[i])
  }

  /** `validate_default_input` accepts. */
  ghost predicate Passes(work: seq<Work>, value: Input) {
    && DistinctRefs(value.bodies) && |value.work| == |work|
    && forall i :: 0 <= i < |work| ==> ItemPasses(value.bodies, work[i], value.work[i])
  }

  /** No candidate that is presented has a field of its own named `body_ref`. */
  predicate NoOwnRefs(w: Work) {
    forall c | c in Used(w) :: "body_ref" !in c
  }

  lemma {:induction false} LookupFinds(bodies: seq<Body>, n: nat)
    requires DistinctRefs(bodies) && n < |bodies|
    ensures Lookup(bodies, Str(bodies[n].ref)) == Some(bodies[n])
  {
    if n < |bodies| - 1 { LookupFinds(bodies[..|bodies| - 1], n); }
  }

  lemma RefFindsSource(digest: Digest, bodies: seq<Body>, v: Fields)
    requires DistinctRefs(bodies) && Identified(v) && Find(digest, bodies, KeyOf(digest, v)) < |bodies|
    ensures FindsSource(bodies, Str(RefIn(digest, bodies, v)), v) <==> Listed(digest, bodies, v)
  {
    var n := Find(digest, bodies, KeyOf(digest, v));
    LookupFinds(bodies, n);
    SameSourceSays(bodies[n], v);
  }

  lemma SameSourceSays(b: Body, v: Fields)
    requires Identified(v)
    ensures SameSource(b, v) <==> SaysSame(b, v)
  {
  }

  lemma CandidateEncodes(digest: Digest, bodies: seq<Body>, v: Fields)
    requires DistinctRefs(bodies) && Identified(v) && Find(digest, bodies, KeyOf(digest, v)) < |bodies|
    ensures CandidatePasses(bodies, v, Presented(digest, bodies, v)) <==> "body_ref" !in v && Listed(digest, bodies, v)
  {
    RefFindsSource(digest, bodies, v);
    PresentedFields(digest, bodies, v);
  }

  /** Presenting a source keeps its metadata, and its reference unless it brings one of its own. */
  lemma PresentedFields(digest: Digest, bodies: seq<Body>, v: Fields)
    requires Identified(v)
    ensures var encoded := Presented(digest, bodies, v);
            && (encoded - {"body_ref", "id", "revision"} == Metadata(v) <==> "body_ref" !in v)
            && encoded["id"] == v["id"] && encoded["revision"] == v["revision"]
            && ("body_ref" !in v ==> encoded["body_ref"] == Str(RefIn(digest, bodies, v)))
            && ("explicit_contexts" in encoded <==> "explicit_contexts" in v)
            && ("explicit_contexts" in v ==> encoded["explicit_contexts"] == v["explicit_contexts"])
  {
    var encoded := Presented(digest, bodies, v);
    if "body_ref" in v {
      assert "body_ref" in Metadata(v) && "body_ref" !in encoded - {"body_ref", "id", "revision"};
    } else {
      assert encoded - {"body_ref", "id", "revision"} == Metadata(v);
    }
  }

  lemma TableOfWork(digest: Digest, work: seq<Work>, i: nat)
    requires AllPresentable(work) && i < |work|
    ensures AllIdentified(Visits(work)) && Presentable(work[i])
    ensures var bodies := TableOf(digest, Visits(work));
            && DistinctRefs(bodies) && Covers(digest, bodies, Used(work[i])) && Covers(digest, bodies, [work[i].asset.fields])
  {
    VisitsIdentified(work);
    TableKeeps(digest, Visits(work));
    TableIsDistinct(digest, Visits(work));
    VisitsHave(work, i);
  }

  /** The item's own source and all it presents are listed with their own content. */
  predicate AllListed(digest: Digest, bodies: seq<Body>, w: Work) {
    w.asset.Obj? && Listed(digest, bodies, w.asset.fields) && forall c | c in Used(w) :: Listed(digest, bodies, c)
  }

  lemma ItemEncodes(digest: Digest, bodies: seq<Body>, w: Work)
    requires DistinctRefs(bodies) && Presentable(w)
    requires Covers(digest, bodies, Used(w)) && Covers(digest, bodies, [w.asset.fields])
    ensures ItemPasses(bodies, w, ItemOf(digest, bodies, w)) <==> NoOwnRefs(w) && AllListed(digest, bodies, w)
  {
    var item, used := ItemOf(digest, bodies, w), Used(w);
    assert w.asset.fields in [w.asset.fields];
    RefFindsSource(digest, bodies, w.asset.fields);
    forall i | 0 <= i < |used|
      ensures CandidatePasses(bodies, used[i], item.candidates[i]) <==> "body_ref" !in used[i] && Listed(digest, bodies, used[i])
    {
      assert used[i] in used;
      CandidateEncodes(digest, bodies, used[i]);
    }
    if c :| c in used && ("body_ref" in c || !Listed(digest, bodies, c)) {
      var i :| 0 <= i < |used| && used[i] == c;
      assert !CandidatePasses(bodies, used[i], item.candidates[i]);
    }
  }

  lemma {:induction false} VisitsComeFrom(work: seq<Work>, v: Fields) returns (i: nat)
    requires AllPresentable(work) && v in Visits(work)
    ensures i < |work| && Presentable(work[i]) && (v == work[i].asset.fields || v in Used(work[i]))
  {
    i := |work| - 1;
    assert Presentable(work[i]);
    if v != work[i].asset.fields && v !in Used(work[i]) {
      i := VisitsComeFrom(work[..i], v);
    }
  }

  lemma ListedByItems(digest: Digest, work: seq<Work>, bodies: seq<Body>, v: Fields)
    requires AllPresentable(work) && v in Visits(work)
    requires forall i :: 0 <= i < |work| ==> AllListed(digest, bodies, work[i])
    ensures Listed(digest, bodies, v)
  {
    var i := VisitsComeFrom(work, v);
    assert AllListed(digest, bodies, work[i]);
  }

  lemma ItemsAreListed(digest: Digest, work: seq<Work>, bodies: seq<Body>, i: nat)
    requires AllPresentable(work) && i < |work| && forall v | v in Visits(work) :: Listed(digest, bodies, v)
    ensures AllListed(digest, bodies, work[i])
  {
    VisitsHave(work, i);
  }

  lemma AllListedMeans(digest: Digest, work: seq<Work>, bodies: seq<Body>)
    requires AllPresentable(work)
    ensures (forall v | v in Visits(work) :: Listed(digest, bodies, v))
            <==> forall i :: 0 <= i < |work| ==> AllListed(digest, bodies, work[i])
  {
    if forall i :: 0 <= i < |work| ==> AllListed(digest, bodies, work[i]) {
      forall v | v in Visits(work) ensures Listed(digest, bodies, v) {
        ListedByItems(digest, work, bodies, v);
      }
    }
    if forall v | v in Visits(work) :: Listed(digest, bodies, v) {
      forall i | 0 <= i < |work| ensures AllListed(digest, bodies, work[i]) {
        ItemsAreListed(digest, work, bodies, i);
      }
    }
  }

  /** The deduplicated table passes its own validator exactly when no presented candidate carries a field named
      `body_ref`, which would overwrite the reference, and no two sources of one id and revision share a digest
      while they differ. */
  lemma {:induction false} DefaultInputPasses(digest: Digest, work: seq<Work>)
    requires AllPresentable(work)
    ensures Passes(work, DefaultInput(digest, work))
            <==> (forall i :: 0 <= i < |work| ==> NoOwnRefs(work[i])) && ToldApart(digest, Visits(work))
  {
    var input := DefaultInput(digest, work);
    VisitsIdentified(work);
    TableIsDistinct(digest, Visits(work));
    ToldApartIsListed(digest, Visits(work));
    AllListedMeans(digest, work, input.bodies);
    forall i | 0 <= i < |work|
      ensures ItemPasses(input.bodies, work[i], input.work[i]) <==> NoOwnRefs(work[i]) && AllListed(digest, input.bodies, work[i])
    {
      TableOfWork(digest, work, i);
      ItemEncodes(digest, input.bodies, work[i]);
    }
  }

  /** Each source is listed once, though it may be mentioned many times. */
  lemma ListedOnce(digest: Digest, work: seq<Work>, i: nat, j: nat)
    requires AllPresentable(work) && i < j < |DefaultInput(digest, work).bodies|
    ensures var a, b := DefaultInput(digest, work).bodies[i], DefaultInput(digest, work).bodies[j];
            a.id != b.id || a.revision != b.revision || a.content != b.content
  {
    VisitsIdentified(work);
    TableKeeps(digest, Visits(work));
    var bodies := DefaultInput(digest, work).bodies;
    assert BodyKey(digest, bodies[i]) != BodyKey(digest, bodies[j]);
  }

  // ---------------------------------------------------------------- the compact form

  datatype Row = Row(body: nat, context: nat, metadata: Fields)

  datatype CompactItem = CompactItem(workId: Json, body: nat, context: nat, candidates: seq<Row>)

  datatype Compact = Compact(contexts: seq<Json>, bodies: seq<(string, int, string)>, work: seq<CompactItem>)

  /** The position of a body by name; the length of the table if there is none. */
  function BodyIndex(bodies: seq<Body>, ref: Json): (n: nat)
    ensures n <= |bodies| && (n < |bodies| ==> ref == Str(bodies[n].ref))
    ensures forall i :: 0 <= i < n ==> ref != Str(bodies[i].ref)
  {
    if bodies == [] then 0
    else
      var n := BodyIndex(bodies[..|bodies| - 1], ref);
      if n < |bodies| - 1 || ref == Str(bodies[|bodies| - 1].ref) then n else |bodies|
  }

  /** The position of a context list; the length of the table if it is new. */
  function ContextIndex(contexts: seq<Json>, value: Json): (n: nat)
    ensures n <= |contexts| && (n < |contexts| ==> contexts[n] == value)
    ensures forall i :: 0 <= i < n ==> contexts[i] != value
  {
    if contexts == [] then 0
    else
      var n := ContextIndex(contexts[..|contexts| - 1], value);
      if n < |contexts| - 1 || contexts[|contexts| - 1] == value then n else |contexts|
  }

  function EnterContext(contexts: seq<Json>, value: Json): seq<Json> {
    if ContextIndex(contexts, value) < |contexts| then contexts else contexts + [value]
  }

  ghost predicate NoRepeats(contexts: seq<Json>) {
    forall i, j :: 0 <= i < j < |contexts| ==> contexts[i] != contexts[j]
  }

  const MOVED := {"body_ref", "id", "revision", "explicit_contexts"}

  /** What does not raise while a candidate is compacted. */
  predicate Compactable(bodies: seq<Body>, c: Fields) {
    "body_ref" in c && BodyIndex(bodies, c["body_ref"]) < |bodies| && OrEmpty(c, "explicit_contexts").List?
  }

  predicate ItemCompactable(bodies: seq<Body>, item: Item) {
    && BodyIndex(bodies, Str(item.asset)) < |bodies| && item.contexts.List?
    && forall c | c in item.candidates :: Compactable(bodies, c)
  }

  method CompactCandidate(bodies: seq<Body>, contexts: seq<Json>, c: Fields) returns (row: Option<Row>, contexts': seq<Json>)
    ensures row.Some? <==> Compactable(bodies, c)
    ensures contexts <= contexts' && (NoRepeats(contexts) ==> NoRepeats(contexts'))
    ensures row.Some? ==> Holds(bodies, contexts', c, row.value)
  {
    contexts' := contexts;
    if !("body_ref" in c && BodyIndex(bodies, c["body_ref"]) < |bodies|) || !OrEmpty(c, "explicit_contexts").List? {
      return None, contexts';
    }
    var value := OrEmpty(c, "explicit_contexts");
    contexts' := EnterContext(contexts, value);
    row := Some(Row(BodyIndex(bodies, c["body_ref"]), ContextIndex(contexts', value), c - MOVED));
  }

  /** The row points at the candidate's body and contexts and keeps the rest. */
  predicate Holds(bodies: seq<Body>, contexts: seq<Json>, c: Fields, row: Row) {
    && "body_ref" in c && row.body < |bodies| && Str(bodies[row.body].ref) == c["body_ref"]
    && row.context < |contexts| && contexts[row.context] == OrEmpty(c, "explicit_contexts")
    && row.metadata == c - MOVED
  }

  predicate ItemHolds(bodies: seq<Body>, contexts: seq<Json>, item: Item, row: CompactItem) {
    && row.workId == item.workId && row.body < |bodies| && bodies[row.body].ref == item.asset
    && row.context < |contexts| && contexts[row.context] == item.contexts
    && |row.candidates| == |item.candidates|
    && forall i :: 0 <= i < |row.candidates| ==> Holds(bodies, contexts, item.candidates[i], row.candidates[i])
  }

  lemma ItemHoldsGrows(bodies: seq<Body>, contexts: seq<Json>, after: seq<Json>, item: Item, row: CompactItem)
    requires ItemHolds(bodies, contexts, item, row) && contexts <= after
    ensures ItemHolds(bodies, after, item, row)
  {
  }

  method CompactOne(bodies: seq<Body>, contexts: seq<Json>, item: Item) returns (row: Option<CompactItem>, contexts': seq<Json>)
    ensures row.Some? <==> ItemCompactable(bodies, item)
    ensures contexts <= contexts' && (NoRepeats(contexts) ==> NoRepeats(contexts'))
    ensures row.Some? ==> ItemHolds(bodies, contexts', item, row.value)
  {
    contexts' := contexts;
    var rows: seq<Row> := [];
    for i := 0 to |item.candidates|
      invariant contexts <= contexts' && (NoRepeats(contexts) ==> NoRepeats(contexts')) && |rows| == i
      invariant forall j :: 0 <= j < i ==>
                  Compactable(bodies, item.candidates[j]) && Holds(bodies, contexts', item.candidates[j], rows[j])
    {
      var one;
      one, contexts' := CompactCandidate(bodies, contexts', item.candidates[i]);
      if one == None {
        return None, contexts';
      }
      rows := rows + [one.value];
    }
    if BodyIndex(bodies, Str(item.asset)) == |bodies| || !item.contexts.List? {
      return None, contexts';
    }
    contexts' := EnterContext(contexts', item.contexts);
    row := Some(CompactItem(item.workId, BodyIndex(bodies, Str(item.asset)), ContextIndex(contexts', item.contexts), rows));
  }

  function BodyRow(b: Body): (string, int, string) {
    (b.id, b.revision, b.content)
  }

  function BodyRows(bodies: seq<Body>): (r: seq<(string, int, string)>)
    ensures |r| == |bodies| && forall i :: 0 <= i < |r| ==> r[i] == BodyRow(bodies[i])
  {
    if bodies == [] then [] else BodyRows(bodies[..|bodies| - 1]) + [BodyRow(bodies[|bodies| - 1])]
  }

  // ---------------------------------------------------------------- expanding it again

  function Expand(bodies: seq<Body>, contexts: seq<Json>, row: Row): Fields
    requires row.body < |bodies| && row.context < |contexts|
  {
    var b := bodies[row.body];
    map["body_ref" := Str(b.ref), "id" := Str(b.id), "revision" := Number(b.revision),
        "explicit_contexts" := contexts[row.context]] + row.metadata
  }

  /** The row expands to exactly this candidate. */
  predicate ExpandsTo(bodies: seq<Body>, contexts: seq<Json>, row: Row, c: Fields) {
    row.body < |bodies| && row.context < |contexts| && Expand(bodies, contexts, row) == c
  }

  predicate ItemExpandsTo(bodies: seq<Body>, contexts: seq<Json>, row: CompactItem, item: Item) {
    && row.body < |bodies| && row.context < |contexts| && |row.candidates| == |item.candidates|
    && item.workId == row.workId && item.asset == bodies[row.body].ref && item.id == bodies[row.body].id
    && item.revision == bodies[row.body].revision && item.contexts == contexts[row.context]
    && forall i :: 0 <= i < |row.candidates| ==> ExpandsTo(bodies, contexts, row.candidates[i], item.candidates[i])
  }

  /** `validate_compact_equivalence` accepts: the compact form expands to the original work rows. */
  predicate Expands(original: Input, compact: Compact) {
    && compact.bodies == BodyRows(original.bodies) && |compact.work| == |original.work|
    && forall i :: 0 <= i < |original.work| ==>
         ItemExpandsTo(original.bodies, compact.contexts, compact.work[i], original.work[i])
  }

  /** A candidate that names its body rightly and has a list of contexts. */
  predicate Restorable(bodies: seq<Body>, c: Fields) {
    && "body_ref" in c && BodyIndex(bodies, c["body_ref"]) < |bodies| && "id" in c && "revision" in c
    && c["id"] == Str(bodies[BodyIndex(bodies, c["body_ref"])].id)
    && c["revision"] == Number(bodies[BodyIndex(bodies, c["body_ref"])].revision)
    && "explicit_contexts" in c && c["explicit_contexts"].List?
  }

  predicate ItemRestorable(bodies: seq<Body>, item: Item) {
    && BodyIndex(bodies, Str(item.asset)) < |bodies| && item.contexts.List?
    && item.id == bodies[BodyIndex(bodies, Str(item.asset))].id
    && item.revision == bodies[BodyIndex(bodies, Str(item.asset))].revision
    && forall c | c in item.candidates :: Restorable(bodies, c)
  }

  lemma IndexIsUnique(bodies: seq<Body>, ref: Json, n: nat)
    requires DistinctRefs(bodies) && n < |bodies| && Str(bodies[n].ref) == ref
    ensures BodyIndex(bodies, ref) == n
  {
    var m := BodyIndex(bodies, ref);
    assert m <= n;
    assert Str(bodies[m].ref) == ref;
  }

  lemma RowExpands(bodies: seq<Body>, contexts: seq<Json>, c: Fields, row: Row)
    requires DistinctRefs(bodies) && Holds(bodies, contexts, c, row) && OrEmpty(c, "explicit_contexts").List?
    ensures Expand(bodies, contexts, row) == c <==> Restorable(bodies, c)
  {
    var x := Expand(bodies, contexts, row);
    IndexIsUnique(bodies, c["body_ref"], row.body);
    assert forall k | k in x :: k in MOVED || (k in c && x[k] == c[k]);
    if Restorable(bodies, c) {
      assert x.Keys == c.Keys;
      assert x == c;
    }
  }

  lemma ItemExpands(bodies: seq<Body>, contexts: seq<Json>, item: Item, row: CompactItem)
    requires DistinctRefs(bodies) && ItemHolds(bodies, contexts, item, row) && ItemCompactable(bodies, item)
    ensures ItemExpandsTo(bodies, contexts, row, item) <==> ItemRestorable(bodies, item)
  {
    IndexIsUnique(bodies, Str(item.asset), row.body);
    forall i | 0 <= i < |row.candidates|
      ensures ExpandsTo(bodies, contexts, row.candidates[i], item.candidates[i]) <==> Restorable(bodies, item.candidates[i])
    {
      assert Holds(bodies, contexts, item.candidates[i], row.candidates[i]) && item.candidates[i] in item.candidates;
      RowExpands(bodies, contexts, item.candidates[i], row.candidates[i]);
    }
    if ItemExpandsTo(bodies, contexts, row, item) {
      forall c | c in item.candidates ensures Restorable(bodies, c) {
        var i :| 0 <= i < |item.candidates| && item.candidates[i] == c;
        assert ExpandsTo(bodies, contexts, row.candidates[i], item.candidates[i]);
      }
    }
  }

  ghost predicate AllRestorable(o: Input) {
    DistinctRefs(o.bodies) && forall item | item in o.work :: ItemRestorable(o.bodies, item)
  }

  lemma RestorableIsCompactable(bodies: seq<Body>, item: Item)
    requires ItemRestorable(bodies, item)
    ensures ItemCompactable(bodies, item)
  {
    forall c | c in item.candidates ensures Compactable(bodies, c) {
      assert Restorable(bodies, c);
    }
  }

  /** `compact_semantic_input`, with its closing check: it yields a form that expands to the original exactly
      when every body and context can be restored, and refuses otherwise. */
  method CompactSemanticInput(o: Input) returns (r: Option<Compact>)
    ensures r.Some? <==> AllRestorable(o)
    ensures r.Some? ==> Expands(o, r.value) && NoRepeats(r.value.contexts)
  {
    if !RefsDiffer(o.bodies) {
      return None;
    }
    var contexts: seq<Json>, rows: seq<CompactItem> := [], [];
    for i := 0 to |o.work|
      invariant |rows| == i && NoRepeats(contexts)
      invariant forall j :: 0 <= j < i ==> ItemCompactable(o.bodies, o.work[j]) && ItemHolds(o.bodies, contexts, o.work[j], rows[j])
    {
      var row, now := CompactOne(o.bodies, contexts, o.work[i]);
      forall j | 0 <= j < i ensures ItemHolds(o.bodies, now, o.work[j], rows[j]) {
        ItemHoldsGrows(o.bodies, contexts, now, o.work[j], rows[j]);
      }
      contexts := now;
      if row == None {
        assert o.work[i] in o.work;
        if ItemRestorable(o.bodies, o.work[i]) { RestorableIsCompactable(o.bodies, o.work[i]); }
        return None;
      }
      rows := rows + [row.value];
    }
    var compact := Compact(contexts, BodyRows(o.bodies), rows);
    forall j | 0 <= j < |o.work|
      ensures ItemExpandsTo(o.bodies, contexts, rows[j], o.work[j]) <==> ItemRestorable(o.bodies, o.work[j])
    {
      ItemExpands(o.bodies, contexts, o.work[j], rows[j]);
    }
    if Expands(o, compact) {
      return Some(compact);
    }
    return None;
  }

  predicate RefsDiffer(bodies: seq<Body>)
    ensures RefsDiffer(bodies) <==> DistinctRefs(bodies)
  {
    forall i :: 0 <= i < |bodies| ==> forall j :: i < j < |bodies| ==> bodies[i].ref != bodies[j].ref
  }

  // ---------------------------------------------------------------- which work can be compacted

  predicate BringsContexts(c: Fields) {
    "explicit_contexts" in c && c["explicit_contexts"].List?
  }

  /** The contexts a work item brings are lists, and every candidate brings some. */
  predicate ListsItsContexts(w: Work)
    requires w.asset.Obj?
  {
    && OrEmpty(w.asset.fields, "contexts").List?
    && forall c | c in Used(w) :: BringsContexts(c)
  }

  lemma PresentedIsRestorable(digest: Digest, bodies: seq<Body>, v: Fields)
    requires DistinctRefs(bodies) && Identified(v) && "body_ref" !in v
    requires Find(digest, bodies, KeyOf(digest, v)) < |bodies|
    ensures Restorable(bodies, Presented(digest, bodies, v)) <==> BringsContexts(v)
  {
    PresentedFields(digest, bodies, v);
    IndexIsUnique(bodies, Str(RefIn(digest, bodies, v)), Find(digest, bodies, KeyOf(digest, v)));
  }

  lemma ItemIsRestorable(digest: Digest, bodies: seq<Body>, w: Work)
    requires DistinctRefs(bodies) && Presentable(w) && NoOwnRefs(w)
    requires Covers(digest, bodies, Used(w)) && Covers(digest, bodies, [w.asset.fields])
    ensures ItemRestorable(bodies, ItemOf(digest, bodies, w)) <==> ListsItsContexts(w)
  {
    var item, used, asset := ItemOf(digest, bodies, w), Used(w), w.asset.fields;
    assert asset in [asset];
    IndexIsUnique(bodies, Str(item.asset), Find(digest, bodies, KeyOf(digest, asset)));
    forall i | 0 <= i < |used|
      ensures Restorable(bodies, item.candidates[i]) <==> BringsContexts(used[i])
    {
      assert used[i] in used;
      PresentedIsRestorable(digest, bodies, used[i]);
    }
    if ItemRestorable(bodies, item) {
      forall c | c in used ensures BringsContexts(c) {
        var i :| 0 <= i < |used| && used[i] == c;
        assert item.candidates[i] in item.candidates;
      }
    }
    if ListsItsContexts(w) {
      forall c | c in item.candidates ensures Restorable(bodies, c) {
        var i :| 0 <= i < |used| && item.candidates[i] == c;
        assert used[i] in used;
      }
    }
  }

  /** For work without own references, the compact form is produced exactly when every candidate brings a list of
      explicit contexts and every asset's contexts are a list. */
  lemma WorkIsCompactable(digest: Digest, work: seq<Work>)
    requires AllPresentable(work) && forall w | w in work :: NoOwnRefs(w)
    ensures AllRestorable(DefaultInput(digest, work)) <==> forall w | w in work :: Presentable(w) && ListsItsContexts(w)
  {
    var o := DefaultInput(digest, work);
    VisitsIdentified(work);
    TableIsDistinct(digest, Visits(work));
    forall i | 0 <= i < |work|
      ensures Presentable(work[i]) && (ItemRestorable(o.bodies, o.work[i]) <==> ListsItsContexts(work[i]))
    {
      TableOfWork(digest, work, i);
      assert work[i] in work;
      ItemIsRestorable(digest, o.bodies, work[i]);
    }
    if AllRestorable(o) {
      forall w | w in work ensures Presentable(w) && ListsItsContexts(w) {
        var i :| 0 <= i < |work| && work[i] == w;
        assert o.work[i] in o.work;
      }
    } else {
      var item :| item in o.work && !ItemRestorable(o.bodies, item);
      var i :| 0 <= i < |work| && o.work[i] == item;
      assert work[i] in work;
    }
  }

  // ---------------------------------------------------------------- targets first

  function RefsOf(bodies: seq<Body>): (r: seq<string>)
    ensures |r| == |bodies| && forall i :: 0 <= i < |r| ==> r[i] == bodies[i].ref
  {
    if bodies == [] then [] else RefsOf(bodies[..|bodies| - 1]) + [bodies[|bodies| - 1].ref]
  }

  function Targets(work: seq<Item>): (r: seq<string>)
    ensures |r| == |work| && forall i :: 0 <= i < |r| ==> r[i] == work[i].asset
  {
    if work == [] then [] else Targets(work[..|work| - 1]) + [work[|work| - 1].asset]
  }

  /** `ordered_input` with targets first: the bodies of the work's own sources, in work order, then the others. */
  function TargetsFirst(o: Input): Input
    requires DistinctRefs(o.bodies) && forall item | item in o.work :: Lookup(o.bodies, Str(item.asset)).Some?
  {
    var refs := Firsts(Targets(o.work) + RefsOf(o.bodies));
    Input(seq(|refs|, i requires 0 <= i < |refs| => ListedBody(o, refs[i]); Lookup(o.bodies, Str(refs[i])).value), o.work)
  }

  lemma ListedBody(o: Input, ref: string)
    requires DistinctRefs(o.bodies) && forall item | item in o.work :: Lookup(o.bodies, Str(item.asset)).Some?
    requires ref in Targets(o.work) + RefsOf(o.bodies)
    ensures Lookup(o.bodies, Str(ref)).Some?
  {
    if ref in RefsOf(o.bodies) {
      var i :| 0 <= i < |o.bodies| && o.bodies[i].ref == ref;
      LookupFinds(o.bodies, i);
    } else {
      var i :| 0 <= i < |o.work| && o.work[i].asset == ref;
      assert o.work[i] in o.work;
    }
  }

  /** Reordering keeps every body, once each. */
  lemma TargetsFirstKeeps(o: Input)
    requires DistinctRefs(o.bodies) && forall item | item in o.work :: Lookup(o.bodies, Str(item.asset)).Some?
    ensures var t := TargetsFirst(o);
            && t.work == o.work && DistinctRefs(t.bodies) && (forall b :: b in t.bodies <==> b in o.bodies)
  {
    var t := TargetsFirst(o);
    var all := Targets(o.work) + RefsOf(o.bodies);
    var refs := Firsts(all);
    forall i | 0 <= i < |refs| ensures t.bodies[i].ref == refs[i] && t.bodies[i] in o.bodies {
      assert refs[i] in all;
      ListedBody(o, refs[i]);
    }
    forall b | b in o.bodies ensures b in t.bodies {
      var n :| 0 <= n < |o.bodies| && o.bodies[n] == b;
      LookupFinds(o.bodies, n);
      assert RefsOf(o.bodies)[n] == b.ref && b.ref in all && b.ref in refs;
      var i :| 0 <= i < |refs| && refs[i] == b.ref;
      assert t.bodies[i] == b;
    }
  }

  lemma {:induction false} FirstsBegin(xs: seq<string>, ys: seq<string>)
    ensures Firsts(xs) <= Firsts(xs + ys)
    decreases |ys|
  {
    if ys == [] {
      assert xs + ys == xs;
    } else {
      assert (xs + ys)[..|xs + ys| - 1] == xs + ys[..|ys| - 1];
      FirstsBegin(xs, ys[..|ys| - 1]);
    }
  }

  /** The table begins with the bodies of the work's own sources, in the order of the work. */
  lemma TargetsComeFirst(o: Input, i: nat)
    requires DistinctRefs(o.bodies) && forall item | item in o.work :: Lookup(o.bodies, Str(item.asset)).Some?
    requires i < |Firsts(Targets(o.work))|
    ensures i < |TargetsFirst(o).bodies| && TargetsFirst(o).bodies[i].ref == Firsts(Targets(o.work))[i]
  {
    FirstsBegin(Targets(o.work), RefsOf(o.bodies));
    var refs := Firsts(Targets(o.work) + RefsOf(o.bodies));
    assert refs[i] in Targets(o.work) + RefsOf(o.bodies);
    ListedBody(o, refs[i]);
  }

  /** With the same bodies in another order, the same candidates can be restored. */
  lemma OrderDoesNotMatter(one: seq<Body>, other: seq<Body>, c: Fields)
    requires DistinctRefs(one) && DistinctRefs(other) && forall b :: b in one <==> b in other
    requires Restorable(one, c)
    ensures Restorable(other, c)
  {
    var b := one[BodyIndex(one, c["body_ref"])];
    assert b in other;
    var n :| 0 <= n < |other| && other[n] == b;
    IndexIsUnique(other, c["body_ref"], n);
  }

  lemma ItemOrderDoesNotMatter(one: seq<Body>, other: seq<Body>, item: Item)
    requires DistinctRefs(one) && DistinctRefs(other) && forall b :: b in one <==> b in other
    requires ItemRestorable(one, item)
    ensures ItemRestorable(other, item)
  {
    var b := one[BodyIndex(one, Str(item.asset))];
    assert b in other;
    var n :| 0 <= n < |other| && other[n] == b;
    IndexIsUnique(other, Str(item.asset), n);
    forall c | c in item.candidates ensures Restorable(other, c) {
      OrderDoesNotMatter(one, other, c);
    }
  }

  /** What can be compacted in order of discovery can be compacted with targets first, and the other way round. */
  lemma TargetsFirstIsCompactable(o: Input)
    requires DistinctRefs(o.bodies) && forall item | item in o.work :: Lookup(o.bodies, Str(item.asset)).Some?
    ensures AllRestorable(TargetsFirst(o)) <==> AllRestorable(o)
  {
    var t := TargetsFirst(o);
    TargetsFirstKeeps(o);
    forall item | item in o.work ensures ItemRestorable(t.bodies, item) <==> ItemRestorable(o.bodies, item) {
      if ItemRestorable(t.bodies, item) { ItemOrderDoesNotMatter(t.bodies, o.bodies, item); }
      if ItemRestorable(o.bodies, item) { ItemOrderDoesNotMatter(o.bodies, t.bodies, item); }
    }
  }

  /** With the same bodies in another order, the same name finds the same body. */
  lemma SameLookup(one: seq<Body>, other: seq<Body>, ref: Json)
    requires DistinctRefs(one) && DistinctRefs(other) && forall b :: b in one <==> b in other
    ensures Lookup(one, ref) == Lookup(other, ref)
  {
    if Lookup(one, ref).Some? { FoundInBoth(one, other, ref); }
    if Lookup(other, ref).Some? { FoundInBoth(other, one, ref); }
  }

  lemma FoundInBoth(one: seq<Body>, other: seq<Body>, ref: Json)
    requires DistinctRefs(other) && Lookup(one, ref).Some? && Lookup(one, ref).value in other
    ensures Lookup(other, ref) == Lookup(one, ref)
  {
    var n :| 0 <= n < |other| && other[n] == Lookup(one, ref).value;
    LookupFinds(other, n);
  }

  lemma SameItemPasses(one: seq<Body>, other: seq<Body>, w: Work, item: Item)
    requires DistinctRefs(one) && DistinctRefs(other) && forall b :: b in one <==> b in other
    ensures ItemPasses(one, w, item) <==> ItemPasses(other, w, item)
  {
    SameLookup(one, other, Str(item.asset));
    forall c: Fields | "body_ref" in c ensures Lookup(one, c["body_ref"]) == Lookup(other, c["body_ref"]) {
      SameLookup(one, other, c["body_ref"]);
    }
  }

  /** Every item of a table made from work names a body of the table. */
  lemma ItemsAreFound(digest: Digest, work: seq<Work>)
    requires AllPresentable(work)
    ensures var o := DefaultInput(digest, work);
            DistinctRefs(o.bodies) && |o.work| == |work| && forall item | item in o.work :: Lookup(o.bodies, Str(item.asset)).Some?
  {
    var o := DefaultInput(digest, work);
    VisitsIdentified(work);
    TableIsDistinct(digest, Visits(work));
    forall item | item in o.work ensures Lookup(o.bodies, Str(item.asset)).Some? {
      var i :| 0 <= i < |o.work| && o.work[i] == item;
      AssetIsFound(digest, work, i);
    }
  }

  lemma AssetIsFound(digest: Digest, work: seq<Work>, i: nat)
    requires AllPresentable(work) && i < |work|
    ensures var o := DefaultInput(digest, work); Lookup(o.bodies, Str(o.work[i].asset)).Some?
  {
    TableOfWork(digest, work, i);
    var bodies, v := TableOf(digest, Visits(work)), work[i].asset.fields;
    assert v in [v];
    LookupFinds(bodies, Find(digest, bodies, KeyOf(digest, v)));
  }

  /** Reordered, too, the table passes its own validator under exactly the same condition. */
  lemma TargetsFirstPasses(digest: Digest, work: seq<Work>)
    requires AllPresentable(work)
    ensures var o := DefaultInput(digest, work);
            && DistinctRefs(o.bodies) && (forall item | item in o.work :: Lookup(o.bodies, Str(item.asset)).Some?)
            && (Passes(work, TargetsFirst(o))
                <==> (forall i :: 0 <= i < |work| ==> NoOwnRefs(work[i])) && ToldApart(digest, Visits(work)))
  {
    var o := DefaultInput(digest, work);
    ItemsAreFound(digest, work);
    TargetsFirstKeeps(o);
    var t := TargetsFirst(o);
    forall i | 0 <= i < |work| ensures ItemPasses(t.bodies, work[i], t.work[i]) <==> ItemPasses(o.bodies, work[i], o.work[i]) {
      SameItemPasses(t.bodies, o.bodies, work[i], o.work[i]);
    }
    DefaultInputPasses(digest, work);
  }

  /** And it has a compact form under exactly the same condition on the contexts. */
  lemma TargetsFirstWorkIsCompactable(digest: Digest, work: seq<Work>)
    requires AllPresentable(work) && forall w | w in work :: NoOwnRefs(w)
    ensures var o := DefaultInput(digest, work);
            && DistinctRefs(o.bodies) && (forall item | item in o.work :: Lookup(o.bodies, Str(item.asset)).Some?)
            && (AllRestorable(TargetsFirst(o)) <==> forall w | w in work :: Presentable(w) && ListsItsContexts(w))
  {
    ItemsAreFound(digest, work);
    TargetsFirstIsCompactable(DefaultInput(digest, work));
    WorkIsCompactable(digest, work);
  }
}
