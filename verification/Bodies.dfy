/** The body table of a semantic request: equal sources are listed once and referred to by name. */
module Bodies {
  import opened Json
  import Decimal

  datatype Body = Body(ref: string, id: string, revision: int, content: string)

  type Digest = string -> string

  /** The source has the identity under which a body is listed. */
  predicate Identified(v: Fields) {
    && "content" in v && v["content"].Str? && "id" in v && v["id"].Str? && "revision" in v && v["revision"].Number?
  }

  function ContentOf(v: Fields): string
    requires Identified(v)
  {
    v["content"].text
  }

  predicate AllIdentified(sources: seq<Fields>) {
    forall v | v in sources :: Identified(v)
  }

  // ---------------------------------------------------------------- the body table

  /** The identity under which a body is listed once. */
  datatype Key = Key(id: string, revision: int, digest: string)

  function KeyOf(digest: Digest, v: Fields): Key
    requires Identified(v)
  {
    Key(v["id"].text, v["revision"].number, digest(v["content"].text))
  }

  function BodyKey(digest: Digest, b: Body): Key {
    Key(b.id, b.revision, digest(b.content))
  }

  /** `text[:16]` */
  function Short(text: string): string {
    if |text| <= 16 then text else text[..16]
  }

  function RefName(n: nat, digest: string): string {
    "body-" + Decimal.Padded(n, 5) + "-" + Short(digest)
  }

  /** The position of the first body with this key; the length of the table if there is none. */
  function Find(digest: Digest, bodies: seq<Body>, key: Key): (n: nat)
    ensures n <= |bodies| && (n < |bodies| ==> BodyKey(digest, bodies[n]) == key)
    ensures forall i :: 0 <= i < n ==> BodyKey(digest, bodies[i]) != key
  {
    if bodies == [] then 0
    else
      var n := Find(digest, bodies[..|bodies| - 1], key);
      if n < |bodies| - 1 || BodyKey(digest, bodies[|bodies| - 1]) == key then n else |bodies|
  }

  function NewBody(digest: Digest, n: nat, v: Fields): Body
    requires Identified(v)
  {
    Body(RefName(n, digest(v["content"].text)), v["id"].text, v["revision"].number, v["content"].text)
  }

  function Enter(digest: Digest, bodies: seq<Body>, v: Fields): seq<Body>
    requires Identified(v)
  {
    if Find(digest, bodies, KeyOf(digest, v)) < |bodies| then bodies else bodies + [NewBody(digest, |bodies|, v)]
  }

  function TableOf(digest: Digest, sources: seq<Fields>): seq<Body>
    requires forall v | v in sources :: Identified(v)
  {
    if sources == [] then []
    else Enter(digest, TableOf(digest, sources[..|sources| - 1]), sources[|sources| - 1])
  }

  /** The name under which a source's body is listed. */
  function RefIn(digest: Digest, bodies: seq<Body>, v: Fields): string
    requires Identified(v)
  {
    var n := Find(digest, bodies, KeyOf(digest, v));
    if n < |bodies| then bodies[n].ref else ""
  }

  // ---------------------------------------------------------------- what the table keeps

  /** Every source looked up so far has its body. */
  ghost predicate Covers(digest: Digest, bodies: seq<Body>, sources: seq<Fields>) {
    forall v | v in sources :: Identified(v) && Find(digest, bodies, KeyOf(digest, v)) < |bodies|
  }

  /** No two bodies have the same key, and a body's name tells its position. */
  ghost predicate Numbered(digest: Digest, bodies: seq<Body>) {
    && (forall i, j :: 0 <= i < j < |bodies| ==> BodyKey(digest, bodies[i]) != BodyKey(digest, bodies[j]))
    && forall i :: 0 <= i < |bodies| ==> bodies[i].ref == RefName(i, digest(bodies[i].content))
  }

  lemma {:induction false} FindGrows(digest: Digest, bodies: seq<Body>, more: seq<Body>, key: Key)
    requires Find(digest, bodies, key) < |bodies|
    ensures Find(digest, bodies + more, key) == Find(digest, bodies, key)
  {
    var n, m := Find(digest, bodies, key), Find(digest, bodies + more, key);
    assert BodyKey(digest, (bodies + more)[n]) == key;
    forall i | 0 <= i < n ensures BodyKey(digest, (bodies + more)[i]) != key {
      assert (bodies + more)[i] == bodies[i];
    }
    assert m == n;
  }

  lemma EnterKeeps(digest: Digest, bodies: seq<Body>, v: Fields)
    requires Identified(v) && Numbered(digest, bodies)
    ensures var after := Enter(digest, bodies, v);
            && Numbered(digest, after) && bodies <= after && Find(digest, after, KeyOf(digest, v)) < |after|
  {
    var n := Find(digest, bodies, KeyOf(digest, v));
    if n == |bodies| {
      var after := bodies + [NewBody(digest, |bodies|, v)];
      assert BodyKey(digest, after[|bodies|]) == KeyOf(digest, v);
    }
  }

  lemma CoversGrows(digest: Digest, bodies: seq<Body>, after: seq<Body>, sources: seq<Fields>)
    requires Covers(digest, bodies, sources) && bodies <= after
    ensures Covers(digest, after, sources)
    ensures forall v | v in sources :: RefIn(digest, after, v) == RefIn(digest, bodies, v)
  {
    forall v | v in sources
      ensures Find(digest, after, KeyOf(digest, v)) < |after| && RefIn(digest, after, v) == RefIn(digest, bodies, v)
    {
      FindGrows(digest, bodies, after[|bodies|..], KeyOf(digest, v));
      assert bodies + after[|bodies|..] == after;
    }
  }

  lemma {:induction false} TableKeeps(digest: Digest, sources: seq<Fields>)
    requires forall v | v in sources :: Identified(v)
    ensures Numbered(digest, TableOf(digest, sources)) && Covers(digest, TableOf(digest, sources), sources)
  {
    if sources != [] {
      var front, last := sources[..|sources| - 1], sources[|sources| - 1];
      TableKeeps(digest, front);
      EnterKeeps(digest, TableOf(digest, front), last);
      CoversGrows(digest, TableOf(digest, front), TableOf(digest, sources), front);
      assert sources == front + [last];
    }
  }

  /** A name tells its position, whatever the digest in it. */
  lemma RefNameTells(i: nat, j: nat, a: string, b: string)
    requires RefName(i, a) == RefName(j, b)
    ensures i == j
  {
    var x, y := Decimal.Padded(i, 5), Decimal.Padded(j, 5);
    assert RefName(i, a)[5..] == x + "-" + Short(a) && RefName(j, b)[5..] == y + "-" + Short(b);
    Decimal.PaddedIsDigits(i, 5);
    Decimal.PaddedIsDigits(j, 5);
    Decimal.UpToDash(x, y, Short(a), Short(b));
    Decimal.PaddedIsInjective(i, j, 5);
  }

  ghost predicate DistinctRefs(bodies: seq<Body>) {
    forall i, j :: 0 <= i < j < |bodies| ==> bodies[i].ref != bodies[j].ref
  }

  /** Where id, revision and digest of two sources agree, so does their content. */
  ghost predicate ToldApart(digest: Digest, sources: seq<Fields>) {
    forall u, v | u in sources && v in sources && Identified(u) && Identified(v) ::
      KeyOf(digest, u) == KeyOf(digest, v) ==> ContentOf(u) == ContentOf(v)
  }

  /** The body is that of some source looked up. */
  ghost predicate From(b: Body, sources: seq<Fields>) {
    exists v :: v in sources && Identified(v) && SaysSame(b, v)
  }

  /** The body says what the source says. */
  predicate SaysSame(b: Body, v: Fields)
    requires Identified(v)
  {
    b.id == v["id"].text && b.revision == v["revision"].number && b.content == v["content"].text
  }

  lemma {:induction false} TableComesFrom(digest: Digest, sources: seq<Fields>)
    requires AllIdentified(sources)
    ensures forall b | b in TableOf(digest, sources) :: From(b, sources)
  {
    if sources != [] {
      var front, last := sources[..|sources| - 1], sources[|sources| - 1];
      TableComesFrom(digest, front);
      assert sources == front + [last];
      forall b | b in TableOf(digest, sources) ensures From(b, sources) {
        if b in TableOf(digest, front) {
          var v :| v in front && Identified(v) && SaysSame(b, v);
          assert v in sources;
        } else {
          assert last in sources && SaysSame(b, last);
        }
      }
    }
  }

  /** The bodies have different names. */
  lemma TableIsDistinct(digest: Digest, sources: seq<Fields>)
    requires AllIdentified(sources)
    ensures DistinctRefs(TableOf(digest, sources))
  {
    var bodies := TableOf(digest, sources);
    TableKeeps(digest, sources);
    forall i, j | 0 <= i < j < |bodies| ensures bodies[i].ref != bodies[j].ref {
      if bodies[i].ref == bodies[j].ref {
        RefNameTells(i, j, digest(bodies[i].content), digest(bodies[j].content));
      }
    }
  }

  /** The source's body says what the source says. */
  predicate Listed(digest: Digest, bodies: seq<Body>, v: Fields) {
    Identified(v) && Find(digest, bodies, KeyOf(digest, v)) < |bodies|
    && SaysSame(bodies[Find(digest, bodies, KeyOf(digest, v))], v)
  }

  /** Every source is listed with its own content exactly when the digests tell the sources apart. */
  lemma ToldApartIsListed(digest: Digest, sources: seq<Fields>)
    requires AllIdentified(sources)
    ensures ToldApart(digest, sources) <==> forall v | v in sources :: Listed(digest, TableOf(digest, sources), v)
  {
    if ToldApart(digest, sources) {
      forall v | v in sources ensures Listed(digest, TableOf(digest, sources), v) {
        ToldApartLists(digest, sources, v);
      }
    } else {
      var u, v :| u in sources && v in sources && Identified(u) && Identified(v)
                  && KeyOf(digest, u) == KeyOf(digest, v) && ContentOf(u) != ContentOf(v);
      assert !Listed(digest, TableOf(digest, sources), u) || !Listed(digest, TableOf(digest, sources), v);
    }
  }

  lemma SameKeySaysSame(digest: Digest, sources: seq<Fields>, b: Body, v: Fields)
    requires ToldApart(digest, sources) && From(b, sources) && v in sources && Identified(v)
    requires BodyKey(digest, b) == KeyOf(digest, v)
    ensures SaysSame(b, v)
  {
    var u :| u in sources && Identified(u) && SaysSame(b, u);
    assert KeyOf(digest, u) == KeyOf(digest, v);
    assert ContentOf(u) == ContentOf(v);
  }

  lemma ToldApartLists(digest: Digest, sources: seq<Fields>, v: Fields)
    requires AllIdentified(sources) && ToldApart(digest, sources) && v in sources
    ensures Listed(digest, TableOf(digest, sources), v)
  {
    var bodies := TableOf(digest, sources);
    TableKeeps(digest, sources);
    TableComesFrom(digest, sources);
    var n := Find(digest, bodies, KeyOf(digest, v));
    assert n < |bodies|;
    SameKeySaysSame(digest, sources, bodies[n], v);
  }

  // ---------------------------------------------------------------- looking a body up

  /** The lookup table beside the bodies agrees with a search through them. */
  ghost predicate Indexed(digest: Digest, bodies: seq<Body>, refs: map<Key, string>) {
    forall key :: (key in refs <==> Find(digest, bodies, key) < |bodies|)
                  && (key in refs ==> refs[key] == bodies[Find(digest, bodies, key)].ref)
  }

  method BodyReference(digest: Digest, bodies: seq<Body>, refs: map<Key, string>, v: Fields)
    returns (ref: string, bodies': seq<Body>, refs': map<Key, string>)
    requires Identified(v) && Indexed(digest, bodies, refs)
    ensures bodies' == Enter(digest, bodies, v) && Indexed(digest, bodies', refs') && ref == RefIn(digest, bodies', v)
  {
    bodies', refs' := bodies, refs;
    var key := KeyOf(digest, v);
    if key !in refs {
      ref := RefName(|bodies|, digest(v["content"].text));
      refs' := refs[key := ref];
      bodies' := bodies + [Body(ref, v["id"].text, v["revision"].number, v["content"].text)];
      EntryIndexed(digest, bodies, refs, v);
    }
    ref := refs'[key];
  }

  lemma EntryIndexed(digest: Digest, bodies: seq<Body>, refs: map<Key, string>, v: Fields)
    requires Identified(v) && Indexed(digest, bodies, refs) && KeyOf(digest, v) !in refs
    ensures var body := NewBody(digest, |bodies|, v);
            Indexed(digest, bodies + [body], refs[KeyOf(digest, v) := body.ref])
  {
    var key, body := KeyOf(digest, v), NewBody(digest, |bodies|, v);
    var after := bodies + [body];
    forall k
      ensures (k in refs || k == key) <==> Find(digest, after, k) < |after|
      ensures k in refs && k != key ==> Find(digest, after, k) == Find(digest, bodies, k)
      ensures Find(digest, after, key) == |bodies|
    {
      assert after[..|after| - 1] == bodies;
    }
  }

  lemma TableSnoc(digest: Digest, sources: seq<Fields>, v: Fields)
    requires (forall u | u in sources :: Identified(u)) && Identified(v)
    ensures (forall u | u in sources + [v] :: Identified(u))
    ensures TableOf(digest, sources + [v]) == Enter(digest, TableOf(digest, sources), v)
  {
    assert (sources + [v])[..|sources|] == sources;
  }

  /** The state of the table after looking up `sources`. */
  ghost predicate Built(digest: Digest, sources: seq<Fields>, bodies: seq<Body>, refs: map<Key, string>) {
    AllIdentified(sources) && bodies == TableOf(digest, sources) && Indexed(digest, bodies, refs)
  }

  lemma TableStep(digest: Digest, seen: seq<Fields>, v: Fields)
    requires AllIdentified(seen) && Identified(v)
    ensures AllIdentified(seen + [v]) && Covers(digest, TableOf(digest, seen), seen)
    ensures TableOf(digest, seen + [v]) == Enter(digest, TableOf(digest, seen), v)
    ensures TableOf(digest, seen) <= TableOf(digest, seen + [v])
  {
    TableKeeps(digest, seen);
    TableSnoc(digest, seen, v);
    EnterKeeps(digest, TableOf(digest, seen), v);
  }

  lemma {:induction false} TableExtends(digest: Digest, sources: seq<Fields>, more: seq<Fields>)
    requires AllIdentified(sources + more)
    ensures AllIdentified(sources) && TableOf(digest, sources) <= TableOf(digest, sources + more)
    decreases |more|
  {
    assert forall v | v in sources :: v in sources + more;
    if more == [] {
      assert sources + more == sources;
    } else {
      var front := more[..|more| - 1];
      assert (sources + more)[..|sources + more| - 1] == sources + front;
      assert AllIdentified(sources + front);
      TableExtends(digest, sources, front);
      TableKeeps(digest, sources + front);
      EnterKeeps(digest, TableOf(digest, sources + front), more[|more| - 1]);
    }
  }
}
