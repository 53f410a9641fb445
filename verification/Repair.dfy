/** Location-only repair of a rejected organization: edits named by pointers, which may add passages and mentions
    and move locations, and must leave everything else as it was. */
module Repair {
  import opened Options
  import opened Json

  /** A unit: its location, its context passages and its mentions, which may be absent; `others` is all the rest. */
  datatype Unit = Unit(id: Json, selector: Option<Json>, context: Option<seq<Json>>, mentions: Option<seq<Fields>>, others: Fields)

  datatype Link = Link(source: Fields, target: Fields, kind: Json, others: Fields)

  datatype Organization = Organization(units: seq<Unit>, links: seq<Link>, others: Fields)

  /** The JSON pointers a repair may use; any other text is `Elsewhere`. */
  datatype Pointer =
    | ContextEnd(unit: nat)
    | MentionsEnd(unit: nat)
    | MentionSelector(unit: nat, mention: nat)
    | UnitSelector(unit: nat)
    | LinkEnd(link: nat, source: bool)
    | Elsewhere(text: string)

  datatype Edit = Edit(pointer: Pointer, value: Json)

  datatype End = End(link: nat, source: bool)

  /** What the rejection names: units, those of them whose own location is at fault, and ends of links. */
  datatype Rejection = Rejection(units: set<nat>, selectors: set<nat>, ends: set<End>)

  /** The output contract where its wording does not matter: a replacement's schema, the kinds of link it knows, and
      the schema of a whole organization. */
  datatype Contract = Contract(fits: (Pointer, Json) -> bool, kind: Json -> bool, whole: Organization -> bool)

  function Context(u: Unit): seq<Json> {
    if u.context.Some? then u.context.value else []
  }

  function Mentions(u: Unit): seq<Fields> {
    if u.mentions.Some? then u.mentions.value else []
  }

  function EndOf(l: Link, source: bool): Fields {
    if source then l.source else l.target
  }

  function Get(o: Fields, key: string): Json {
    if key in o then o[key] else Null
  }

  // ---------------------------------------------------------------- what may be edited

  /** The unit is named, or a named end of a link in the rejected source points at it. */
  predicate Named(o: Organization, r: Rejection, owner: string, i: nat)
    requires i < |o.units|
  {
    || i in r.units
    || exists e | e in r.ends ::
         e.link < |o.links| && Get(EndOf(o.links[e.link], e.source), "asset_id") == Str(owner)
         && Get(EndOf(o.links[e.link], e.source), "unit_id") == o.units[i].id
  }

  /** `fields`: the pointers a repair of this rejection may use. */
  predicate Allowed(c: Contract, o: Organization, r: Rejection, owner: string, p: Pointer) {
    match p
    case ContextEnd(i) => i < |o.units| && Named(o, r, owner, i)
    case MentionsEnd(i) => i < |o.units| && Named(o, r, owner, i)
    case MentionSelector(i, j) => i < |o.units| && Named(o, r, owner, i) && j < |Mentions(o.units[i])|
    case UnitSelector(i) => i < |o.units| && Named(o, r, owner, i) && i in r.selectors
    case LinkEnd(k, source) => k < |o.links| && End(k, source) in r.ends && c.kind(o.links[k].kind)
    case Elsewhere(_) => false
  }

  /** The replacement passes the schema at its pointer; a link's end keeps the source it is in. */
  predicate Fits(c: Contract, o: Organization, e: Edit) {
    && c.fits(e.pointer, e.value)
    && match e.pointer
       case ContextEnd(_) => e.value.List?
       case MentionsEnd(_) =>
         e.value.List? && forall m | m in e.value.items :: m.Obj? && "id" in m.fields && m.fields["id"].Str?
       case LinkEnd(k, source) =>
         e.value.Obj? && k < |o.links| && "asset_id" in e.value.fields
         && e.value.fields["asset_id"] == Get(EndOf(o.links[k], source), "asset_id")
       case _ => true
  }

  // ---------------------------------------------------------------- the edits

  /** Append what is not there yet, in order. */
  function AppendNew(values: seq<Json>, more: seq<Json>): seq<Json> {
    if more == [] then values
    else
      var front, last := AppendNew(values, more[..|more| - 1]), more[|more| - 1];
      if last in front then front else front + [last]
  }

  /** Append mentions; None where one would replace another of the same id. */
  function AppendMentions(mentions: seq<Fields>, more: seq<Json>): Option<seq<Fields>>
    requires forall m | m in more :: m.Obj?
  {
    if more == [] then Some(mentions)
    else
      match AppendMentions(mentions, more[..|more| - 1])
      case None => None
      case Some(front) =>
        assert more[|more| - 1] in more;
        var m := more[|more| - 1].fields;
        if exists x | x in front :: Get(x, "id") == Get(m, "id") && x != m then None
        else Some(if m in front then front else front + [m])
  }

  /** One edit of the organization; `was` is the one that was rejected. */
  function Apply(c: Contract, was: Organization, r: Rejection, owner: string, o: Organization, e: Edit): Option<Organization> {
    if !Allowed(c, was, r, owner, e.pointer) || !Fits(c, was, e) then None
    else
      match e.pointer
      case ContextEnd(i) =>
        if i < |o.units| then
          var u := o.units[i];
          Some(o.(units := o.units[i := u.(context := Some(AppendNew(Context(u), e.value.items)))]))
        else None
      case MentionsEnd(i) =>
        if i < |o.units| then
          var u := o.units[i];
          match AppendMentions(Mentions(u), e.value.items)
          case None => None
          case Some(mentions) => Some(o.(units := o.units[i := u.(mentions := Some(mentions))]))
        else None
      case MentionSelector(i, j) =>
        if i < |o.units| && j < |Mentions(o.units[i])| then
          var u := o.units[i];
          var m := Mentions(u)[j]["selector" := e.value];
          Some(o.(units := o.units[i := u.(mentions := Some(Mentions(u)[j := m]))]))
        else None
      case UnitSelector(i) =>
        if i < |o.units| then Some(o.(units := o.units[i := o.units[i].(selector := Some(e.value))])) else None
      case LinkEnd(k, source) =>
        if k < |o.links| then
          var l := o.links[k];
          Some(o.(links := o.links[k := if source then l.(source := e.value.fields) else l.(target := e.value.fields)]))
        else None
      case Elsewhere(_) => None
  }

  function ApplyAll(c: Contract, was: Organization, r: Rejection, owner: string, edits: seq<Edit>): Option<Organization> {
    if edits == [] then Some(was)
    else
      match ApplyAll(c, was, r, owner, edits[..|edits| - 1])
      case None => None
      case Some(o) => Apply(c, was, r, owner, o, edits[|edits| - 1])
  }

  /** `{m['id']: m for m in mentions}`: the last mention of an id. */
  function LastWith(mentions: seq<Fields>, id: Json): Option<Fields> {
    if mentions == [] then None
    else if Get(mentions[|mentions| - 1], "id") == id then Some(mentions[|mentions| - 1])
    else LastWith(mentions[..|mentions| - 1], id)
  }

  /** The comparison of every old passage and mention with the result. */
  predicate Kept(before: Unit, after: Unit) {
    && (forall x | x in Context(before) :: x in Context(after))
    && (forall m | m in Mentions(after) :: "id" in m)
    && forall m | m in Mentions(before) ::
         "id" in m && LastWith(Mentions(after), m["id"]).Some?
         && m - {"selector"} == LastWith(Mentions(after), m["id"]).value - {"selector"}
  }

  predicate AllKept(before: Organization, after: Organization) {
    forall i :: 0 <= i < |before.units| && i < |after.units| ==> Kept(before.units[i], after.units[i])
  }

  /** The repaired organization of one work item, or None for the broader repair. */
  function Repaired(c: Contract, was: Organization, r: Rejection, owner: string, edits: seq<Edit>): Option<Organization> {
    if edits == [] then None
    else
      match ApplyAll(c, was, r, owner, edits)
      case None => None
      case Some(o) => if AllKept(was, o) && c.whole(o) then Some(o) else None
  }

  // ---------------------------------------------------------------- what an accepted repair leaves alone

  predicate Uses(edits: seq<Edit>, p: Pointer) {
    exists e :: e in edits && e.pointer == p
  }

  /** A mention after the edits: the same but for its location, and that too unless an edit names it. */
  ghost predicate MentionKept(edits: seq<Edit>, i: nat, j: nat, before: Fields, after: Fields) {
    && before - {"selector"} == after - {"selector"}
    && (!Uses(edits, MentionSelector(i, j)) ==> after == before)
  }

  /** A unit after the edits. Contexts and mentions grow at the end only. */
  ghost predicate UnitKept(edits: seq<Edit>, i: nat, before: Unit, after: Unit) {
    && after.id == before.id && after.others == before.others
    && (!Uses(edits, UnitSelector(i)) ==> after.selector == before.selector)
    && Context(before) <= Context(after)
    && (!Uses(edits, ContextEnd(i)) ==> after.context == before.context)
    && |Mentions(before)| <= |Mentions(after)|
    && (!Uses(edits, MentionsEnd(i)) ==> |Mentions(after)| == |Mentions(before)|)
    && forall j :: 0 <= j < |Mentions(before)| ==> MentionKept(edits, i, j, Mentions(before)[j], Mentions(after)[j])
  }

  /** A link after the edits: an end that an edit names stays in its source, the rest is untouched. */
  ghost predicate LinkKept(edits: seq<Edit>, k: nat, before: Link, after: Link) {
    && after.kind == before.kind && after.others == before.others
    && (forall source :: Get(EndOf(after, source), "asset_id") == Get(EndOf(before, source), "asset_id"))
    && forall source :: !Uses(edits, LinkEnd(k, source)) ==> EndOf(after, source) == EndOf(before, source)
  }

  ghost predicate OnlyLocations(edits: seq<Edit>, before: Organization, after: Organization) {
    && after.others == before.others && |after.units| == |before.units| && |after.links| == |before.links|
    && (forall i :: 0 <= i < |before.units| ==> UnitKept(edits, i, before.units[i], after.units[i]))
    && forall k :: 0 <= k < |before.links| ==> LinkKept(edits, k, before.links[k], after.links[k])
  }

  lemma {:induction false} AppendNewGrows(values: seq<Json>, more: seq<Json>)
    ensures values <= AppendNew(values, more)
    ensures forall x :: x in AppendNew(values, more) <==> x in values || x in more
  {
    if more != [] {
      var n := |more| - 1;
      AppendNewGrows(values, more[..n]);
      assert more == more[..n] + [more[n]];
    }
  }

  lemma {:induction false} AppendMentionsGrows(mentions: seq<Fields>, more: seq<Json>)
    requires (forall m | m in more :: m.Obj?) && AppendMentions(mentions, more).Some?
    ensures mentions <= AppendMentions(mentions, more).value
  {
    if more != [] { AppendMentionsGrows(mentions, more[..|more| - 1]); }
  }

  lemma UsesMore(edits: seq<Edit>, e: Edit, p: Pointer)
    ensures Uses(edits + [e], p) <==> Uses(edits, p) || e.pointer == p
  {
    if e.pointer == p { assert e in edits + [e]; }
    if x :| x in edits && x.pointer == p { assert x in edits + [e]; }
  }

  lemma UnitUntouched(edits: seq<Edit>, e: Edit, i: nat, before: Unit, after: Unit)
    requires UnitKept(edits, i, before, after)
    ensures UnitKept(edits + [e], i, before, after)
  {
    UsesMore(edits, e, UnitSelector(i));
    UsesMore(edits, e, ContextEnd(i));
    UsesMore(edits, e, MentionsEnd(i));
    forall j | 0 <= j < |Mentions(before)|
      ensures MentionKept(edits + [e], i, j, Mentions(before)[j], Mentions(after)[j])
    {
      UsesMore(edits, e, MentionSelector(i, j));
      assert MentionKept(edits, i, j, Mentions(before)[j], Mentions(after)[j]);
    }
  }

  lemma LinkUntouched(edits: seq<Edit>, e: Edit, k: nat, before: Link, after: Link)
    requires LinkKept(edits, k, before, after)
    ensures LinkKept(edits + [e], k, before, after)
  {
    UsesMore(edits, e, LinkEnd(k, true));
    UsesMore(edits, e, LinkEnd(k, false));
  }

  /** The unit an edit is about. */
  function UnitOf(p: Pointer): Option<nat> {
    match p
    case ContextEnd(i) => Some(i) case MentionsEnd(i) => Some(i) case MentionSelector(i, _) => Some(i)
    case UnitSelector(i) => Some(i) case _ => None
  }

  function LinkOf(p: Pointer): Option<nat> {
    if p.LinkEnd? then Some(p.link) else None
  }

  /** An edit touches its own unit or link only. */
  lemma ApplyFrame(c: Contract, was: Organization, r: Rejection, owner: string, o: Organization, e: Edit)
    requires Apply(c, was, r, owner, o, e).Some?
    ensures var t := Apply(c, was, r, owner, o, e).value;
            && t.others == o.others && |t.units| == |o.units| && |t.links| == |o.links|
            && (forall i :: 0 <= i < |o.units| && UnitOf(e.pointer) != Some(i) ==> t.units[i] == o.units[i])
            && (forall k :: 0 <= k < |o.links| && LinkOf(e.pointer) != Some(k) ==> t.links[k] == o.links[k])
            && (UnitOf(e.pointer).Some? ==> UnitOf(e.pointer).value < |o.units|)
            && (LinkOf(e.pointer).Some? ==> LinkOf(e.pointer).value < |o.links|)
  {
  }

  lemma ContextStep(c: Contract, was: Organization, r: Rejection, owner: string, edits: seq<Edit>, o: Organization, e: Edit)
    requires e.pointer.ContextEnd? && Apply(c, was, r, owner, o, e).Some? && |o.units| == |was.units|
    requires var i := e.pointer.unit; i < |was.units| && UnitKept(edits, i, was.units[i], o.units[i])
    ensures var i := e.pointer.unit; UnitKept(edits + [e], i, was.units[i], Apply(c, was, r, owner, o, e).value.units[i])
  {
    var i := e.pointer.unit;
    AppendNewGrows(Context(o.units[i]), e.value.items);
    UsesMore(edits, e, e.pointer);
    UnitUntouched(edits, e, i, was.units[i], o.units[i]);
  }

  lemma MentionsStep(c: Contract, was: Organization, r: Rejection, owner: string, edits: seq<Edit>, o: Organization, e: Edit)
    requires e.pointer.MentionsEnd? && Apply(c, was, r, owner, o, e).Some? && |o.units| == |was.units|
    requires var i := e.pointer.unit; i < |was.units| && UnitKept(edits, i, was.units[i], o.units[i])
    ensures var i := e.pointer.unit; UnitKept(edits + [e], i, was.units[i], Apply(c, was, r, owner, o, e).value.units[i])
  {
    var i := e.pointer.unit;
    var before, mid, after := was.units[i], o.units[i], Apply(c, was, r, owner, o, e).value.units[i];
    AppendMentionsGrows(Mentions(mid), e.value.items);
    UsesMore(edits, e, e.pointer);
    UnitUntouched(edits, e, i, before, mid);
    forall j | 0 <= j < |Mentions(before)|
      ensures MentionKept(edits + [e], i, j, Mentions(before)[j], Mentions(after)[j])
    {
      assert MentionKept(edits + [e], i, j, Mentions(before)[j], Mentions(mid)[j]);
      assert Mentions(after)[j] == Mentions(mid)[j];
    }
  }

  lemma SelectorStep(c: Contract, was: Organization, r: Rejection, owner: string, edits: seq<Edit>, o: Organization, e: Edit)
    requires e.pointer.MentionSelector? && Apply(c, was, r, owner, o, e).Some? && |o.units| == |was.units|
    requires var i := e.pointer.unit; i < |was.units| && UnitKept(edits, i, was.units[i], o.units[i])
    ensures var i := e.pointer.unit; UnitKept(edits + [e], i, was.units[i], Apply(c, was, r, owner, o, e).value.units[i])
  {
    var i := e.pointer.unit;
    var before, mid, after := was.units[i], o.units[i], Apply(c, was, r, owner, o, e).value.units[i];
    UsesMore(edits, e, e.pointer);
    UnitUntouched(edits, e, i, before, mid);
    forall j | 0 <= j < |Mentions(before)|
      ensures MentionKept(edits + [e], i, j, Mentions(before)[j], Mentions(after)[j])
    {
      assert MentionKept(edits + [e], i, j, Mentions(before)[j], Mentions(mid)[j]);
      if j == e.pointer.mention {
        assert Mentions(after)[j] - {"selector"} == Mentions(mid)[j] - {"selector"};
      } else {
        assert Mentions(after)[j] == Mentions(mid)[j];
      }
    }
  }

  lemma UnitSelectorStep(c: Contract, was: Organization, r: Rejection, owner: string, edits: seq<Edit>, o: Organization, e: Edit)
    requires e.pointer.UnitSelector? && Apply(c, was, r, owner, o, e).Some? && |o.units| == |was.units|
    requires var i := e.pointer.unit; i < |was.units| && UnitKept(edits, i, was.units[i], o.units[i])
    ensures var i := e.pointer.unit; UnitKept(edits + [e], i, was.units[i], Apply(c, was, r, owner, o, e).value.units[i])
  {
    var i := e.pointer.unit;
    UsesMore(edits, e, e.pointer);
    UnitUntouched(edits, e, i, was.units[i], o.units[i]);
  }

  lemma LinkStep(c: Contract, was: Organization, r: Rejection, owner: string, edits: seq<Edit>, o: Organization, e: Edit)
    requires e.pointer.LinkEnd? && Apply(c, was, r, owner, o, e).Some? && |o.links| == |was.links|
    requires var k := e.pointer.link; k < |was.links| && LinkKept(edits, k, was.links[k], o.links[k])
    ensures var k := e.pointer.link; LinkKept(edits + [e], k, was.links[k], Apply(c, was, r, owner, o, e).value.links[k])
  {
    var k := e.pointer.link;
    LinkUntouched(edits, e, k, was.links[k], o.links[k]);
    UsesMore(edits, e, e.pointer);
  }

  lemma ApplyStep(c: Contract, was: Organization, r: Rejection, owner: string, edits: seq<Edit>, o: Organization, e: Edit)
    requires OnlyLocations(edits, was, o) && Apply(c, was, r, owner, o, e).Some?
    ensures OnlyLocations(edits + [e], was, Apply(c, was, r, owner, o, e).value)
  {
    var t := Apply(c, was, r, owner, o, e).value;
    ApplyFrame(c, was, r, owner, o, e);
    forall i | 0 <= i < |was.units| ensures UnitKept(edits + [e], i, was.units[i], t.units[i]) {
      if UnitOf(e.pointer) != Some(i) { UnitUntouched(edits, e, i, was.units[i], o.units[i]); }
      else if e.pointer.ContextEnd? { ContextStep(c, was, r, owner, edits, o, e); }
      else if e.pointer.MentionsEnd? { MentionsStep(c, was, r, owner, edits, o, e); }
      else if e.pointer.MentionSelector? { SelectorStep(c, was, r, owner, edits, o, e); }
      else { UnitSelectorStep(c, was, r, owner, edits, o, e); }
    }
    forall k | 0 <= k < |was.links| ensures LinkKept(edits + [e], k, was.links[k], t.links[k]) {
      if LinkOf(e.pointer) != Some(k) { LinkUntouched(edits, e, k, was.links[k], o.links[k]); }
      else { LinkStep(c, was, r, owner, edits, o, e); }
    }
  }

  lemma {:induction false} EditsOnlyLocations(c: Contract, was: Organization, r: Rejection, owner: string, edits: seq<Edit>)
    requires ApplyAll(c, was, r, owner, edits).Some?
    ensures OnlyLocations(edits, was, ApplyAll(c, was, r, owner, edits).value)
    ensures forall e | e in edits :: Allowed(c, was, r, owner, e.pointer)
  {
    if edits != [] {
      var n := |edits| - 1;
      EditsOnlyLocations(c, was, r, owner, edits[..n]);
      ApplyStep(c, was, r, owner, edits[..n], ApplyAll(c, was, r, owner, edits[..n]).value, edits[n]);
      assert edits == edits[..n] + [edits[n]];
    }
  }

  /** An accepted repair uses allowed pointers only; outside them the organization is equal to the rejected one, every
      passage and mention it had is still there in its place, and a link's ends stay in their sources. */
  lemma AcceptedKeepsMeaning(c: Contract, was: Organization, r: Rejection, owner: string, edits: seq<Edit>)
    requires Repaired(c, was, r, owner, edits).Some?
    ensures OnlyLocations(edits, was, Repaired(c, was, r, owner, edits).value)
    ensures edits != [] && forall e | e in edits :: Allowed(c, was, r, owner, e.pointer)
  {
    EditsOnlyLocations(c, was, r, owner, edits);
  }

  // ---------------------------------------------------------------- when the closing comparison fails

  /** Every mention has an id, and mentions of one id differ in their location only. */
  ghost predicate Consistent(u: Unit) {
    && (forall m | m in Mentions(u) :: "id" in m)
    && forall i, j :: 0 <= i < j < |Mentions(u)| && Get(Mentions(u)[i], "id") == Get(Mentions(u)[j], "id") ==>
         Mentions(u)[i] - {"selector"} == Mentions(u)[j] - {"selector"}
  }

  /** Mentions from `n` on have ids that no earlier mention has. */
  ghost predicate NewIds(mentions: seq<Fields>, n: nat) {
    forall x :: n <= x < |mentions| ==> "id" in mentions[x] && NewId(mentions, x)
  }

  ghost predicate NewId(mentions: seq<Fields>, x: nat)
    requires x < |mentions|
  {
    forall y :: 0 <= y < x ==> Get(mentions[y], "id") != Get(mentions[x], "id")
  }

  lemma {:induction false} AppendedAreNew(mentions: seq<Fields>, more: seq<Json>, n: nat)
    requires NewIds(mentions, n) && n <= |mentions|
    requires forall m | m in more :: m.Obj? && "id" in m.fields
    requires AppendMentions(mentions, more).Some?
    ensures NewIds(AppendMentions(mentions, more).value, n)
  {
    if more != [] {
      var k := |more| - 1;
      AppendedAreNew(mentions, more[..k], n);
      var front, m := AppendMentions(mentions, more[..k]).value, more[k].fields;
      var all := AppendMentions(mentions, more).value;
      assert more[k] in more;
      if all != front {
        forall y | 0 <= y < |front| ensures Get(front[y], "id") != Get(m, "id") {
          assert front[y] in front;
        }
        forall x | n <= x < |all| ensures "id" in all[x] && NewId(all, x) {
          if x < |front| { assert NewId(front, x); }
        }
      }
    }
  }

  lemma SameIdsNew(mentions: seq<Fields>, after: seq<Fields>, n: nat)
    requires NewIds(mentions, n) && |after| == |mentions|
    requires forall x :: 0 <= x < |after| ==> Get(after[x], "id") == Get(mentions[x], "id") && ("id" in after[x] <==> "id" in mentions[x])
    ensures NewIds(after, n)
  {
    forall x | n <= x < |after| ensures "id" in after[x] && NewId(after, x) {
      assert NewId(mentions, x);
    }
  }

  /** Whatever the edits append to a unit's mentions is new to it. */
  lemma {:induction false} EditsAppendNew(c: Contract, was: Organization, r: Rejection, owner: string, edits: seq<Edit>, i: nat)
    requires ApplyAll(c, was, r, owner, edits).Some? && i < |was.units|
    ensures i < |ApplyAll(c, was, r, owner, edits).value.units|
    ensures NewIds(Mentions(ApplyAll(c, was, r, owner, edits).value.units[i]), |Mentions(was.units[i])|)
  {
    if edits != [] {
      var n, e := |edits| - 1, edits[|edits| - 1];
      EditsAppendNew(c, was, r, owner, edits[..n], i);
      EditsOnlyLocations(c, was, r, owner, edits[..n]);
      var o := ApplyAll(c, was, r, owner, edits[..n]).value;
      ApplyFrame(c, was, r, owner, o, e);
      AppendNewStep(c, was, r, owner, o, e, i, |Mentions(was.units[i])|);
    }
  }

  lemma AppendNewStep(c: Contract, was: Organization, r: Rejection, owner: string, o: Organization, e: Edit, i: nat, n: nat)
    requires Apply(c, was, r, owner, o, e).Some? && i < |o.units| && n <= |Mentions(o.units[i])|
    requires NewIds(Mentions(o.units[i]), n)
    ensures i < |Apply(c, was, r, owner, o, e).value.units|
    ensures NewIds(Mentions(Apply(c, was, r, owner, o, e).value.units[i]), n)
  {
    ApplyFrame(c, was, r, owner, o, e);
    var after := Apply(c, was, r, owner, o, e).value.units[i];
    if UnitOf(e.pointer) == Some(i) {
      if e.pointer.MentionsEnd? {
        AppendedAreNew(Mentions(o.units[i]), e.value.items, n);
      } else {
        SameIdsNew(Mentions(o.units[i]), Mentions(after), n);
      }
    }
  }

  lemma {:induction false} LastWithIs(mentions: seq<Fields>, id: Json)
    ensures match LastWith(mentions, id)
            case None => forall x :: 0 <= x < |mentions| ==> Get(mentions[x], "id") != id
            case Some(m) => exists l: nat :: IsLastWith(mentions, id, l) && mentions[l] == m
  {
    if mentions != [] {
      var n := |mentions| - 1;
      if Get(mentions[n], "id") == id {
        assert IsLastWith(mentions, id, n);
      } else {
        LastWithIs(mentions[..n], id);
        if LastWith(mentions[..n], id).Some? {
          var l: nat :| IsLastWith(mentions[..n], id, l) && mentions[..n][l] == LastWith(mentions, id).value;
          assert IsLastWith(mentions, id, l);
        }
      }
    }
  }

  ghost predicate IsLastWith(mentions: seq<Fields>, id: Json, l: nat) {
    l < |mentions| && Get(mentions[l], "id") == id && forall x :: l < x < |mentions| ==> Get(mentions[x], "id") != id
  }

  ghost predicate SamePlaces(before: seq<Fields>, after: seq<Fields>) {
    |before| <= |after| && forall j :: 0 <= j < |before| ==> before[j] - {"selector"} == after[j] - {"selector"}
  }

  /** Taking away the location keeps the id. */
  lemma SameId(a: Fields, b: Fields)
    requires a - {"selector"} == b - {"selector"}
    ensures Get(a, "id") == Get(b, "id") && ("id" in a <==> "id" in b)
  {
    assert "id" in a <==> "id" in a - {"selector"};
    assert "id" in b <==> "id" in b - {"selector"};
    if "id" in a { assert (a - {"selector"})["id"] == a["id"] && (b - {"selector"})["id"] == b["id"]; }
  }

  /** An old mention is compared with the last old mention of its id. */
  lemma ComparedWith(before: seq<Fields>, after: seq<Fields>, j: nat)
    requires SamePlaces(before, after) && NewIds(after, |before|) && j < |before|
    ensures var last := LastWith(after, Get(before[j], "id"));
            last.Some? && exists l :: j <= l < |before| && Get(before[l], "id") == Get(before[j], "id")
                                      && last.value - {"selector"} == before[l] - {"selector"}
  {
    var id := Get(before[j], "id");
    LastWithIs(after, id);
    SameId(before[j], after[j]);
    var l: nat :| IsLastWith(after, id, l) && after[l] == LastWith(after, id).value;
    assert j <= l < |before|;
    SameId(before[l], after[l]);
  }

  lemma KeptIsConsistent(before: Unit, after: Unit)
    requires SamePlaces(Mentions(before), Mentions(after)) && NewIds(Mentions(after), |Mentions(before)|)
    requires Context(before) <= Context(after)
    ensures Kept(before, after) ==> Consistent(before)
  {
    var ms := Mentions(before);
    if Kept(before, after) {
      forall m | m in ms ensures "id" in m { }
      forall i, j | 0 <= i < j < |ms| && Get(ms[i], "id") == Get(ms[j], "id")
        ensures ms[i] - {"selector"} == ms[j] - {"selector"}
      {
        assert ms[i] in ms && ms[j] in ms;
      }
    }
  }

  lemma ConsistentIsKept(before: Unit, after: Unit)
    requires SamePlaces(Mentions(before), Mentions(after)) && NewIds(Mentions(after), |Mentions(before)|)
    requires Context(before) <= Context(after)
    ensures Consistent(before) ==> Kept(before, after)
  {
    var olds, news := Mentions(before), Mentions(after);
    if Consistent(before) {
      forall x | 0 <= x < |news| ensures "id" in news[x] {
        if x < |olds| { SameId(olds[x], news[x]); assert olds[x] in olds; }
      }
      forall m | m in olds
        ensures "id" in m && LastWith(news, m["id"]).Some? && m - {"selector"} == LastWith(news, m["id"]).value - {"selector"}
      {
        var j :| 0 <= j < |olds| && olds[j] == m;
        ComparedWith(olds, news, j);
      }
    }
  }

  /** After successful edits the closing comparison of passages and mentions passes exactly when every mention of the
      rejected organization has an id and mentions that share one differ in location only. */
  lemma ComparisonDecides(c: Contract, was: Organization, r: Rejection, owner: string, edits: seq<Edit>)
    requires ApplyAll(c, was, r, owner, edits).Some?
    ensures AllKept(was, ApplyAll(c, was, r, owner, edits).value) <==> forall i :: 0 <= i < |was.units| ==> Consistent(was.units[i])
  {
    var o := ApplyAll(c, was, r, owner, edits).value;
    EditsOnlyLocations(c, was, r, owner, edits);
    forall i | 0 <= i < |was.units| ensures Kept(was.units[i], o.units[i]) <==> Consistent(was.units[i]) {
      assert UnitKept(edits, i, was.units[i], o.units[i]);
      EditsAppendNew(c, was, r, owner, edits, i);
      forall j | 0 <= j < |Mentions(was.units[i])|
        ensures Mentions(was.units[i])[j] - {"selector"} == Mentions(o.units[i])[j] - {"selector"}
      {
        assert MentionKept(edits, i, j, Mentions(was.units[i])[j], Mentions(o.units[i])[j]);
      }
      KeptIsConsistent(was.units[i], o.units[i]);
      ConsistentIsKept(was.units[i], o.units[i]);
    }
  }

  // ---------------------------------------------------------------- applying repairs

  method AppendPassages(values: seq<Json>, more: seq<Json>) returns (r: seq<Json>)
    ensures r == AppendNew(values, more)
  {
    r := values;
    for i := 0 to |more|
      invariant r == AppendNew(values, more[..i])
    {
      assert more[..i + 1][..i] == more[..i];
      if more[i] !in r {
        r := r + [more[i]];
      }
    }
    assert more[..|more|] == more;
  }

  method AppendObjects(mentions: seq<Fields>, more: seq<Json>) returns (r: Option<seq<Fields>>)
    requires forall m | m in more :: m.Obj?
    ensures r == AppendMentions(mentions, more)
  {
    var parent := mentions;
    for i := 0 to |more|
      invariant AppendMentions(mentions, more[..i]) == Some(parent)
    {
      assert more[..i + 1][..i] == more[..i];
      var m := more[i].fields;
      if exists x | x in parent :: Get(x, "id") == Get(m, "id") && x != m {
        NoneStays(mentions, more, i + 1);
        return None;
      }
      if m !in parent {
        parent := parent + [m];
      }
    }
    assert more[..|more|] == more;
    return Some(parent);
  }

  lemma {:induction false} NoneStays(mentions: seq<Fields>, more: seq<Json>, n: nat)
    requires n <= |more| && (forall m | m in more :: m.Obj?) && AppendMentions(mentions, more[..n]) == None
    ensures AppendMentions(mentions, more) == None
    decreases |more| - n
  {
    if n < |more| {
      assert more[..n + 1][..n] == more[..n];
      NoneStays(mentions, more, n + 1);
    } else {
      assert more[..n] == more;
    }
  }

  lemma {:induction false} FailureStays(c: Contract, was: Organization, r: Rejection, owner: string, edits: seq<Edit>, n: nat)
    requires n <= |edits| && ApplyAll(c, was, r, owner, edits[..n]) == None
    ensures ApplyAll(c, was, r, owner, edits) == None
    decreases |edits| - n
  {
    if n < |edits| {
      assert edits[..n + 1][..n] == edits[..n];
      FailureStays(c, was, r, owner, edits, n + 1);
    } else {
      assert edits[..n] == edits;
    }
  }

  /** One edit in place: walk to the parent, append or replace. */
  method EditOne(c: Contract, was: Organization, r: Rejection, owner: string, o: Organization, e: Edit) returns (t: Option<Organization>)
    ensures t == Apply(c, was, r, owner, o, e)
  {
    if !Allowed(c, was, r, owner, e.pointer) || !Fits(c, was, e) {
      return None;
    }
    match e.pointer {
      case ContextEnd(i) =>
        if i >= |o.units| { return None; }
        var context := AppendPassages(Context(o.units[i]), e.value.items);
        return Some(o.(units := o.units[i := o.units[i].(context := Some(context))]));
      case MentionsEnd(i) =>
        if i >= |o.units| { return None; }
        var mentions := AppendObjects(Mentions(o.units[i]), e.value.items);
        if mentions == None { return None; }
        return Some(o.(units := o.units[i := o.units[i].(mentions := mentions)]));
      case MentionSelector(i, j) =>
        if i >= |o.units| || j >= |Mentions(o.units[i])| { return None; }
        var mentions := Mentions(o.units[i]);
        mentions := mentions[j := mentions[j]["selector" := e.value]];
        return Some(o.(units := o.units[i := o.units[i].(mentions := Some(mentions))]));
      case UnitSelector(i) =>
        if i >= |o.units| { return None; }
        return Some(o.(units := o.units[i := o.units[i].(selector := Some(e.value))]));
      case LinkEnd(k, source) =>
        if k >= |o.links| { return None; }
        var link := if source then o.links[k].(source := e.value.fields) else o.links[k].(target := e.value.fields);
        return Some(o.(links := o.links[k := link]));
      case Elsewhere(_) => return None;
    }
  }

  /** The repair of one work item. */
  method RepairOne(c: Contract, was: Organization, r: Rejection, owner: string, edits: seq<Edit>) returns (t: Option<Organization>)
    ensures t == Repaired(c, was, r, owner, edits)
  {
    if edits == [] {
      return None;
    }
    var o := was;
    for i := 0 to |edits|
      invariant ApplyAll(c, was, r, owner, edits[..i]) == Some(o)
    {
      assert edits[..i + 1][..i] == edits[..i];
      var next := EditOne(c, was, r, owner, o, edits[i]);
      if next == None {
        FailureStays(c, was, r, owner, edits, i + 1);
        return None;
      }
      o := next.value;
    }
    assert edits[..|edits|] == edits;
    if AllKept(was, o) && c.whole(o) {
      return Some(o);
    }
    return None;
  }

  datatype Item = Item(work: string, owner: string, was: Organization, rejection: Rejection)

  datatype Row = Row(work: string, edits: seq<Edit>)

  function Works(rows: seq<Row>): (r: seq<string>)
    ensures |r| == |rows| && forall i :: 0 <= i < |r| ==> r[i] == rows[i].work
  {
    seq(|rows|, i requires 0 <= i < |rows| => rows[i].work)
  }

  function Expected(items: seq<Item>): (r: seq<string>)
    ensures |r| == |items| && forall i :: 0 <= i < |r| ==> r[i] == items[i].work
  {
    seq(|items|, i requires 0 <= i < |items| => items[i].work)
  }

  /** The expected works that were supplied, in order. */
  function Supplied(items: seq<Item>, supplied: seq<string>): seq<string> {
    if items == [] then []
    else
      var front, last := Supplied(items[..|items| - 1], supplied), items[|items| - 1].work;
      if last in supplied then front + [last] else front
  }

  function EditsFor(rows: seq<Row>, work: string): Option<seq<Edit>> {
    if rows == [] then None
    else if rows[|rows| - 1].work == work then Some(rows[|rows| - 1].edits) else EditsFor(rows[..|rows| - 1], work)
  }

  function OutcomeOf(c: Contract, rows: seq<Row>, item: Item): Option<Organization> {
    match EditsFor(rows, item.work)
    case None => None
    case Some(edits) => Repaired(c, item.was, item.rejection, item.owner, edits)
  }

  predicate NoTwice(works: seq<string>) {
    forall i :: 0 <= i < |works| ==> forall j :: i < j < |works| ==> works[i] != works[j]
  }

  /** Repairs must come in the order of the work, each once, and all of them unless a part is asked for. */
  predicate InOrder(items: seq<Item>, rows: seq<Row>, part: bool) {
    && NoTwice(Works(rows)) && Works(rows) == Supplied(items, Works(rows))
    && (part || Works(rows) == Expected(items))
  }

  ghost predicate OneEach(items: seq<Item>) {
    forall i, j :: 0 <= i < j < |items| ==> items[i].work != items[j].work
  }

  method RepairItem(c: Contract, rows: seq<Row>, item: Item) returns (outcome: Option<Organization>)
    ensures outcome == OutcomeOf(c, rows, item)
  {
    var edits := EditsFor(rows, item.work);
    if edits == None {
      return None;
    }
    outcome := RepairOne(c, item.was, item.rejection, item.owner, edits.value);
  }

  /** The repaired organizations of the items, by work. */
  function AcceptedOf(c: Contract, rows: seq<Row>, items: seq<Item>): map<string, Organization> {
    if items == [] then map[]
    else
      var front, last := AcceptedOf(c, rows, items[..|items| - 1]), items[|items| - 1];
      var outcome := OutcomeOf(c, rows, last);
      if outcome.Some? then front[last.work := outcome.value] else front
  }

  /** The works reported as errors, in order. */
  function ErrorsOf(c: Contract, rows: seq<Row>, items: seq<Item>): seq<string> {
    if items == [] then []
    else
      var front, last := ErrorsOf(c, rows, items[..|items| - 1]), items[|items| - 1];
      if OutcomeOf(c, rows, last).Some? then front else front + [last.work]
  }

  /** `apply`; None refuses the reply as a whole. */
  method ApplyRepairs(c: Contract, items: seq<Item>, rows: seq<Row>, part: bool)
    returns (r: Option<(map<string, Organization>, seq<string>)>)
    ensures r == if InOrder(items, rows, part) then Some((AcceptedOf(c, rows, items), ErrorsOf(c, rows, items))) else None
  {
    if !InOrder(items, rows, part) {
      return None;
    }
    var accepted: map<string, Organization> := map[];
    var errors: seq<string> := [];
    for n := 0 to |items|
      invariant accepted == AcceptedOf(c, rows, items[..n]) && errors == ErrorsOf(c, rows, items[..n])
    {
      assert items[..n + 1][..n] == items[..n];
      var outcome := RepairItem(c, rows, items[n]);
      if outcome.Some? {
        accepted := accepted[items[n].work := outcome.value];
      } else {
        errors := errors + [items[n].work];
      }
    }
    assert items[..|items|] == items;
    return Some((accepted, errors));
  }

  lemma {:induction false} NothingElseSettled(c: Contract, rows: seq<Row>, items: seq<Item>, work: string)
    requires forall i :: 0 <= i < |items| ==> items[i].work != work
    ensures work !in AcceptedOf(c, rows, items) && work !in ErrorsOf(c, rows, items)
  {
    if items != [] { NothingElseSettled(c, rows, items[..|items| - 1], work); }
  }

  lemma {:induction false} SettledAt(c: Contract, rows: seq<Row>, items: seq<Item>, i: nat)
    requires OneEach(items) && i < |items|
    ensures var accepted, errors, work := AcceptedOf(c, rows, items), ErrorsOf(c, rows, items), items[i].work;
            var outcome := OutcomeOf(c, rows, items[i]);
            && (work in accepted <==> outcome.Some?) && (work in errors <==> outcome == None)
            && (work in accepted ==> Some(accepted[work]) == outcome)
    decreases |items|
  {
    var n := |items| - 1;
    if i < n { SettledAt(c, rows, items[..n], i); } else { NothingElseSettled(c, rows, items[..n], items[n].work); }
  }

  /** Every work item is accepted with exactly its own repair or reported as an error, never both, and nothing else is
      in either. */
  lemma EachIsSettled(c: Contract, rows: seq<Row>, items: seq<Item>, work: string)
    requires OneEach(items)
    ensures var accepted, errors := AcceptedOf(c, rows, items), ErrorsOf(c, rows, items);
            && (forall i :: 0 <= i < |items| && items[i].work == work ==>
                  && (work in accepted <==> OutcomeOf(c, rows, items[i]).Some?)
                  && (work in errors <==> OutcomeOf(c, rows, items[i]) == None)
                  && (work in accepted ==> Some(accepted[work]) == OutcomeOf(c, rows, items[i])))
            && ((forall i :: 0 <= i < |items| ==> items[i].work != work) ==> work !in accepted && work !in errors)
  {
    if i :| 0 <= i < |items| && items[i].work == work {
      SettledAt(c, rows, items, i);
    } else {
      NothingElseSettled(c, rows, items, work);
    }
  }
}
