/** What every run of a retrieval session keeps: the budgets, the character count, and a chain from every id used
    back to a search. */
module RetrievalSafety {
  import opened Options
  import opened Json
  import opened Retrieval
  import Ordering

  datatype Action = Ask(tool: string, arguments: Fields, reply: Option<Json>) | Resume | Reset

  /** A client answer that was accepted, whether or not it could be recorded. */
  datatype Event = Event(tool: string, arguments: Fields, result: Json)

  /** A run: the session, the answers since what was observed was last forgotten, and since the last reset the calls
      that reached the client and those that raised after their answer. */
  datatype Trace = Trace(state: State, events: seq<Event>, asked: nat, broken: nat)

  const START := Trace(EMPTY, [], 0, 0)

  /** A new session restored from this one's report. */
  function Restored(state: State): State {
    State(state.calls, {}, {}, {}, Ordering.Firsts(state.returned), Ordering.Firsts(NonEmpty(state.readIds)),
          Ordering.Firsts(state.readEvidence), state.paths, state.readChars)
  }

  function NonEmpty(ids: seq<string>): seq<string> {
    if ids == [] then [] else NonEmpty(ids[..|ids| - 1]) + if ids[|ids| - 1] != "" then [ids[|ids| - 1]] else []
  }

  function Next(s: Settings, t: Trace, a: Action): Trace {
    match a
    case Resume => Trace(Restored(t.state), [], t.asked, t.broken)
    case Reset => START
    case Ask(tool, arguments, reply) =>
      var (after, outcome) := Step(s, t.state, tool, arguments, reply);
      var asked := if Reaches(s, t.state, tool, arguments) then 1 else 0;
      Trace(after,
            if outcome.Answered? || outcome.Broken? then t.events + [Event(tool, arguments, reply.value)] else t.events,
            t.asked + asked, t.broken + if outcome.Broken? then 1 else 0)
  }

  function Run(s: Settings, actions: seq<Action>): Trace {
    if actions == [] then START else Next(s, Run(s, actions[..|actions| - 1]), actions[|actions| - 1])
  }

  // ---------------------------------------------------------------- budgets

  function SumChars(calls: seq<Record>): nat {
    if calls == [] then 0 else SumChars(calls[..|calls| - 1]) + calls[|calls| - 1].chars
  }

  function AtLeastZero(n: int): nat {
    if n < 0 then 0 else n
  }

  /** Recorded calls, successful reads and characters stay within the budget; the character count is what the
      recorded reads delivered. */
  ghost predicate InBudget(s: Settings, state: State) {
    && |state.calls| <= AtLeastZero(s.maxCalls) && Reads(state.calls) <= AtLeastZero(s.maxReads)
    && state.readChars == SumChars(state.calls) && state.readChars <= AtLeastZero(s.maxChars)
    && forall r | r in state.calls :: r.chars > 0 ==> r.result.Some? && IsRead(r.tool)
  }

  lemma Snoc(calls: seq<Record>, r: Record)
    ensures SumChars(calls + [r]) == SumChars(calls) + r.chars
    ensures Reads(calls + [r]) == Reads(calls) + if r.result.Some? && IsRead(r.tool) then 1 else 0
  {
    assert (calls + [r])[..|calls|] == calls;
  }

  /** Only reads deliver text. */
  lemma OthersDeliverNothing(s: Settings, tool: string, result: Json)
    requires Delivered(s, tool, result).Some? && Delivered(s, tool, result).value.1 != ""
    ensures IsRead(tool) && result.Obj?
  {
  }

  /** What a recorded call does to the count. */
  lemma NoteCounts(s: Settings, state: State, tool: string, arguments: Fields, result: Json)
    requires Delivered(s, tool, result).Some?
    ensures var after := Note(s, state, tool, arguments, result);
            after.readChars == state.readChars + |Delivered(s, tool, result).value.1| && after.calls == state.calls
  {
  }

  lemma StepInBudget(s: Settings, state: State, tool: string, arguments: Fields, reply: Option<Json>)
    requires InBudget(s, state)
    ensures InBudget(s, Step(s, state, tool, arguments, reply).0)
  {
    var (after, outcome) := Step(s, state, tool, arguments, reply);
    match outcome
    case Exhausted =>
    case Broken =>
      assert after.calls == state.calls && after.readChars == state.readChars;
    case Failed =>
      Snoc(state.calls, Record(tool, arguments, None, [], "", 0));
    case Answered(result) =>
      AnswerInBudget(s, state, tool, arguments, result);
  }

  lemma AnswerInBudget(s: Settings, state: State, tool: string, arguments: Fields, result: Json)
    requires InBudget(s, state) && Step(s, state, tool, arguments, Some(result)).1.Answered?
    ensures InBudget(s, Step(s, state, tool, arguments, Some(result)).0)
  {
    var (source, content) := Delivered(s, tool, result).value;
    var r := Record(tool, arguments, Some(result), ResultIds(tool, result), source, |content|);
    Snoc(state.calls, r);
    NoteCounts(s, state, tool, arguments, result);
    if content != "" { OthersDeliverNothing(s, tool, result); }
  }

  /** In every run, across resumes and resets, the budgets are never exceeded. */
  lemma {:induction false} RunsStayInBudget(s: Settings, actions: seq<Action>)
    ensures InBudget(s, Run(s, actions).state)
  {
    if actions != [] {
      RunsStayInBudget(s, actions[..|actions| - 1]);
      var a := actions[|actions| - 1];
      if a.Ask? { StepInBudget(s, Run(s, actions[..|actions| - 1]).state, a.tool, a.arguments, a.reply); }
    }
  }

  // ---------------------------------------------------------------- calls that reach the client

  /** A call that reaches the client is recorded exactly unless its accepted answer raises while it is observed. */
  lemma RecordedUnlessBroken(s: Settings, state: State, tool: string, arguments: Fields, reply: Option<Json>)
    requires Reaches(s, state, tool, arguments)
    ensures var (after, outcome) := Step(s, state, tool, arguments, reply);
            && (|after.calls| == |state.calls| + 1 <==> !outcome.Broken?)
            && (outcome.Broken? <==> Accepted(s, state, tool, reply) && HarvestOf(tool, reply.value).raised)
  {
  }

  /** Calls that reach the client are within the call budget, counting the broken ones apart. */
  lemma {:induction false} AskedIsBounded(s: Settings, actions: seq<Action>)
    ensures var t := Run(s, actions); t.broken <= t.asked <= |t.state.calls| + t.broken
    ensures Run(s, actions).asked <= AtLeastZero(s.maxCalls) + Run(s, actions).broken
  {
    RunsStayInBudget(s, actions);
    if actions != [] {
      AskedIsBounded(s, actions[..|actions| - 1]);
    }
  }

  /** A search answered without results where a list is due. */
  const NULL_RESULTS := Obj(map["results" := Null])

  /** The broken ones are not bounded: such a search reaches the client as often as it is tried. */
  lemma {:induction false} BrokenIsUnbounded(s: Settings, arguments: Fields, actions: seq<Action>)
    requires s.maxCalls > 0 && Valid(s, EMPTY, SEARCH, arguments)
    requires forall i :: 0 <= i < |actions| ==> actions[i] == Ask(SEARCH, arguments, Some(NULL_RESULTS))
    ensures var t := Run(s, actions); t.state == EMPTY && t.asked == t.broken == |actions|
  {
    if actions != [] {
      BrokenIsUnbounded(s, arguments, actions[..|actions| - 1]);
      BrokenStep(s, arguments);
    }
  }

  lemma BrokenStep(s: Settings, arguments: Fields)
    requires s.maxCalls > 0 && Valid(s, EMPTY, SEARCH, arguments)
    ensures Step(s, EMPTY, SEARCH, arguments, Some(NULL_RESULTS)) == (EMPTY, Broken)
    ensures Reaches(s, EMPTY, SEARCH, arguments)
  {
    assert Ids(Null) == [];
    assert HarvestOf(SEARCH, NULL_RESULTS) == Raise();
    assert Observe(EMPTY, Raise()) == EMPTY;
    assert EarlyIds(SEARCH, NULL_RESULTS) == [] && EMPTY.returned + [] == [];
    assert Delivered(s, SEARCH, NULL_RESULTS) == Some(("", ""));
  }

  // ---------------------------------------------------------------- provenance

  datatype Token = Source(id: string) | Evidence(id: string) | Cursor(id: string)

  predicate Offers(e: Event, token: Token) {
    var h := HarvestOf(e.tool, e.result);
    match token case Source(id) => id in h.information case Evidence(id) => id in h.evidence case Cursor(id) => id in h.cursors
  }

  predicate Holds(state: State, token: Token) {
    match token
    case Source(id) => id in state.information case Evidence(id) => id in state.evidence case Cursor(id) => id in state.cursors
  }

  /** The session knows exactly what the answers since then offered. */
  ghost predicate KnowsOffered(t: Trace) {
    forall token :: Holds(t.state, token) <==> exists i :: 0 <= i < |t.events| && Offers(t.events[i], token)
  }

  /** The argument is a text id of this kind, offered by an earlier answer that is itself traced. */
  ghost predicate Comes(events: seq<Event>, n: nat, token: Token)
    requires n <= |events|
    decreases n, 0
  {
    exists j :: 0 <= j < n && Offers(events[j], token) && Traced(events, j)
  }

  /** Everything event `i` used comes, step by step, from a search. */
  ghost predicate Traced(events: seq<Event>, i: nat)
    requires i < |events|
    decreases i, 1
  {
    var e := events[i];
    var starts := Get(e.arguments, "start_ids", Null);
    && (e.tool == READ ==> Comes(events, i, Source(TextOf(e.arguments, "id"))))
    && (e.tool == EVIDENCE_READ ==> Comes(events, i, Evidence(TextOf(e.arguments, "id"))))
    && (e.tool == EVIDENCE_SEARCH ==> Comes(events, i, Source(TextOf(e.arguments, "source_id"))))
    && (e.tool == NAVIGATE ==>
          && starts.List? && starts.items != []
          && ((forall v | v in starts.items :: v.Str? && Comes(events, i, Source(v.text)))
              || (|starts.items| == 1 && starts.items[0].Str? && Comes(events, i, Cursor(starts.items[0].text)))))
  }

  function TextOf(arguments: Fields, key: string): string {
    if key in arguments && arguments[key].Str? then arguments[key].text else ""
  }

  ghost predicate AllTraced(events: seq<Event>) {
    forall i :: 0 <= i < |events| ==> Traced(events, i)
  }

  lemma {:induction false} TracedGrows(events: seq<Event>, e: Event, i: nat)
    requires i < |events|
    ensures Traced(events + [e], i) <==> Traced(events, i)
    decreases i
  {
    assert (events + [e])[i] == events[i];
    forall token ensures Comes(events + [e], i, token) <==> Comes(events, i, token) {
      forall j | 0 <= j < i
        ensures (events + [e])[j] == events[j] && (Traced(events + [e], j) <==> Traced(events, j))
      {
        TracedGrows(events, e, j);
      }
    }
  }

  lemma HeldComes(t: Trace, token: Token)
    requires KnowsOffered(t) && AllTraced(t.events) && Holds(t.state, token)
    ensures Comes(t.events, |t.events|, token)
  {
    var i :| 0 <= i < |t.events| && Offers(t.events[i], token);
    assert Traced(t.events, i);
  }

  lemma ComesGrows(events: seq<Event>, e: Event, token: Token)
    requires Comes(events, |events|, token)
    ensures Comes(events + [e], |events|, token)
  {
    var j :| 0 <= j < |events| && Offers(events[j], token) && Traced(events, j);
    TracedGrows(events, e, j);
    assert (events + [e])[j] == events[j];
  }

  /** A valid call uses only what the session holds, so the answer to it is traced. */
  lemma NewIsTraced(s: Settings, t: Trace, e: Event)
    requires KnowsOffered(t) && AllTraced(t.events) && Valid(s, t.state, e.tool, e.arguments)
    ensures Traced(t.events + [e], |t.events|)
  {
    var n := |t.events|;
    forall token | Holds(t.state, token) ensures Comes(t.events + [e], n, token) {
      HeldComes(t, token);
      ComesGrows(t.events, e, token);
    }
    if e.tool == NAVIGATE {
      var starts := Get(e.arguments, "start_ids", Null);
      if forall v | v in starts.items :: Known(v, t.state.information) {
        forall v | v in starts.items ensures v.Str? && Comes(t.events + [e], n, Source(v.text)) {
          assert Known(v, t.state.information) && Holds(t.state, Source(v.text));
        }
      } else {
        assert Holds(t.state, Cursor(starts.items[0].text));
      }
    } else if e.tool == READ {
      assert Holds(t.state, Source(TextOf(e.arguments, "id")));
    } else if e.tool == EVIDENCE_READ {
      assert Holds(t.state, Evidence(TextOf(e.arguments, "id")));
    } else if e.tool == EVIDENCE_SEARCH {
      assert Holds(t.state, Source(TextOf(e.arguments, "source_id")));
    }
  }

  lemma StepObserves(s: Settings, state: State, tool: string, arguments: Fields, reply: Option<Json>)
    ensures var (after, outcome) := Step(s, state, tool, arguments, reply);
            if outcome.Answered? || outcome.Broken? then
              Accepted(s, state, tool, reply) && Valid(s, state, tool, arguments)
              && var h := HarvestOf(tool, reply.value);
                 && after.information == state.information + h.information && after.evidence == state.evidence + h.evidence
                 && after.cursors == state.cursors + h.cursors
            else after.information == state.information && after.evidence == state.evidence && after.cursors == state.cursors
  {
  }

  lemma OffersAdd(t: Trace, e: Event, after: State)
    requires KnowsOffered(t)
    requires var h := HarvestOf(e.tool, e.result);
             && after.information == t.state.information + h.information && after.evidence == t.state.evidence + h.evidence
             && after.cursors == t.state.cursors + h.cursors
    ensures forall token :: Holds(after, token) <==> exists i :: 0 <= i < |t.events| + 1 && Offers((t.events + [e])[i], token)
  {
    var events := t.events + [e];
    forall token ensures Holds(after, token) <==> exists i :: 0 <= i < |t.events| + 1 && Offers(events[i], token) {
      assert Holds(after, token) <==> Holds(t.state, token) || Offers(e, token);
      if Offers(e, token) { assert Offers(events[|t.events|], token); }
      if i :| 0 <= i < |t.events| && Offers(t.events[i], token) { assert Offers(events[i], token); }
    }
  }

  /** In every run the session knows exactly what answers offered, and everything it let through is traced back to a
      search. */
  lemma {:induction false} RunsAreTraced(s: Settings, actions: seq<Action>)
    ensures KnowsOffered(Run(s, actions)) && AllTraced(Run(s, actions).events)
  {
    if actions != [] {
      var t, a := Run(s, actions[..|actions| - 1]), actions[|actions| - 1];
      RunsAreTraced(s, actions[..|actions| - 1]);
      if a.Ask? {
        AskIsTraced(s, t, a);
      }
    }
  }

  lemma AskIsTraced(s: Settings, t: Trace, a: Action)
    requires a.Ask? && KnowsOffered(t) && AllTraced(t.events)
    ensures KnowsOffered(Next(s, t, a)) && AllTraced(Next(s, t, a).events)
  {
    var (after, outcome) := Step(s, t.state, a.tool, a.arguments, a.reply);
    StepObserves(s, t.state, a.tool, a.arguments, a.reply);
    if outcome.Answered? || outcome.Broken? {
      var e := Event(a.tool, a.arguments, a.reply.value);
      OffersAdd(t, e, after);
      NewIsTraced(s, t, e);
      forall i | 0 <= i < |t.events| + 1 ensures Traced(t.events + [e], i) {
        if i < |t.events| { TracedGrows(t.events, e, i); }
      }
    } else {
      assert forall token :: Holds(after, token) <==> Holds(t.state, token);
    }
  }

  // ---------------------------------------------------------------- what is offered was returned

  /** The text stands somewhere in the value. */
  ghost predicate Mentions(v: Json, text: string)
    decreases v
  {
    match v
    case Str(t) => t == text
    case List(items) => exists i :: 0 <= i < |items| && Mentions(items[i], text)
    case Obj(fields) => exists k :: k in fields && Mentions(fields[k], text)
    case _ => false
  }

  ghost predicate SomeMentions(values: seq<Json>, text: string) {
    exists i :: 0 <= i < |values| && Mentions(values[i], text)
  }

  lemma GetMentions(o: Fields, key: string, missing: Json, text: string)
    requires Mentions(Get(o, key, missing), text) && !Mentions(missing, text)
    ensures Mentions(Obj(o), text)
  {
    assert key in o && Mentions(o[key], text);
  }

  lemma {:induction false} IdsMention(values: seq<Json>, id: string)
    requires id in IdsIn(values)
    ensures SomeMentions(values, id)
  {
    var n := |values| - 1;
    if id in IdsIn(values[..n]) {
      IdsMention(values[..n], id);
      var i :| 0 <= i < n && Mentions(values[..n][i], id);
      assert Mentions(values[i], id);
    } else {
      assert Mentions(values[n].fields["id"], id);
      assert Mentions(values[n], id);
    }
  }

  ghost predicate In(h: Harvest, id: string) {
    id in h.information || id in h.evidence || id in h.cursors
  }

  lemma HarvestRefMentions(ref: Json, id: string)
    requires In(HarvestRef(ref), id)
    ensures Mentions(ref, id)
  {
    var key := if id in HarvestRef(ref).information then "source_id" else "id";
    assert key in ref.fields && Mentions(ref.fields[key], id);
  }

  lemma {:induction false} HarvestRefsMention(refs: seq<Json>, id: string)
    requires In(HarvestRefs(refs), id)
    ensures SomeMentions(refs, id)
  {
    var n := |refs| - 1;
    if In(HarvestRefs(refs[..n]), id) {
      HarvestRefsMention(refs[..n], id);
      var i :| 0 <= i < n && Mentions(refs[..n][i], id);
      assert Mentions(refs[i], id);
    } else {
      HarvestRefMentions(refs[n], id);
      assert Mentions(refs[n], id);
    }
  }

  lemma HarvestRelationMentions(relation: Json, id: string)
    requires In(HarvestRelation(relation), id)
    ensures Mentions(relation, id)
  {
    var r := relation.fields;
    var contexts, conditions := Get(r, "context", List([])), Get(r, "conditions", List([]));
    var refs := RefsOf(r).value;
    HarvestRefsMention(refs, id);
    var i :| 0 <= i < |refs| && Mentions(refs[i], id);
    if i == 0 {
      GetMentions(r, "source", Null, id);
    } else if i == 1 {
      GetMentions(r, "target", Null, id);
    } else if i - 2 < |contexts.items| {
      assert refs[i] == contexts.items[i - 2];
      GetMentions(r, "context", List([]), id);
    } else {
      assert refs[i] == conditions.items[i - 2 - |contexts.items|];
      GetMentions(r, "conditions", List([]), id);
    }
  }

  lemma {:induction false} HarvestRelationsMention(relations: seq<Json>, id: string)
    requires In(HarvestRelations(relations), id)
    ensures SomeMentions(relations, id)
  {
    var n := |relations| - 1;
    if In(HarvestRelations(relations[..n]), id) {
      HarvestRelationsMention(relations[..n], id);
      var i :| 0 <= i < n && Mentions(relations[..n][i], id);
      assert Mentions(relations[i], id);
    } else {
      HarvestRelationMentions(relations[n], id);
      assert Mentions(relations[n], id);
    }
  }

  lemma {:induction false} OwnEvidenceMentions(source: Fields, refs: seq<Json>, id: string)
    requires SomeMentions(OwnEvidence(source, refs), id)
    ensures SomeMentions(refs, id)
  {
    var n, own := |refs| - 1, OwnEvidence(source, refs);
    var i :| 0 <= i < |own| && Mentions(own[i], id);
    var front := OwnEvidence(source, refs[..n]);
    if i < |front| {
      assert Mentions(front[i], id);
      OwnEvidenceMentions(source, refs[..n], id);
      var j :| 0 <= j < n && Mentions(refs[..n][j], id);
      assert Mentions(refs[j], id);
    } else {
      assert own[i] == refs[n];
    }
  }

  lemma HarvestSourceMentions(source: Json, id: string)
    requires In(HarvestSource(source), id)
    ensures Mentions(source, id)
  {
    var relations := Get(source.fields, "relations", Null);
    var refs := Get(source.fields, "evidence", List([]));
    if In(HarvestRelations(ItemsOf(relations)), id) {
      HarvestRelationsMention(ItemsOf(relations), id);
      assert Mentions(relations, id);
      GetMentions(source.fields, "relations", Null, id);
    } else {
      IdsMention(OwnEvidence(source.fields, ItemsOf(refs)), id);
      OwnEvidenceMentions(source.fields, ItemsOf(refs), id);
      assert Mentions(refs, id);
      GetMentions(source.fields, "evidence", List([]), id);
    }
  }

  lemma {:induction false} HarvestSourcesMention(sources: seq<Json>, id: string)
    requires In(HarvestSources(sources), id)
    ensures SomeMentions(sources, id)
  {
    var n := |sources| - 1;
    if In(HarvestSources(sources[..n]), id) {
      HarvestSourcesMention(sources[..n], id);
      var i :| 0 <= i < n && Mentions(sources[..n][i], id);
      assert Mentions(sources[i], id);
    } else {
      HarvestSourceMentions(sources[n], id);
      assert Mentions(sources[n], id);
    }
  }

  lemma {:induction false} GroundedMentions(edges: seq<Json>, id: string)
    requires SomeMentions(Grounded(edges), id)
    ensures SomeMentions(edges, id)
  {
    var n, all := |edges| - 1, Grounded(edges);
    var i :| 0 <= i < |all| && Mentions(all[i], id);
    var front := Grounded(edges[..n]);
    if i < |front| {
      assert Mentions(front[i], id);
      GroundedMentions(edges[..n], id);
      var j :| 0 <= j < n && Mentions(edges[..n][j], id);
      assert Mentions(edges[j], id);
    } else {
      GetMentions(edges[n].fields, "grounded", Null, id);
      assert Mentions(edges[n], id);
    }
  }

  lemma IdsOfMention(o: Fields, key: string, id: string)
    requires id in Ids(Get(o, key, Null))
    ensures Mentions(Obj(o), id)
  {
    var values := Get(o, key, Null);
    IdsMention(values.items, id);
    assert Mentions(values, id);
    GetMentions(o, key, Null, id);
  }

  lemma SearchMentions(result: Fields, id: string)
    requires In(HarvestSearch(result), id)
    ensures Mentions(Obj(result), id)
  {
    if id in Ids(Get(result, "results", Null)) {
      IdsOfMention(result, "results", id);
    } else {
      var sources := Get(result, "results", List([]));
      HarvestSourcesMention(ItemsOf(sources), id);
      assert Mentions(sources, id);
      GetMentions(result, "results", List([]), id);
    }
  }

  lemma NavigationMentions(result: Fields, id: string)
    requires In(HarvestNavigation(result), id)
    ensures Mentions(Obj(result), id)
  {
    var navigation := Get(result, "result", Null).fields;
    var edges := Get(navigation, "edges", List([]));
    if In(HarvestRelations(Grounded(ItemsOf(edges))), id) {
      HarvestRelationsMention(Grounded(ItemsOf(edges)), id);
      GroundedMentions(ItemsOf(edges), id);
      assert Mentions(edges, id);
      GetMentions(navigation, "edges", List([]), id);
    } else if id in Ids(Get(navigation, "nodes", Null)) {
      IdsOfMention(navigation, "nodes", id);
    } else {
      GetMentions(navigation, "continuation", Null, id);
    }
    GetMentions(result, "result", Null, id);
  }

  /** Whatever an answer offers stands in that answer. */
  lemma OffersWereReturned(e: Event, token: Token)
    requires Offers(e, token)
    ensures Mentions(e.result, token.id)
  {
    var result := e.result.fields;
    if e.tool == SEARCH { SearchMentions(result, token.id); }
    else if e.tool == NAVIGATE { NavigationMentions(result, token.id); }
    else { IdsOfMention(result, "evidence", token.id); }
  }
}
