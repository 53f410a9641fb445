/** Budgeted retrieval: tool calls, reads and characters are bounded, and nothing is read or navigated from that an
    earlier call did not return. */
module Retrieval {
  import opened Options
  import opened Json
  import Text

  const SEARCH := "ownward_search"
  const NAVIGATE := "ownward_navigate"
  const EVIDENCE_SEARCH := "ownward_evidence_search"
  const READ := "ownward_read"
  const EVIDENCE_READ := "ownward_evidence_read"

  /** The frozen budget; `number` and `show` are the host language's conversions to an integer and to text. */
  datatype Settings = Settings(
    maxCalls: int, maxReads: int, maxChars: int, searchLimit: int, navigateLimit: int, evidenceLimit: int,
    allowed: set<string>, number: Json -> Option<int>, show: Json -> string)

  /** One recorded call; a result is present when it succeeded. */
  datatype Record = Record(tool: string, arguments: Fields, result: Option<Json>, ids: seq<string>, source: string, chars: nat)

  datatype Path = Path(source: string, full: bool, evidence: seq<string>)

  /** The fields of a session. */
  datatype State = State(
    calls: seq<Record>, information: set<string>, evidence: set<string>, cursors: set<string>,
    returned: seq<string>, readIds: seq<string>, readEvidence: seq<string>, paths: seq<Path>, readChars: int)

  const EMPTY := State([], {}, {}, {}, [], [], [], [], 0)

  function Get(o: Fields, key: string, missing: Json): Json {
    if key in o then o[key] else missing
  }

  predicate IsRead(tool: string) {
    tool == READ || tool == EVIDENCE_READ
  }

  // ---------------------------------------------------------------- what a result lets be used

  /** `_ids`: the nonempty text ids of the objects in a list. */
  function Ids(values: Json): seq<string> {
    if values.List? then IdsIn(values.items) else []
  }

  function IdsIn(values: seq<Json>): seq<string> {
    if values == [] then []
    else
      var front, v := IdsIn(values[..|values| - 1]), values[|values| - 1];
      if v.Obj? && "id" in v.fields && v.fields["id"].Str? && v.fields["id"].text != ""
      then front + [v.fields["id"].text] else front
  }

  function ToSet(ids: seq<string>): set<string> {
    set id | id in ids
  }

  /** What was observed, and whether observing it raised, which leaves the call unrecorded. */
  datatype Harvest = Harvest(information: set<string>, evidence: set<string>, cursors: set<string>, raised: bool)
  {
    function Plus(h: Harvest): Harvest {
      if raised then this
      else Harvest(information + h.information, evidence + h.evidence, cursors + h.cursors, h.raised)
    }
  }

  const NOTHING := Harvest({}, {}, {}, false)

  function Raise(): Harvest { NOTHING.(raised := true) }

  /** The references of a relation: its ends, contexts and conditions; adding two values that are not both lists or
      both texts raises. */
  function RefsOf(relation: Fields): Option<seq<Json>> {
    var contexts, conditions := Get(relation, "context", List([])), Get(relation, "conditions", List([]));
    var ends := [Get(relation, "source", Null), Get(relation, "target", Null)];
    if contexts.List? && conditions.List? then Some(ends + contexts.items + conditions.items)
    else if contexts.Str? && conditions.Str? then Some(ends)
    else None
  }

  function HarvestRefs(refs: seq<Json>): Harvest {
    if refs == [] then NOTHING
    else HarvestRefs(refs[..|refs| - 1]).Plus(HarvestRef(refs[|refs| - 1]))
  }

  function HarvestRef(ref: Json): Harvest {
    if ref.Obj? && Get(ref.fields, "id", Null).Str? && Get(ref.fields, "source_id", Null).Str?
    then Harvest({ref.fields["source_id"].text}, {ref.fields["id"].text}, {}, false) else NOTHING
  }

  function HarvestRelation(relation: Json): Harvest {
    if !relation.Obj? then NOTHING
    else match RefsOf(relation.fields) case None => Raise() case Some(refs) => HarvestRefs(refs)
  }

  /** `_observe_relations` */
  function HarvestRelations(relations: seq<Json>): Harvest {
    if relations == [] then NOTHING
    else HarvestRelations(relations[..|relations| - 1]).Plus(HarvestRelation(relations[|relations| - 1]))
  }

  function ItemsOf(v: Json): seq<Json> {
    if v.List? then v.items else []
  }

  /** A loop over this value raises. */
  predicate NotIterable(v: Json) {
    !v.List? && !v.Str? && !v.Obj?
  }

  /** A source's own evidence references. */
  function OwnEvidence(source: Fields, refs: seq<Json>): seq<Json> {
    if refs == [] then []
    else
      var front, r := OwnEvidence(source, refs[..|refs| - 1]), refs[|refs| - 1];
      if r.Obj? && Get(r.fields, "source_id", Null) == Get(source, "id", Null) then front + [r] else front
  }

  function HarvestSource(source: Json): Harvest {
    if !source.Obj? then NOTHING
    else
      HarvestRelations(ItemsOf(Get(source.fields, "relations", Null)))
      .Plus(Harvest({}, ToSet(IdsIn(OwnEvidence(source.fields, ItemsOf(Get(source.fields, "evidence", List([])))))), {}, false))
  }

  function HarvestSources(sources: seq<Json>): Harvest {
    if sources == [] then NOTHING
    else HarvestSources(sources[..|sources| - 1]).Plus(HarvestSource(sources[|sources| - 1]))
  }

  /** The grounded relation of every edge that is an object. */
  function Grounded(edges: seq<Json>): seq<Json> {
    if edges == [] then []
    else
      var front, e := Grounded(edges[..|edges| - 1]), edges[|edges| - 1];
      if e.Obj? then front + [Get(e.fields, "grounded", Null)] else front
  }

  function HarvestSearch(result: Fields): Harvest {
    var sources := Get(result, "results", List([]));
    Harvest(ToSet(Ids(Get(result, "results", Null))), {}, {}, false)
    .Plus(if NotIterable(sources) then Raise() else HarvestSources(ItemsOf(sources)))
  }

  function HarvestNavigation(result: Fields): Harvest {
    var navigation := Get(result, "result", Null);
    if !navigation.Obj? then NOTHING
    else
      var edges := Get(navigation.fields, "edges", List([]));
      var continuation := Get(navigation.fields, "continuation", Null);
      (if NotIterable(edges) then Raise() else HarvestRelations(Grounded(ItemsOf(edges))))
      .Plus(Harvest({}, {}, if continuation.Str? && continuation.text != "" then {continuation.text} else {}, false))
      .Plus(Harvest(ToSet(Ids(Get(navigation.fields, "nodes", Null))), {}, {}, false))
  }

  /** What a successful call makes usable. */
  function HarvestOf(tool: string, result: Json): Harvest {
    if !result.Obj? then NOTHING
    else if tool == SEARCH then HarvestSearch(result.fields)
    else if tool == NAVIGATE then HarvestNavigation(result.fields)
    else if tool == EVIDENCE_SEARCH then Harvest({}, ToSet(Ids(Get(result.fields, "evidence", Null))), {}, false)
    else NOTHING
  }

  /** The ids listed as the call's results. */
  function ResultIds(tool: string, result: Json): seq<string> {
    if !result.Obj? then []
    else if tool == SEARCH then Ids(Get(result.fields, "results", Null))
    else if tool == NAVIGATE then
      var navigation := Get(result.fields, "result", Null);
      if navigation.Obj? then Ids(Get(navigation.fields, "nodes", Null)) else []
    else if tool == EVIDENCE_SEARCH then Ids(Get(result.fields, "evidence", Null))
    else []
  }

  // ---------------------------------------------------------------- one call

  predicate Known(v: Json, ids: set<string>) {
    v.Str? && v.text in ids
  }

  predicate Asks(v: Json) {
    v.Str? && !Text.PyBlank(v.text)
  }

  predicate InLimit(s: Settings, arguments: Fields, key: string, missing: int, most: int) {
    var n := s.number(Get(arguments, key, Number(missing)));
    n.Some? && 1 <= n.value <= most
  }

  /** Navigation starts from observed sources, or from one cursor. */
  predicate StartsKnown(starts: Json, information: set<string>, cursors: set<string>) {
    && starts.List? && starts.items != []
    && ((forall v | v in starts.items :: Known(v, information)) || (|starts.items| == 1 && Known(starts.items[0], cursors)))
  }

  /** `_validate_arguments` */
  predicate Valid(s: Settings, state: State, tool: string, arguments: Fields) {
    && tool in s.allowed
    && (tool == SEARCH ==> Asks(Get(arguments, "query", Null)) && InLimit(s, arguments, "limit", 10, s.searchLimit))
    && (tool == NAVIGATE ==>
          && StartsKnown(Get(arguments, "start_ids", Null), state.information, state.cursors)
          && InLimit(s, arguments, "depth", 1, 5) && InLimit(s, arguments, "limit", 50, s.navigateLimit))
    && (tool == EVIDENCE_SEARCH ==>
          && Known(Get(arguments, "source_id", Null), state.information)
          && Asks(Get(arguments, "query", Null)) && InLimit(s, arguments, "limit", 3, s.evidenceLimit))
    && (tool == READ ==> Known(Get(arguments, "id", Null), state.information))
    && (tool == EVIDENCE_READ ==> Known(Get(arguments, "id", Null), state.evidence))
  }

  /** The successful reads recorded. */
  function Reads(calls: seq<Record>): nat {
    if calls == [] then 0
    else
      var last := calls[|calls| - 1];
      Reads(calls[..|calls| - 1]) + if last.result.Some? && IsRead(last.tool) then 1 else 0
  }

  function Paragraphs(parts: seq<string>): string {
    if parts == [] then ""
    else
      var front, last := Paragraphs(parts[..|parts| - 1]), parts[|parts| - 1];
      if last == "" then front else if front == "" then last else front + "\n\n" + last
  }

  /** `_adjacent_content`; None where it raises. */
  function Adjacent(evidence: Fields): Option<string> {
    var before, after := Get(evidence, "context_before", Str("")), Get(evidence, "context_after", Str(""));
    if !before.Str? || !after.Str? then None
    else if before.text == "" && after.text == "" then Some("")
    else
      var start, end := Get(evidence, "start_rune", Null), Get(evidence, "end_rune", Null);
      var first, last := Get(evidence, "context_start_rune", Null), Get(evidence, "context_end_rune", Null);
      if start.Number? && end.Number? && first.Number? && last.Number?
         && 0 <= first.number <= start.number < end.number <= last.number
         && start.number - first.number == |before.text| && last.number - end.number == |after.text|
         && |before.text| <= end.number - start.number && |after.text| <= end.number - start.number
      then Some(before.text + after.text) else None
  }

  /** `_read_content`: the source read and the text delivered; None where it raises. */
  function Delivered(s: Settings, tool: string, result: Json): Option<(string, string)> {
    if !result.Obj? then Some(("", ""))
    else if tool == READ && Get(result.fields, "information", Null).Obj? then
      var v := result.fields["information"].fields;
      Some((s.show(Get(v, "id", Str(""))), s.show(Get(v, "content", Str("")))))
    else if tool == EVIDENCE_READ && Get(result.fields, "evidence", Null).Obj? then
      var v := result.fields["evidence"].fields;
      var own := Paragraphs([s.show(Get(v, "source_prelude", Str(""))), s.show(Get(v, "content", Str(""))),
                             s.show(Get(v, "source_complete", Str("")))]);
      (match Adjacent(v)
       case None => None
       case Some(around) => Some((s.show(Get(v, "source_id", Str(""))), own + around)))
    else Some(("", ""))
  }

  /** How a call ends: answered, refused before anything, failed and recorded, or raising after the client answered,
      which records nothing. */
  datatype Outcome = Answered(result: Json) | Exhausted | Failed | Broken

  /** The client is asked: nothing before it refuses. */
  predicate Reaches(s: Settings, state: State, tool: string, arguments: Fields) {
    |state.calls| < s.maxCalls && Valid(s, state, tool, arguments) && (IsRead(tool) ==> Reads(state.calls) < s.maxReads)
  }

  /** The client's reply is accepted: it came, could be read, and fits. */
  predicate Accepted(s: Settings, state: State, tool: string, reply: Option<Json>) {
    reply.Some? && Delivered(s, tool, reply.value).Some?
    && (var content := Delivered(s, tool, reply.value).value.1; content == "" || state.readChars + |content| <= s.maxChars)
  }

  function Observe(state: State, h: Harvest): State {
    state.(information := state.information + h.information, evidence := state.evidence + h.evidence,
           cursors := state.cursors + h.cursors)
  }

  /** The fields that grow with what a call returned or read. */
  function Note(s: Settings, state: State, tool: string, arguments: Fields, result: Json): State
    requires Delivered(s, tool, result).Some?
  {
    var (source, content) := Delivered(s, tool, result).value;
    if !result.Obj? then state
    else if tool == SEARCH || tool == NAVIGATE then state.(returned := state.returned + ResultIds(tool, result))
    else if tool == READ then
      state.(readIds := state.readIds + [source], paths := state.paths + [Path(source, true, [])],
             readChars := state.readChars + |content|)
    else if tool == EVIDENCE_READ then
      var id := s.show(Get(arguments, "id", Str("")));
      state.(readEvidence := state.readEvidence + [id], paths := state.paths + [Path(source, false, [id])],
             readChars := state.readChars + |content|, readIds := state.readIds + if source != "" then [source] else [])
    else state
  }

  /** `call` on values: the state after it, and how it ends. */
  function Step(s: Settings, state: State, tool: string, arguments: Fields, reply: Option<Json>): (State, Outcome) {
    if |state.calls| >= s.maxCalls then (state, Exhausted)
    else if !Reaches(s, state, tool, arguments) || !Accepted(s, state, tool, reply) then
      (state.(calls := state.calls + [Record(tool, arguments, None, [], "", 0)]), Failed)
    else
      var result := reply.value;
      var h := HarvestOf(tool, result);
      if h.raised then (Observe(state, h).(returned := state.returned + EarlyIds(tool, result)), Broken)
      else
        var (source, content) := Delivered(s, tool, result).value;
        var noted := Observe(Note(s, state, tool, arguments, result), h);
        (noted.(calls := state.calls + [Record(tool, arguments, reply, ResultIds(tool, result), source, |content|)]),
         Answered(result))
  }

  /** The ids a search lists before it can raise. */
  function EarlyIds(tool: string, result: Json): seq<string> {
    if tool == SEARCH then ResultIds(tool, result) else []
  }

  /** The session: one call at a time. */
  class ActiveRetrievalSession {
    const s: Settings
    var calls: seq<Record>
    var information: set<string>
    var evidence: set<string>
    var cursors: set<string>
    var returned: seq<string>
    var readIds: seq<string>
    var readEvidence: seq<string>
    var paths: seq<Path>
    var readChars: int

    function Now(): State
      reads this
    {
      State(calls, information, evidence, cursors, returned, readIds, readEvidence, paths, readChars)
    }

    constructor (s: Settings)
      ensures this.s == s && Now() == EMPTY
    {
      this.s := s;
      calls, information, evidence, cursors, returned, readIds, readEvidence, paths, readChars := [], {}, {}, {}, [], [], [], [], 0;
    }

    /** `reset_attempt` */
    method ResetAttempt()
      modifies this
      ensures Now() == EMPTY
    {
      calls, information, evidence, cursors, returned, readIds, readEvidence, paths, readChars := [], {}, {}, {}, [], [], [], [], 0;
    }

    method ObserveAll(h: Harvest)
      modifies this`information, this`evidence, this`cursors
      ensures Now() == Observe(old(Now()), h)
    {
      information := information + h.information;
      evidence := evidence + h.evidence;
      cursors := cursors + h.cursors;
    }

    method NoteResult(tool: string, arguments: Fields, result: Json, source: string, content: string)
      requires Delivered(s, tool, result) == Some((source, content))
      modifies this`returned, this`readIds, this`readEvidence, this`paths, this`readChars
      ensures Now() == Note(s, old(Now()), tool, arguments, result)
    {
      if result.Obj? {
        if tool == SEARCH || tool == NAVIGATE {
          returned := returned + ResultIds(tool, result);
        } else if tool == READ {
          readIds := readIds + [source];
          paths := paths + [Path(source, true, [])];
          readChars := readChars + |content|;
        } else if tool == EVIDENCE_READ {
          var id := s.show(Get(arguments, "id", Str("")));
          readEvidence := readEvidence + [id];
          paths := paths + [Path(source, false, [id])];
          readChars := readChars + |content|;
          if source != "" {
            readIds := readIds + [source];
          }
        }
      }
    }

    /** `call`; the reply is what the client answers if it is asked, None for an exception. */
    method Call(tool: string, raw: Json, reply: Option<Json>) returns (r: Outcome)
      modifies this
      ensures (Now(), r) == Step(s, old(Now()), tool, if raw.Obj? then raw.fields else map[], reply)
    {
      var arguments := if raw.Obj? then raw.fields else map[];
      if |calls| >= s.maxCalls {
        return Exhausted;
      }
      if !Reaches(s, Now(), tool, arguments) || !Accepted(s, Now(), tool, reply) {
        calls := calls + [Record(tool, arguments, None, [], "", 0)];
        return Failed;
      }
      var result := reply.value;
      var h := HarvestOf(tool, result);
      if h.raised {
        returned := returned + EarlyIds(tool, result);
        ObserveAll(h);
        return Broken;
      }
      var (source, content) := Delivered(s, tool, result).value;
      NoteResult(tool, arguments, result, source, content);
      ObserveAll(h);
      calls := calls + [Record(tool, arguments, reply, ResultIds(tool, result), source, |content|)];
      return Answered(result);
    }
  }
}
