/** Compact references: the ids in a host's answers are replaced by short references, and references in requests
    by the ids they stand for. */
module References {
  import opened Options
  import Decimal

  /** A JSON tree whose objects keep the order of their fields. */
  datatype Tree =
    | Plain(value: int)
    | Text(text: string)
    | Many(items: seq<Tree>)
    | Record(fields: seq<Field>)

  datatype Field = Field(key: string, value: Tree)

  const ID_FIELDS := {"id", "source_id", "target_id", "start_ids", "continuation"}

  /** The two lookup tables of a session. */
  datatype Refs = Refs(forward: map<string, string>, reverse: map<string, string>)

  function Alias(n: nat): string {
    "ref" + Decimal.Write(n)
  }

  /** A text that names something: a nonempty string under one of the id fields. */
  predicate IsId(text: string, field: Option<string>) {
    text != "" && field.Some? && field.value in ID_FIELDS
  }

  /** The tables after meeting an id. */
  function Meet(refs: Refs, id: string): (r: Refs) {
    if id in refs.forward then refs
    else
      var alias := Alias(|refs.forward| + 1);
      Refs(refs.forward[id := alias], refs.reverse[alias := id])
  }

  function Width(t: Tree): nat {
    match t case Many(items) => |items| case Record(fields) => |fields| case _ => 0
  }

  /** `transform` with `encode`. */
  function Encode(refs: Refs, t: Tree, field: Option<string>): (Tree, Refs)
    decreases t, Width(t) + 1
  {
    match t
    case Plain(_) => (t, refs)
    case Text(text) =>
      if IsId(text, field) then
        var met := Meet(refs, text);
        (if text in met.forward then Text(met.forward[text]) else t, met)
      else (t, refs)
    case Many(items) => var (done, after) := EncodeItems(refs, t, |items|, field); (Many(done), after)
    case Record(fields) => var (done, after) := EncodeFields(refs, t, |fields|); (Record(done), after)
  }

  /** The first `n` items of a list, in order. */
  function EncodeItems(refs: Refs, t: Tree, n: nat, field: Option<string>): (r: (seq<Tree>, Refs))
    requires t.Many? && n <= |t.items|
    ensures |r.0| == n
    decreases t, n
  {
    if n == 0 then ([], refs)
    else
      var (done, middle) := EncodeItems(refs, t, n - 1, field);
      var (one, after) := Encode(middle, t.items[n - 1], field);
      (done + [one], after)
  }

  function EncodeFields(refs: Refs, t: Tree, n: nat): (r: (seq<Field>, Refs))
    requires t.Record? && n <= |t.fields|
    ensures |r.0| == n
    decreases t, n
  {
    if n == 0 then ([], refs)
    else
      var (done, middle) := EncodeFields(refs, t, n - 1);
      var f := t.fields[n - 1];
      var (one, after) := Encode(middle, f.value, Some(f.key));
      (done + [Field(f.key, one)], after)
  }

  /** `transform` without `encode`: what is no known reference stays as it is. */
  function Decode(reverse: map<string, string>, t: Tree, field: Option<string>): Tree
    decreases t, Width(t) + 1
  {
    match t
    case Plain(_) => t
    case Text(text) => if IsId(text, field) && text in reverse then Text(reverse[text]) else t
    case Many(items) => Many(DecodeItems(reverse, t, |items|, field))
    case Record(fields) => Record(DecodeFields(reverse, t, |fields|))
  }

  function DecodeItems(reverse: map<string, string>, t: Tree, n: nat, field: Option<string>): (r: seq<Tree>)
    requires t.Many? && n <= |t.items|
    ensures |r| == n
    decreases t, n
  {
    if n == 0 then [] else DecodeItems(reverse, t, n - 1, field) + [Decode(reverse, t.items[n - 1], field)]
  }

  function DecodeFields(reverse: map<string, string>, t: Tree, n: nat): (r: seq<Field>)
    requires t.Record? && n <= |t.fields|
    ensures |r| == n
    decreases t, n
  {
    if n == 0 then []
    else
      var f := t.fields[n - 1];
      DecodeFields(reverse, t, n - 1) + [Field(f.key, Decode(reverse, f.value, Some(f.key)))]
  }

  // ---------------------------------------------------------------- the two tables

  /** The tables are inverse to each other, and the references are the first so many. */
  ghost predicate Inverse(refs: Refs) {
    && (forall id | id in refs.forward :: refs.forward[id] in refs.reverse && refs.reverse[refs.forward[id]] == id)
    && (forall a | a in refs.reverse :: refs.reverse[a] in refs.forward && refs.forward[refs.reverse[a]] == a)
    && (forall id | id in refs.forward :: id != "" && Numbered(refs.forward[id], |refs.forward|))
  }

  ghost predicate Numbered(alias: string, count: nat) {
    exists k: nat :: 1 <= k <= count && alias == Alias(k)
  }

  /** Everything known before is known in the same way. */
  ghost predicate Extends(refs: Refs, after: Refs) {
    && (forall id | id in refs.forward :: id in after.forward && after.forward[id] == refs.forward[id])
    && (forall a | a in refs.reverse :: a in after.reverse && after.reverse[a] == refs.reverse[a])
  }

  lemma ExtendsThrough(a: Refs, b: Refs, c: Refs)
    requires Extends(a, b) && Extends(b, c)
    ensures Extends(a, c)
  {
  }

  lemma AliasIsNew(refs: Refs)
    requires Inverse(refs)
    ensures Alias(|refs.forward| + 1) !in refs.reverse
  {
    var alias := Alias(|refs.forward| + 1);
    if alias in refs.reverse {
      assert Numbered(refs.forward[refs.reverse[alias]], |refs.forward|);
      var k: nat :| 1 <= k <= |refs.forward| && alias == Alias(k);
      assert alias[3..] == Decimal.Write(k) == Decimal.Write(|refs.forward| + 1);
      Decimal.WriteIsInjective(k, |refs.forward| + 1);
    }
  }

  lemma MeetKeeps(refs: Refs, id: string)
    requires Inverse(refs) && id != ""
    ensures var after := Meet(refs, id); Inverse(after) && Extends(refs, after) && id in after.forward
  {
    if id !in refs.forward {
      AliasIsNew(refs);
      var after, n := Meet(refs, id), |refs.forward|;
      assert |after.forward| == n + 1;
      assert Numbered(Alias(n + 1), n + 1);
      forall x | x in after.forward ensures Numbered(after.forward[x], n + 1) {
        if x != id {
          assert Numbered(refs.forward[x], n);
          var k: nat :| 1 <= k <= n && refs.forward[x] == Alias(k);
          assert 1 <= k <= n + 1;
        }
      }
    }
  }

  /** Encoding keeps the tables inverse and never changes an entry. */
  lemma {:induction false} EncodeKeeps(refs: Refs, t: Tree, field: Option<string>)
    requires Inverse(refs)
    ensures Inverse(Encode(refs, t, field).1) && Extends(refs, Encode(refs, t, field).1)
    decreases t, Width(t) + 1
  {
    match t
    case Plain(_) =>
    case Text(text) => if IsId(text, field) { MeetKeeps(refs, text); }
    case Many(items) => EncodeItemsKeeps(refs, t, |items|, field);
    case Record(fields) => EncodeFieldsKeeps(refs, t, |fields|);
  }

  lemma {:induction false} EncodeItemsKeeps(refs: Refs, t: Tree, n: nat, field: Option<string>)
    requires Inverse(refs) && t.Many? && n <= |t.items|
    ensures var after := EncodeItems(refs, t, n, field).1; Inverse(after) && Extends(refs, after)
    decreases t, n
  {
    if n > 0 {
      var middle := EncodeItems(refs, t, n - 1, field).1;
      EncodeItemsKeeps(refs, t, n - 1, field);
      EncodeKeeps(middle, t.items[n - 1], field);
      ExtendsThrough(refs, middle, EncodeItems(refs, t, n, field).1);
    }
  }

  lemma {:induction false} EncodeFieldsKeeps(refs: Refs, t: Tree, n: nat)
    requires Inverse(refs) && t.Record? && n <= |t.fields|
    ensures var after := EncodeFields(refs, t, n).1; Inverse(after) && Extends(refs, after)
    decreases t, n
  {
    if n > 0 {
      var middle := EncodeFields(refs, t, n - 1).1;
      EncodeFieldsKeeps(refs, t, n - 1);
      EncodeKeeps(middle, t.fields[n - 1].value, Some(t.fields[n - 1].key));
      ExtendsThrough(refs, middle, EncodeFields(refs, t, n).1);
    }
  }

  // ---------------------------------------------------------------- there and back

  /** Decoding an encoded tree gives it back, with the tables of that moment or of any later one, even where an id
      is spelled like a reference. */
  lemma {:induction false} DecodeUndoesEncode(refs: Refs, t: Tree, field: Option<string>, later: Refs)
    requires Inverse(refs) && Extends(Encode(refs, t, field).1, later)
    ensures Decode(later.reverse, Encode(refs, t, field).0, field) == t
    decreases t, Width(t) + 1
  {
    match t
    case Plain(_) =>
    case Text(text) => if IsId(text, field) { IdComesBack(refs, text, field, later); }
    case Many(items) => DecodeUndoesItems(refs, t, |items|, field, later);
      DecodeWhole(later.reverse, EncodeItems(refs, t, |items|, field).0, field);
      assert t.items[..|items|] == t.items;
    case Record(fields) => DecodeUndoesFields(refs, t, |fields|, later);
      assert t.fields[..|fields|] == t.fields;
  }

  lemma IdComesBack(refs: Refs, text: string, field: Option<string>, later: Refs)
    requires Inverse(refs) && IsId(text, field) && Extends(Meet(refs, text), later)
    ensures Decode(later.reverse, Encode(refs, Text(text), field).0, field) == Text(text)
  {
    MeetKeeps(refs, text);
    var alias := Meet(refs, text).forward[text];
    assert Numbered(alias, |Meet(refs, text).forward|);
    assert alias != "";
  }

  lemma DecodeWhole(reverse: map<string, string>, items: seq<Tree>, field: Option<string>)
    ensures Decode(reverse, Many(items), field) == Many(DecodeItems(reverse, Many(items), |items|, field))
  {
  }

  /** Decoding looks at one item at a time. */
  lemma {:induction false} DecodeItemsOf(reverse: map<string, string>, one: Tree, two: Tree, n: nat, field: Option<string>)
    requires one.Many? && two.Many? && n <= |one.items| && n <= |two.items| && one.items[..n] == two.items[..n]
    ensures DecodeItems(reverse, one, n, field) == DecodeItems(reverse, two, n, field)
    decreases n
  {
    if n > 0 {
      assert one.items[..n - 1] == one.items[..n][..n - 1] == two.items[..n][..n - 1] == two.items[..n - 1];
      assert one.items[n - 1] == one.items[..n][n - 1] == two.items[n - 1];
      DecodeItemsOf(reverse, one, two, n - 1, field);
    }
  }

  lemma {:induction false} DecodeFieldsOf(reverse: map<string, string>, one: Tree, two: Tree, n: nat)
    requires one.Record? && two.Record? && n <= |one.fields| && n <= |two.fields| && one.fields[..n] == two.fields[..n]
    ensures DecodeFields(reverse, one, n) == DecodeFields(reverse, two, n)
    decreases n
  {
    if n > 0 {
      assert one.fields[..n - 1] == one.fields[..n][..n - 1] == two.fields[..n][..n - 1] == two.fields[..n - 1];
      assert one.fields[n - 1] == one.fields[..n][n - 1] == two.fields[n - 1];
      DecodeFieldsOf(reverse, one, two, n - 1);
    }
  }

  lemma {:induction false} DecodeUndoesItems(refs: Refs, t: Tree, n: nat, field: Option<string>, later: Refs)
    requires Inverse(refs) && t.Many? && n <= |t.items| && Extends(EncodeItems(refs, t, n, field).1, later)
    ensures DecodeItems(later.reverse, Many(EncodeItems(refs, t, n, field).0), n, field) == t.items[..n]
    decreases t, n
  {
    if n > 0 {
      var (done, middle) := EncodeItems(refs, t, n - 1, field);
      var (one, after) := Encode(middle, t.items[n - 1], field);
      EncodeItemsKeeps(refs, t, n - 1, field);
      EncodeKeeps(middle, t.items[n - 1], field);
      ExtendsThrough(middle, after, later);
      DecodeUndoesItems(refs, t, n - 1, field, later);
      DecodeUndoesEncode(middle, t.items[n - 1], field, later);
      DecodeItemsOf(later.reverse, Many(done + [one]), Many(done), n - 1, field);
    }
  }

  lemma {:induction false} DecodeUndoesFields(refs: Refs, t: Tree, n: nat, later: Refs)
    requires Inverse(refs) && t.Record? && n <= |t.fields| && Extends(EncodeFields(refs, t, n).1, later)
    ensures DecodeFields(later.reverse, Record(EncodeFields(refs, t, n).0), n) == t.fields[..n]
    decreases t, n
  {
    if n > 0 {
      var (done, middle) := EncodeFields(refs, t, n - 1);
      var f := t.fields[n - 1];
      var (one, after) := Encode(middle, f.value, Some(f.key));
      EncodeFieldsKeeps(refs, t, n - 1);
      EncodeKeeps(middle, f.value, Some(f.key));
      ExtendsThrough(middle, after, later);
      DecodeUndoesFields(refs, t, n - 1, later);
      DecodeUndoesEncode(middle, f.value, Some(f.key), later);
      DecodeFieldsOf(later.reverse, Record(done + [Field(f.key, one)]), Record(done), n - 1);
    }
  }

  // ---------------------------------------------------------------- no id is shown

  /** Every id position of the tree holds a reference that has been handed out. */
  ghost predicate OnlyRefs(reverse: map<string, string>, t: Tree, field: Option<string>)
    decreases t
  {
    match t
    case Plain(_) => true
    case Text(text) => IsId(text, field) ==> text in reverse
    case Many(items) => forall i :: 0 <= i < |items| ==> OnlyRefs(reverse, items[i], field)
    case Record(fields) => forall i :: 0 <= i < |fields| ==> OnlyRefs(reverse, fields[i].value, Some(fields[i].key))
  }

  lemma {:induction false} OnlyRefsLast(refs: Refs, later: Refs, t: Tree, field: Option<string>)
    requires OnlyRefs(refs.reverse, t, field) && Extends(refs, later)
    ensures OnlyRefs(later.reverse, t, field)
    decreases t
  {
    match t
    case Plain(_) =>
    case Text(_) =>
    case Many(items) =>
      forall i | 0 <= i < |items| ensures OnlyRefs(later.reverse, items[i], field) {
        OnlyRefsLast(refs, later, items[i], field);
      }
    case Record(fields) =>
      forall i | 0 <= i < |fields| ensures OnlyRefs(later.reverse, fields[i].value, Some(fields[i].key)) {
        OnlyRefsLast(refs, later, fields[i].value, Some(fields[i].key));
      }
  }

  ghost predicate ItemsOnlyRefs(reverse: map<string, string>, items: seq<Tree>, field: Option<string>) {
    forall i :: 0 <= i < |items| ==> OnlyRefs(reverse, items[i], field)
  }

  ghost predicate FieldsOnlyRefs(reverse: map<string, string>, fields: seq<Field>) {
    forall i :: 0 <= i < |fields| ==> OnlyRefs(reverse, fields[i].value, Some(fields[i].key))
  }

  lemma ItemsOnlyRefsLast(refs: Refs, later: Refs, items: seq<Tree>, field: Option<string>)
    requires ItemsOnlyRefs(refs.reverse, items, field) && Extends(refs, later)
    ensures ItemsOnlyRefs(later.reverse, items, field)
  {
    forall i | 0 <= i < |items| ensures OnlyRefs(later.reverse, items[i], field) {
      OnlyRefsLast(refs, later, items[i], field);
    }
  }

  lemma FieldsOnlyRefsLast(refs: Refs, later: Refs, fields: seq<Field>)
    requires FieldsOnlyRefs(refs.reverse, fields) && Extends(refs, later)
    ensures FieldsOnlyRefs(later.reverse, fields)
  {
    forall i | 0 <= i < |fields| ensures OnlyRefs(later.reverse, fields[i].value, Some(fields[i].key)) {
      OnlyRefsLast(refs, later, fields[i].value, Some(fields[i].key));
    }
  }

  /** An encoded answer shows references in place of ids, nothing else. */
  lemma {:induction false} EncodedShowsRefs(refs: Refs, t: Tree, field: Option<string>)
    requires Inverse(refs)
    ensures OnlyRefs(Encode(refs, t, field).1.reverse, Encode(refs, t, field).0, field)
    decreases t, Width(t) + 1
  {
    match t
    case Plain(_) =>
    case Text(text) => if IsId(text, field) { MeetKeeps(refs, text); }
    case Many(items) => ItemsShowRefs(refs, t, |items|, field);
      assert Encode(refs, t, field).0 == Many(EncodeItems(refs, t, |items|, field).0);
    case Record(fields) => FieldsShowRefs(refs, t, |fields|);
      assert Encode(refs, t, field).0 == Record(EncodeFields(refs, t, |fields|).0);
  }

  lemma ItemsOnlyRefsSnoc(reverse: map<string, string>, done: seq<Tree>, one: Tree, field: Option<string>)
    requires ItemsOnlyRefs(reverse, done, field) && OnlyRefs(reverse, one, field)
    ensures ItemsOnlyRefs(reverse, done + [one], field)
  {
  }

  lemma {:induction false} ItemsShowRefs(refs: Refs, t: Tree, n: nat, field: Option<string>)
    requires Inverse(refs) && t.Many? && n <= |t.items|
    ensures ItemsOnlyRefs(EncodeItems(refs, t, n, field).1.reverse, EncodeItems(refs, t, n, field).0, field)
    decreases t, n
  {
    if n > 0 {
      var (done, middle) := EncodeItems(refs, t, n - 1, field);
      var after := Encode(middle, t.items[n - 1], field).1;
      EncodeItemsKeeps(refs, t, n - 1, field);
      EncodeKeeps(middle, t.items[n - 1], field);
      ItemsShowRefs(refs, t, n - 1, field);
      EncodedShowsRefs(middle, t.items[n - 1], field);
      ItemsOnlyRefsLast(middle, after, done, field);
      ItemsOnlyRefsSnoc(after.reverse, done, Encode(middle, t.items[n - 1], field).0, field);
    }
  }

  lemma {:induction false} FieldsShowRefs(refs: Refs, t: Tree, n: nat)
    requires Inverse(refs) && t.Record? && n <= |t.fields|
    ensures FieldsOnlyRefs(EncodeFields(refs, t, n).1.reverse, EncodeFields(refs, t, n).0)
    decreases t, n
  {
    if n > 0 {
      var (done, middle) := EncodeFields(refs, t, n - 1);
      var f := t.fields[n - 1];
      var after := Encode(middle, f.value, Some(f.key)).1;
      EncodeFieldsKeeps(refs, t, n - 1);
      EncodeKeeps(middle, f.value, Some(f.key));
      FieldsShowRefs(refs, t, n - 1);
      EncodedShowsRefs(middle, f.value, Some(f.key));
      FieldsOnlyRefsLast(middle, after, done);
    }
  }

  // ---------------------------------------------------------------- the session

  /** One row of a grouped read: the reference as given, and the answer or none for an error. */
  datatype Row = Row(ref: string, result: Option<Tree>)

  /** The session over a guarded host; the host's answers are given, None for an exception. */
  class EvidenceToolSession {
    const limit: nat
    var forward: map<string, string>
    var reverse: map<string, string>

    ghost function State(): Refs
      reads this
    {
      Refs(forward, reverse)
    }

    ghost predicate Valid()
      reads this
    {
      Inverse(State())
    }

    constructor (limit: nat)
      ensures Valid() && State() == Refs(map[], map[]) && this.limit == limit
    {
      this.limit := limit;
      forward, reverse := map[], map[];
    }

    /** `transform(value, True)` */
    method TransformOut(t: Tree, field: Option<string>) returns (r: Tree)
      modifies this
      ensures (r, State()) == Encode(old(State()), t, field)
      decreases t
    {
      match t
      case Plain(_) => r := t;
      case Text(text) =>
        r := t;
        if IsId(text, field) {
          if text !in forward {
            var alias := Alias(|forward| + 1);
            forward := forward[text := alias];
            reverse := reverse[alias := text];
          }
          r := Text(forward[text]);
        }
      case Many(items) =>
        var done := [];
        for i := 0 to |items|
          invariant (done, State()) == EncodeItems(old(State()), t, i, field)
        {
          var one := TransformOut(items[i], field);
          done := done + [one];
        }
        r := Many(done);
      case Record(fields) =>
        var done := [];
        for i := 0 to |fields|
          invariant (done, State()) == EncodeFields(old(State()), t, i)
        {
          var one := TransformOut(fields[i].value, Some(fields[i].key));
          done := done + [Field(fields[i].key, one)];
        }
        r := Record(done);
    }

    /** `transform(value, False)` */
    method TransformIn(t: Tree, field: Option<string>) returns (r: Tree)
      ensures r == Decode(reverse, t, field)
      decreases t
    {
      match t
      case Plain(_) => r := t;
      case Text(text) => r := if IsId(text, field) && text in reverse then Text(reverse[text]) else t;
      case Many(items) =>
        var done := [];
        for i := 0 to |items|
          invariant done == DecodeItems(reverse, t, i, field)
        {
          var one := TransformIn(items[i], field);
          done := done + [one];
        }
        r := Many(done);
      case Record(fields) =>
        var done := [];
        for i := 0 to |fields|
          invariant done == DecodeFields(reverse, t, i)
        {
          var one := TransformIn(fields[i].value, Some(fields[i].key));
          done := done + [Field(fields[i].key, one)];
        }
        r := Record(done);
    }

    /** `_single`: the host is asked with ids; the caller sees references. */
    method Single(arguments: Tree, answer: Option<Tree>) returns (sent: Tree, shown: Option<Tree>)
      requires Valid()
      modifies this
      ensures Valid() && Extends(old(State()), State())
      ensures sent == Decode(old(reverse), arguments, None)
      ensures shown.Some? <==> answer.Some?
      ensures answer.Some? ==> Decode(reverse, shown.value, None) == answer.value && OnlyRefs(reverse, shown.value, None)
      ensures answer == None ==> State() == old(State())
    {
      sent := TransformIn(arguments, None);
      shown := None;
      if answer.Some? {
        ghost var before := State();
        var r := TransformOut(answer.value, None);
        EncodeKeeps(before, answer.value, None);
        DecodeUndoesEncode(before, answer.value, None, State());
        EncodedShowsRefs(before, answer.value, None);
        shown := Some(r);
      }
    }

    /** The grouped read: None refuses the call before any action. */
    method ReadMany(ids: seq<string>, answers: seq<Option<Tree>>) returns (sent: seq<Tree>, rows: Option<seq<Row>>)
      requires Valid() && |answers| == |ids|
      modifies this
      ensures Valid() && Extends(old(State()), State())
      ensures rows.Some? <==> 1 <= |ids| <= limit && "" !in ids
      ensures rows == None ==> State() == old(State()) && sent == []
      ensures rows.Some? ==> |rows.value| == |ids| == |sent| && forall i :: 0 <= i < |ids| ==>
                Reads(old(reverse), reverse, ids[i], answers[i], sent[i], rows.value[i])
    {
      sent := [];
      if !(1 <= |ids| <= limit) || "" in ids {
        return sent, None;
      }
      var results := [];
      for i := 0 to |ids|
        invariant Valid() && Extends(old(State()), State()) && |sent| == |results| == i
        invariant forall j :: 0 <= j < i ==> Reads(old(reverse), reverse, ids[j], answers[j], sent[j], results[j])
      {
        ghost var before := State();
        var request, shown := Single(Record([Field("id", Text(ids[i]))]), answers[i]);
        DecodedId(before.reverse, ids[i]);
        forall j | 0 <= j < i ensures Reads(old(reverse), reverse, ids[j], answers[j], sent[j], results[j]) {
          ReadsLast(old(reverse), before, State(), ids[j], answers[j], sent[j], results[j]);
        }
        sent := sent + [request];
        results := results + [Row(ids[i], shown)];
      }
      return sent, Some(results);
    }
  }

  lemma DecodedId(reverse: map<string, string>, ref: string)
    requires ref != ""
    ensures Decode(reverse, Record([Field("id", Text(ref))]), None)
            == Record([Field("id", Text(if ref in reverse then reverse[ref] else ref))])
  {
    var t := Record([Field("id", Text(ref))]);
    assert DecodeFields(reverse, t, 0) == [];
    assert DecodeFields(reverse, t, 1) == [Field("id", Decode(reverse, Text(ref), Some("id")))];
  }

  /** The row answers this reference: a reference known before the call was sent as its id, and the answer shown
      decodes to the host's. */
  ghost predicate Reads(before: map<string, string>, reverse: map<string, string>, ref: string, answer: Option<Tree>, sent: Tree, row: Row) {
    && row.ref == ref && (row.result.Some? <==> answer.Some?)
    && (ref in before ==> sent == Record([Field("id", Text(before[ref]))]))
    && (answer.Some? ==> OnlyRefs(reverse, row.result.value, None) && Decode(reverse, row.result.value, None) == answer.value)
  }

  /** A tree of known references decodes alike ever after. */
  lemma {:induction false} DecodeLasts(refs: Refs, later: Refs, t: Tree, field: Option<string>)
    requires OnlyRefs(refs.reverse, t, field) && Extends(refs, later)
    ensures Decode(later.reverse, t, field) == Decode(refs.reverse, t, field)
    decreases t, Width(t) + 1
  {
    match t
    case Plain(_) =>
    case Text(_) =>
    case Many(items) => ItemsLast(refs, later, t, |items|, field);
    case Record(fields) => FieldsLast(refs, later, t, |fields|);
  }

  lemma {:induction false} ItemsLast(refs: Refs, later: Refs, t: Tree, n: nat, field: Option<string>)
    requires t.Many? && OnlyRefs(refs.reverse, t, field) && Extends(refs, later) && n <= |t.items|
    ensures DecodeItems(later.reverse, t, n, field) == DecodeItems(refs.reverse, t, n, field)
    decreases t, n
  {
    if n > 0 {
      ItemsLast(refs, later, t, n - 1, field);
      DecodeLasts(refs, later, t.items[n - 1], field);
    }
  }

  lemma {:induction false} FieldsLast(refs: Refs, later: Refs, t: Tree, n: nat)
    requires t.Record? && OnlyRefs(refs.reverse, t, None) && Extends(refs, later) && n <= |t.fields|
    ensures DecodeFields(later.reverse, t, n) == DecodeFields(refs.reverse, t, n)
    decreases t, n
  {
    if n > 0 {
      FieldsLast(refs, later, t, n - 1);
      DecodeLasts(refs, later, t.fields[n - 1].value, Some(t.fields[n - 1].key));
    }
  }

  lemma ReadsLast(before: map<string, string>, refs: Refs, later: Refs, ref: string, answer: Option<Tree>, sent: Tree, row: Row)
    requires Reads(before, refs.reverse, ref, answer, sent, row) && Extends(refs, later)
    ensures Reads(before, later.reverse, ref, answer, sent, row)
  {
    if answer.Some? {
      DecodeLasts(refs, later, row.result.value, None);
      OnlyRefsLast(refs, later, row.result.value, None);
    }
  }
}
