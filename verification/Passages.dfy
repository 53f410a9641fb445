/** Numbered source passages and the quotations made from them. A source is sliced without loss; a range of
    its passages becomes a quotation that occurs exactly once in it. */
module Passages {
  import opened Text

  datatype Mode = Legacy | Grounded

  function Window(mode: Mode): nat { if mode == Legacy then 200 else 384 }

  function Min(a: int, b: int): int { if a < b then a else b }

  function Join(parts: seq<string>): string {
    if parts == [] then "" else parts[0] + Join(parts[1..])
  }

  lemma {:induction false} JoinSplits(left: seq<string>, right: seq<string>)
    ensures Join(left + right) == Join(left) + Join(right)
  {
    if left == [] {
      assert left + right == right;
    } else {
      assert (left + right)[1..] == left[1..] + right;
      JoinSplits(left[1..], right);
    }
  }

  lemma JoinOne(part: string)
    ensures Join([part]) == part
  {
    assert Join([part][1..]) == "";
  }

  lemma JoinFirst(part: string, rest: seq<string>)
    ensures Join([part] + rest) == part + Join(rest)
  {
    assert ([part] + rest)[1..] == rest;
  }

  lemma JoinSnoc(parts: seq<string>, last: string)
    ensures Join(parts + [last]) == Join(parts) + last
  {
    JoinSplits(parts, [last]);
    JoinOne(last);
  }

  // ---------------------------------------------------------------- where a part ends

  /** A part may end after position `p`: at a line end, or in the older form also at the end of a sentence. */
  predicate Natural(content: string, p: nat, mode: Mode)
    requires p < |content|
  {
    || content[p] == '\n'
    || (mode == Legacy && content[p] in ".!?\U{3002}\U{FF01}\U{FF1F}" && (p + 1 == |content| || PySpace(content[p + 1])))
  }

  /** A part of length `b` from `offset` that says something and ends naturally. */
  predicate EndsWell(content: string, offset: nat, b: nat, mode: Mode)
    requires offset + b <= |content|
  {
    b > 0 && Natural(content, offset + b - 1, mode) && !PyBlank(content[offset..offset + b])
  }

  /** The shortest part within the window that ends well, or 0. */
  function Boundary(content: string, offset: nat, window: nat, mode: Mode, from: nat := 1): (b: nat)
    requires offset + window <= |content| && 1 <= from
    ensures b == 0 || from <= b <= window
    decreases window + 1 - from
  {
    if from > window then 0
    else if EndsWell(content, offset, from, mode) then from
    else Boundary(content, offset, window, mode, from + 1)
  }

  lemma {:induction false} BoundaryIsLeast(content: string, offset: nat, window: nat, mode: Mode, from: nat)
    requires offset + window <= |content| && 1 <= from
    ensures var b := Boundary(content, offset, window, mode, from);
            && (b > 0 ==> EndsWell(content, offset, b, mode))
            && forall j :: from <= j <= window && EndsWell(content, offset, j, mode) ==> 0 < b <= j
    decreases window + 1 - from
  {
    if from <= window && !EndsWell(content, offset, from, mode) {
      BoundaryIsLeast(content, offset, window, mode, from + 1);
    }
  }

  /** `text.rfind(" ")` */
  function LastSpace(text: string): (r: int)
    ensures -1 <= r < |text|
  {
    if text == "" then -1 else if text[|text| - 1] == ' ' then |text| - 1 else LastSpace(text[..|text| - 1])
  }

  lemma {:induction false} LastSpaceIsLast(text: string)
    ensures var r := LastSpace(text); (r >= 0 ==> text[r] == ' ') && forall j :: r < j < |text| ==> text[j] != ' '
  {
    if text != "" && text[|text| - 1] != ' ' { LastSpaceIsLast(text[..|text| - 1]); }
  }

  /** A part ends well if any part of the window does, and then as soon as possible; else after the last space of a
      full window that is not the last; else with the window. */
  lemma CutIsBest(content: string, offset: nat, mode: Mode)
    requires offset < |content|
    ensures var window, end := Min(Window(mode), |content| - offset), Cut(content, offset, mode);
            && (forall j :: 1 <= j < end ==> !EndsWell(content, offset, j, mode))
            && ((exists j :: 1 <= j <= window && EndsWell(content, offset, j, mode)) ==> EndsWell(content, offset, end, mode))
            && (!EndsWell(content, offset, end, mode) && end < window ==>
                  content[offset + end - 1] == ' ' && forall j :: offset + end <= j < offset + window ==> content[j] != ' ')
            && (!EndsWell(content, offset, end, mode) && offset + end == |content| ==> end == window)
  {
    var window := Min(Window(mode), |content| - offset);
    BoundaryIsLeast(content, offset, window, mode, 1);
    var text := content[offset..offset + window];
    LastSpaceIsLast(text);
    assert forall j :: offset <= j < offset + window ==> content[j] == text[j - offset];
  }

  /** The length of the part cut at `offset`. */
  function Cut(content: string, offset: nat, mode: Mode): (end: nat)
    requires offset < |content|
    ensures 0 < end <= Window(mode) && offset + end <= |content|
  {
    var window := Min(Window(mode), |content| - offset);
    var boundary := Boundary(content, offset, window, mode);
    if boundary > 0 then boundary
    else
      var space := LastSpace(content[offset..offset + window]);
      if offset + window < |content| && space > 0 then space + 1 else window
  }

  // ---------------------------------------------------------------- the passages

  /** One more part: blank text joins the passage before it. */
  function Extend(passages: seq<string>, part: string): seq<string> {
    if PyBlank(part) && passages != []
    then passages[..|passages| - 1] + [passages[|passages| - 1] + part]
    else passages + [part]
  }

  /** The parts cut one after another from `offset` on. */
  function Parts(content: string, mode: Mode, offset: nat): seq<string>
    requires offset <= |content|
    decreases |content| - offset
  {
    if offset == |content| then []
    else
      var end := Cut(content, offset, mode);
      [content[offset..offset + end]] + Parts(content, mode, offset + end)
  }

  function Merged(parts: seq<string>): seq<string> {
    if parts == [] then [] else Extend(Merged(parts[..|parts| - 1]), parts[|parts| - 1])
  }

  function Passages(content: string, mode: Mode): (r: seq<string>)
    ensures r != []
  {
    var merged := Merged(Parts(content, mode, 0));
    if merged == [] then [""] else merged
  }

  /** The boundary is the shortest part that ends well, if any part in the window does. */
  lemma BoundaryIs(content: string, offset: nat, window: nat, mode: Mode, b: nat)
    requires offset + window <= |content| && b <= window
    requires b > 0 ==> EndsWell(content, offset, b, mode)
    requires forall j :: 1 <= j <= (if b == 0 then window else b - 1) ==> !EndsWell(content, offset, j, mode)
    ensures b == Boundary(content, offset, window, mode)
  {
    BoundaryIsLeast(content, offset, window, mode, 1);
  }

  lemma NewlineAt(text: string, j: nat)
    requires j < |text|
    ensures At(text, "\n", j) <==> text[j] == '\n'
  {
    assert text[j..j + 1] == [text[j]];
  }

  method NewlineBoundary(content: string, offset: nat, window: nat) returns (b: nat)
    requires offset + window <= |content|
    ensures b == Boundary(content, offset, window, Grounded)
  {
    var text := content[offset..offset + window];
    var newline := NextNewline(content, offset, window, 0);
    while newline >= 0 && PyBlank(text[..newline + 1])
      invariant -1 <= newline < window
      invariant newline >= 0 ==> content[offset + newline] == '\n'
      invariant forall j :: 1 <= j <= (if newline < 0 then window else newline) ==> !EndsWell(content, offset, j, Grounded)
      decreases if newline < 0 then 0 else window - newline
    {
      assert content[offset..offset + newline + 1] == text[..newline + 1];
      assert !EndsWell(content, offset, newline + 1, Grounded);
      newline := NextNewline(content, offset, window, newline + 1);
    }
    if newline >= 0 {
      assert content[offset..offset + newline + 1] == text[..newline + 1];
    }
    BoundaryIs(content, offset, window, Grounded, newline + 1);
    return newline + 1;
  }

  /** `window.find("\n", from)` */
  method NextNewline(content: string, offset: nat, window: nat, from: nat) returns (newline: int)
    requires offset + window <= |content| && from <= window
    ensures -1 <= newline < window
    ensures newline >= 0 ==> from <= newline && content[offset + newline] == '\n'
    ensures forall j :: from < j <= (if newline < 0 then window else newline) ==> !EndsWell(content, offset, j, Grounded)
  {
    var text := content[offset..offset + window];
    newline := Find(text, "\n", from);
    forall j | from < j <= (if newline < 0 then window else newline)
      ensures !EndsWell(content, offset, j, Grounded)
    {
      NewlineAt(text, j - 1);
    }
    if newline >= 0 {
      NewlineAt(text, newline);
    }
  }

  method SentenceBoundary(content: string, offset: nat, window: nat) returns (b: nat)
    requires offset + window <= |content|
    ensures b == Boundary(content, offset, window, Legacy)
  {
    for i := 0 to window
      invariant forall j :: 1 <= j <= i ==> !EndsWell(content, offset, j, Legacy)
    {
      if Natural(content, offset + i, Legacy) && !PyBlank(content[offset..offset + i + 1]) {
        BoundaryIs(content, offset, window, Legacy, i + 1);
        return i + 1;
      }
    }
    BoundaryIs(content, offset, window, Legacy, 0);
    return 0;
  }

  /** The end of the part at `offset`, with the searches the slicing makes. */
  method CutEnd(content: string, offset: nat, mode: Mode) returns (end: nat)
    requires offset < |content|
    ensures end == Cut(content, offset, mode)
  {
    end := Min(Window(mode), |content| - offset);
    var boundary;
    if mode == Legacy {
      boundary := SentenceBoundary(content, offset, end);
    } else {
      boundary := NewlineBoundary(content, offset, end);
    }
    if boundary > 0 {
      end := boundary;
    } else if offset + end < |content| {
      var space := LastSpace(content[offset..offset + end]);
      if space > 0 {
        end := space + 1;
      }
    }
  }

  method AddPart(passages: seq<string>, part: string) returns (r: seq<string>)
    ensures r == Extend(passages, part)
  {
    r := passages;
    if PyBlank(part) && r != [] {
      r := r[|r| - 1 := r[|r| - 1] + part];
    } else {
      r := r + [part];
    }
  }

  /** Cut one part at `offset` and add it. */
  method TakePart(content: string, mode: Mode, offset: nat, passages: seq<string>, ghost all: seq<string>)
    returns (next: nat, extended: seq<string>)
    requires offset < |content| && Taken(all, Parts(content, mode, offset), passages)
    ensures offset < next <= |content| && Taken(all, Parts(content, mode, next), extended)
  {
    var end := CutEnd(content, offset, mode);
    next := offset + end;
    extended := AddPart(passages, content[offset..next]);
    PartsStep(content, mode, offset);
    PartTaken(all, Parts(content, mode, offset), content[offset..next], Parts(content, mode, next), passages);
  }

  /** `source_passages` */
  method SourcePassages(content: string, mode: Mode) returns (passages: seq<string>)
    ensures passages == Passages(content, mode)
  {
    passages := [];
    var offset := 0;
    ghost var all := Parts(content, mode, 0);
    NothingTaken(all);
    while offset < |content|
      invariant offset <= |content| && Taken(all, Parts(content, mode, offset), passages)
    {
      offset, passages := TakePart(content, mode, offset, passages, all);
    }
    AllTaken(all, passages);
    if passages == [] {
      passages := [""];
    }
  }

  lemma MergedSnoc(parts: seq<string>, part: string)
    ensures Merged(parts + [part]) == Extend(Merged(parts), part)
  {
    assert (parts + [part])[..|parts|] == parts;
  }

  /** The passages are the merged parts of all but the rest. */
  ghost predicate Taken(all: seq<string>, rest: seq<string>, passages: seq<string>) {
    exists done :: TakenAs(all, rest, passages, done)
  }

  ghost predicate TakenAs(all: seq<string>, rest: seq<string>, passages: seq<string>, done: seq<string>) {
    done + rest == all && passages == Merged(done)
  }

  lemma NothingTaken(all: seq<string>)
    ensures Taken(all, all, [])
  {
    assert TakenAs(all, all, [], []);
  }

  lemma PartTaken(all: seq<string>, rest: seq<string>, part: string, more: seq<string>, passages: seq<string>)
    requires Taken(all, rest, passages) && rest == [part] + more
    ensures Taken(all, more, Extend(passages, part))
  {
    var done :| TakenAs(all, rest, passages, done);
    assert done + ([part] + more) == done + [part] + more;
    MergedSnoc(done, part);
    assert TakenAs(all, more, Extend(passages, part), done + [part]);
  }

  lemma AllTaken(all: seq<string>, passages: seq<string>)
    requires Taken(all, [], passages)
    ensures passages == Merged(all)
  {
    var done :| TakenAs(all, [], passages, done);
    assert done + [] == done;
  }

  lemma PartsStep(content: string, mode: Mode, offset: nat)
    requires offset < |content|
    ensures var next := offset + Cut(content, offset, mode);
            Parts(content, mode, offset) == [content[offset..next]] + Parts(content, mode, next)
  {
  }

  // ---------------------------------------------------------------- what slicing keeps

  lemma ExtendJoins(passages: seq<string>, part: string)
    ensures Join(Extend(passages, part)) == Join(passages) + part
  {
    if PyBlank(part) && passages != [] {
      var front, last := passages[..|passages| - 1], passages[|passages| - 1];
      JoinSnoc(front, last + part);
      JoinSnoc(front, last);
      assert passages == front + [last];
    } else {
      JoinSnoc(passages, part);
    }
  }

  /** Only the first passage may be blank. */
  predicate BlankOnlyFirst(passages: seq<string>) {
    forall i :: 1 <= i < |passages| ==> !PyBlank(passages[i])
  }

  lemma ExtendKeepsText(passages: seq<string>, part: string)
    requires BlankOnlyFirst(passages)
    ensures BlankOnlyFirst(Extend(passages, part))
    ensures passages != [] ==> (PyBlank(Extend(passages, part)[0]) <==> PyBlank(passages[0]))
  {
    if PyBlank(part) && passages != [] {
      var last := passages[|passages| - 1];
      if !PyBlank(last) {
        var c :| c in last && !PySpace(c);
        assert c in last + part;
      }
    }
  }

  lemma {:induction false} MergedKeeps(parts: seq<string>)
    ensures Join(Merged(parts)) == Join(parts) && BlankOnlyFirst(Merged(parts))
    ensures parts != [] ==> Merged(parts) != [] && (PyBlank(Merged(parts)[0]) <==> PyBlank(parts[0]))
  {
    if parts != [] {
      var front, last := parts[..|parts| - 1], parts[|parts| - 1];
      MergedKeeps(front);
      ExtendJoins(Merged(front), last);
      ExtendKeepsText(Merged(front), last);
      JoinSnoc(front, last);
      assert parts == front + [last];
    }
  }

  lemma JoinSlice(content: string, a: nat, b: nat, rest: seq<string>)
    requires a <= b <= |content| && Join(rest) == content[b..]
    ensures Join([content[a..b]] + rest) == content[a..]
  {
    JoinFirst(content[a..b], rest);
    assert content[a..b] + content[b..] == content[a..];
  }

  lemma {:induction false} PartsJoin(content: string, mode: Mode, offset: nat)
    requires offset <= |content|
    ensures Join(Parts(content, mode, offset)) == content[offset..]
    decreases |content| - offset
  {
    if offset < |content| {
      var next := offset + Cut(content, offset, mode);
      PartsJoin(content, mode, next);
      PartsStep(content, mode, offset);
      JoinSlice(content, offset, next, Parts(content, mode, next));
    }
  }

  /** The passages join back to the source, and only the first can be blank. */
  lemma PassagesAreLossless(content: string, mode: Mode)
    ensures Join(Passages(content, mode)) == content && BlankOnlyFirst(Passages(content, mode))
  {
    PartsJoin(content, mode, 0);
    MergedKeeps(Parts(content, mode, 0));
    JoinOne("");
  }

  /** The first passage is blank exactly when the first part cut from the source is. */
  lemma FirstIsBlank(content: string, mode: Mode)
    ensures PyBlank(Passages(content, mode)[0]) <==> content == "" || PyBlank(content[..Cut(content, 0, mode)])
  {
    MergedKeeps(Parts(content, mode, 0));
    if content != "" {
      assert content[0..Cut(content, 0, mode)] == content[..Cut(content, 0, mode)];
    }
  }

  // ---------------------------------------------------------------- quotations

  /** `_occurrences`: none, one, or two for any greater number, overlaps counted. */
  function Occurrences(content: string, text: string): (n: nat)
    ensures n == 1 <==> text != "" && OccursOnce(content, text)
    ensures n == 0 <==> text == "" || forall j :: !At(content, text, j)
  {
    if text == "" then 0
    else
      var first := Find(content, text, 0);
      if first < 0 then (assert forall j :: At(content, text, j) ==> 0 <= j; 0)
      else if Find(content, text, first + 1) >= 0 then
        assert At(content, text, first) && At(content, text, Find(content, text, first + 1));
        2
      else
        assert At(content, text, first);
        assert forall j :: At(content, text, j) ==> j == first;
        1
  }

  datatype Outcome = Located(selector: Selector) | OutsideSource | EmptyPassage | NotUnique

  /** `text[-width:]` */
  function Tail(text: string, width: nat): string {
    if width < |text| then text[|text| - width..] else text
  }

  /** `text[:width]` */
  function Head(text: string, width: nat): string {
    if width < |text| then text[..width] else text
  }

  /** The passages before, in and after a range. */
  function Before(content: string, mode: Mode, begin: nat): string
    requires begin <= |Passages(content, mode)|
  {
    Join(Passages(content, mode)[..begin])
  }

  function Exact(content: string, mode: Mode, begin: nat, end: nat): string
    requires begin <= end < |Passages(content, mode)|
  {
    Join(Passages(content, mode)[begin..end + 1])
  }

  function After(content: string, mode: Mode, end: nat): string
    requires end < |Passages(content, mode)|
  {
    Join(Passages(content, mode)[end + 1..])
  }

  predicate Within(content: string, mode: Mode, begin: int, end: int) {
    0 <= begin <= end < |Passages(content, mode)|
  }

  lemma RangeSplits(content: string, mode: Mode, begin: nat, end: nat)
    requires Within(content, mode, begin, end)
    ensures content == Before(content, mode, begin) + Exact(content, mode, begin, end) + After(content, mode, end)
  {
    var p := Passages(content, mode);
    PassagesAreLossless(content, mode);
    JoinSplits(p[..begin], p[begin..end + 1]);
    JoinSplits(p[..end + 1], p[end + 1..]);
    assert p[..begin] + p[begin..end + 1] == p[..end + 1];
    assert p[..end + 1] + p[end + 1..] == p;
  }

  lemma JoinIsBlank(parts: seq<string>, i: nat)
    requires i < |parts| && !PyBlank(parts[i])
    ensures !PyBlank(Join(parts))
  {
    var c :| c in parts[i] && !PySpace(c);
    if i == 0 {
      assert c in Join(parts);
    } else {
      JoinIsBlank(parts[1..], i - 1);
      var d :| d in Join(parts[1..]) && !PySpace(d);
      assert d in Join(parts);
    }
  }

  /** A range of passages is blank exactly when it is the first passage alone and the source begins with a blank
      part. */
  lemma BlankRange(content: string, mode: Mode, begin: nat, end: nat)
    requires Within(content, mode, begin, end)
    ensures PyBlank(Exact(content, mode, begin, end))
            <==> begin == 0 && end == 0 && (content == "" || PyBlank(content[..Cut(content, 0, mode)]))
  {
    var p := Passages(content, mode);
    PassagesAreLossless(content, mode);
    FirstIsBlank(content, mode);
    if end > 0 {
      JoinIsBlank(p[begin..end + 1], end - begin);
    } else {
      assert p[begin..end + 1] == [p[0]];
      JoinOne(p[0]);
    }
  }

  /** The quotation of a range with up to `width` characters on either side. */
  function QuoteOf(content: string, mode: Mode, begin: nat, end: nat, width: nat): Selector
    requires Within(content, mode, begin, end)
  {
    Selector(Exact(content, mode, begin, end), Tail(Before(content, mode, begin), width), Head(After(content, mode, end), width))
  }

  /** Such a quotation stands where the range does. */
  lemma QuoteStands(content: string, mode: Mode, begin: nat, end: nat, width: nat)
    requires Within(content, mode, begin, end)
    ensures QuoteOf(content, mode, begin, end, width).Stands(content, |Before(content, mode, begin)|)
  {
    RangeSplits(content, mode, begin, end);
    CutStands(Before(content, mode, begin), Exact(content, mode, begin, end), After(content, mode, end), width);
  }

  lemma CutStands(before: string, exact: string, after: string, width: nat)
    ensures Selector(exact, Tail(before, width), Head(after, width)).Stands(before + exact + after, |before|)
  {
    var content := before + exact + after;
    assert content[|before|..|before| + |exact|] == exact;
    assert content[..|before|] == before;
    assert content[|before| + |exact|..] == after;
  }

  /** With the whole source around it, the quotation is the source itself. */
  lemma WholeIsUnique(content: string, mode: Mode, begin: nat, end: nat, width: nat)
    requires Within(content, mode, begin, end)
    requires width >= |Before(content, mode, begin)| && width >= |After(content, mode, end)|
    ensures QuoteOf(content, mode, begin, end, width).Quote() == content && OccursOnce(content, content)
  {
    RangeSplits(content, mode, begin, end);
    assert At(content, content, 0);
  }

  /** `passage_selector`: the narrowest doubling of context that makes the quotation unique. It always exists:
      the failure `NotUnique` cannot be returned. */
  method PassageSelector(content: string, begin: int, end: int, mode: Mode) returns (r: Outcome)
    ensures r == OutsideSource <==> !Within(content, mode, begin, end)
    ensures r == EmptyPassage <==>
              Within(content, mode, begin, end) && begin == 0 && end == 0
              && (content == "" || PyBlank(content[..Cut(content, 0, mode)]))
    ensures r != NotUnique
    ensures r.Located? ==>
              exists k: nat :: Narrowest(content, mode, begin, end, k) && r.selector == QuoteOf(content, mode, begin, end, Width(k))
    ensures r.Located? ==> r.selector.Locates(content) && r.selector.Stands(content, |Before(content, mode, begin)|)
  {
    var spans := SourcePassages(content, mode);
    if !(0 <= begin <= end < |spans|) {
      return OutsideSource;
    }
    var before, exact, after := Join(spans[..begin]), Join(spans[begin..end + 1]), Join(spans[end + 1..]);
    BlankRange(content, mode, begin, end);
    if PyBlank(exact) {
      return EmptyPassage;
    }
    var selector;
    ghost var k;
    selector, k := NarrowestQuote(content, begin, end, mode, before, exact, after);
    QuotationsResolve(content, mode, begin, end, Width(k));
    return Located(selector);
  }

  lemma OneOccurrence(content: string, mode: Mode, begin: nat, end: nat, width: nat)
    requires Within(content, mode, begin, end) && Exact(content, mode, begin, end) != ""
    ensures var selector := QuoteOf(content, mode, begin, end, width);
            Occurrences(content, selector.prefix + selector.exact + selector.suffix) == 1 <==> UniqueWith(content, mode, begin, end, width)
  {
  }

  lemma WholeFits(content: string, mode: Mode, begin: nat, end: nat, width: nat)
    requires Within(content, mode, begin, end)
    requires width >= |Before(content, mode, begin)| && width >= |After(content, mode, end)|
    ensures UniqueWith(content, mode, begin, end, width)
  {
    WholeIsUnique(content, mode, begin, end, width);
  }

  method TryWidth(content: string, begin: nat, end: nat, mode: Mode, before: string, exact: string, after: string, width: nat)
    returns (selector: Selector, unique: bool)
    requires Within(content, mode, begin, end) && exact != ""
    requires before == Before(content, mode, begin) && exact == Exact(content, mode, begin, end) && after == After(content, mode, end)
    ensures selector == QuoteOf(content, mode, begin, end, width) && (unique <==> UniqueWith(content, mode, begin, end, width))
  {
    selector := Selector(exact, Tail(before, width), Head(after, width));
    OneOccurrence(content, mode, begin, end, width);
    unique := Occurrences(content, selector.prefix + exact + selector.suffix) == 1;
  }

  /** Widen the context until the quotation is unique; with the whole source around it, it is. */
  method NarrowestQuote(content: string, begin: nat, end: nat, mode: Mode, before: string, exact: string, after: string)
    returns (selector: Selector, ghost k: nat)
    requires Within(content, mode, begin, end) && exact != ""
    requires before == Before(content, mode, begin) && exact == Exact(content, mode, begin, end) && after == After(content, mode, end)
    ensures Narrowest(content, mode, begin, end, k) && selector == QuoteOf(content, mode, begin, end, Width(k))
  {
    var w := 32;
    k := 0;
    while true
      invariant w > 0 && w == Width(k) && NoneBelow(content, mode, begin, end, k)
      decreases |before| + |after| - w
    {
      var unique;
      selector, unique := TryWidth(content, begin, end, mode, before, exact, after, w);
      if unique {
        return selector, k;
      }
      if !(w < |before| || w < |after|) {
        WholeFits(content, mode, begin, end, w);
        assert false;
      }
      w, k := w * 2, k + 1;
    }
  }

  /** The context tried after `k` doublings. */
  function Width(k: nat): nat {
    if k == 0 then 32 else 2 * Width(k - 1)
  }

  /** No earlier doubling of the context makes the quotation unique. */
  ghost predicate NoneBelow(content: string, mode: Mode, begin: nat, end: nat, k: nat)
    requires Within(content, mode, begin, end)
  {
    forall i: nat :: i < k ==> !UniqueWith(content, mode, begin, end, Width(i))
  }

  ghost predicate UniqueWith(content: string, mode: Mode, begin: nat, end: nat, width: nat)
    requires Within(content, mode, begin, end)
  {
    OccursOnce(content, QuoteOf(content, mode, begin, end, width).Quote())
  }

  /** This many doublings make the quotation unique, and no fewer do. */
  ghost predicate Narrowest(content: string, mode: Mode, begin: nat, end: nat, k: nat)
    requires Within(content, mode, begin, end)
  {
    UniqueWith(content, mode, begin, end, Width(k)) && NoneBelow(content, mode, begin, end, k)
  }

  lemma UniqueQuoteStands(sel: Selector, content: string, n: int)
    requires OccursOnce(content, sel.Quote()) && sel.Stands(content, n)
    ensures forall m :: sel.Stands(content, m) <==> m == n
  {
    StandsIsQuoteAt(sel, content, n);
    forall m ensures sel.Stands(content, m) <==> m == n {
      StandsIsQuoteAt(sel, content, m);
    }
  }

  /** Every non-blank range has its narrowest quotation, and the information model's `Resolve` finds that quotation
      at the range itself and nowhere else. */
  lemma QuotationsResolve(content: string, mode: Mode, begin: nat, end: nat, width: nat)
    requires Within(content, mode, begin, end) && UniqueWith(content, mode, begin, end, width)
    requires !PyBlank(Exact(content, mode, begin, end))
    ensures var sel, n := QuoteOf(content, mode, begin, end, width), |Before(content, mode, begin)|;
            sel.Locates(content) && forall m :: sel.Stands(content, m) <==> m == n
  {
    var sel, n := QuoteOf(content, mode, begin, end, width), |Before(content, mode, begin)|;
    QuoteStands(content, mode, begin, end, width);
    UniqueQuoteStands(sel, content, n);
    var c :| c in sel.exact && !PySpace(c);
    assert !GoSpace(c);
  }
}
