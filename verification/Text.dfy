/** Text as both halves of the system see it: blankness, occurrences counted with overlaps, and the
    quotation locator that the information model resolves. */
module Text {
  import opened Options

  /** White space in the sense of Go's `unicode.IsSpace`. */
  predicate GoSpace(c: char) {
    var n := c as int;
    9 <= n <= 13 || n == 0x20 || n == 0x85 || n == 0xA0 || n == 0x1680 || 0x2000 <= n <= 0x200A
    || n == 0x2028 || n == 0x2029 || n == 0x202F || n == 0x205F || n == 0x3000
  }

  /** White space in the sense of Python's `str.isspace`: four separator controls more than Go's. */
  predicate PySpace(c: char) {
    GoSpace(c) || 0x1C <= c as int <= 0x1F
  }

  /** `strings.TrimSpace(s) == ""` */
  predicate GoBlank(s: string) {
    forall c | c in s :: GoSpace(c)
  }

  /** `not s.strip()` */
  predicate PyBlank(s: string) {
    forall c | c in s :: PySpace(c)
  }

  /** `text` stands in `content` at position `i`. */
  predicate At(content: string, text: string, i: int) {
    0 <= i && i + |text| <= |content| && content[i..i + |text|] == text
  }

  /** `text` occurs at exactly one position of `content`, overlapping occurrences counted apart. */
  ghost predicate OccursOnce(content: string, text: string) {
    exists i :: At(content, text, i) && forall j :: At(content, text, j) ==> j == i
  }

  /** `content.find(text, from)`: the least position not before `from`, or -1. */
  function Find(content: string, text: string, from: nat): (r: int)
    ensures r == -1 || (from <= r && At(content, text, r))
    ensures forall j :: from <= j && At(content, text, j) ==> 0 <= r <= j
    decreases |content| - from
  {
    if from + |text| > |content| then -1
    else if At(content, text, from) then from
    else Find(content, text, from + 1)
  }

  datatype Selector = Selector(exact: string, prefix: string, suffix: string)
  {
    function Quote(): string {
      prefix + exact + suffix
    }

    /** The position at which the selector's exact text stands between its neighbours. */
    predicate Stands(content: string, n: int) {
      At(content, exact, n)
      && n >= |prefix| && content[n - |prefix|..n] == prefix
      && n + |exact| + |suffix| <= |content| && content[n + |exact|..n + |exact| + |suffix|] == suffix
    }

    /** The selector locates one passage: the condition under which `Resolve` succeeds. */
    predicate Locates(content: string) {
      !GoBlank(exact)
      && exists n | 0 <= n <= |content| :: Stands(content, n) && forall m | 0 <= m <= |content| :: Stands(content, m) ==> m == n
    }
  }

  /** Standing between its neighbours is an occurrence of the whole quotation. */
  lemma StandsIsQuoteAt(sel: Selector, content: string, n: int)
    ensures sel.Stands(content, n) <==> At(content, sel.Quote(), n - |sel.prefix|)
  {
    var quote, at := sel.Quote(), n - |sel.prefix|;
    if 0 <= at && at + |quote| <= |content| {
      var end := n + |sel.exact|;
      ThreeParts(content, at, n, end, at + |quote|, sel);
    }
  }

  lemma ThreeParts(content: string, at: nat, n: nat, m: nat, end: nat, sel: Selector)
    requires at <= n <= m <= end <= |content|
    requires n - at == |sel.prefix| && m - n == |sel.exact| && end - m == |sel.suffix|
    ensures content[at..end] == sel.Quote()
            <==> content[at..n] == sel.prefix && content[n..m] == sel.exact && content[m..end] == sel.suffix
  {
    var window := content[at..end];
    assert window == content[at..n] + content[n..m] + content[m..end];
    assert window[..n - at] == content[at..n] && window[n - at..m - at] == content[n..m] && window[m - at..] == content[m..end];
    var quote := sel.Quote();
    assert quote[..n - at] == sel.prefix && quote[n - at..m - at] == sel.exact && quote[m - at..] == sel.suffix;
  }

  /** `TextSelector.Resolve`: scan the occurrences of the exact text, keep the one between the right
      neighbours, refuse a second. Positions count characters. */
  method Resolve(sel: Selector, content: string) returns (r: Option<(nat, nat)>)
    ensures r.Some? <==> sel.Locates(content)
    ensures r.Some? ==> r.value.1 == r.value.0 + |sel.exact| && sel.Stands(content, r.value.0)
  {
    if GoBlank(sel.exact) {
      return None;
    }
    var found := -1;
    var offset := 0;
    while offset + |sel.exact| <= |content|
      invariant 0 <= offset <= |content| + 1
      invariant found == -1 || (0 <= found < offset && sel.Stands(content, found))
      invariant forall m :: m < offset && sel.Stands(content, m) ==> m == found
      decreases |content| + 1 - offset
    {
      var n := Find(content, sel.exact, offset);
      if n < 0 {
        break;
      }
      if sel.Stands(content, n) {
        if found >= 0 {
          return None;
        }
        found := n;
      }
      offset := n + 1;
    }
    if found < 0 {
      return None;
    }
    return Some((found, found + |sel.exact|));
  }
}
