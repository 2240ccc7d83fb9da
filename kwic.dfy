/**
 * get_kwic of app.py: parse the query, collect a (left, center, right)
 * window around every matching word of every line, sort the windows, and
 * turn each into a display entry whose words carry their distance from
 * the centre. The HTML that style() wraps around each word is left out;
 * the distance it is given is kept.
 */
module Kwic {
  import opened Wrappers
  import opened Text
  import opened Pattern
  import opened Matcher
  import opened Sorting

  /** One entry of `results`: the left context, the matching word, the right context. */
  datatype Row = Row(left: seq<string>, center: string, right: seq<string>)

  /** A word with the distance from the centre that style() is given for it. */
  datatype Labelled = Labelled(word: string, distance: nat)

  /** One entry of `display`. */
  datatype DisplayRow = DisplayRow(left: seq<Labelled>, center: Labelled, right: seq<Labelled>)

  function Max(a: int, b: int): int {
    if a < b then b else a
  }

  function Min(a: int, b: int): int {
    if a < b then a else b
  }

  /** `(words[max(0, i - cs):i], words[i], words[i+1:i+1+cs])` */
  function Window(words: seq<string>, i: nat, cs: int): Row
    requires i < |words|
  {
    Row(PySlice(words, Max(0, i - cs), i), words[i], PySlice(words, i + 1, i + 1 + cs))
  }

  /**
   * With a non-negative context size the window holds the up to `cs` words
   * just before and just after the centre, in their order in the line.
   */
  lemma WindowShape(words: seq<string>, i: nat, cs: int)
    requires i < |words| && cs >= 0
    ensures var r := Window(words, i, cs);
      && r.center == words[i]
      && r.left == words[Max(0, i - cs)..i]
      && |r.left| == Min(i, cs)
      && r.right == words[i + 1..Min(|words|, i + 1 + cs)]
      && |r.right| == Min(cs, |words| - i - 1)
  {
    PySliceNonNegative(words, Max(0, i - cs), i);
    PySliceNonNegative(words, i + 1, i + 1 + cs);
  }

  /** The rows contributed by words[..n] of one line, in order. */
  function LineRows(words: seq<string>, q: Query, cs: int, n: nat): seq<Row>
    requires n <= |words|
  {
    if n == 0 then []
    else LineRows(words, q, cs, n - 1) +
         (if MatchWithJamo(words[n - 1], q) then [Window(words, n - 1, cs)] else [])
  }

  /** The rows contributed by lines[..m], in order. */
  function DocRows(lines: seq<string>, q: Query, cs: int, m: nat): seq<Row>
    requires m <= |lines|
  {
    if m == 0 then []
    else
      var words := Words(lines[m - 1]);
      DocRows(lines, q, cs, m - 1) + LineRows(words, q, cs, |words|)
  }

  /** The indices of the matching words among words[..n], in order. */
  function LineHits(words: seq<string>, q: Query, n: nat): seq<nat>
    requires n <= |words|
  {
    if n == 0 then []
    else LineHits(words, q, n - 1) + (if MatchWithJamo(words[n - 1], q) then [n - 1] else [])
  }

  /** Pair each word index with its line index. */
  function AtLine(line: nat, hs: seq<nat>): (ps: seq<(nat, nat)>)
    ensures |ps| == |hs|
    ensures forall k :: 0 <= k < |hs| ==> ps[k] == (line, hs[k])
  {
    seq(|hs|, k requires 0 <= k < |hs| => (line, hs[k]))
  }

  /** The (line, word) positions of the matching words of lines[..m]. */
  function DocHits(lines: seq<string>, q: Query, m: nat): seq<(nat, nat)>
    requires m <= |lines|
  {
    if m == 0 then []
    else
      var words := Words(lines[m - 1]);
      DocHits(lines, q, m - 1) + AtLine(m - 1, LineHits(words, q, |words|))
  }

  /** Position (a, b) comes before (c, d) in the document. */
  predicate Before(p: (nat, nat), r: (nat, nat)) {
    p.0 < r.0 || (p.0 == r.0 && p.1 < r.1)
  }

  /** The hits of one line are exactly its matching indices, strictly increasing. */
  lemma {:induction false} LineHitsExact(words: seq<string>, q: Query, n: nat)
    requires n <= |words|
    ensures forall i: nat :: i in LineHits(words, q, n) <==> i < n && MatchWithJamo(words[i], q)
    ensures forall j, k :: 0 <= j < k < |LineHits(words, q, n)| ==> LineHits(words, q, n)[j] < LineHits(words, q, n)[k]
  {
    if n > 0 {
      LineHitsExact(words, q, n - 1);
      var prev := LineHits(words, q, n - 1);
      forall j | 0 <= j < |prev| ensures prev[j] < n - 1 {
        assert prev[j] in prev;
      }
    }
  }

  /** Row k of a line is the window around its k-th hit. */
  lemma {:induction false} LineRowsAtHits(words: seq<string>, q: Query, cs: int, n: nat)
    requires n <= |words|
    ensures |LineRows(words, q, cs, n)| == |LineHits(words, q, n)|
    ensures forall k :: 0 <= k < |LineHits(words, q, n)| ==>
              LineHits(words, q, n)[k] < |words| &&
              LineRows(words, q, cs, n)[k] == Window(words, LineHits(words, q, n)[k], cs)
  {
    if n > 0 {
      LineRowsAtHits(words, q, cs, n - 1);
      var rows, hits := LineRows(words, q, cs, n - 1), LineHits(words, q, n - 1);
      if MatchWithJamo(words[n - 1], q) {
        assert LineRows(words, q, cs, n) == rows + [Window(words, n - 1, cs)];
        assert LineHits(words, q, n) == hits + [n - 1];
      } else {
        assert LineRows(words, q, cs, n) == rows;
        assert LineHits(words, q, n) == hits;
      }
    }
  }

  /** A pair is among the hits of one line exactly when it names that line and a hit. */
  lemma AtLineMember(line: nat, hs: seq<nat>, a: nat, b: nat)
    ensures (a, b) in AtLine(line, hs) <==> a == line && b in hs
  {
    var ps := AtLine(line, hs);
    if (a, b) in ps {
      var k :| 0 <= k < |ps| && ps[k] == (a, b);
      assert hs[k] == b;
    }
    if a == line && b in hs {
      var k :| 0 <= k < |hs| && hs[k] == b;
      assert ps[k] == (a, b);
    }
  }

  /** Exactly one hit per matching (line, word) pair of lines[..m]. */
  lemma {:induction false} DocHitsExact(lines: seq<string>, q: Query, m: nat)
    requires m <= |lines|
    ensures forall a: nat, b: nat :: (a, b) in DocHits(lines, q, m) <==>
              a < m && b < |Words(lines[a])| && MatchWithJamo(Words(lines[a])[b], q)
  {
    if m > 0 {
      DocHitsExact(lines, q, m - 1);
      var words := Words(lines[m - 1]);
      var hs := LineHits(words, q, |words|);
      LineHitsExact(words, q, |words|);
      forall a: nat, b: nat
        ensures (a, b) in DocHits(lines, q, m) <==>
                a < m && b < |Words(lines[a])| && MatchWithJamo(Words(lines[a])[b], q)
      {
        AtLineMember(m - 1, hs, a, b);
      }
    }
  }

  /** The hits of lines[..m] are listed in document order. */
  lemma {:induction false} DocHitsOrdered(lines: seq<string>, q: Query, m: nat)
    requires m <= |lines|
    ensures forall p :: p in DocHits(lines, q, m) ==> p.0 < m
    ensures forall j, k :: 0 <= j < k < |DocHits(lines, q, m)| ==>
              Before(DocHits(lines, q, m)[j], DocHits(lines, q, m)[k])
  {
    if m > 0 {
      DocHitsOrdered(lines, q, m - 1);
      var words := Words(lines[m - 1]);
      var hs := LineHits(words, q, |words|);
      LineHitsExact(words, q, |words|);
      var prev := DocHits(lines, q, m - 1);
      var cur := AtLine(m - 1, hs);
      assert DocHits(lines, q, m) == prev + cur;
      forall j, k | 0 <= j < k < |prev + cur| ensures Before((prev + cur)[j], (prev + cur)[k]) {
        if j < |prev| && k >= |prev| {
          assert prev[j] in prev;
        }
      }
    }
  }

  /** Row k of the document is the window around its k-th hit. */
  lemma {:induction false} DocRowsAtHits(lines: seq<string>, q: Query, cs: int, m: nat)
    requires m <= |lines|
    ensures |DocRows(lines, q, cs, m)| == |DocHits(lines, q, m)|
    ensures forall k :: 0 <= k < |DocHits(lines, q, m)| ==>
              var h := DocHits(lines, q, m)[k];
              h.0 < m && h.1 < |Words(lines[h.0])| &&
              DocRows(lines, q, cs, m)[k] == Window(Words(lines[h.0]), h.1, cs)
  {
    if m > 0 {
      DocRowsAtHits(lines, q, cs, m - 1);
      var words := Words(lines[m - 1]);
      LineRowsAtHits(words, q, cs, |words|);
    }
  }

  /** The sort key for 'left': the nearest left word, or '' when there is none. */
  function LeftKey(r: Row): string {
    if r.left != [] then r.left[|r.left| - 1] else ""
  }

  /** The sort key for 'right': the nearest right word, or '' when there is none. */
  function RightKey(r: Row): string {
    if r.right != [] then r.right[0] else ""
  }

  /**
   * The sort step: 'left' and 'right' sort stably by the nearest word on
   * that side, anything else keeps document order; always a permutation.
   */
  function SortRows(rows: seq<Row>, sort: string): (r: seq<Row>)
    ensures multiset(r) == multiset(rows)
    ensures sort == "left" ==> SortedBy(r, LeftKey) && forall k :: WithKey(r, LeftKey, k) == WithKey(rows, LeftKey, k)
    ensures sort == "right" ==> SortedBy(r, RightKey) && forall k :: WithKey(r, RightKey, k) == WithKey(rows, RightKey, k)
    ensures sort != "left" && sort != "right" ==> r == rows
  {
    if sort == "left" then
      SortByStableAll(rows, LeftKey);
      SortBy(rows, LeftKey)
    else if sort == "right" then
      SortByStableAll(rows, RightKey);
      SortBy(rows, RightKey)
    else rows
  }

  /** The display entry of a row: left word k has distance |left| - k, right word k has k + 1. */
  function Display(r: Row): DisplayRow {
    DisplayRow(seq(|r.left|, k requires 0 <= k < |r.left| => Labelled(r.left[k], |r.left| - k)),
               Labelled(r.center, 0),
               seq(|r.right|, k requires 0 <= k < |r.right| => Labelled(r.right[k], k + 1)))
  }

  /**
   * Every label is the true distance in the line: the left word labelled d
   * is words[i - d], the right word labelled d is words[i + d], 1 <= d <= cs.
   */
  lemma DisplayDistances(words: seq<string>, i: nat, cs: int)
    requires i < |words| && cs >= 0
    ensures var d := Display(Window(words, i, cs));
      && d.center == Labelled(words[i], 0)
      && |d.left| == Min(i, cs) && |d.right| == Min(cs, |words| - i - 1)
      && (forall k :: 0 <= k < |d.left| ==>
            1 <= d.left[k].distance <= cs && d.left[k].distance <= i && d.left[k].word == words[i - d.left[k].distance])
      && (forall k :: 0 <= k < |d.right| ==>
            1 <= d.right[k].distance <= cs && i + d.right[k].distance < |words| && d.right[k].word == words[i + d.right[k].distance])
  {
    WindowShape(words, i, cs);
  }

  /**
   * The outer loop of get_kwic: the windows of every line, line after line.
   */
  method CollectMatches(lines: seq<string>, q: Query, contextSize: int) returns (results: seq<Row>)
    ensures results == DocRows(lines, q, contextSize, |lines|)
  {
    results := [];
    for li := 0 to |lines|
      invariant results == DocRows(lines, q, contextSize, li)
    {
      var words := Words(lines[li]);
      var rows := LineMatches(words, q, contextSize);
      results := results + rows;
    }
  }

  /**
   * The inner loop of get_kwic: one window per matching word of a line,
   * word after word.
   */
  method LineMatches(words: seq<string>, q: Query, contextSize: int) returns (results: seq<Row>)
    ensures results == LineRows(words, q, contextSize, |words|)
  {
    results := [];
    for i := 0 to |words|
      invariant results == LineRows(words, q, contextSize, i)
    {
      if MatchWithJamo(words[i], q) {
        var left := PySlice(words, Max(0, i - contextSize), i);
        var right := PySlice(words, i + 1, i + 1 + contextSize);
        results := results + [Row(left, words[i], right)];
      }
    }
  }

  /**
   * get_kwic: a query that does not parse is reported before any line is
   * looked at; otherwise one display entry per matching word, in the
   * chosen order.
   */
  method GetKwic(lines: seq<string>, pattern: string, contextSize: int, sort: string)
    returns (r: Result<seq<DisplayRow>, ParseError>)
    ensures r.Failure? <==> ParsePattern(pattern).Failure?
    ensures r.Failure? ==> r.error == MalformedPattern(SyntaxMessage)
    ensures r.Success? ==>
      var rows := SortRows(DocRows(lines, ParsePattern(pattern).value, contextSize, |lines|), sort);
      |r.value| == |rows| && forall k :: 0 <= k < |rows| ==> r.value[k] == Display(rows[k])
  {
    var parsed := ParsePattern(pattern);
    if parsed.Failure? {
      ParseFailureMessage(pattern);
      return Failure(parsed.error);
    }
    var q := parsed.value;
    var results := CollectMatches(lines, q, contextSize);
    results := SortRows(results, sort);
    var display := DisplayAll(results);
    return Success(display);
  }

  /** The final loop of get_kwic: one display entry per row, in order. */
  method DisplayAll(results: seq<Row>) returns (display: seq<DisplayRow>)
    ensures |display| == |results|
    ensures forall k :: 0 <= k < |results| ==> display[k] == Display(results[k])
  {
    display := [];
    for k := 0 to |results|
      invariant |display| == k
      invariant forall j :: 0 <= j < k ==> display[j] == Display(results[j])
    {
      display := display + [Display(results[k])];
    }
  }
}
