// parse_pattern of app.py: split a query such as `최[ㅈ/*/*]` into the
// literal prefix, the three slot patterns and the literal suffix.
//
// The regular expression written at app.py:34 does not compile: its second
// and third groups open with an unescaped `*`, which Python's `re` rejects
// ("nothing to repeat"). ParsePatternAsWritten models that; ParsePattern
// models the evident intent, the form of the first group, where each field
// is `*` or one character other than `]` and `/`. Since `*` is itself such
// a character, each field is exactly one character other than `]` and `/`.
// The lazy `(.*?)` prefix and the fixed-width fields make the match a plain
// left-to-right scan for the first bracket, written out below.
module Pattern {
  import opened Wrappers
  import opened Jamo

  /** The wildcard slot. */
  const Wildcard: char := '*'

  /** The message of the ValueError raised for a query without a bracket. */
  const SyntaxMessage: string := "패턴 형식이 잘못되었습니다. 예: 최[ㅈ/*/*], [ㅎ/*/*]다 등"

  /** What `re.compile` reports for the expression as written. */
  const RegexMessage: string := "nothing to repeat at position 20"

  /** The parsed query: prefix, normalised lead/vowel/trail slots, suffix. */
  datatype Query = Query(pre: string, lead: char, vowel: char, trail: char, post: string)

  /** ValueError raised by parse_pattern, or re.error raised by the regex compiler. */
  datatype ParseError = MalformedPattern(message: string) | RegexCompileError(message: string)

  /** One bracket field: `[^\]/]`. */
  predicate IsField(c: char) {
    c != ']' && c != '/'
  }

  /** `s[i..i+7]` has the shape `[x/y/z]`. */
  predicate BracketAt(s: string, i: nat) {
    i + 7 <= |s| && s[i] == '[' && IsField(s[i + 1]) && s[i + 2] == '/' &&
    IsField(s[i + 3]) && s[i + 4] == '/' && IsField(s[i + 5]) && s[i + 6] == ']'
  }

  /** The seven characters of a bracket with fields x, y, z. */
  function Bracket(x: char, y: char, z: char): string {
    ['[', x, '/', y, '/', z, ']']
  }

  /**
   * The lazy prefix `(.*?)`: the first index from `i` on where a bracket
   * starts, provided no newline (which `.` does not match) comes before it.
   */
  function FindBracket(s: string, i: nat): (r: Option<nat>)
    requires i <= |s|
    ensures r.Some? ==> i <= r.value <= |s| && BracketAt(s, r.value) && '\n' !in s[i..r.value]
    ensures r.Some? ==> forall j :: i <= j < r.value ==> !BracketAt(s, j)
    ensures r.None? ==> forall j :: i <= j <= |s| && '\n' !in s[i..j] ==> !BracketAt(s, j)
    decreases |s| - i
  {
    if BracketAt(s, i) then Some(i)
    else if i == |s| || s[i] == '\n' then None
    else
      var r := FindBracket(s, i + 1);
      assert forall j :: i < j <= |s| ==> s[i..j] == [s[i]] + s[i + 1..j];
      r
  }

  /** The greedy suffix `(.*)`: the first newline at or after `i`, or the end. */
  function LineEnd(s: string, i: nat): (e: nat)
    requires i <= |s|
    ensures i <= e <= |s| && '\n' !in s[i..e]
    ensures e < |s| ==> s[e] == '\n'
    decreases |s| - i
  {
    if i == |s| || s[i] == '\n' then i
    else
      var e := LineEnd(s, i + 1);
      assert s[i..e] == [s[i]] + s[i + 1..e];
      e
  }

  /** parse_pattern with the evidently intended expression. */
  function ParsePattern(query: string): Result<Query, ParseError> {
    match FindBracket(query, 0)
    case None => Failure(MalformedPattern(SyntaxMessage))
    case Some(i) =>
      Success(Query(query[..i],
                    ConvertToModern(query[i + 1]),
                    ConvertToModern(query[i + 3]),
                    ConvertToModern(query[i + 5]),
                    query[i + 7..LineEnd(query, i + 7)]))
  }

  /** parse_pattern as written: compiling the expression fails before any query is looked at. */
  function ParsePatternAsWritten(query: string): (r: Result<Query, ParseError>)
  {
    Failure(RegexCompileError(RegexMessage))
  }

  /** The query parses exactly when some bracket is preceded by a newline-free prefix. */
  lemma ParseSucceedsIff(query: string)
    ensures ParsePattern(query).Success? <==>
            exists i :: 0 <= i <= |query| && BracketAt(query, i) && '\n' !in query[..i]
  {
    var r := FindBracket(query, 0);
    if r.None? {
      forall i | 0 <= i <= |query| && BracketAt(query, i)
        ensures '\n' in query[..i]
      {
        assert query[0..i] == query[..i];
      }
    } else {
      assert query[0..r.value] == query[..r.value];
    }
  }

  /** A failed parse raises the ValueError with the example-syntax message. */
  lemma ParseFailureMessage(query: string)
    requires ParsePattern(query).Failure?
    ensures ParsePattern(query).error == MalformedPattern(SyntaxMessage)
    ensures forall i :: 0 <= i <= |query| && '\n' !in query[..i] ==> !BracketAt(query, i)
  {
    forall i | 0 <= i <= |query| && '\n' !in query[..i]
      ensures !BracketAt(query, i)
    {
      assert query[0..i] == query[..i];
    }
  }

  /**
   * A successful parse cuts at the leftmost bracket: the prefix holds no
   * bracket, the slots are the normalised fields, and the suffix runs to
   * the end of the first line.
   */
  lemma ParseLeftmost(query: string)
    requires ParsePattern(query).Success?
    ensures var q := ParsePattern(query).value;
      var i := |q.pre|;
      && BracketAt(query, i)
      && q.pre == query[..i]
      && '\n' !in q.pre
      && (forall j :: 0 <= j < i ==> !BracketAt(query, j))
      && q.lead == ConvertToModern(query[i + 1])
      && q.vowel == ConvertToModern(query[i + 3])
      && q.trail == ConvertToModern(query[i + 5])
      && q.post == query[i + 7..LineEnd(query, i + 7)]
  {
    var i := FindBracket(query, 0).value;
    assert query[0..i] == query[..i];
  }

  /** Without a newline from `i` on, the suffix runs to the end of the query. */
  lemma LineEndWithoutNewline(s: string, i: nat)
    requires i <= |s| && '\n' !in s[i..]
    ensures LineEnd(s, i) == |s|
  {
    forall k | i <= k < |s|
      ensures s[k] != '\n'
    {
      assert s[k] == s[i..][k - i];
    }
  }

  /** On a single-line query, prefix, bracket and suffix put back together give the query. */
  lemma ParseRoundTrip(query: string)
    requires '\n' !in query
    requires ParsePattern(query).Success?
    ensures var q := ParsePattern(query).value;
      exists x, y, z ::
        && IsField(x) && IsField(y) && IsField(z)
        && query == q.pre + Bracket(x, y, z) + q.post
        && q.lead == ConvertToModern(x)
        && q.vowel == ConvertToModern(y)
        && q.trail == ConvertToModern(z)
  {
    var i := FindBracket(query, 0).value;
    var x, y, z := query[i + 1], query[i + 3], query[i + 5];
    LineEndWithoutNewline(query, i + 7);
    BracketSplit(query, i);
    var q := ParsePattern(query).value;
    assert q.pre == query[..i] && q.post == query[i + 7..];
    assert query == q.pre + Bracket(x, y, z) + q.post;
  }

  /** A query cut around a bracket at `i`: prefix, the bracket's seven characters, rest. */
  lemma BracketSplit(s: string, i: nat)
    requires BracketAt(s, i)
    ensures s == s[..i] + Bracket(s[i + 1], s[i + 3], s[i + 5]) + s[i + 7..]
  {
    assert s[i..i + 7] == Bracket(s[i + 1], s[i + 3], s[i + 5]);
    assert s == s[..i] + s[i..i + 7] + s[i + 7..];
  }

  /**
   * The converse of ParseRoundTrip: a newline-free prefix in which no
   * bracket starts, one bracket and a single-line suffix parse back into
   * those parts.
   */
  lemma ParseOneBracket(pre: string, x: char, y: char, z: char, post: string)
    requires '\n' !in pre && '\n' !in post
    requires IsField(x) && IsField(y) && IsField(z)
    requires forall j :: 0 <= j < |pre| ==> !BracketAt(pre + Bracket(x, y, z) + post, j)
    ensures ParsePattern(pre + Bracket(x, y, z) + post) ==
            Success(Query(pre, ConvertToModern(x), ConvertToModern(y), ConvertToModern(z), post))
  {
    var s := pre + Bracket(x, y, z) + post;
    var i := |pre|;
    assert s[..i] == pre && s[i + 7..] == post;
    assert s[0..i] == pre;
    assert BracketAt(s, i);
    assert FindBracket(s, 0) == Some(i);
    assert s[i + 1] == x && s[i + 3] == y && s[i + 5] == z;
    LineEndWithoutNewline(s, i + 7);
    assert s[i + 7..|s|] == post;
  }

  /** ParseOneBracket for a prefix without `[`, where no bracket can start. */
  lemma ParsePlainPrefix(pre: string, x: char, y: char, z: char, post: string)
    requires '[' !in pre && '\n' !in pre && '\n' !in post
    requires IsField(x) && IsField(y) && IsField(z)
    ensures ParsePattern(pre + Bracket(x, y, z) + post) ==
            Success(Query(pre, ConvertToModern(x), ConvertToModern(y), ConvertToModern(z), post))
  {
    var s := pre + Bracket(x, y, z) + post;
    forall j | 0 <= j < |pre|
      ensures !BracketAt(s, j)
    {
      assert s[j] == pre[j];
    }
    ParseOneBracket(pre, x, y, z, post);
  }

  // A `[` in the prefix is allowed when no bracket starts there: the query
  // "[a[ㄱ/*/*]" parses with prefix "[a".
  lemma ParseBracketInPrefix()
    ensures ParsePattern("[a[ㄱ/*/*]") == Success(Query("[a", '\U{1100}', '*', '*', ""))
  {
    var s := "[a" + Bracket('ㄱ', '*', '*') + "";
    assert s == "[a[ㄱ/*/*]";
    assert s[2] == '[' && s[1] == 'a';
    ParseOneBracket("[a", 'ㄱ', '*', '*', "");
    ConvertConsonant(0);
    CompatTableRanges('*');
  }

  /** The example of the syntax message parses to prefix 최, lead ᄌ and two wildcards. */
  lemma ParseExample()
    ensures ParsePattern("최[ㅈ/*/*]") == Success(Query("최", '\U{110C}', '*', '*', ""))
  {
    assert "최[ㅈ/*/*]" == "최" + Bracket('ㅈ', '*', '*') + "";
    ParsePlainPrefix("최", 'ㅈ', '*', '*', "");
    ConvertConsonant(12);
    CompatTableRanges('*');
  }

  /** As written, even the example of the syntax message is rejected, with re.error rather than ValueError. */
  lemma ParseAsWrittenRejectsExample()
    ensures ParsePatternAsWritten("최[ㅈ/*/*]").Failure?
    ensures ParsePatternAsWritten("최[ㅈ/*/*]").error.RegexCompileError?
    ensures ParsePattern("최[ㅈ/*/*]").Success?
  {
    ParseExample();
  }
}
