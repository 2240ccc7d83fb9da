/**
 * match_with_jamo of app.py: a word matches a parsed query when it starts
 * with the prefix, ends with the suffix, and the single character right
 * after the prefix fits the three slots.
 */
module Matcher {
  import opened Wrappers
  import opened Jamo
  import opened Pattern

  /** str.endswith */
  predicate EndsWith(word: string, suffix: string) {
    |suffix| <= |word| && word[|word| - |suffix|..] == suffix
  }

  /** The inner `match`: a wildcard, or the very same jamo (never `None`). */
  predicate SlotMatches(jamo: Option<char>, pattern: char) {
    pattern == Wildcard || jamo == Some(pattern)
  }

  /** The word carries the prefix and the suffix and has a character at index |pre|. */
  predicate Anchored(word: string, q: Query) {
    q.pre <= word && EndsWith(word, q.post) && |q.pre| < |word|
  }

  /** The three slots against the decomposition of one character. */
  predicate SlotsMatch(c: char, q: Query) {
    var j := SplitJamo(c);
    SlotMatches(Some(j.lead), q.lead) && SlotMatches(j.vowel, q.vowel) &&
    (q.trail == Wildcard || SlotMatches(j.trail, q.trail))
  }

  /** match_with_jamo */
  predicate MatchWithJamo(word: string, q: Query) {
    if !(q.pre <= word) || !EndsWith(word, q.post) then false
    else if |word| <= |q.pre| then false
    else SlotsMatch(word[|q.pre|], q)
  }

  /** A match needs the prefix, the suffix and a character after the prefix. */
  lemma MatchIsAnchored(word: string, q: Query)
    requires MatchWithJamo(word, q)
    ensures q.pre <= word && EndsWith(word, q.post) && |word| > |q.pre|
  {
  }

  /** Only word[|pre|] is examined: two anchored words agreeing there match alike. */
  lemma MatchExaminesOnlyAnchor(w1: string, w2: string, q: Query)
    requires Anchored(w1, q) && Anchored(w2, q)
    requires w1[|q.pre|] == w2[|q.pre|]
    ensures MatchWithJamo(w1, q) <==> MatchWithJamo(w2, q)
  {
  }

  /**
   * On a syllable with indices l, v, t: the lead slot is compared with the
   * lead jamo, the vowel slot with the vowel, and a non-wildcard trail slot
   * needs a final consonant (t > 0) equal to it.
   */
  lemma MatchSyllable(word: string, q: Query, l: nat, v: nat, t: nat)
    requires l < LCount && v < VCount && t < TCount
    requires Anchored(word, q) && word[|q.pre|] == Compose(l, v, t)
    ensures MatchWithJamo(word, q) <==>
            && (q.lead == Wildcard || q.lead == ChosungList[l])
            && (q.vowel == Wildcard || q.vowel == JungsungList[v])
            && (q.trail == Wildcard || (t > 0 && JongsungList[t] == Some(q.trail)))
  {
    SplitCompose(l, v, t);
  }

  /**
   * On any other character: the lead slot is compared with the raw
   * character, and a non-wildcard vowel or trail slot never matches.
   */
  lemma MatchNonSyllable(word: string, q: Query)
    requires Anchored(word, q) && !IsSyllable(word[|q.pre|])
    ensures MatchWithJamo(word, q) <==>
            (q.lead == Wildcard || q.lead == word[|q.pre|]) && q.vowel == Wildcard && q.trail == Wildcard
  {
    SplitNonSyllable(word[|q.pre|]);
  }

  /** Three wildcard slots match every anchored word, whatever character follows the prefix. */
  lemma WildcardsMatchAnchored(word: string, q: Query)
    requires q.lead == Wildcard && q.vowel == Wildcard && q.trail == Wildcard
    ensures MatchWithJamo(word, q) <==> Anchored(word, q)
  {
  }

  /** A trail slot other than `*` that no JONGSUNG_LIST entry equals matches no word. */
  lemma TrailOutsideJongsungNeverMatches(word: string, q: Query)
    requires q.trail != Wildcard && Some(q.trail) !in JongsungList
    ensures !MatchWithJamo(word, q)
  {
    if Anchored(word, q) {
      var c := word[|q.pre|];
      if IsSyllable(c) {
        var l, v, t := Decompose(c);
        SplitCompose(l, v, t);
        assert JongsungList[t] in JongsungList;
      }
    }
  }

  /**
   * Any compatibility consonant typed in the trail slot, simple or
   * compound, matches no word: normalised, it is never a trailing jamo.
   */
  lemma CompatTrailNeverMatches(word: string, q: Query, c: char)
    requires 0x3131 <= c as int <= 0x314E && q.trail == ConvertToModern(c)
    ensures !MatchWithJamo(word, q)
  {
    CompatConsonantNotTrail(c);
    CompatTableRanges(c);
    TrailOutsideJongsungNeverMatches(word, q);
  }

  /**
   * The suffix is tested on the whole word, so it may overlap the examined
   * character ("가" with prefix "" and suffix "가") and the prefix too
   * ("가나" with prefix "가" and suffix "가나").
   */
  lemma SuffixMayOverlapAnchor()
    ensures MatchWithJamo("가", Query("", Wildcard, Wildcard, Wildcard, "가"))
    ensures MatchWithJamo("가나", Query("가", Wildcard, Wildcard, Wildcard, "가나"))
  {
    assert "가" <= "가나";
  }

  // 최고/NNG: the character after the prefix 최 is 고, whose lead is ᄀ, so
  // the query 최[ㄱ/*/*] matches it and the query 최[ㅈ/*/*] does not.
  lemma ExampleChoego()
    ensures ParsePattern("최[ㄱ/*/*]").Success?
    ensures MatchWithJamo("최고/NNG", ParsePattern("최[ㄱ/*/*]").value)
    ensures !MatchWithJamo("최고/NNG", ParsePattern("최[ㅈ/*/*]").value)
  {
    assert "최[ㄱ/*/*]" == "최" + Bracket('ㄱ', '*', '*') + "";
    ParsePlainPrefix("최", 'ㄱ', '*', '*', "");
    ConvertConsonant(0);
    CompatTableRanges('*');
    ParseExample();
    ChoegoAnchor(Query("최", ChosungList[0], '*', '*', ""));
    ChoegoAnchor(Query("최", '\U{110C}', '*', '*', ""));
  }

  /** The word 최고/NNG against a query with prefix 최 and no suffix: only the lead slot decides. */
  lemma ChoegoAnchor(q: Query)
    requires q.pre == "최" && q.post == "" && q.vowel == Wildcard && q.trail == Wildcard
    ensures MatchWithJamo("최고/NNG", q) <==> q.lead == Wildcard || q.lead == ChosungList[0]
  {
    var w := "최고/NNG";
    assert q.pre <= w && EndsWith(w, q.post);
    assert Compose(0, 8, 0) == w[1];
    MatchSyllable(w, q, 0, 8, 0);
  }
}
