/**
 * The jamo codec of app.py: the three positional jamo tables, the
 * compatibility-to-positional normalisation and the Hangul syllable
 * decomposition of section 3.12 of The Unicode Standard
 * ("Hangul Syllable Decomposition").
 */
module Jamo {
  import opened Wrappers

  /** SBase: the first precomposed syllable, U+AC00. */
  const SBase: int := 0xAC00
  /** The last precomposed syllable, U+D7A3. */
  const SLast: int := 0xD7A3
  const LCount: int := 19
  const VCount: int := 21
  const TCount: int := 28
  /** Syllables per lead consonant: VCount * TCount. */
  const NCount: int := 588

  /** The `n` consecutive code points from `lo`, as characters. */
  function CharRange(lo: nat, n: nat): (s: seq<char>)
    requires lo + n <= 0xD800
    ensures |s| == n && forall i :: 0 <= i < n ==> s[i] as int == lo + i
  {
    seq(n, i requires 0 <= i < n => (lo + i) as char)
  }

  /** Each character of `s` as a present (`Some`) value. */
  function Present(s: seq<char>): (r: seq<Option<char>>)
    ensures |r| == |s| && forall i :: 0 <= i < |s| ==> r[i] == Some(s[i])
  {
    seq(|s|, i requires 0 <= i < |s| => Some(s[i]))
  }

  /** CHOSUNG_LIST: the 19 positional lead consonants U+1100..U+1112. */
  const ChosungList: seq<char> := CharRange(0x1100, 19)

  /** JUNGSUNG_LIST: the 21 positional vowels U+1161..U+1175. */
  const JungsungList: seq<char> := CharRange(0x1161, 21)

  /**
   * JONGSUNG_LIST: index 0 is `None` ("no final consonant"), index k >= 1
   * is the positional trailing consonant TBase + k = U+11A7 + k.
   */
  const JongsungList: seq<Option<char>> := [None] + Present(CharRange(0x11A8, 27))

  /** The 19 compatibility consonants of the table, in the order of CHOSUNG_LIST. */
  const CompatConsonants: seq<char> := [
    '\U{3131}', '\U{3132}', '\U{3134}', '\U{3137}', '\U{3138}', '\U{3139}',
    '\U{3141}', '\U{3142}', '\U{3143}', '\U{3145}', '\U{3146}', '\U{3147}',
    '\U{3148}', '\U{3149}', '\U{314A}', '\U{314B}', '\U{314C}', '\U{314D}', '\U{314E}'
  ]

  /** The 21 compatibility vowels U+314F..U+3163, in the order of JUNGSUNG_LIST. */
  const CompatVowels: seq<char> := [
    '\U{314F}', '\U{3150}', '\U{3151}', '\U{3152}', '\U{3153}', '\U{3154}', '\U{3155}',
    '\U{3156}', '\U{3157}', '\U{3158}', '\U{3159}', '\U{315A}', '\U{315B}', '\U{315C}',
    '\U{315D}', '\U{315E}', '\U{315F}', '\U{3160}', '\U{3161}', '\U{3162}', '\U{3163}'
  ]

  /**
   * compat_to_modern: the fixed 40-entry table from compatibility jamo
   * (U+3131..U+3163) to positional lead consonants and vowels.
   */
  const CompatToModern: map<char, char> := map[
    '\U{3131}' := '\U{1100}', '\U{3132}' := '\U{1101}', '\U{3134}' := '\U{1102}',
    '\U{3137}' := '\U{1103}', '\U{3138}' := '\U{1104}', '\U{3139}' := '\U{1105}',
    '\U{3141}' := '\U{1106}', '\U{3142}' := '\U{1107}', '\U{3143}' := '\U{1108}',
    '\U{3145}' := '\U{1109}', '\U{3146}' := '\U{110A}', '\U{3147}' := '\U{110B}',
    '\U{3148}' := '\U{110C}', '\U{3149}' := '\U{110D}', '\U{314A}' := '\U{110E}',
    '\U{314B}' := '\U{110F}', '\U{314C}' := '\U{1110}', '\U{314D}' := '\U{1111}',
    '\U{314E}' := '\U{1112}',
    '\U{314F}' := '\U{1161}', '\U{3150}' := '\U{1162}', '\U{3151}' := '\U{1163}',
    '\U{3152}' := '\U{1164}', '\U{3153}' := '\U{1165}', '\U{3154}' := '\U{1166}',
    '\U{3155}' := '\U{1167}', '\U{3156}' := '\U{1168}', '\U{3157}' := '\U{1169}',
    '\U{315B}' := '\U{116D}', '\U{315C}' := '\U{116E}', '\U{3160}' := '\U{1172}',
    '\U{3161}' := '\U{1173}', '\U{3163}' := '\U{1175}',
    '\U{3158}' := '\U{116A}', '\U{3159}' := '\U{116B}', '\U{315A}' := '\U{116C}',
    '\U{315D}' := '\U{116F}', '\U{315E}' := '\U{1170}', '\U{315F}' := '\U{1171}',
    '\U{3162}' := '\U{1174}'
  ]

  /** convert_to_modern: look the symbol up, or pass it through unchanged. */
  function ConvertToModern(c: char): (r: char)
  {
    if c in CompatToModern then CompatToModern[c] else c
  }

  /** The table sends its keys (U+3131..U+3163) into the positional block U+1100..U+1175. */
  lemma CompatTableRanges(c: char)
    ensures c in CompatToModern ==> 0x3131 <= c as int <= 0x3163
    ensures c in CompatToModern ==> 0x1100 <= CompatToModern[c] as int <= 0x1175
  {
  }

  /** Symbols outside the table, and only those, pass through unchanged. */
  lemma ConvertIdentityOutsideTable(c: char)
    ensures ConvertToModern(c) == c <==> c !in CompatToModern
  {
    if c in CompatToModern {
      CompatTableRanges(c);
    }
  }

  /** The k-th compatibility consonant becomes the k-th lead consonant of CHOSUNG_LIST. */
  lemma ConvertConsonant(k: nat)
    requires k < LCount
    ensures CompatConsonants[k] in CompatToModern
    ensures ConvertToModern(CompatConsonants[k]) == ChosungList[k]
  {
    if k < 10 {
      ConvertConsonantBelow(k);
    } else {
      ConvertConsonantFrom(k);
    }
  }

  /** ConvertConsonant for the first ten consonants. */
  lemma ConvertConsonantBelow(k: nat)
    requires k < 10
    ensures CompatConsonants[k] in CompatToModern
    ensures CompatToModern[CompatConsonants[k]] == ChosungList[k]
  {
  }

  /** ConvertConsonant for the last nine consonants. */
  lemma ConvertConsonantFrom(k: nat)
    requires 10 <= k < LCount
    ensures CompatConsonants[k] in CompatToModern
    ensures CompatToModern[CompatConsonants[k]] == ChosungList[k]
  {
  }

  /** The k-th compatibility vowel becomes the k-th vowel of JUNGSUNG_LIST. */
  lemma ConvertVowel(k: nat)
    requires k < VCount
    ensures CompatVowels[k] in CompatToModern
    ensures ConvertToModern(CompatVowels[k]) == JungsungList[k]
  {
  }

  /** The 40 keys are exactly the 19 consonants and the 21 vowels. */
  lemma CompatTableKeys(c: char)
    ensures c in CompatToModern <==> c in CompatConsonants || c in CompatVowels
  {
  }

  /** Normalising twice is normalising once. */
  lemma ConvertIdempotent(c: char)
    ensures ConvertToModern(ConvertToModern(c)) == ConvertToModern(c)
  {
    if c in CompatToModern {
      CompatTableRanges(c);
    }
  }

  /** A normalised compatibility consonant is a lead jamo, never a JONGSUNG_LIST value. */
  lemma ConvertedConsonantNotTrail(k: nat)
    requires k < LCount
    ensures Some(ConvertToModern(CompatConsonants[k])) !in JongsungList
  {
    ConvertConsonant(k);
  }

  /** Every present JONGSUNG_LIST value is a trailing consonant U+11A8..U+11C2. */
  lemma JongsungRange(o: Option<char>)
    ensures o in JongsungList && o.Some? ==> 0x11A8 <= o.value as int <= 0x11C2
  {
    if o in JongsungList && o.Some? {
      var t :| 0 <= t < |JongsungList| && JongsungList[t] == o;
      assert t > 0;
    }
  }

  /**
   * Any compatibility consonant U+3131..U+314E, normalised, is never a
   * JONGSUNG_LIST value: the 19 simple ones of the table become lead jamo,
   * and the 11 compound ones (ㄳ, ㄺ, ...) are not keys and stay as they are.
   */
  lemma CompatConsonantNotTrail(c: char)
    requires 0x3131 <= c as int <= 0x314E
    ensures Some(ConvertToModern(c)) !in JongsungList
  {
    CompatTableRanges(c);
    JongsungRange(Some(ConvertToModern(c)));
  }

  /** The precomposed Hangul syllables '가'..'힣'. */
  predicate IsSyllable(c: char) {
    SBase <= c as int <= SLast
  }

  /** The three slots of a decomposition; vowel and trail are Python's `None` or a jamo. */
  datatype Jamos = Jamos(lead: char, vowel: Option<char>, trail: Option<char>)

  /** split_jamo: decompose a syllable, or return `(c, None, None)` for any other character. */
  function SplitJamo(c: char): (r: Jamos)
    ensures r.vowel.Some? <==> IsSyllable(c)
    ensures r.trail.Some? ==> IsSyllable(c)
  {
    if !IsSyllable(c) then Jamos(c, None, None)
    else
      Jamos(ChosungList[(c as int - SBase) / NCount],
            Some(JungsungList[((c as int - SBase) % NCount) / TCount]),
            JongsungList[((c as int - SBase) % NCount) % TCount])
  }

  /** Hangul syllable composition: the inverse that the decomposition is checked against. */
  function Compose(l: nat, v: nat, t: nat): (c: char)
    requires l < LCount && v < VCount && t < TCount
    ensures IsSyllable(c)
    ensures c as int == SBase + NCount * l + TCount * v + t
  {
    (SBase + NCount * l + TCount * v + t) as char
  }

  /** Any character outside '가'..'힣' is its own lead, with no vowel and no trail. */
  lemma SplitNonSyllable(c: char)
    requires !IsSyllable(c)
    ensures SplitJamo(c) == Jamos(c, None, None)
  {
  }

  /** Decomposing a composed syllable gives back the table entries of its indices. */
  lemma SplitCompose(l: nat, v: nat, t: nat)
    requires l < LCount && v < VCount && t < TCount
    ensures SplitJamo(Compose(l, v, t)) == Jamos(ChosungList[l], Some(JungsungList[v]), JongsungList[t])
  {
    var code := Compose(l, v, t) as int - SBase;
    assert code == NCount * l + (TCount * v + t);
    assert code / NCount == l && code % NCount == TCount * v + t;
    assert (TCount * v + t) / TCount == v && (TCount * v + t) % TCount == t;
  }

  /** The indices of a syllable: the inverse of Compose. */
  lemma Decompose(c: char) returns (l: nat, v: nat, t: nat)
    requires IsSyllable(c)
    ensures l < LCount && v < VCount && t < TCount
    ensures Compose(l, v, t) == c
  {
    var code := c as int - SBase;
    l, v, t := code / NCount, (code % NCount) / TCount, (code % NCount) % TCount;
    assert code == NCount * l + TCount * v + t;
  }

  /** Every syllable is the composition of in-range indices, and decomposes to their table entries. */
  lemma SplitRoundTrip(c: char)
    requires IsSyllable(c)
    ensures exists l: nat, v: nat, t: nat ::
              l < LCount && v < VCount && t < TCount &&
              Compose(l, v, t) == c &&
              SplitJamo(c) == Jamos(ChosungList[l], Some(JungsungList[v]), JongsungList[t])
  {
    var l, v, t := Decompose(c);
    SplitCompose(l, v, t);
  }

  /** The trail is `None` exactly for trail index 0. */
  lemma TrailAbsentIffZero(t: nat)
    requires t < TCount
    ensures JongsungList[t] == None <==> t == 0
  {
  }

  /** Distinct trail indices give distinct JONGSUNG_LIST entries. */
  lemma JongsungInjective(t1: nat, t2: nat)
    requires t1 < TCount && t2 < TCount
    requires JongsungList[t1] == JongsungList[t2]
    ensures t1 == t2
  {
    if t1 > 0 && t2 > 0 {
      assert JongsungList[t1].value as int == 0x11A7 + t1;
      assert JongsungList[t2].value as int == 0x11A7 + t2;
    }
  }

  /** Two syllables with the same decomposition are the same syllable. */
  lemma SplitInjective(c1: char, c2: char)
    requires IsSyllable(c1) && IsSyllable(c2)
    requires SplitJamo(c1) == SplitJamo(c2)
    ensures c1 == c2
  {
    var l1, v1, t1 := Decompose(c1);
    var l2, v2, t2 := Decompose(c2);
    SplitCompose(l1, v1, t1);
    SplitCompose(l2, v2, t2);
    assert ChosungList[l1] as int == 0x1100 + l1 && ChosungList[l2] as int == 0x1100 + l2;
    assert JungsungList[v1] as int == 0x1161 + v1 && JungsungList[v2] as int == 0x1161 + v2;
    JongsungInjective(t1, t2);
  }
}
