# Jamo-pattern KWIC search, modelled in Dafny

`app.py` is a keyword-in-context (KWIC) search over Korean text. A query such as
`최[ㅈ/*/*]` names a literal prefix (`최`), then one bracketed syllable pattern,
then an optional literal suffix. The bracket holds a lead consonant, a vowel and
a final consonant, and each of the three slots may be `*`. For every
whitespace-separated word of every line, the search checks the syllable right
after the prefix against the three slots. It collects up to `context_size` words
on each side of every matching word, optionally sorts the rows by the nearest
left or right word, and labels each context word with its distance from the
centre.

The model has seven modules, one file each:

| file | module | what it holds |
|---|---|---|
| `wrappers.dfy` | `Wrappers` | `Option` (Python's `None`) and `Result` (a raised exception) |
| `jamo.dfy` | `Jamo` | `CHOSUNG_LIST`, `JUNGSUNG_LIST`, `JONGSUNG_LIST`, the 40-entry `compat_to_modern` table, `convert_to_modern`, `split_jamo` and its inverse `Compose` |
| `pattern.dfy` | `Pattern` | `parse_pattern` as a left-to-right scan for the first `[x/y/z]`, and the expression as written |
| `matcher.dfy` | `Matcher` | `match_with_jamo` and its slot test |
| `text.dfy` | `Text` | `line.strip().split()`, Python's `str` order and Python slicing with negative bounds |
| `sorting.dfy` | `Sorting` | `list.sort(key=...)` as a stable insertion sort on a sequence, and uniqueness of a stable sort's output |
| `kwic.dfy` | `Kwic` | `get_kwic`: the loops (methods), the rows and hits they produce (functions), the sort step and the display labels |

The pure functions of `app.py` are Dafny functions and predicates. `get_kwic`
keeps its imperative form. `Kwic.GetKwic` parses the query and runs the two
nested loops (`Kwic.CollectMatches` and `Kwic.LineMatches`). It then reassigns
`results` to its sorted copy and runs the display loop (`Kwic.DisplayAll`).
Each loop is proved against a recursive function: `DocRows`, `LineRows`, or
one `Display` per row. The properties themselves are lemmas about those
functions.

Two details of `app.py` shape the model:

- The slots are normalised with `convert_to_modern`. Its table covers the 19
  simple compatibility consonants and the 21 compatibility vowels, and sends
  them to positional *lead* consonants and vowels. A simple consonant typed in
  the trail slot, as in `[*/*/ㄱ]`, therefore becomes a lead jamo. The 11
  compound consonants (ㄳ, ㄵ, ㄶ, ㄺ..ㅀ, ㅄ), which a final such as the one in
  닭 would need, are not in the table and stay compatibility jamo. No
  `JONGSUNG_LIST` entry equals either kind, so a compatibility consonant in the
  trail slot matches no word at all (`Matcher.CompatTrailNeverMatches`). This
  is what the code does, and the model keeps it.
- `match_with_jamo` tests the suffix on the whole word. The suffix may therefore
  overlap the examined syllable and even the prefix.

## Model

| member | source | states |
|---|---|---|
| Jamo.ConvertToModern | app.py:18-19 | no contract of its own: the table lookup with pass-through, described by ConvertIdentityOutsideTable, ConvertConsonant, ConvertVowel and ConvertIdempotent |
| Jamo.CompatTableRanges | app.py:9-16 | every key of the table lies in U+3131..U+3163 and every value in the positional block U+1100..U+1175 |
| Jamo.CompatTableKeys | app.py:9-16 | the table's keys are exactly the 19 compatibility consonants and the 21 compatibility vowels |
| Jamo.ConvertIdentityOutsideTable | app.py:18-19 | convert_to_modern leaves a symbol unchanged if and only if it is not a key of the table |
| Jamo.ConvertConsonant | app.py:5-12 | the k-th compatibility consonant is a key and is sent to CHOSUNG_LIST[k], for every k < 19 |
| Jamo.ConvertVowel | app.py:6-15 | the k-th compatibility vowel (U+314F + k) is a key and is sent to JUNGSUNG_LIST[k], for every k < 21 |
| Jamo.ConvertIdempotent | app.py:18-19 | normalising twice gives the same symbol as normalising once |
| Jamo.ConvertedConsonantNotTrail | app.py:7-12 | a normalised compatibility consonant is never a JONGSUNG_LIST value |
| Jamo.JongsungRange | app.py:7 | every present JONGSUNG_LIST value is a trailing consonant U+11A8..U+11C2 |
| Jamo.CompatConsonantNotTrail | app.py:7-19 | every compatibility consonant U+3131..U+314E, the 19 simple ones of the table and the 11 compound ones outside it, is never a JONGSUNG_LIST value once normalised |
| Jamo.SplitJamo | app.py:21-31 | the vowel is present exactly for the syllables '가'..'힣', and a trail only for them; the decomposition itself is described by SplitNonSyllable, SplitCompose and SplitRoundTrip |
| Jamo.SplitNonSyllable | app.py:25-26 | any character outside '가'..'힣' decomposes to (itself, None, None) |
| Jamo.SplitCompose | app.py:27-31 | the syllable with indices l, v, t decomposes to (CHOSUNG_LIST[l], JUNGSUNG_LIST[v], JONGSUNG_LIST[t]) |
| Jamo.Decompose | app.py:27-30 | every syllable '가'..'힣' has in-range indices l < 19, v < 21, t < 28 with 0xAC00 + 588·l + 28·v + t = ord(c) |
| Jamo.SplitRoundTrip | app.py:21-31 | every syllable is the composition of in-range indices, and split_jamo returns those indices' table entries |
| Jamo.TrailAbsentIffZero | app.py:7 | the trail is None exactly for trail index 0 |
| Jamo.JongsungInjective | app.py:7 | distinct trail indices give distinct JONGSUNG_LIST entries |
| Jamo.SplitInjective | app.py:21-31 | two syllables with the same decomposition are the same syllable |
| Pattern.ParsePattern | app.py:33-38 | no contract of its own: parse_pattern with the evidently intended expression, described by ParseSucceedsIff, ParseFailureMessage, ParseLeftmost, ParseRoundTrip and ParseOneBracket |
| Pattern.ParsePatternAsWritten | app.py:34 | no contract of its own: the expression as written fails to compile on every query, shown by ParseAsWrittenRejectsExample |
| Pattern.FindBracket | app.py:34 | the lazy prefix: the result is the leftmost index where `[x/y/z]` starts with no newline before it, and None when there is no such index |
| Pattern.LineEnd | app.py:34 | the greedy suffix: it ends at the first newline after the bracket, or at the end of the query |
| Pattern.ParseSucceedsIff | app.py:34-36 | the query parses if and only if some `[x/y/z]` is preceded by a newline-free prefix |
| Pattern.ParseFailureMessage | app.py:35-36 | a failed parse raises the ValueError whose message carries the example syntax, and no bracket follows a newline-free prefix |
| Pattern.ParseLeftmost | app.py:33-38 | a successful parse cuts at the leftmost bracket: the prefix holds no bracket and no newline, the slots are the normalised fields, and the suffix runs to the end of the line |
| Pattern.ParseRoundTrip | app.py:33-38 | on a single-line query, pre + "[x/y/z]" + post is the query, and the slots are convert_to_modern of x, y, z |
| Pattern.ParseOneBracket | app.py:33-38 | conversely, a newline-free prefix in which no bracket starts, one bracket and a single-line suffix parse back into exactly those parts |
| Pattern.ParsePlainPrefix | app.py:33-38 | the same for a prefix without `[` or newline |
| Pattern.ParseBracketInPrefix | app.py:34 | a `[` in the prefix is allowed where no bracket starts: "[a[ㄱ/*/*]" parses with prefix "[a" |
| Pattern.ParseExample | app.py:36 | the message's own example 최[ㅈ/*/*] parses to prefix 최, lead ᄌ, two wildcards and an empty suffix |
| Pattern.ParseAsWrittenRejectsExample | app.py:34 | the expression as written rejects even the message's own example, with re.error instead of ValueError, while the intended parser accepts it |
| Matcher.MatchWithJamo | app.py:40-52 | no contract of its own: match_with_jamo, described by MatchIsAnchored, MatchExaminesOnlyAnchor, MatchSyllable, MatchNonSyllable and WildcardsMatchAnchored |
| Matcher.SlotMatches | app.py:49-50 | no contract of its own: the inner `match`, a wildcard or the very same jamo, described by MatchSyllable and MatchNonSyllable |
| Matcher.MatchIsAnchored | app.py:41-45 | a match needs the prefix, the suffix and a character at index len(pre) |
| Matcher.MatchExaminesOnlyAnchor | app.py:41-47 | only word[len(pre)] is examined: two words that carry the prefix and the suffix and agree there match alike |
| Matcher.MatchSyllable | app.py:46-52 | on a syllable with indices l, v, t: the lead slot is `*` or the lead jamo, the vowel slot is `*` or the vowel, and the trail slot is `*` or the final consonant of a syllable that has one (t > 0) |
| Matcher.MatchNonSyllable | app.py:46-52 | on a non-Hangul character the lead slot is compared with the raw character, and a non-`*` vowel or trail slot never matches |
| Matcher.WildcardsMatchAnchored | app.py:49-52 | `[*/*/*]` matches exactly the words that carry the prefix and the suffix and have a character after the prefix |
| Matcher.TrailOutsideJongsungNeverMatches | app.py:46-52 | a trail slot other than `*` that equals no JONGSUNG_LIST entry matches no word |
| Matcher.CompatTrailNeverMatches | app.py:38-52 | a trail slot typed as any compatibility consonant U+3131..U+314E, simple or compound, matches no word |
| Matcher.SuffixMayOverlapAnchor | app.py:42-46 | the suffix may overlap the examined character and the prefix |
| Matcher.ExampleChoego | app.py:33-52 | 최고/NNG matches 최[ㄱ/*/*] and does not match 최[ㅈ/*/*] |
| Text.RunLength | app.py:69 | a word runs up to the first separator, or to the end of the line |
| Text.Words | app.py:69 | every piece returned by strip().split() is non-empty and holds no separator |
| Text.WordsAfterSpace | app.py:69 | leading separators do not change the words, as strip() promises |
| Text.WordsOfJoin | app.py:69 | splitting a single-space join of words gives back those words |
| Text.WordsKeepEveryCharacter | app.py:69 | the words, run together, are the line without its separators |
| Text.LexLe | app.py:78-80 | no contract of its own: Python's `str` order, code-point lexicographic with a proper prefix first, described by LexLeReflexive, LexLeTotal, LexLeTransitive and LexLeAntisymmetric |
| Text.LexLeReflexive | app.py:78 | the `str` order compares every string as no greater than itself |
| Text.LexLeTotal | app.py:78-80 | any two sort keys are comparable |
| Text.LexLeTransitive | app.py:78-80 | the `str` order is transitive |
| Text.LexLeAntisymmetric | app.py:78-80 | keys that are no greater than each other are equal |
| Text.SliceBound | app.py:72-73 | a slice bound is clamped into 0..len: unchanged when already in range, len when beyond it, and a negative bound counts from the end, down to 0 |
| Text.PySlice | app.py:72-73 | a slice is never longer than the list |
| Text.PySliceNonNegative | app.py:72-73 | with non-negative bounds a Python slice is the clamped Dafny slice |
| Sorting.Insert | app.py:77-80 | inserting adds exactly one element to the multiset |
| Sorting.InsertSorted | app.py:77-80 | inserting into a sorted list keeps it sorted |
| Sorting.InsertWithKey | app.py:77-80 | inserting puts the element in front of the elements with its own key, and changes no other key's group |
| Sorting.SortBy | app.py:77-80 | the sort is a permutation and is ascending by key |
| Sorting.SortByStable | app.py:77-80 | the sort is stable: for every key, the elements with that key keep their relative order |
| Sorting.SortByStableAll | app.py:77-80 | stability for every key at once |
| Sorting.SortedSameGroupsEqual | app.py:77-80 | two sorted lists whose per-key groups are equal are equal |
| Sorting.StableSortUnique | app.py:77-80 | any sorted list with the same per-key groups as the input is SortBy's output, so a stable sort such as Python's gives the same list |
| Kwic.Window | app.py:72-75 | no contract of its own: the (left, center, right) triple, described by WindowShape |
| Kwic.WindowShape | app.py:72-75 | with cs >= 0, left is words[max(0,i-cs):i] of length min(i, cs), right is words[i+1:i+1+cs] of length min(cs, n-i-1), and the centre is words[i] |
| Kwic.LineHitsExact | app.py:70-71 | the hits of a line are exactly the indices of its matching words, strictly increasing |
| Kwic.LineRowsAtHits | app.py:70-75 | row k of a line is the window around the line's k-th hit |
| Kwic.DocHitsExact | app.py:68-71 | a (line, word) position is a hit if and only if that word of that line matches |
| Kwic.DocHitsOrdered | app.py:68-71 | the hits are listed in document order, line by line and word by word |
| Kwic.DocRowsAtHits | app.py:67-75 | the k-th result is the window around the k-th hit, one result per hit |
| Kwic.LeftKey | app.py:78 | no contract of its own: the last left word, or '' when there is none, used by SortRows |
| Kwic.RightKey | app.py:80 | no contract of its own: the first right word, or '' when there is none, used by SortRows |
| Kwic.SortRows | app.py:77-80 | 'left' sorts stably by the last left word ('' if none), 'right' sorts stably by the first right word, any other value keeps document order, and the result is always a permutation |
| Kwic.Display | app.py:83-86 | no contract of its own: left word k labelled len(left)-k, the centre 0, right word k labelled k+1, described by DisplayDistances |
| Kwic.DisplayDistances | app.py:82-86 | each context word's label is its true distance from the centre: the left word labelled d is words[i-d] and the right word labelled d is words[i+d], with 1 <= d <= cs |
| Kwic.LineMatches | app.py:70-75 | the inner loop appends exactly the windows of the line's matching words, in order |
| Kwic.CollectMatches | app.py:67-75 | the outer loop appends the windows of every line in turn |
| Kwic.DisplayAll | app.py:82-87 | the display loop builds one display entry per result, in order |
| Kwic.GetKwic | app.py:65-87 | a query that does not parse fails, with the syntax message and whatever the lines are; otherwise there is one display entry per row of the sorted windows of all matching words |

## Left out

- The Streamlit interface (app.py:89-105) is not modelled. That covers file upload, `utf-8-sig` decoding, `splitlines`, the widgets, markdown output and the catch-all `except`. `GetKwic` takes the decoded lines as a parameter, and `context_size` and `sort` as arguments. The interface passes 10 and `'left'` or `'right'`.
- `style` and the HTML it builds (app.py:54-63, 84-86) are not modelled. Each display entry keeps the words and the integer distance that `style` is given.
- Python's general regular-expression engine is not modelled. The expression at app.py:34 is modelled twice: as written (it does not compile, see Findings) and as the evident intent, a scan for the first `[x/y/z]`.
- Kwic.GetKwic: it parses with the corrected `Pattern.ParsePattern`. As written, app.py:66 raises `re.error` on every call (see Findings), so the program never produces the syntax message or any display. GetKwic models what the code evidently intends.
- Kwic.GetKwic: the in-place `results.sort` is modelled as reassigning the local sequence to a stably sorted copy. This is the same final list, because a stable sort's output is unique (`Sorting.StableSortUnique`).
- Kwic.CollectMatches: the inner loop over `enumerate(words)` is its own method, `Kwic.LineMatches`. The outer loop calls it once per line.
- The set of separators of `str.split()` is written out as the code points for which Python's `str.isspace` holds (`Text.IsSpace`). It is not derived from a Unicode database.
- Text.PySlice: its contract states only the length bound. The exact slice for the non-negative bounds that `get_kwic` uses is stated by `Text.PySliceNonNegative`, and the windows are stated by `Kwic.WindowShape`.
- Some features belong to other parts of the repository and are not in app.py, so they are not modelled: literal and regex match modes, part-of-speech filtering, `form/tag` splitting, frequency sort, fixed-width padded rows, and a scan over every syllable. Here rows keep variable-length contexts, and words are matched whole, tag included.
- A negative `context_size` is handled by the model through Python's slice rules, but the window lemmas state the result only for `context_size >= 0`.

## Findings

| source | as written | input that shows it | evidently intended | confidence | as-written member | corrected member |
|---|---|---|---|---|---|---|
| app.py:34 | the second and third groups open with `(*`, an unescaped `*` with nothing before it to repeat, so `re.match` raises `re.error: nothing to repeat at position 20` on every call, and the interface reports that error at app.py:104-105 | `최[ㅈ/*/*]`, the example from the error message at app.py:36 | every field is `*` or one character other than `]` and `/`, as the first group is written | not executed | Pattern.ParsePatternAsWritten, shown by Pattern.ParseAsWrittenRejectsExample | Pattern.ParsePattern, with Pattern.ParseSucceedsIff, Pattern.ParseRoundTrip and Pattern.ParseOneBracket; Kwic.GetKwic uses it |
