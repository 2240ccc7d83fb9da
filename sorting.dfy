/**
 * `list.sort(key=...)` as used by get_kwic: a stable ascending sort by a
 * `str` key. The sort is written as an insertion sort; a stable sort's
 * output is unique (StableSortUnique), so it is the list Python produces.
 */
module Sorting {
  import opened Text

  /** Ascending by key under Python's `str` order. */
  predicate SortedBy<T>(s: seq<T>, key: T -> string) {
    forall i, j :: 0 <= i < j < |s| ==> LexLe(key(s[i]), key(s[j]))
  }

  /** The elements of `s` whose key is `k`, in their order in `s`. */
  function WithKey<T>(s: seq<T>, key: T -> string, k: string): (r: seq<T>)
  {
    if s == [] then [] else (if key(s[0]) == k then [s[0]] else []) + WithKey(s[1..], key, k)
  }

  /** Put `x` in front of the first element whose key is not smaller than its own. */
  function Insert<T>(x: T, s: seq<T>, key: T -> string): (r: seq<T>)
    ensures multiset(r) == multiset(s) + multiset{x}
  {
    if s == [] || LexLe(key(x), key(s[0])) then [x] + s
    else
      var r := [s[0]] + Insert(x, s[1..], key);
      assert s == [s[0]] + s[1..];
      r
  }

  /** Stable ascending sort by key. */
  function SortBy<T>(s: seq<T>, key: T -> string): (r: seq<T>)
    ensures multiset(r) == multiset(s)
    ensures SortedBy(r, key)
  {
    if s == [] then []
    else
      var rest := SortBy(s[1..], key);
      InsertSorted(s[0], rest, key);
      assert s == [s[0]] + s[1..];
      Insert(s[0], rest, key)
  }

  lemma {:induction false} InsertSorted<T>(x: T, s: seq<T>, key: T -> string)
    requires SortedBy(s, key)
    ensures SortedBy(Insert(x, s, key), key)
    decreases |s|
  {
    var r := Insert(x, s, key);
    if s == [] {
    } else if LexLe(key(x), key(s[0])) {
      forall j | 1 <= j < |r| ensures LexLe(key(r[0]), key(r[j])) {
        if j > 1 {
          LexLeTransitive(key(x), key(s[0]), key(s[j - 1]));
        } else {
        }
      }
    } else {
      LexLeTotal(key(x), key(s[0]));
      var t := Insert(x, s[1..], key);
      InsertSorted(x, s[1..], key);
      forall j | 0 <= j < |t| ensures LexLe(key(s[0]), key(t[j])) {
        assert t[j] in multiset(t);
        if t[j] != x {
          assert t[j] in multiset(s[1..]);
          var i :| 0 <= i < |s[1..]| && s[1..][i] == t[j];
          assert s[i + 1] == t[j];
        }
      }
    }
  }

  /** A group holds only elements of the list that carry its key. */
  lemma {:induction false} WithKeyMember<T>(s: seq<T>, key: T -> string, k: string, x: T)
    requires x in WithKey(s, key, k)
    ensures x in s && key(x) == k
    decreases |s|
  {
    if key(s[0]) != k || x != s[0] {
      WithKeyMember(s[1..], key, k, x);
    }
  }

  /** The contribution of one element to the group of key `k`. */
  function Pick<T>(x: T, key: T -> string, k: string): seq<T> {
    if key(x) == k then [x] else []
  }

  /** WithKey on a list with a given head. */
  lemma WithKeyCons<T>(x: T, s: seq<T>, key: T -> string, k: string)
    ensures WithKey([x] + s, key, k) == Pick(x, key, k) + WithKey(s, key, k)
  {
    assert ([x] + s)[1..] == s;
  }

  /** One step of Insert past a head whose key is smaller. */
  lemma InsertPast<T>(x: T, s: seq<T>, key: T -> string)
    requires s != [] && !LexLe(key(x), key(s[0]))
    ensures Insert(x, s, key) == [s[0]] + Insert(x, s[1..], key)
    ensures key(s[0]) != key(x)
  {
    LexLeReflexive(key(x));
  }

  /** Inserting `x` adds it in front of the elements that share its key. */
  lemma {:induction false} InsertWithKey<T>(x: T, s: seq<T>, key: T -> string, k: string)
    ensures WithKey(Insert(x, s, key), key, k) == WithKey([x] + s, key, k)
    decreases |s|
  {
    if s != [] && !LexLe(key(x), key(s[0])) {
      var t := Insert(x, s[1..], key);
      InsertPast(x, s, key);
      var p0, px, rest := Pick(s[0], key, k), Pick(x, key, k), WithKey(s[1..], key, k);
      calc {
        WithKey(Insert(x, s, key), key, k);
        WithKey([s[0]] + t, key, k);
        { WithKeyCons(s[0], t, key, k); }
        p0 + WithKey(t, key, k);
        { InsertWithKey(x, s[1..], key, k); }
        p0 + WithKey([x] + s[1..], key, k);
        { WithKeyCons(x, s[1..], key, k); }
        p0 + (px + rest);
        { assert p0 == [] || px == []; }
        px + (p0 + rest);
        { WithKeyCons(s[0], s[1..], key, k); assert [s[0]] + s[1..] == s; }
        px + WithKey(s, key, k);
        { WithKeyCons(x, s, key, k); }
        WithKey([x] + s, key, k);
      }
    }
  }

  /** Stability: for every key, the elements carrying it keep their relative order. */
  lemma {:induction false} SortByStable<T>(s: seq<T>, key: T -> string, k: string)
    ensures WithKey(SortBy(s, key), key, k) == WithKey(s, key, k)
    decreases |s|
  {
    if s != [] {
      SortByStable(s[1..], key, k);
      InsertWithKey(s[0], SortBy(s[1..], key), key, k);
      assert ([s[0]] + SortBy(s[1..], key))[1..] == SortBy(s[1..], key);
    }
  }

  /** SortBy is stable for every key value at once. */
  lemma SortByStableAll<T>(s: seq<T>, key: T -> string)
    ensures forall k :: WithKey(SortBy(s, key), key, k) == WithKey(s, key, k)
  {
    forall k ensures WithKey(SortBy(s, key), key, k) == WithKey(s, key, k) {
      SortByStable(s, key, k);
    }
  }

  /** The head of a non-empty list is in the group of its own key. */
  lemma HeadHasGroup<T>(s: seq<T>, key: T -> string)
    ensures s != [] ==> WithKey(s, key, key(s[0])) != []
  {
  }

  /** In a sorted list no key is smaller than the head's. */
  lemma SortedHeadLeast<T>(s: seq<T>, key: T -> string, x: T)
    requires SortedBy(s, key) && x in s
    ensures LexLe(key(s[0]), key(x))
  {
    var i :| 0 <= i < |s| && s[i] == x;
    if i == 0 {
      LexLeReflexive(key(x));
    }
  }

  /** Two non-empty sorted lists with the same groups start with the same element. */
  lemma SortedSameGroupsHead<T>(a: seq<T>, b: seq<T>, key: T -> string)
    requires a != [] && b != []
    requires SortedBy(a, key) && SortedBy(b, key)
    requires forall k :: WithKey(a, key, k) == WithKey(b, key, k)
    ensures a[0] == b[0]
  {
    var ka, kb := key(a[0]), key(b[0]);
    assert WithKey(a, key, ka) == [a[0]] + WithKey(a[1..], key, ka);
    assert WithKey(b, key, kb) == [b[0]] + WithKey(b[1..], key, kb);
    WithKeyMember(a, key, kb, b[0]);
    SortedHeadLeast(a, key, b[0]);
    WithKeyMember(b, key, ka, a[0]);
    SortedHeadLeast(b, key, a[0]);
    LexLeAntisymmetric(ka, kb);
    assert WithKey(a, key, ka)[0] == WithKey(b, key, kb)[0];
  }

  /** Removing a common head from two lists with the same groups keeps the groups equal. */
  lemma SameGroupsTail<T>(a: seq<T>, b: seq<T>, key: T -> string)
    requires a != [] && b != [] && a[0] == b[0]
    requires forall k :: WithKey(a, key, k) == WithKey(b, key, k)
    ensures forall k :: WithKey(a[1..], key, k) == WithKey(b[1..], key, k)
  {
    assert [a[0]] + a[1..] == a && [b[0]] + b[1..] == b;
    forall k ensures WithKey(a[1..], key, k) == WithKey(b[1..], key, k) {
      WithKeyCons(a[0], a[1..], key, k);
      WithKeyCons(b[0], b[1..], key, k);
      var h := Pick(a[0], key, k);
      assert WithKey(a[1..], key, k) == (h + WithKey(a[1..], key, k))[|h|..];
      assert WithKey(b[1..], key, k) == (h + WithKey(b[1..], key, k))[|h|..];
    }
  }

  /** Two sorted lists with the same elements per key, in the same order, are equal. */
  lemma {:induction false} SortedSameGroupsEqual<T>(a: seq<T>, b: seq<T>, key: T -> string)
    requires SortedBy(a, key) && SortedBy(b, key)
    requires forall k :: WithKey(a, key, k) == WithKey(b, key, k)
    ensures a == b
    decreases |a|
  {
    HeadHasGroup(a, key);
    HeadHasGroup(b, key);
    if a != [] && b != [] {
      SortedSameGroupsHead(a, b, key);
      SameGroupsTail(a, b, key);
      assert SortedBy(a[1..], key) && SortedBy(b[1..], key);
      SortedSameGroupsEqual(a[1..], b[1..], key);
      assert a == [a[0]] + a[1..] && b == [b[0]] + b[1..];
    }
  }

  /**
   * Any stable ascending sort of `s` -- sorted, and keeping each key's
   * elements in their original order -- is SortBy(s, key).
   */
  lemma StableSortUnique<T>(s: seq<T>, r: seq<T>, key: T -> string)
    requires SortedBy(r, key)
    requires forall k :: WithKey(r, key, k) == WithKey(s, key, k)
    ensures r == SortBy(s, key)
  {
    SortByStableAll(s, key);
    SortedSameGroupsEqual(r, SortBy(s, key), key);
  }
}
