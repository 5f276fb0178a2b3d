/**
 * The two sorts the application relies on: Python's stable `sort(key=…, reverse=True)`
 * (the seller worklist by creation date, the folder list by datetime), and `sorted()`
 * of strings (the room options).
 */
module Sorting {
  import opened Values

  // ---------------------------------------------------------------------------
  // Sort keys
  // ---------------------------------------------------------------------------

  /**
   * A value Python's `<` orders: a datetime (a date compares as its midnight), a
   * string, or a number (a bool counts as 0 or 1). Python refuses to compare keys of
   * different kinds; callers decide that case before sorting, so the order between
   * kinds below is only there to make the order total.
   */
  datatype Key = KTime(t: DateTime) | KText(s: string) | KNum(n: int)

  function KindRank(k: Key): nat {
    match k
    case KTime(_) => 0
    case KText(_) => 1
    case KNum(_) => 2
  }

  /** Python's `a < b` on two keys of the same kind. */
  predicate KeyBefore(a: Key, b: Key) {
    match (a, b)
    case (KTime(x), KTime(y)) => Before(x, y)
    case (KText(x), KText(y)) => LexLe(x, y) && x != y
    case (KNum(x), KNum(y)) => x < y
    case _ => KindRank(a) < KindRank(b)
  }

  predicate KeyNotBefore(a: Key, b: Key) {
    !KeyBefore(a, b)
  }

  lemma KeyBeforeIsStrictTotal(a: Key, b: Key, c: Key)
    ensures !KeyBefore(a, a)
    ensures KeyBefore(a, b) ==> !KeyBefore(b, a)
    ensures a != b ==> KeyBefore(a, b) || KeyBefore(b, a)
    ensures KeyBefore(a, b) && KeyBefore(b, c) ==> KeyBefore(a, c)
  {
    if a.KTime? && b.KTime? && c.KTime? {
      BeforeIsStrictTotal(a.t, b.t, c.t);
    }
    if a.KText? && b.KText? {
      LexLeTotal(a.s, b.s);
      LexLeAntisymmetricIf(a.s, b.s);
    }
    if a.KText? && b.KText? && c.KText? && KeyBefore(a, b) && KeyBefore(b, c) {
      LexLeTransitive(a.s, b.s, c.s);
      LexLeAntisymmetricIf(b.s, c.s);
    }
  }

  lemma LexLeAntisymmetricIf(a: string, b: string)
    ensures LexLe(a, b) && LexLe(b, a) ==> a == b
  {
    if LexLe(a, b) && LexLe(b, a) {
      LexLeAntisymmetric(a, b);
    }
  }

  // ---------------------------------------------------------------------------
  // Largest first, stable
  // ---------------------------------------------------------------------------

  /** Every element's key is not before the keys of the elements after it. */
  ghost predicate SortedDesc<T>(s: seq<T>, key: T -> Key) {
    forall i, j :: 0 <= i < j < |s| ==> KeyNotBefore(key(s[i]), key(s[j]))
  }

  /** The elements of `s` whose key is exactly `k`, in their order in `s`. */
  function WithKey<T>(s: seq<T>, key: T -> Key, k: Key): seq<T> {
    if s == [] then []
    else (if key(s[0]) == k then [s[0]] else []) + WithKey(s[1..], key, k)
  }

  /** `x` placed after every element whose key is not before its own. */
  function InsertDesc<T>(s: seq<T>, x: T, key: T -> Key): seq<T> {
    if s == [] then [x]
    else if KeyNotBefore(key(s[0]), key(x)) then [s[0]] + InsertDesc(s[1..], x, key)
    else [x] + s
  }

  /** `sorted(s, key=key, reverse=True)`: largest key first, ties in their original order. */
  function SortDesc<T>(s: seq<T>, key: T -> Key): seq<T> {
    if s == [] then [] else InsertDesc(SortDesc(s[..|s| - 1], key), s[|s| - 1], key)
  }

  lemma {:induction false} WithKeyAppend<T>(a: seq<T>, b: seq<T>, key: T -> Key, k: Key)
    ensures WithKey(a + b, key, k) == WithKey(a, key, k) + WithKey(b, key, k)
  {
    if a == [] {
      assert a + b == b;
    } else {
      var head := if key(a[0]) == k then [a[0]] else [];
      assert (a + b)[0] == a[0] && (a + b)[1..] == a[1..] + b;
      calc {
        WithKey(a + b, key, k);
        head + WithKey(a[1..] + b, key, k);
        { WithKeyAppend(a[1..], b, key, k); }
        head + (WithKey(a[1..], key, k) + WithKey(b, key, k));
        WithKey(a, key, k) + WithKey(b, key, k);
      }
    }
  }

  lemma {:induction false} WithKeyNone<T>(s: seq<T>, key: T -> Key, k: Key)
    requires forall i :: 0 <= i < |s| ==> key(s[i]) != k
    ensures WithKey(s, key, k) == []
  {
    if s != [] {
      WithKeyNone(s[1..], key, k);
    }
  }

  lemma {:induction false} InsertDescMultiset<T>(s: seq<T>, x: T, key: T -> Key)
    ensures multiset(InsertDesc(s, x, key)) == multiset(s) + multiset{x}
  {
    if s != [] && KeyNotBefore(key(s[0]), key(x)) {
      InsertDescMultiset(s[1..], x, key);
      assert s == [s[0]] + s[1..];
    }
  }

  lemma {:induction false} InsertDescSorted<T>(s: seq<T>, x: T, key: T -> Key)
    requires SortedDesc(s, key)
    ensures SortedDesc(InsertDesc(s, x, key), key)
  {
    var r := InsertDesc(s, x, key);
    if s == [] {
    } else if KeyNotBefore(key(s[0]), key(x)) {
      var tail := InsertDesc(s[1..], x, key);
      InsertDescSorted(s[1..], x, key);
      InsertDescMultiset(s[1..], x, key);
      assert r == [s[0]] + tail;
      forall j | 0 < j < |r| ensures KeyNotBefore(key(r[0]), key(r[j])) {
        assert r[j] == tail[j - 1];
        assert r[j] in multiset(tail);
        if r[j] != x {
          assert r[j] in multiset(s[1..]);
          var m :| 0 <= m < |s[1..]| && s[1..][m] == r[j];
          assert s[m + 1] == r[j];
        }
      }
    } else {
      assert r == [x] + s;
      forall j | 0 < j < |r| ensures KeyNotBefore(key(r[0]), key(r[j])) {
        KeyBeforeIsStrictTotal(key(s[0]), key(x), key(r[j]));
        if j > 1 {
          assert r[j] == s[j - 1];
        }
      }
    }
  }

  lemma {:induction false} InsertDescWithKey<T>(s: seq<T>, x: T, key: T -> Key, k: Key)
    requires SortedDesc(s, key)
    ensures WithKey(InsertDesc(s, x, key), key, k) == WithKey(s, key, k) + (if key(x) == k then [x] else [])
  {
    if s == [] {
      assert InsertDesc(s, x, key) == [x];
      assert [x][1..] == [];
    } else if KeyNotBefore(key(s[0]), key(x)) {
      assert SortedDesc(s[1..], key);
      InsertDescWithKey(s[1..], x, key, k);
      InsertBehindWithKey(s, x, key, k);
    } else {
      InsertFrontWithKey(s, x, key, k);
    }
  }

  /** `x` goes behind the head of `s`: the head keeps its place in its key's run. */
  lemma InsertBehindWithKey<T>(s: seq<T>, x: T, key: T -> Key, k: Key)
    requires s != [] && KeyNotBefore(key(s[0]), key(x))
    requires WithKey(InsertDesc(s[1..], x, key), key, k) == WithKey(s[1..], key, k) + (if key(x) == k then [x] else [])
    ensures WithKey(InsertDesc(s, x, key), key, k) == WithKey(s, key, k) + (if key(x) == k then [x] else [])
  {
    var tail := InsertDesc(s[1..], x, key);
    assert InsertDesc(s, x, key) == [s[0]] + tail;
    WithKeyConsBoth(s[0], tail, s[1..], key, k, if key(x) == k then [x] else []);
    assert [s[0]] + s[1..] == s;
  }

  lemma WithKeyCons<T>(h: T, t: seq<T>, key: T -> Key, k: Key)
    ensures WithKey([h] + t, key, k) == (if key(h) == k then [h] else []) + WithKey(t, key, k)
  {
    assert ([h] + t)[0] == h && ([h] + t)[1..] == t;
  }

  /** The same head in front of two lists keeps the relation between their runs of `k`. */
  lemma WithKeyConsBoth<T>(h: T, t: seq<T>, u: seq<T>, key: T -> Key, k: Key, extra: seq<T>)
    requires WithKey(t, key, k) == WithKey(u, key, k) + extra
    ensures WithKey([h] + t, key, k) == WithKey([h] + u, key, k) + extra
  {
    var head := if key(h) == k then [h] else [];
    WithKeyCons(h, t, key, k);
    WithKeyCons(h, u, key, k);
    assert head + (WithKey(u, key, k) + extra) == (head + WithKey(u, key, k)) + extra;
  }

  /** `x` goes in front of `s` because its key is above every key of `s`. */
  lemma InsertFrontWithKey<T>(s: seq<T>, x: T, key: T -> Key, k: Key)
    requires SortedDesc(s, key)
    requires s != [] && KeyBefore(key(s[0]), key(x))
    ensures WithKey([x] + s, key, k) == WithKey(s, key, k) + (if key(x) == k then [x] else [])
  {
    var r := [x] + s;
    assert r[0] == x && r[1..] == s;
    if key(x) == k {
      forall i | 0 <= i < |s| ensures key(s[i]) != k {
        KeyBeforeIsStrictTotal(key(s[i]), key(s[0]), key(x));
      }
      WithKeyNone(s, key, k);
    }
  }

  /**
   * The sort puts the largest key first, rearranges without adding or losing elements, and
   * keeps elements with equal keys in their original order.
   */
  lemma SortDescCorrect<T>(s: seq<T>, key: T -> Key)
    ensures SortedDesc(SortDesc(s, key), key)
    ensures multiset(SortDesc(s, key)) == multiset(s)
    ensures forall k :: WithKey(SortDesc(s, key), key, k) == WithKey(s, key, k)
  {
    SortDescSorted(s, key);
    SortDescPerm(s, key);
    SortDescStable(s, key);
  }

  lemma {:induction false} SortDescSorted<T>(s: seq<T>, key: T -> Key)
    ensures SortedDesc(SortDesc(s, key), key)
  {
    if s != [] {
      var init := s[..|s| - 1];
      SortDescSorted(init, key);
      InsertDescSorted(SortDesc(init, key), s[|s| - 1], key);
    }
  }

  lemma {:induction false} SortDescPerm<T>(s: seq<T>, key: T -> Key)
    ensures multiset(SortDesc(s, key)) == multiset(s)
  {
    if s != [] {
      var init := s[..|s| - 1];
      SortDescPerm(init, key);
      InsertDescMultiset(SortDesc(init, key), s[|s| - 1], key);
      SnocMultiset(s);
    }
  }

  lemma SnocMultiset<T>(s: seq<T>)
    requires s != []
    ensures multiset(s) == multiset(s[..|s| - 1]) + multiset{s[|s| - 1]}
  {
    assert s == s[..|s| - 1] + [s[|s| - 1]];
  }

  lemma {:induction false} SortDescStable<T>(s: seq<T>, key: T -> Key)
    ensures forall k :: WithKey(SortDesc(s, key), key, k) == WithKey(s, key, k)
  {
    if s != [] {
      var init, last := s[..|s| - 1], s[|s| - 1];
      SortDescSorted(init, key);
      SortDescStable(init, key);
      assert s == init + [last];
      forall k ensures WithKey(SortDesc(s, key), key, k) == WithKey(s, key, k) {
        SortDescStableStep(init, last, key, k);
      }
    }
  }

  /** Inserting one more element keeps the order within each key, given it is kept so far. */
  lemma SortDescStableStep<T>(init: seq<T>, last: T, key: T -> Key, k: Key)
    requires SortedDesc(SortDesc(init, key), key)
    requires WithKey(SortDesc(init, key), key, k) == WithKey(init, key, k)
    ensures WithKey(SortDesc(init + [last], key), key, k) == WithKey(init + [last], key, k)
  {
    var s := init + [last];
    assert s[..|s| - 1] == init && s[|s| - 1] == last;
    assert SortDesc(s, key) == InsertDesc(SortDesc(init, key), last, key);
    InsertDescWithKey(SortDesc(init, key), last, key, k);
    WithKeyAppend(init, [last], key, k);
    assert [last][1..] == [];
  }

  lemma SortDescLength<T>(s: seq<T>, key: T -> Key)
    ensures |SortDesc(s, key)| == |s|
  {
    SortDescCorrect(s, key);
    assert |multiset(SortDesc(s, key))| == |multiset(s)|;
  }

  // ---------------------------------------------------------------------------
  // Strings in code-point order (`sorted` on `str`)
  // ---------------------------------------------------------------------------

  /** Python's `a <= b` on strings: lexicographic by code point, a prefix first. */
  predicate LexLe(a: string, b: string) {
    if a == [] then true
    else if b == [] then false
    else if a[0] != b[0] then a[0] < b[0]
    else LexLe(a[1..], b[1..])
  }

  lemma {:induction false} LexLeTotal(a: string, b: string)
    ensures LexLe(a, b) || LexLe(b, a)
  {
    if a != [] && b != [] && a[0] == b[0] {
      LexLeTotal(a[1..], b[1..]);
    }
  }

  lemma {:induction false} LexLeAntisymmetric(a: string, b: string)
    requires LexLe(a, b) && LexLe(b, a)
    ensures a == b
  {
    if a != [] && b != [] {
      LexLeAntisymmetric(a[1..], b[1..]);
      assert a == [a[0]] + a[1..] && b == [b[0]] + b[1..];
    }
  }

  lemma {:induction false} LexLeTransitive(a: string, b: string, c: string)
    requires LexLe(a, b) && LexLe(b, c)
    ensures LexLe(a, c)
  {
    if a != [] && b != [] && c != [] && a[0] == b[0] && b[0] == c[0] {
      LexLeTransitive(a[1..], b[1..], c[1..]);
    }
  }

  ghost predicate SortedStrings(s: seq<string>) {
    forall i, j :: 0 <= i < j < |s| ==> LexLe(s[i], s[j])
  }

  function InsertString(s: seq<string>, x: string): seq<string> {
    if s == [] then [x]
    else if LexLe(x, s[0]) then [x] + s
    else [s[0]] + InsertString(s[1..], x)
  }

  /** `sorted(names)` for strings. */
  function SortStrings(s: seq<string>): seq<string> {
    if s == [] then [] else InsertString(SortStrings(s[1..]), s[0])
  }

  lemma {:induction false} InsertStringFacts(s: seq<string>, x: string)
    requires SortedStrings(s)
    ensures SortedStrings(InsertString(s, x))
    ensures multiset(InsertString(s, x)) == multiset(s) + multiset{x}
  {
    if s == [] {
    } else if LexLe(x, s[0]) {
      InsertStringFront(s, x);
    } else {
      InsertStringFacts(s[1..], x);
      InsertStringBehind(s, x);
    }
  }

  /** `x` goes in front of a sorted list whose head is not below it. */
  lemma InsertStringFront(s: seq<string>, x: string)
    requires s != [] && SortedStrings(s) && LexLe(x, s[0])
    ensures SortedStrings(InsertString(s, x))
    ensures multiset(InsertString(s, x)) == multiset(s) + multiset{x}
  {
    var r := InsertString(s, x);
    assert r == [x] + s;
    forall j | 0 < j < |r| ensures LexLe(r[0], r[j]) {
      if j > 1 { LexLeTransitive(x, s[0], r[j]); }
    }
  }

  /** `x` goes behind the head when the head is below it, into the sorted rest. */
  lemma InsertStringBehind(s: seq<string>, x: string)
    requires s != [] && SortedStrings(s) && !LexLe(x, s[0])
    requires SortedStrings(InsertString(s[1..], x))
    requires multiset(InsertString(s[1..], x)) == multiset(s[1..]) + multiset{x}
    ensures SortedStrings(InsertString(s, x))
    ensures multiset(InsertString(s, x)) == multiset(s) + multiset{x}
  {
    var tail := InsertString(s[1..], x);
    assert InsertString(s, x) == [s[0]] + tail;
    assert s == [s[0]] + s[1..];
    LexLeTotal(x, s[0]);
    HeadBelowRest(s, x, tail);
    SortedStringsCons(s[0], tail);
  }

  /** The head of a sorted list is below the rest of it and below anything above it. */
  lemma HeadBelowRest(s: seq<string>, x: string, tail: seq<string>)
    requires s != [] && SortedStrings(s) && LexLe(s[0], x)
    requires multiset(tail) == multiset(s[1..]) + multiset{x}
    ensures forall j :: 0 <= j < |tail| ==> LexLe(s[0], tail[j])
  {
    forall j | 0 <= j < |tail| ensures LexLe(s[0], tail[j]) {
      assert tail[j] in multiset(tail);
      if tail[j] != x {
        assert tail[j] in multiset(s[1..]);
        var m :| 0 <= m < |s[1..]| && s[1..][m] == tail[j];
        assert s[m + 1] == tail[j];
      }
    }
  }

  lemma SortedStringsCons(h: string, t: seq<string>)
    requires SortedStrings(t)
    requires forall j :: 0 <= j < |t| ==> LexLe(h, t[j])
    ensures SortedStrings([h] + t)
  {
    var r := [h] + t;
    forall i, j | 0 <= i < j < |r| ensures LexLe(r[i], r[j]) {
      assert r[j] == t[j - 1];
      if i > 0 {
        assert r[i] == t[i - 1];
      }
    }
  }

  /** `sorted(names)` is in order and a rearrangement of its input. */
  lemma {:induction false} SortStringsCorrect(s: seq<string>)
    ensures SortedStrings(SortStrings(s))
    ensures multiset(SortStrings(s)) == multiset(s)
  {
    if s != [] {
      SortStringsCorrect(s[1..]);
      InsertStringFacts(SortStrings(s[1..]), s[0]);
      assert s == [s[0]] + s[1..];
    }
  }
}
