// Array.prototype.sort as the model uses it. With a numeric comparator
// `(a, b) => key(a) - key(b)` the ECMAScript sort (stable since ES2019)
// returns the elements ordered by key, elements with equal keys in their
// original order; this is StableSort. Without a comparator the elements are
// compared as strings; this is SortStrings.

module Sorting {

  /** Non-decreasing by key. */
  predicate SortedBy<T>(s: seq<T>, key: T -> real) {
    forall i, j :: 0 <= i < j < |s| ==> key(s[i]) <= key(s[j])
  }

  /** The elements whose key is k, in their order in s. */
  function WithKey<T>(s: seq<T>, key: T -> real, k: real): seq<T> {
    if s == [] then [] else (if key(s[0]) == k then [s[0]] else []) + WithKey(s[1..], key, k)
  }

  /** Inserts x after every leading element whose key is at most x's. */
  function Insert<T>(x: T, s: seq<T>, key: T -> real): (r: seq<T>)
    ensures |r| == |s| + 1
  {
    if s == [] then [x]
    else if key(s[0]) <= key(x) then [s[0]] + Insert(x, s[1..], key)
    else [x] + s
  }

  /** Insertion adds x and loses nothing. */
  lemma {:induction false} InsertPermutes<T>(x: T, s: seq<T>, key: T -> real)
    ensures multiset(Insert(x, s, key)) == multiset(s) + multiset{x}
  {
    if s != [] && key(s[0]) <= key(x) {
      var r := Insert(x, s[1..], key);
      InsertPermutes(x, s[1..], key);
      assert multiset([s[0]] + r) == multiset{s[0]} + multiset(r);
      assert s == [s[0]] + s[1..];
      assert multiset(s) == multiset{s[0]} + multiset(s[1..]);
    } else if s != [] {
      assert multiset([x] + s) == multiset{x} + multiset(s);
    }
  }

  lemma {:induction false} InsertSorted<T>(x: T, s: seq<T>, key: T -> real)
    requires SortedBy(s, key)
    ensures SortedBy(Insert(x, s, key), key)
  {
    if s != [] {
      SortedTail(s, key);
      if key(s[0]) <= key(x) {
        InsertSorted(x, s[1..], key);
        InsertBounded(key(s[0]), x, s[1..], key);
        ConsSorted(s[0], Insert(x, s[1..], key), key);
      } else {
        ConsSorted(x, s, key);
      }
    }
  }

  /** A lower bound of x's key and of every key in t bounds every key after the insertion. */
  lemma InsertBounded<T>(lo: real, x: T, t: seq<T>, key: T -> real)
    requires lo <= key(x) && forall j :: 0 <= j < |t| ==> lo <= key(t[j])
    ensures forall j :: 0 <= j < |Insert(x, t, key)| ==> lo <= key(Insert(x, t, key)[j])
  {
    var r := Insert(x, t, key);
    InsertPermutes(x, t, key);
    forall j | 0 <= j < |r| ensures lo <= key(r[j]) {
      var y := r[j];
      assert y in multiset(r);
      if y != x {
        assert y in multiset(t);
        var i :| 0 <= i < |t| && t[i] == y;
      }
    }
  }

  lemma ConsSorted<T>(h: T, r: seq<T>, key: T -> real)
    requires SortedBy(r, key) && forall j :: 0 <= j < |r| ==> key(h) <= key(r[j])
    ensures SortedBy([h] + r, key)
  {
    var c := [h] + r;
    forall i, j | 0 <= i < j < |c| ensures key(c[i]) <= key(c[j]) {
      assert c[j] == r[j - 1];
      if i > 0 { assert c[i] == r[i - 1]; }
    }
  }

  /** Stable sort by key: the elements of s ordered by key, ties in input order. */
  function StableSort<T>(s: seq<T>, key: T -> real): (r: seq<T>)
    ensures SortedBy(r, key)
    ensures multiset(r) == multiset(s)
    ensures |r| == |s|
  {
    if s == [] then []
    else
      var r0 := StableSort(s[..|s| - 1], key);
      InsertSorted(s[|s| - 1], r0, key);
      InsertPermutes(s[|s| - 1], r0, key);
      SnocMultiset(s);
      Insert(s[|s| - 1], r0, key)
  }

  lemma SnocMultiset<T>(s: seq<T>)
    requires s != []
    ensures multiset(s) == multiset(s[..|s| - 1]) + multiset{s[|s| - 1]}
  {
    assert s == s[..|s| - 1] + [s[|s| - 1]];
  }

  lemma {:induction false} WithKeyAppend<T>(a: seq<T>, b: seq<T>, key: T -> real, k: real)
    ensures WithKey(a + b, key, k) == WithKey(a, key, k) + WithKey(b, key, k)
  {
    if a == [] {
      assert a + b == b;
    } else {
      var h: seq<T> := if key(a[0]) == k then [a[0]] else [];
      assert (a + b)[0] == a[0];
      assert (a + b)[1..] == a[1..] + b;
      assert WithKey(a + b, key, k) == h + WithKey(a[1..] + b, key, k);
      WithKeyAppend(a[1..], b, key, k);
      assert h + (WithKey(a[1..], key, k) + WithKey(b, key, k))
          == (h + WithKey(a[1..], key, k)) + WithKey(b, key, k);
    }
  }

  lemma {:induction false} WithKeyNone<T>(s: seq<T>, key: T -> real, k: real)
    requires forall i :: 0 <= i < |s| ==> key(s[i]) != k
    ensures WithKey(s, key, k) == []
  {
    if s != [] {
      WithKeyNone(s[1..], key, k);
    }
  }

  lemma SortedTail<T>(s: seq<T>, key: T -> real)
    requires s != [] && SortedBy(s, key)
    ensures SortedBy(s[1..], key)
    ensures forall i :: 0 <= i < |s| ==> key(s[0]) <= key(s[i])
  {
    assert forall i, j :: 0 <= i < j < |s[1..]| ==> s[1..][i] == s[i + 1] && s[1..][j] == s[j + 1];
  }

  lemma {:induction false} InsertWithKey<T>(x: T, s: seq<T>, key: T -> real, k: real)
    requires SortedBy(s, key)
    ensures WithKey(Insert(x, s, key), key, k)
            == WithKey(s, key, k) + (if key(x) == k then [x] else [])
  {
    if s == [] {
      WithKeySingle(x, key, k);
    } else if key(s[0]) <= key(x) {
      SortedTail(s, key);
      var r := Insert(x, s[1..], key);
      assert Insert(x, s, key) == [s[0]] + r;
      InsertWithKey(x, s[1..], key, k);
      WithKeyCons(s[0], r, key, k);
      WithKeyUnfold(s, key, k);
      ConcatAssoc(if key(s[0]) == k then [s[0]] else [], WithKey(s[1..], key, k), if key(x) == k then [x] else []);
    } else {
      InsertWithKeyFront(x, s, key, k);
    }
  }

  lemma InsertWithKeyFront<T>(x: T, s: seq<T>, key: T -> real, k: real)
    requires SortedBy(s, key) && s != [] && key(x) < key(s[0])
    ensures WithKey(Insert(x, s, key), key, k)
            == WithKey(s, key, k) + (if key(x) == k then [x] else [])
  {
    InsertFront(x, s, key);
    WithKeyCons(x, s, key, k);
    if key(x) == k {
      assert forall i :: 0 <= i < |s| ==> key(s[0]) <= key(s[i]);
      WithKeyNone(s, key, k);
      assert WithKey([x] + s, key, k) == [x] + [];
    } else {
      assert WithKey([x] + s, key, k) == [] + WithKey(s, key, k);
    }
  }

  lemma InsertFront<T>(x: T, s: seq<T>, key: T -> real)
    requires s != [] && key(x) < key(s[0])
    ensures Insert(x, s, key) == [x] + s
  {
  }

  lemma WithKeyUnfold<T>(s: seq<T>, key: T -> real, k: real)
    requires s != []
    ensures WithKey(s, key, k) == (if key(s[0]) == k then [s[0]] else []) + WithKey(s[1..], key, k)
  {
  }

  lemma ConcatAssoc<T>(a: seq<T>, b: seq<T>, c: seq<T>)
    ensures a + (b + c) == (a + b) + c
  {
  }

  lemma WithKeyCons<T>(h: T, r: seq<T>, key: T -> real, k: real)
    ensures WithKey([h] + r, key, k) == (if key(h) == k then [h] else []) + WithKey(r, key, k)
  {
    assert ([h] + r)[0] == h && ([h] + r)[1..] == r;
  }

  /** Stability: for every key, the elements with that key keep their relative order. */
  lemma {:induction false} StableSortStable<T>(s: seq<T>, key: T -> real, k: real)
    ensures WithKey(StableSort(s, key), key, k) == WithKey(s, key, k)
  {
    if s != [] {
      var init, last := s[..|s| - 1], s[|s| - 1];
      var r0 := StableSort(init, key);
      StableSortSnoc(s, key);
      InsertWithKey(last, r0, key, k);
      StableSortStable(init, key, k);
      WithKeySnoc(s, key, k);
    }
  }

  lemma StableSortSnoc<T>(s: seq<T>, key: T -> real)
    requires s != []
    ensures StableSort(s, key) == Insert(s[|s| - 1], StableSort(s[..|s| - 1], key), key)
  {
  }

  lemma WithKeySnoc<T>(s: seq<T>, key: T -> real, k: real)
    requires s != []
    ensures WithKey(s, key, k) == WithKey(s[..|s| - 1], key, k) + (if key(s[|s| - 1]) == k then [s[|s| - 1]] else [])
  {
    var init, last := s[..|s| - 1], s[|s| - 1];
    WithKeySingle(last, key, k);
    WithKeyAppend(init, [last], key, k);
    assert s == init + [last];
  }

  lemma WithKeySingle<T>(x: T, key: T -> real, k: real)
    ensures WithKey([x], key, k) == if key(x) == k then [x] else []
  {
    assert [x][1..] == [];
  }

  lemma {:induction false} InsertAtEnd<T>(x: T, s: seq<T>, key: T -> real)
    requires forall i :: 0 <= i < |s| ==> key(s[i]) <= key(x)
    ensures Insert(x, s, key) == s + [x]
  {
    if s != [] {
      assert forall i :: 0 <= i < |s[1..]| ==> s[1..][i] == s[i + 1];
      InsertAtEnd(x, s[1..], key);
      assert Insert(x, s, key) == [s[0]] + Insert(x, s[1..], key);
      assert [s[0]] + (s[1..] + [x]) == s + [x];
    }
  }

  /** Sorting when every key is the same keeps the input order. */
  lemma {:induction false} StableSortConstantKey<T>(s: seq<T>, key: T -> real)
    requires forall i, j :: 0 <= i < |s| && 0 <= j < |s| ==> key(s[i]) == key(s[j])
    ensures StableSort(s, key) == s
  {
    if s != [] {
      var init, last := s[..|s| - 1], s[|s| - 1];
      assert init + [last] == s;
      assert forall i :: 0 <= i < |init| ==> init[i] == s[i];
      StableSortConstantKey(init, key);
      assert StableSort(s, key) == Insert(last, init, key);
      InsertAtEnd(last, init, key);
    }
  }

  // ----------------------------------------------------------- string sort

  // ------------------------------------------------------------ tie order

  /** An element whose key is k appears among the elements with key k. */
  lemma {:induction false} WithKeyHas<T>(s: seq<T>, key: T -> real, k: real, j: int)
    requires 0 <= j < |s| && key(s[j]) == k
    ensures exists q :: 0 <= q < |WithKey(s, key, k)| && WithKey(s, key, k)[q] == s[j]
    decreases |s|
  {
    WithKeyUnfold(s, key, k);
    if j == 0 {
      assert WithKey(s, key, k)[0] == s[0];
    } else {
      WithKeyHas(s[1..], key, k, j - 1);
      var q :| 0 <= q < |WithKey(s[1..], key, k)| && WithKey(s[1..], key, k)[q] == s[1..][j - 1];
      var h := if key(s[0]) == k then [s[0]] else [];
      assert WithKey(s, key, k)[|h| + q] == s[j];
    }
  }

  /** Two elements with key k keep their order among the elements with key k. */
  lemma {:induction false} WithKeyPair<T>(s: seq<T>, key: T -> real, k: real, i: int, j: int)
    requires 0 <= i < j < |s| && key(s[i]) == k && key(s[j]) == k
    ensures exists p, q :: 0 <= p < q < |WithKey(s, key, k)| && WithKey(s, key, k)[p] == s[i] && WithKey(s, key, k)[q] == s[j]
    decreases |s|
  {
    WithKeyUnfold(s, key, k);
    var w := WithKey(s, key, k);
    var h := if key(s[0]) == k then [s[0]] else [];
    if i == 0 {
      WithKeyHas(s[1..], key, k, j - 1);
      var q :| 0 <= q < |WithKey(s[1..], key, k)| && WithKey(s[1..], key, k)[q] == s[1..][j - 1];
      assert w[0] == s[i] && w[q + 1] == s[j];
    } else {
      WithKeyPair(s[1..], key, k, i - 1, j - 1);
      var p, q :| 0 <= p < q < |WithKey(s[1..], key, k)| && WithKey(s[1..], key, k)[p] == s[1..][i - 1]
                  && WithKey(s[1..], key, k)[q] == s[1..][j - 1];
      assert w[|h| + p] == s[i] && w[|h| + q] == s[j];
    }
  }

  /** Every element with key k comes from s. */
  lemma {:induction false} WithKeySource<T>(s: seq<T>, key: T -> real, k: real, q: int)
    requires 0 <= q < |WithKey(s, key, k)|
    ensures exists b :: 0 <= b < |s| && s[b] == WithKey(s, key, k)[q]
    decreases |s|
  {
    WithKeyUnfold(s, key, k);
    var h := if key(s[0]) == k then [s[0]] else [];
    if q < |h| {
      assert s[0] == WithKey(s, key, k)[q];
    } else {
      WithKeySource(s[1..], key, k, q - |h|);
      var b :| 0 <= b < |s[1..]| && s[1..][b] == WithKey(s[1..], key, k)[q - |h|];
      assert s[b + 1] == WithKey(s, key, k)[q];
    }
  }

  /** The elements with key k are drawn from s in order. */
  lemma {:induction false} WithKeySourcePair<T>(s: seq<T>, key: T -> real, k: real, p: int, q: int)
    requires 0 <= p < q < |WithKey(s, key, k)|
    ensures exists a, b :: 0 <= a < b < |s| && s[a] == WithKey(s, key, k)[p] && s[b] == WithKey(s, key, k)[q]
    decreases |s|
  {
    WithKeyUnfold(s, key, k);
    var w := WithKey(s, key, k);
    var h := if key(s[0]) == k then [s[0]] else [];
    if p < |h| {
      WithKeySource(s[1..], key, k, q - 1);
      var b :| 0 <= b < |s[1..]| && s[1..][b] == WithKey(s[1..], key, k)[q - 1];
      assert s[0] == w[p] && s[b + 1] == w[q];
    } else {
      WithKeySourcePair(s[1..], key, k, p - |h|, q - |h|);
      var a, b :| 0 <= a < b < |s[1..]| && s[1..][a] == WithKey(s[1..], key, k)[p - |h|]
                  && s[1..][b] == WithKey(s[1..], key, k)[q - |h|];
      assert s[a + 1] == w[p] && s[b + 1] == w[q];
    }
  }

  /** Stability pointwise: two output elements with equal keys occur in that order
      in the input. */
  lemma StableSortTieOrder<T>(s: seq<T>, key: T -> real, i: int, j: int)
    requires 0 <= i < j < |StableSort(s, key)|
    requires key(StableSort(s, key)[i]) == key(StableSort(s, key)[j])
    ensures exists a, b :: 0 <= a < b < |s| && s[a] == StableSort(s, key)[i] && s[b] == StableSort(s, key)[j]
  {
    var r := StableSort(s, key);
    var k := key(r[i]);
    WithKeyPair(r, key, k, i, j);
    var p, q :| 0 <= p < q < |WithKey(r, key, k)| && WithKey(r, key, k)[p] == r[i] && WithKey(r, key, k)[q] == r[j];
    StableSortStable(s, key, k);
    WithKeySourcePair(s, key, k, p, q);
  }

  /** Lexicographic order on strings, character by character. */
  predicate LexLe(a: string, b: string) {
    if a == [] then true
    else if b == [] then false
    else if a[0] != b[0] then a[0] < b[0]
    else LexLe(a[1..], b[1..])
  }

  lemma {:induction false} LexLeTotal(a: string, b: string)
    ensures LexLe(a, b) || LexLe(b, a)
  {
    if a != [] && b != [] && a[0] == b[0] {
      LexLeTotal(a[1..], b[1..]);
    }
  }

  lemma {:induction false} LexLeTransitive(a: string, b: string, c: string)
    requires LexLe(a, b) && LexLe(b, c)
    ensures LexLe(a, c)
  {
    if a != [] && b != [] && c != [] && a[0] == b[0] && b[0] == c[0] {
      LexLeTransitive(a[1..], b[1..], c[1..]);
    }
  }

  lemma {:induction false} LexLeAntisymmetric(a: string, b: string)
    requires LexLe(a, b) && LexLe(b, a)
    ensures a == b
  {
    if a != [] && b != [] {
      LexLeAntisymmetric(a[1..], b[1..]);
      assert a == [a[0]] + a[1..] && b == [b[0]] + b[1..];
    }
  }

  lemma {:induction false} LexLeReflexive(a: string)
    ensures LexLe(a, a)
  {
    if a != [] {
      LexLeReflexive(a[1..]);
    }
  }

  predicate LexSorted(s: seq<string>) {
    forall i, j :: 0 <= i < j < |s| ==> LexLe(s[i], s[j])
  }

  function InsertString(x: string, s: seq<string>): (r: seq<string>)
    ensures multiset(r) == multiset(s) + multiset{x}
    ensures |r| == |s| + 1
  {
    if s == [] then [x]
    else if LexLe(s[0], x) then
      assert s == [s[0]] + s[1..];
      [s[0]] + InsertString(x, s[1..])
    else [x] + s
  }

  lemma {:induction false} InsertStringSorted(x: string, s: seq<string>)
    requires LexSorted(s)
    ensures LexSorted(InsertString(x, s))
  {
    if s != [] {
      LexSortedTail(s);
      if LexLe(s[0], x) {
        var r := InsertString(x, s[1..]);
        InsertStringSorted(x, s[1..]);
        InsertStringBounded(s[0], x, s[1..]);
        ConsLexSorted(s[0], r);
      } else {
        LexLeTotal(s[0], x);
        forall j | 0 <= j < |s| ensures LexLe(x, s[j]) {
          if j > 0 { LexLeTransitive(x, s[0], s[j]); }
        }
        ConsLexSorted(x, s);
      }
    }
  }

  lemma LexSortedTail(s: seq<string>)
    requires s != [] && LexSorted(s)
    ensures LexSorted(s[1..])
    ensures forall j :: 0 <= j < |s| ==> LexLe(s[0], s[j])
  {
    LexLeReflexive(s[0]);
    assert forall i, j :: 0 <= i < j < |s[1..]| ==> s[1..][i] == s[i + 1] && s[1..][j] == s[j + 1];
  }

  /** A lower bound of x and of every element of t bounds every element after the insertion. */
  lemma InsertStringBounded(lo: string, x: string, t: seq<string>)
    requires LexLe(lo, x) && forall j :: 0 <= j < |t| ==> LexLe(lo, t[j])
    ensures forall j :: 0 <= j < |InsertString(x, t)| ==> LexLe(lo, InsertString(x, t)[j])
  {
    var r := InsertString(x, t);
    forall j | 0 <= j < |r| ensures LexLe(lo, r[j]) {
      var y := r[j];
      assert y in multiset(r);
      if y != x {
        assert y in multiset(t);
        var i :| 0 <= i < |t| && t[i] == y;
      }
    }
  }

  lemma ConsLexSorted(h: string, r: seq<string>)
    requires LexSorted(r) && forall j :: 0 <= j < |r| ==> LexLe(h, r[j])
    ensures LexSorted([h] + r)
  {
    var c := [h] + r;
    forall i, j | 0 <= i < j < |c| ensures LexLe(c[i], c[j]) {
      assert c[j] == r[j - 1];
      if i > 0 { assert c[i] == r[i - 1]; }
    }
  }

  /** Array.prototype.sort() without a comparator, on strings. */
  function SortStrings(s: seq<string>): (r: seq<string>)
    ensures LexSorted(r)
    ensures multiset(r) == multiset(s)
    ensures |r| == |s|
  {
    if s == [] then []
    else
      var r0 := SortStrings(s[..|s| - 1]);
      InsertStringSorted(s[|s| - 1], r0);
      SnocMultiset(s);
      InsertString(s[|s| - 1], r0)
  }
}
