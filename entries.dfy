// The `{ name, value }` rows the census routes return, their sums, the
// descending-by-value sort `(a, b) => b.value - a.value`, and the facts
// about permutations of such rows that the breakdown lemmas need.

module Entries {
  import opened Sorting

  datatype Entry = Entry(name: string, value: int)

  /** The sum of the values, accumulated from the end. */
  function Sum(s: seq<Entry>): int {
    if s == [] then 0 else Sum(s[..|s| - 1]) + s[|s| - 1].value
  }

  /** No two rows carry the same name. */
  predicate DistinctNames(s: seq<Entry>) {
    forall i, j :: 0 <= i < j < |s| ==> s[i].name != s[j].name
  }

  predicate HasName(s: seq<Entry>, x: string) {
    exists i :: 0 <= i < |s| && s[i].name == x
  }

  lemma {:induction false} SumAppend(a: seq<Entry>, b: seq<Entry>)
    ensures Sum(a + b) == Sum(a) + Sum(b)
    decreases |b|
  {
    if b == [] {
      assert a + b == a;
    } else {
      assert (a + b)[..|a + b| - 1] == a + b[..|b| - 1];
      SumAppend(a, b[..|b| - 1]);
    }
  }

  lemma SumCons(x: Entry, s: seq<Entry>)
    ensures Sum([x] + s) == x.value + Sum(s)
  {
    SumAppend([x], s);
    assert Sum([x]) == Sum([]) + x.value;
  }

  lemma {:induction false} SumUpdate(s: seq<Entry>, k: int, v: Entry)
    requires 0 <= k < |s|
    ensures Sum(s[k := v]) == Sum(s) - s[k].value + v.value
  {
    var t := s[k := v];
    assert s == s[..k] + [s[k]] + s[k + 1..];
    assert t == s[..k] + [v] + s[k + 1..];
    SumAppend(s[..k] + [s[k]], s[k + 1..]);
    SumAppend(s[..k] + [v], s[k + 1..]);
    SumAppend(s[..k], [s[k]]);
    SumAppend(s[..k], [v]);
    assert Sum([s[k]]) == s[k].value && Sum([v]) == v.value;
  }

  /** Reordering the rows keeps the sum. */
  lemma {:induction false} SumPermutation(a: seq<Entry>, b: seq<Entry>)
    requires multiset(a) == multiset(b)
    ensures Sum(a) == Sum(b)
    decreases |a|
  {
    if a == [] {
      assert |b| == |multiset(b)| == 0;
    } else {
      var x := a[0];
      assert x in multiset(b);
      var k :| 0 <= k < |b| && b[k] == x;
      var rest := b[..k] + b[k + 1..];
      MultisetRemove(a, b, k);
      SumPermutation(a[1..], rest);
      SumCons(x, a[1..]);
      assert a == [x] + a[1..];
      SumRemove(b, k);
    }
  }

  /** Taking the matching head off both sides keeps the multisets equal. */
  lemma MultisetRemove(a: seq<Entry>, b: seq<Entry>, k: int)
    requires multiset(a) == multiset(b) && a != [] && 0 <= k < |b| && b[k] == a[0]
    ensures multiset(a[1..]) == multiset(b[..k] + b[k + 1..])
  {
    var rest := b[..k] + b[k + 1..];
    assert b == b[..k] + [b[k]] + b[k + 1..];
    assert multiset(rest) == multiset(b[..k]) + multiset(b[k + 1..]);
    assert multiset(b) == multiset(b[..k]) + multiset{b[k]} + multiset(b[k + 1..]);
    assert a == [a[0]] + a[1..];
    assert multiset(a) == multiset{a[0]} + multiset(a[1..]);
    assert multiset(a[1..]) == multiset(a) - multiset{a[0]};
  }

  /** The sum splits off any one row. */
  lemma SumRemove(b: seq<Entry>, k: int)
    requires 0 <= k < |b|
    ensures Sum(b) == b[k].value + Sum(b[..k] + b[k + 1..])
  {
    var p, q := b[..k + 1], b[k + 1..];
    assert p + q == b;
    SumAppend(p, q);
    assert p[..k] == b[..k];
    assert Sum(p) == Sum(b[..k]) + b[k].value;
    SumAppend(b[..k], q);
  }

  lemma TwoIndices(s: seq<Entry>, i: int, j: int)
    requires 0 <= i < j < |s| && s[i] == s[j]
    ensures multiset(s)[s[i]] >= 2
  {
    assert s == s[..j] + s[j..];
    assert s[i] in s[..j];
    assert s[j] == s[j..][0];
    assert multiset(s) == multiset(s[..j]) + multiset(s[j..]);
  }

  lemma {:induction false} CountTwo(s: seq<Entry>, x: Entry) returns (i: int, j: int)
    requires multiset(s)[x] >= 2
    ensures 0 <= i < j < |s| && s[i] == x && s[j] == x
    decreases |s|
  {
    assert s == [s[0]] + s[1..];
    assert multiset(s) == multiset{s[0]} + multiset(s[1..]);
    if s[0] == x {
      assert x in multiset(s[1..]);
      var k :| 0 <= k < |s[1..]| && s[1..][k] == x;
      i, j := 0, k + 1;
    } else {
      var i', j' := CountTwo(s[1..], x);
      i, j := i' + 1, j' + 1;
    }
  }

  /** Reordering rows with distinct names keeps the names distinct. */
  lemma DistinctNamesPermutation(a: seq<Entry>, b: seq<Entry>)
    requires multiset(a) == multiset(b)
    ensures DistinctNames(a) ==> DistinctNames(b)
  {
    if !DistinctNames(a) {
      return;
    }
    forall i, j | 0 <= i < j < |b| ensures b[i].name != b[j].name {
      if b[i] == b[j] {
        TwoIndices(b, i, j);
        var p, q := CountTwo(a, b[i]);
      } else {
        assert b[i] in multiset(a) && b[j] in multiset(a);
      }
    }
  }

  /** The sort key of `(a, b) => b.value - a.value`: larger values first. */
  function Descending(e: Entry): real {
    -(e.value as real)
  }

  /** `.sort((a, b) => b.value - a.value)`: a stable sort into non-increasing value order. */
  function SortByValueDesc(s: seq<Entry>): (r: seq<Entry>)
    ensures |r| == |s| && multiset(r) == multiset(s)
    ensures forall i, j :: 0 <= i < j < |r| ==> r[i].value >= r[j].value
    ensures Sum(r) == Sum(s)
    ensures DistinctNames(s) ==> DistinctNames(r)
  {
    var r := StableSort(s, Descending);
    assert forall i, j :: 0 <= i < j < |r| ==> Descending(r[i]) <= Descending(r[j]);
    SumPermutation(s, r);
    DistinctNamesPermutation(s, r);
    r
  }

  /** Rows with equal values keep their relative order. */
  lemma SortByValueDescStable(s: seq<Entry>, v: int)
    ensures var k := Descending(Entry("", v));
            WithKey(SortByValueDesc(s), Descending, k) == WithKey(s, Descending, k)
  {
    var k := Descending(Entry("", v));
    var r := SortByValueDesc(s);
    var t := StableSort(s, Descending);
    assert r == t;
    StableSortStable(s, Descending, k);
  }

  /** Two rows of equal value come out in the order they went in. */
  lemma SortByValueDescTieOrder(s: seq<Entry>, i: int, j: int)
    requires 0 <= i < j < |SortByValueDesc(s)|
    requires SortByValueDesc(s)[i].value == SortByValueDesc(s)[j].value
    ensures exists a, b :: 0 <= a < b < |s| && s[a] == SortByValueDesc(s)[i] && s[b] == SortByValueDesc(s)[j]
  {
    var r := SortByValueDesc(s);
    assert r == StableSort(s, Descending);
    assert Descending(r[i]) == Descending(r[j]);
    StableSortTieOrder(s, Descending, i, j);
  }
}
