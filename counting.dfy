/** Sequence helpers shared by the learner: list.count, set() in first-occurrence
    order, Counter.most_common(1), index(max(...)), first-match search and list
    comprehension filters. Recursive helpers walk an index over a fixed
    sequence rather than slicing it. */
module Counting {
  import opened Wrappers

  /** Occurrences of `x` among the first `n` elements of `s`. */
  function CountPrefix<T(==)>(s: seq<T>, x: T, n: nat): (c: nat)
    requires n <= |s|
    ensures c <= n
    ensures c > 0 <==> x in s[..n]
  {
    if n == 0 then 0
    else
      assert s[..n] == s[..n - 1] + [s[n - 1]];
      CountPrefix(s, x, n - 1) + (if s[n - 1] == x then 1 else 0)
  }

  /** Number of occurrences of `x` in `s` (Python's `list.count`). */
  function Count<T(==)>(s: seq<T>, x: T): (c: nat)
    ensures c <= |s|
    ensures c > 0 <==> x in s
  {
    assert s[..|s|] == s;
    CountPrefix(s, x, |s|)
  }

  ghost predicate NoDups<T>(s: seq<T>) {
    forall i, j :: 0 <= i < j < |s| ==> s[i] != s[j]
  }

  /** First index at or after `i` whose element satisfies `p`. */
  function FindFrom<T>(s: seq<T>, p: T -> bool, i: nat): (r: Option<nat>)
    requires i <= |s|
    ensures r.Some? ==> i <= r.value < |s| && p(s[r.value])
    ensures r.Some? ==> forall j :: i <= j < r.value ==> !p(s[j])
    ensures r.None? ==> forall j :: i <= j < |s| ==> !p(s[j])
    decreases |s| - i
  {
    if i == |s| then None
    else if p(s[i]) then Some(i)
    else FindFrom(s, p, i + 1)
  }

  /** First index of `s` whose element satisfies `p`: a `for` loop that
      returns on the first match. */
  function FindFirst<T>(s: seq<T>, p: T -> bool): (r: Option<nat>)
    ensures r.Some? ==> r.value < |s| && p(s[r.value])
    ensures r.Some? ==> forall j :: 0 <= j < r.value ==> !p(s[j])
    ensures r.None? ==> forall j :: 0 <= j < |s| ==> !p(s[j])
  {
    FindFrom(s, p, 0)
  }

  /** Index of the first occurrence of `x` in `s` (`list.index`). */
  function FirstIndex<T(==)>(s: seq<T>, x: T): (k: nat)
    requires x in s
    ensures k < |s| && s[k] == x
    ensures forall j :: 0 <= j < k ==> s[j] != x
  {
    FindFirst(s, (y: T) => y == x).value
  }

  /** The distinct elements among the first `n` of `s`, each once, in the
      order of their first occurrence. */
  function DistinctPrefix<T(==,!new)>(s: seq<T>, n: nat): (r: seq<T>)
    requires n <= |s|
    ensures NoDups(r)
    ensures forall x :: x in r <==> x in s[..n]
    ensures |r| <= n
  {
    if n == 0 then []
    else
      var d := DistinctPrefix(s, n - 1);
      assert forall x :: x in s[..n] <==> x in s[..n - 1] || x == s[n - 1] by {
        assert s[..n] == s[..n - 1] + [s[n - 1]];
      }
      if s[n - 1] in d then d else d + [s[n - 1]]
  }

  /** The distinct elements of `s` in the order of their first occurrence:
      the iteration order this model fixes for `set(s)`, and the insertion
      order of `Counter(s)`. */
  function Distinct<T(==,!new)>(s: seq<T>): (r: seq<T>)
    ensures NoDups(r)
    ensures forall x :: x in r <==> x in s
    ensures |r| <= |s|
  {
    assert s[..|s|] == s;
    DistinctPrefix(s, |s|)
  }

  /** First index below `n` holding the largest of `xs[0..n)`: a left-to-right
      scan that replaces the candidate only on a strictly larger element. */
  function ArgMaxPrefix(xs: seq<real>, n: nat): (k: nat)
    requires 0 < n <= |xs|
    ensures k < n
    ensures forall j :: 0 <= j < n ==> xs[j] <= xs[k]
    ensures forall j :: 0 <= j < k ==> xs[j] < xs[k]
  {
    if n == 1 then 0
    else
      var p := ArgMaxPrefix(xs, n - 1);
      if xs[n - 1] > xs[p] then n - 1 else p
  }

  /** First index holding the largest element: `xs.index(max(xs))`. */
  function ArgMax(xs: seq<real>): (k: nat)
    requires |xs| > 0
    ensures k < |xs|
    ensures forall j :: 0 <= j < |xs| ==> xs[j] <= xs[k]
    ensures forall j :: 0 <= j < k ==> xs[j] < xs[k]
  {
    ArgMaxPrefix(xs, |xs|)
  }

  /** The counts of the elements of `ds` in `s`, as reals for ArgMax. */
  function CountsIn<T(==,!new)>(ds: seq<T>, s: seq<T>): seq<real> {
    seq(|ds|, j requires 0 <= j < |ds| => Count(s, ds[j]) as real)
  }

  /** `Counter(s).most_common(1)[0][0]`: the most frequent element, the one
      inserted first among equally frequent ones; None on an empty list. */
  function MostCommon<T(==,!new)>(s: seq<T>): Option<T> {
    if |s| == 0 then None
    else
      var ds := Distinct(s);
      assert s[0] in ds;
      Some(ds[ArgMax(CountsIn(ds, s))])
  }

  /** Sum of `Count(s, d)` over the first `n` elements `d` of `ds`. */
  function TotalCount<T(==)>(ds: seq<T>, s: seq<T>, n: nat): nat
    requires n <= |ds|
  {
    if n == 0 then 0 else TotalCount(ds, s, n - 1) + Count(s, ds[n - 1])
  }

  /** `[x for x in s[:n] if p(x)]`. */
  function Filter<T>(s: seq<T>, p: T -> bool, n: nat): seq<T>
    requires n <= |s|
  {
    if n == 0 then [] else Filter(s, p, n - 1) + (if p(s[n - 1]) then [s[n - 1]] else [])
  }

  // ---------------------------------------------------------------------
  // Lemmas

  /** Counting looks only at the counted prefix. */
  lemma {:induction false} CountPrefixAgree<T>(s: seq<T>, t: seq<T>, x: T, n: nat)
    requires n <= |s| && n <= |t|
    requires forall j :: 0 <= j < n ==> s[j] == t[j]
    ensures CountPrefix(s, x, n) == CountPrefix(t, x, n)
  {
    if n > 0 {
      CountPrefixAgree(s, t, x, n - 1);
    }
  }

  lemma CountSnoc<T>(s: seq<T>, x: T, y: T)
    ensures Count(s + [x], y) == Count(s, y) + (if x == y then 1 else 0)
  {
    CountPrefixAgree(s + [x], s, y, |s|);
  }

  /** Counting in a concatenation adds the counts of the two parts. */
  lemma {:induction false} CountAppend<T>(s: seq<T>, t: seq<T>, x: T)
    ensures Count(s + t, x) == Count(s, x) + Count(t, x)
    decreases |t|
  {
    if |t| > 0 {
      var u, y := t[..|t| - 1], t[|t| - 1];
      assert t == u + [y];
      assert s + t == (s + u) + [y];
      CountAppend(s, u, x);
      CountSnoc(s + u, y, x);
      CountSnoc(u, y, x);
    } else {
      assert s + t == s;
    }
  }

  /** In a list without duplicates an element occurs once or not at all. */
  lemma {:induction false} CountPrefixNoDups<T>(ds: seq<T>, x: T, n: nat)
    requires NoDups(ds) && n <= |ds|
    ensures CountPrefix(ds, x, n) == (if x in ds[..n] then 1 else 0)
  {
    if n > 0 {
      CountPrefixNoDups(ds, x, n - 1);
      assert ds[..n] == ds[..n - 1] + [ds[n - 1]];
      if x == ds[n - 1] {
        assert x !in ds[..n - 1];
      }
    }
  }

  lemma CountNoDups<T>(ds: seq<T>, x: T)
    requires NoDups(ds)
    ensures Count(ds, x) == (if x in ds then 1 else 0)
  {
    CountPrefixNoDups(ds, x, |ds|);
    assert ds[..|ds|] == ds;
  }

  /** A sequence all of whose elements are `x` counts `x` once per element. */
  lemma {:induction false} CountConstant<T>(s: seq<T>, x: T, n: nat)
    requires n <= |s|
    requires forall j :: 0 <= j < n ==> s[j] == x
    ensures CountPrefix(s, x, n) == n
  {
    if n > 0 {
      CountConstant(s, x, n - 1);
    }
  }

  lemma {:induction false} TotalCountSnoc<T>(ds: seq<T>, s: seq<T>, x: T, n: nat)
    requires n <= |ds|
    ensures TotalCount(ds, s + [x], n) == TotalCount(ds, s, n) + CountPrefix(ds, x, n)
  {
    if n > 0 {
      TotalCountSnoc(ds, s, x, n - 1);
      CountSnoc(s, x, ds[n - 1]);
    }
  }

  lemma {:induction false} TotalCountEmpty<T>(ds: seq<T>, s: seq<T>, n: nat)
    requires |s| == 0 && n <= |ds|
    ensures TotalCount(ds, s, n) == 0
  {
    if n > 0 {
      TotalCountEmpty(ds, s, n - 1);
    }
  }

  /** Counting every element of `s` once per listed distinct value adds up to
      `|s|` when the list has no duplicates and covers `s`. */
  lemma {:induction false} TotalCountOfCover<T>(ds: seq<T>, s: seq<T>)
    requires NoDups(ds)
    requires forall x :: x in s ==> x in ds
    ensures TotalCount(ds, s, |ds|) == |s|
  {
    if |s| == 0 {
      TotalCountEmpty(ds, s, |ds|);
    } else {
      var p := s[..|s| - 1];
      var x := s[|s| - 1];
      assert s == p + [x];
      TotalCountOfCover(ds, p);
      TotalCountSnoc(ds, p, x, |ds|);
      CountNoDups(ds, x);
    }
  }

  /** The distinct elements come out in the order of their first occurrence. */
  lemma {:induction false} DistinctInFirstOccurrenceOrder<T(!new)>(s: seq<T>, n: nat, i: nat, j: nat)
    requires n <= |s| && i < j < |DistinctPrefix(s, n)|
    ensures DistinctPrefix(s, n)[i] in s && DistinctPrefix(s, n)[j] in s
    ensures FirstIndex(s, DistinctPrefix(s, n)[i]) < FirstIndex(s, DistinctPrefix(s, n)[j])
  {
    var d := DistinctPrefix(s, n - 1);
    assert s[..n] == s[..n - 1] + [s[n - 1]];
    if j < |d| {
      DistinctInFirstOccurrenceOrder(s, n - 1, i, j);
    } else {
      var x := s[n - 1];
      assert DistinctPrefix(s, n)[j] == x && x !in s[..n - 1];
      assert d[i] in s[..n - 1];
      var a :| 0 <= a < n - 1 && s[a] == d[i];
      assert FirstIndex(s, x) == n - 1 by {
        forall b | 0 <= b < n - 1 ensures s[b] != x {
          assert s[b] == s[..n - 1][b];
        }
      }
    }
  }

  /** `MostCommon` picks an element of the list that no other element
      outnumbers, and among equally frequent ones the one that occurs first. */
  lemma {:induction false} MostCommonIsMajority<T(!new)>(s: seq<T>)
    ensures MostCommon(s).None? <==> |s| == 0
    ensures MostCommon(s).Some? ==> MostCommon(s).value in s
    ensures MostCommon(s).Some? ==>
      forall x :: x in s ==> Count(s, x) <= Count(s, MostCommon(s).value)
    ensures MostCommon(s).Some? ==>
      forall x :: x in s && Count(s, x) == Count(s, MostCommon(s).value) ==>
        FirstIndex(s, MostCommon(s).value) <= FirstIndex(s, x)
  {
    if |s| > 0 {
      var ds := Distinct(s);
      var cs := CountsIn(ds, s);
      assert s[0] in ds;
      var k := ArgMax(cs);
      var m := ds[k];
      forall x | x in s ensures Count(s, x) <= Count(s, m) {
        var j :| 0 <= j < |ds| && ds[j] == x;
        assert cs[j] <= cs[k];
      }
      forall x | x in s && Count(s, x) == Count(s, m)
        ensures FirstIndex(s, m) <= FirstIndex(s, x)
      {
        var j :| 0 <= j < |ds| && ds[j] == x;
        assert cs[j] == cs[k];
        if k < j {
          assert s[..|s|] == s;
          DistinctInFirstOccurrenceOrder(s, |s|, k, j);
        }
      }
    }
  }

  /** Filtering keeps exactly the elements of the prefix that satisfy `p`. */
  lemma {:induction false} FilterMembers<T>(s: seq<T>, p: T -> bool, n: nat)
    requires n <= |s|
    ensures forall x :: x in Filter(s, p, n) <==> x in s[..n] && p(x)
  {
    if n > 0 {
      FilterMembers(s, p, n - 1);
      assert s[..n] == s[..n - 1] + [s[n - 1]];
    }
  }

  /** Filtering looks only at the filtered prefix. */
  lemma {:induction false} FilterAgree<T>(s: seq<T>, t: seq<T>, p: T -> bool, n: nat)
    requires n <= |s| && n <= |t|
    requires forall j :: 0 <= j < n ==> s[j] == t[j]
    ensures Filter(s, p, n) == Filter(t, p, n)
  {
    if n > 0 {
      FilterAgree(s, t, p, n - 1);
    }
  }

  /** Filtering keeps the input order: filtering a concatenation filters each
      part and concatenates the results. */
  lemma {:induction false} FilterAppend<T>(s: seq<T>, t: seq<T>, p: T -> bool, n: nat)
    requires n <= |t|
    ensures Filter(s + t, p, |s| + n) == Filter(s, p, |s|) + Filter(t, p, n)
  {
    if n == 0 {
      FilterAgree(s + t, s, p, |s|);
    } else {
      FilterAppend(s, t, p, n - 1);
    }
  }

  /** A filter keeps as many elements as a key sequence, aligned with `s`,
      holds the key that the predicate tests for. */
  lemma {:induction false} FilterSize<T, K>(s: seq<T>, p: T -> bool, keys: seq<K>, key: K, n: nat)
    requires n <= |s| && |keys| == |s|
    requires forall j :: 0 <= j < |s| ==> (p(s[j]) <==> keys[j] == key)
    ensures |Filter(s, p, n)| == CountPrefix(keys, key, n)
  {
    if n > 0 {
      FilterSize(s, p, keys, key, n - 1);
    }
  }
}
