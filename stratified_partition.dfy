/** The stratified division of cross_validation.py does not consume the
    instances it picks: the scan for a class may pick an instance an earlier
    fold already holds, and instances it passes over may end up in no fold.
    This module shows that on a small dataset, and defines the division the
    code evidently intends, where every fold takes the next unused instances
    of each class, proving that its folds partition the dataset. */
module StratifiedPartition {
  import opened Wrappers
  import opened Counting
  import opened Instances
  import opened Partitions
  import opened CrossValidation
  import opened StratifiedCrossValidation

  // ---------------------------------------------------------------------
  // The division as written loses instances

  /** With every stratum rounding to 0, a fold takes nothing and the cycle
      does not move. */
  lemma {:induction false} EmptyStrataEmptyFold(ds: seq<Instance>, strata: seq<Stratum>, fs: nat, j: nat, pos: nat)
    requires |ds| > 0 && j <= |strata| && ClassesOf(ds, strata)
    requires forall q :: 0 <= q < |strata| ==> StratumSize(strata[q].proportion, fs) == 0
    ensures FoldOfStrata(ds, strata, fs, j, pos) == ([], pos)
  {
    if j > 0 {
      EmptyStrataEmptyFold(ds, strata, fs, j - 1, pos);
      var s := strata[j - 1];
      assert StratumSize(s.proportion, fs) == 0;
      assert TakeStratum(ds, s.target, 0, pos) == ([], pos);
      assert FoldOfStrata(ds, strata, fs, j, pos) ==
        (FoldOfStrata(ds, strata, fs, j - 1, pos).0 + TakeStratum(ds, s.target, 0, pos).0, pos);
      var e: seq<Instance> := [];
      assert e + e == e;
    }
  }

  /** With every stratum rounding to 0, all `i` folds are empty. */
  lemma {:induction false} EmptyStrataEmptyFolds(ds: seq<Instance>, strata: seq<Stratum>, fs: nat, i: nat, pos: nat)
    requires |ds| > 0 && ClassesOf(ds, strata)
    requires forall q :: 0 <= q < |strata| ==> StratumSize(strata[q].proportion, fs) == 0
    ensures StratifiedFoldsPrefix(ds, strata, fs, i, pos).1 == pos
    ensures forall f :: 0 <= f < i ==> StratifiedFoldsPrefix(ds, strata, fs, i, pos).0[f] == []
  {
    if i > 0 {
      EmptyStrataEmptyFolds(ds, strata, fs, i - 1, pos);
      EmptyStrataEmptyFold(ds, strata, fs, |strata|, pos);
    }
  }

  /** The strata of one instance of class A followed by one of class B. */
  lemma StrataOfTwoClasses()
    ensures StrataDistribution([Instance([], Str("A")), Instance([], Str("B"))]) ==
      [Stratum(Str("A"), 0.5), Stratum(Str("B"), 0.5)]
  {
    var ds := [Instance([], Str("A")), Instance([], Str("B"))];
    assert Targets(ds) == [Str("A"), Str("B")];
    assert DistinctPrefix(Targets(ds), 1) == [Str("A")];
    assert Distinct(Targets(ds)) == [Str("A"), Str("B")];
    assert Count(Targets(ds), Str("A")) == 1 by {
      assert CountPrefix(Targets(ds), Str("A"), 1) == 1;
    }
    assert Count(Targets(ds), Str("B")) == 1 by {
      assert CountPrefix(Targets(ds), Str("B"), 1) == 0;
    }
  }

  /** When every stratum rounds to 0 instances per fold and `k` divides the
      dataset, every fold of the division as written is empty. */
  lemma EmptyStrataEmptyDivision(ds: seq<Instance>, k: nat, offset: nat)
    requires |ds| > 0 && k > 0 && |ds| % k == 0
    requires forall q :: 0 <= q < |StrataDistribution(ds)| ==>
      StratumSize(StrataDistribution(ds)[q].proportion, FoldSize(|ds|, k)) == 0
    ensures StratifiedFoldsOf(ds, k, offset) == Ok(seq(k, i => []))
  {
    var strata := StrataDistribution(ds);
    var fs := FoldSize(|ds|, k);
    EmptyStrataEmptyFolds(ds, strata, fs, k, offset);
    var cut := StratifiedFoldsPrefix(ds, strata, fs, k, offset);
    assert |ds| - k * fs == 0;
    assert Window(ds, cut.1, 0) == [];
    assert cut.0[k - 1 := cut.0[k - 1] + Window(ds, cut.1, 0)] == seq(k, i => []);
  }

  /** Two instances of two classes cut into two folds: each class has share
      0.5 and the fold size is 1, so every stratum rounds to 0 instances per
      fold, `2 % 2` leaves nothing over, and both folds come out empty. */
  lemma AsWrittenFoldsEmpty()
    ensures StratifiedFoldsOf([Instance([], Str("A")), Instance([], Str("B"))], 2, 0) == Ok([[], []])
  {
    var ds := [Instance([], Str("A")), Instance([], Str("B"))];
    StrataOfTwoClasses();
    assert StratumSize(0.5, 1) == 0 by {
      assert RoundHalfEven(0.5) == 0;
    }
    assert FoldSize(2, 2) == 1;
    EmptyStrataEmptyDivision(ds, 2, 0);
    var none: seq<seq<Instance>> := seq(2, i => []);
    assert none == [[], []];
  }

  /** The folds of the division as written need not hold the dataset: on
      the two instances above, neither instance is in any fold. */
  lemma AsWrittenLosesInstances()
    ensures var ds := [Instance([], Str("A")), Instance([], Str("B"))];
      StratifiedFoldsOf(ds, 2, 0).Ok? &&
      multiset(Concat(StratifiedFoldsOf(ds, 2, 0).value, 2)) != multiset(ds)
  {
    var ds := [Instance([], Str("A")), Instance([], Str("B"))];
    AsWrittenFoldsEmpty();
    var folds: seq<seq<Instance>> := [[], []];
    assert Concat(folds, 1) == [];
    assert Concat(folds, 2) == [];
    assert ds[0] in multiset(ds);
  }

  // ---------------------------------------------------------------------
  // The intended division: every pick is consumed

  /** The first `count` instances of class `c` in `pool`, in pool order,
      and what is left of the pool, in pool order; fewer when the pool runs
      out of the class. */
  function TakeClass(pool: seq<Instance>, c: Value, count: nat): (r: (seq<Instance>, seq<Instance>))
    ensures |r.0| + |r.1| == |pool|
    decreases |pool|
  {
    if count == 0 || |pool| == 0 then ([], pool)
    else if pool[0].target == c then
      var next := TakeClass(pool[1..], c, count - 1);
      ([pool[0]] + next.0, next.1)
    else
      var next := TakeClass(pool[1..], c, count);
      (next.0, [pool[0]] + next.1)
  }

  /** One fold from the first `j` strata, each taking its
      `round(p * fs)` instances out of the pool, and what is left of the
      pool. */
  function ConsumeFold(pool: seq<Instance>, strata: seq<Stratum>, fs: nat, j: nat): (r: (seq<Instance>, seq<Instance>))
    requires j <= |strata|
    ensures |r.0| + |r.1| == |pool|
  {
    if j == 0 then ([], pool)
    else
      var prev := ConsumeFold(pool, strata, fs, j - 1);
      var take := TakeClass(prev.1, strata[j - 1].target, StratumSize(strata[j - 1].proportion, fs));
      (prev.0 + take.0, take.1)
  }

  /** The first `i` folds taken out of the pool one after another, and what
      is left of the pool. */
  function ConsumeFolds(pool: seq<Instance>, strata: seq<Stratum>, fs: nat, i: nat): (r: (seq<seq<Instance>>, seq<Instance>))
    ensures |r.0| == i
  {
    if i == 0 then ([], pool)
    else
      var prev := ConsumeFolds(pool, strata, fs, i - 1);
      var fold := ConsumeFold(prev.1, strata, fs, |strata|);
      (prev.0 + [fold.0], fold.1)
  }

  /** The division `_fold_division` is meant to compute: the same strata,
      fold size and errors, the pool read from the offset on, every fold
      taking the next unused instances of each class, and every instance no
      fold took appended to the last fold. */
  function IntendedFoldsOf(ds: seq<Instance>, k: nat, offset: nat): (r: Result<seq<seq<Instance>>, FoldError>)
    ensures r.Err? <==> StratifiedFoldsOf(ds, k, offset).Err?
    ensures r.Ok? ==> |r.value| == k
  {
    if k == 0 then Err(ZeroFolds)
    else if |ds| == 0 then
      if offset > 0 then Err(StopIteration) else Ok(seq(k, i => []))
    else
      var cut := ConsumeFolds(Rotation(ds, offset), StrataDistribution(ds), FoldSize(|ds|, k), k);
      Ok(cut.0[k - 1 := cut.0[k - 1] + cut.1])
  }

  /** Taking a class out of the pool splits the pool: what is taken and
      what is left hold together exactly the instances of the pool. */
  lemma {:induction false} TakeClassSplits(pool: seq<Instance>, c: Value, count: nat)
    ensures var r := TakeClass(pool, c, count);
      multiset(r.0) + multiset(r.1) == multiset(pool)
    decreases |pool|
  {
    if count > 0 && |pool| > 0 {
      TakeClassSplits(pool[1..], c, if pool[0].target == c then count - 1 else count);
      assert pool == [pool[0]] + pool[1..];
    }
  }

  /** A class takes `count` instances, or all the pool has of it when that
      is fewer, and only instances of that class. */
  lemma {:induction false} TakeClassCount(pool: seq<Instance>, c: Value, count: nat)
    ensures var taken := TakeClass(pool, c, count).0;
      |taken| == (if count <= |WithTarget(pool, c)| then count else |WithTarget(pool, c)|) &&
      forall x :: x in taken ==> x.target == c
    decreases |pool|
  {
    if |pool| == 0 {
      assert WithTarget(pool, c) == [];
    } else if count > 0 {
      TakeClassCount(pool[1..], c, if pool[0].target == c then count - 1 else count);
      WithTargetCons(pool, c);
    }
  }

  /** The filter by target of a non-empty pool: its first instance when of
      class `c`, then the filter of the rest. */
  lemma WithTargetCons(pool: seq<Instance>, c: Value)
    requires |pool| > 0
    ensures |WithTarget(pool, c)| == |WithTarget(pool[1..], c)| + (if pool[0].target == c then 1 else 0)
  {
    assert pool == [pool[0]] + pool[1..];
    WithTargetAppend([pool[0]], pool[1..], c);
    assert Filter([pool[0]], HasTarget(c), 0) == [];
  }

  /** A fold taken out of the pool and what is left hold together exactly
      the instances of the pool. */
  lemma {:induction false} ConsumeFoldSplits(pool: seq<Instance>, strata: seq<Stratum>, fs: nat, j: nat)
    requires j <= |strata|
    ensures var r := ConsumeFold(pool, strata, fs, j);
      multiset(r.0) + multiset(r.1) == multiset(pool)
  {
    if j > 0 {
      ConsumeFoldSplits(pool, strata, fs, j - 1);
      var prev := ConsumeFold(pool, strata, fs, j - 1);
      TakeClassSplits(prev.1, strata[j - 1].target, StratumSize(strata[j - 1].proportion, fs));
    }
  }

  /** A fold holds at most `round(p * fs)` instances per stratum, and no
      more than all the strata together call for. */
  lemma {:induction false} ConsumeFoldSize(pool: seq<Instance>, strata: seq<Stratum>, fs: nat, j: nat)
    requires j <= |strata|
    ensures |ConsumeFold(pool, strata, fs, j).0| <= StrataTotal(strata, fs, j)
  {
    if j > 0 {
      ConsumeFoldSize(pool, strata, fs, j - 1);
      var prev := ConsumeFold(pool, strata, fs, j - 1);
      TakeClassCount(prev.1, strata[j - 1].target, StratumSize(strata[j - 1].proportion, fs));
    }
  }

  /** The first `i` folds and what is left of the pool hold together
      exactly the instances of the pool. */
  lemma {:induction false} ConsumeFoldsSplit(pool: seq<Instance>, strata: seq<Stratum>, fs: nat, i: nat)
    ensures var r := ConsumeFolds(pool, strata, fs, i);
      multiset(Concat(r.0, i)) + multiset(r.1) == multiset(pool)
  {
    if i > 0 {
      ConsumeFoldsSplit(pool, strata, fs, i - 1);
      var prev := ConsumeFolds(pool, strata, fs, i - 1);
      ConsumeFoldSplits(prev.1, strata, fs, |strata|);
      var r := ConsumeFolds(pool, strata, fs, i);
      ConcatPrefix(prev.0, r.0, i - 1);
    }
  }

  /** `Concat` of the first `n` folds looks only at those folds. */
  lemma {:induction false} ConcatPrefix<T>(a: seq<seq<T>>, b: seq<seq<T>>, n: nat)
    requires n <= |a| && n <= |b|
    requires forall q :: 0 <= q < n ==> a[q] == b[q]
    ensures Concat(a, n) == Concat(b, n)
  {
    if n > 0 {
      ConcatPrefix(a, b, n - 1);
    }
  }

  /** The intended division is a partition: for every `k > 0` it yields
      `k` folds that together hold every instance of the dataset exactly as
      often as the dataset does. */
  lemma IntendedFoldsPartition(ds: seq<Instance>, k: nat, offset: nat)
    requires k > 0 && (|ds| > 0 || offset == 0)
    ensures IntendedFoldsOf(ds, k, offset).Ok?
    ensures multiset(Concat(IntendedFoldsOf(ds, k, offset).value, k)) == multiset(ds)
  {
    var folds := IntendedFoldsOf(ds, k, offset).value;
    if |ds| == 0 {
      EmptyConcat(folds, k);
    } else {
      var pool := Rotation(ds, offset);
      var cut := ConsumeFolds(pool, StrataDistribution(ds), FoldSize(|ds|, k), k);
      ConsumeFoldsSplit(pool, StrataDistribution(ds), FoldSize(|ds|, k), k);
      ConcatPrefix(cut.0, folds, k - 1);
      assert Concat(folds, k) == Concat(cut.0, k - 1) + (cut.0[k - 1] + cut.1);
      RotationPermutes(ds, offset);
    }
  }

  /** Empty folds concatenate to nothing. */
  lemma {:induction false} EmptyConcat<T>(folds: seq<seq<T>>, n: nat)
    requires n <= |folds|
    requires forall q :: 0 <= q < n ==> folds[q] == []
    ensures Concat(folds, n) == []
  {
    if n > 0 {
      EmptyConcat(folds, n - 1);
    }
  }
}
