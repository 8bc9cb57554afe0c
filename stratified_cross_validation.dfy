/** cross_validation.py: stratified k-fold cross-validation. Every fold takes,
    from the cycle over the dataset, `round(p * fold_size)` instances of each
    target class whose share of the dataset is `p`, scanning the cycle
    forward for the next instance of that class; the last fold then takes
    the next `n - k * (n / k)` instances of the cycle, whatever they are.
    Nothing marks an instance as used, so a fold may repeat an instance an
    earlier fold holds and some instances may end up in no fold (see module
    StratifiedPartition). */
module StratifiedCrossValidation {
  import opened Wrappers
  import opened Counting
  import opened Instances
  import opened Partitions
  import Entropy
  import opened CrossValidation

  /** One entry of the strata distribution: a target value and the share of
      the dataset that has it. */
  datatype Stratum = Stratum(target: Value, proportion: real)

  /** `_get_strata_distribution`: one stratum per distinct target value, in
      order of first occurrence (the order of the Counter's keys). */
  function StrataDistribution(ds: seq<Instance>): (strata: seq<Stratum>)
    ensures |strata| <= |ds|
    ensures ClassesOf(ds, strata) && DistinctClasses(strata)
  {
    var cs := Distinct(Targets(ds));
    seq(|cs|, j requires 0 <= j < |cs| => Stratum(cs[j], Count(Targets(ds), cs[j]) as real / |ds| as real))
  }

  /** Every stratum is a class of the dataset. */
  ghost predicate ClassesOf(ds: seq<Instance>, strata: seq<Stratum>) {
    forall q :: 0 <= q < |strata| ==> strata[q].target in Targets(ds)
  }

  /** No two strata are of the same class. */
  ghost predicate DistinctClasses(strata: seq<Stratum>) {
    forall a, b :: 0 <= a < b < |strata| ==> strata[a].target != strata[b].target
  }

  /** The classes of the strata, in order. */
  function Classes(strata: seq<Stratum>): seq<Value> {
    seq(|strata|, j requires 0 <= j < |strata| => strata[j].target)
  }

  /** The shares of the strata, in order. */
  function Proportions(strata: seq<Stratum>): seq<real> {
    seq(|strata|, j requires 0 <= j < |strata| => strata[j].proportion)
  }

  /** Python's `round` on a number: the nearest integer, a tie going to the
      even neighbour. */
  function RoundHalfEven(x: real): (r: int)
    ensures x - (x.Floor as real) != 0.5 ==> -0.5 < r as real - x < 0.5
    ensures x - (x.Floor as real) == 0.5 ==> (r as real - x == 0.5 || x - r as real == 0.5) && r % 2 == 0
    ensures x >= 0.0 ==> r >= 0
  {
    var f := x.Floor;
    var d := x - f as real;
    if d < 0.5 then f
    else if d > 0.5 then f + 1
    else if f % 2 == 0 then f
    else f + 1
  }

  /** `int(round(p * fold_size))`, taken as the length of the `range` it
      is iterated over (a negative length iterates zero times). */
  function StratumSize(p: real, fs: nat): nat {
    var r := RoundHalfEven(p * fs as real);
    if r < 0 then 0 else r
  }

  /** A stratum of share `p` puts `p * fs` instances in a fold of size `fs`,
      rounded to the nearest integer, a tie to the even one. */
  lemma StratumSizeRounds(p: real, fs: nat)
    requires p >= 0.0
    ensures var x := p * fs as real;
      -0.5 <= StratumSize(p, fs) as real - x <= 0.5 &&
      (x - (x.Floor as real) != 0.5 ==> -0.5 < StratumSize(p, fs) as real - x < 0.5) &&
      (x - (x.Floor as real) == 0.5 ==> StratumSize(p, fs) % 2 == 0)
  {
    assert p * fs as real >= 0.0;
  }

  /** The total number of instances the first `j` strata put in a fold. */
  function StrataTotal(strata: seq<Stratum>, fs: nat, j: nat): nat
    requires j <= |strata|
  {
    if j == 0 then 0 else StrataTotal(strata, fs, j - 1) + StratumSize(strata[j - 1].proportion, fs)
  }

  // ---------------------------------------------------------------------
  // Scanning the cycle for a class

  /** The instance at position `q` of the cycle over `ds`. */
  function CycleAt(ds: seq<Instance>, q: nat): Instance
    requires |ds| > 0
  {
    ds[q % |ds|]
  }

  /** A class of the dataset comes up within one turn of the cycle from any
      position. */
  lemma MatchWithinTurn(ds: seq<Instance>, c: Value, pos: nat)
    requires |ds| > 0 && c in Targets(ds)
    ensures exists q :: pos <= q < pos + |ds| && CycleAt(ds, q).target == c
  {
    var i :| 0 <= i < |ds| && Targets(ds)[i] == c;
    var t := ReachEveryPosition(pos, i, |ds|);
    assert CycleAt(ds, pos + t).target == c;
  }

  /** The scan has passed `steps + 1` positions without a match, so a match
      lies further within the turn. */
  lemma ScanContinues(ds: seq<Instance>, c: Value, pos: nat, steps: nat)
    requires |ds| > 0 && c in Targets(ds)
    requires forall q :: pos <= q <= pos + steps ==> CycleAt(ds, q).target != c
    ensures steps + 1 < |ds|
  {
    MatchWithinTurn(ds, c, pos);
    var q :| pos <= q < pos + |ds| && CycleAt(ds, q).target == c;
  }

  /** The position of the cycle holding the next instance of class `c`
      at or after `pos`, when the first `steps` positions are known not to
      hold one (`el = next(...)` and its `while` loop). */
  function ScanFrom(ds: seq<Instance>, c: Value, pos: nat, steps: nat): (p: nat)
    requires |ds| > 0 && c in Targets(ds) && steps < |ds|
    requires forall q :: pos <= q < pos + steps ==> CycleAt(ds, q).target != c
    ensures pos + steps <= p < pos + |ds|
    ensures CycleAt(ds, p).target == c
    decreases |ds| - steps
  {
    if CycleAt(ds, pos + steps).target == c then pos + steps
    else
      ScanContinues(ds, c, pos, steps);
      ScanFrom(ds, c, pos, steps + 1)
  }

  /** The `count` instances of class `c` the cycle yields next from
      position `pos`, and the position after the last of them. */
  function TakeStratum(ds: seq<Instance>, c: Value, count: nat, pos: nat): (r: (seq<Instance>, nat))
    requires |ds| > 0 && c in Targets(ds)
    ensures |r.0| == count && pos <= r.1
    decreases count
  {
    if count == 0 then ([], pos)
    else
      var prev := TakeStratum(ds, c, count - 1, pos);
      var p := ScanFrom(ds, c, prev.1, 0);
      (prev.0 + [CycleAt(ds, p)], p + 1)
  }

  /** One fold built from the first `j` strata, starting at position `pos`,
      and the position after it. */
  function FoldOfStrata(ds: seq<Instance>, strata: seq<Stratum>, fs: nat, j: nat, pos: nat): (r: (seq<Instance>, nat))
    requires |ds| > 0 && j <= |strata| && ClassesOf(ds, strata)
    ensures pos <= r.1
  {
    if j == 0 then ([], pos)
    else
      var prev := FoldOfStrata(ds, strata, fs, j - 1, pos);
      var s := strata[j - 1];
      var take := TakeStratum(ds, s.target, StratumSize(s.proportion, fs), prev.1);
      (prev.0 + take.0, take.1)
  }

  /** The first `i` folds, starting at position `pos`, and the position
      after them. */
  function StratifiedFoldsPrefix(ds: seq<Instance>, strata: seq<Stratum>, fs: nat, i: nat, pos: nat)
      : (r: (seq<seq<Instance>>, nat))
    requires |ds| > 0 && ClassesOf(ds, strata)
    ensures |r.0| == i && pos <= r.1
  {
    if i == 0 then ([], pos)
    else
      var prev := StratifiedFoldsPrefix(ds, strata, fs, i - 1, pos);
      var fold := FoldOfStrata(ds, strata, fs, |strata|, prev.1);
      (prev.0 + [fold.0], fold.1)
  }

  /** `_fold_division(ds, k, offset)`: the strata of the whole dataset, `k`
      stratified folds after the offset, and the next `n % k` positions of
      the cycle appended to the last fold. */
  function StratifiedFoldsOf(ds: seq<Instance>, k: nat, offset: nat): (r: Result<seq<seq<Instance>>, FoldError>)
    ensures r.Err? <==> k == 0 || (|ds| == 0 && offset > 0)
    ensures r.Ok? ==> |r.value| == k
  {
    if k == 0 then Err(ZeroFolds)
    else if |ds| == 0 then
      if offset > 0 then Err(StopIteration) else Ok(seq(k, i => []))
    else
      var strata := StrataDistribution(ds);
      var fs := FoldSize(|ds|, k);
      var cut := StratifiedFoldsPrefix(ds, strata, fs, k, offset);
      Ok(cut.0[k - 1 := cut.0[k - 1] + Window(ds, cut.1, |ds| - k * fs)])
  }

  /** `_fold_division(ds, k, offset)` as a function of the offset. */
  function StratifiedDivision(ds: seq<Instance>, k: nat): nat -> Result<seq<seq<Instance>>, FoldError> {
    (offset: nat) => StratifiedFoldsOf(ds, k, offset)
  }

  /** A fold holds, of every stratum, `round(p * fs)` instances of its
      class, and nothing else. */
  ghost predicate StratifiedFold(fold: seq<Instance>, strata: seq<Stratum>, fs: nat) {
    |fold| == StrataTotal(strata, fs, |strata|) &&
    forall q :: 0 <= q < |strata| ==>
      |WithTarget(fold, strata[q].target)| == StratumSize(strata[q].proportion, fs)
  }

  // ---------------------------------------------------------------------
  // Lemmas

  /** The strata are the target classes of the dataset, each with the share
      of the dataset that has it. */
  lemma StrataDescribeTargets(ds: seq<Instance>)
    ensures forall v :: v in Targets(ds) <==>
      exists j :: 0 <= j < |StrataDistribution(ds)| && StrataDistribution(ds)[j].target == v
    ensures forall j :: 0 <= j < |StrataDistribution(ds)| ==>
      StrataDistribution(ds)[j].proportion == Count(Targets(ds), StrataDistribution(ds)[j].target) as real / |ds| as real &&
      0.0 < StrataDistribution(ds)[j].proportion <= 1.0
  {
    var strata := StrataDistribution(ds);
    var cs := Distinct(Targets(ds));
    forall v | v in Targets(ds)
      ensures exists j :: 0 <= j < |strata| && strata[j].target == v
    {
      var j :| 0 <= j < |cs| && cs[j] == v;
      assert strata[j].target == v;
    }
    forall j | 0 <= j < |strata|
      ensures 0.0 < strata[j].proportion <= 1.0
    {
      var c := Count(Targets(ds), cs[j]) as real;
      var n := |ds| as real;
      assert 0.0 < c <= n;
      Entropy.ShareInUnitInterval(c, n);
    }
  }

  /** The strata come in the order in which their classes first occur in the
      dataset (the insertion order of the Counter). */
  lemma StrataInFirstOccurrenceOrder(ds: seq<Instance>, i: nat, j: nat)
    requires i < j < |StrataDistribution(ds)|
    ensures StrataDistribution(ds)[i].target in Targets(ds) && StrataDistribution(ds)[j].target in Targets(ds)
    ensures FirstIndex(Targets(ds), StrataDistribution(ds)[i].target) < FirstIndex(Targets(ds), StrataDistribution(ds)[j].target)
  {
    var ts := Targets(ds);
    assert ts[..|ts|] == ts;
    DistinctInFirstOccurrenceOrder(ts, |ts|, i, j);
  }

  /** The first `m` shares, each the count of a class in `ts` over `n`, add
      up to the count of the first `m` classes over `n`. */
  lemma {:induction false} ShareSumIsCountRatio(ps: seq<real>, cs: seq<Value>, ts: seq<Value>, n: nat, m: nat)
    requires n > 0 && m <= |ps| == |cs|
    requires forall j :: 0 <= j < |ps| ==> ps[j] == Count(ts, cs[j]) as real / n as real
    ensures Entropy.Sum(ps, m) == TotalCount(cs, ts, m) as real / n as real
  {
    if m > 0 {
      ShareSumIsCountRatio(ps, cs, ts, n, m - 1);
      Entropy.AddShares(TotalCount(cs, ts, m - 1) as real, Count(ts, cs[m - 1]) as real, n as real);
    }
  }

  /** The shares of the strata add up to 1. */
  lemma StrataSumToOne(ds: seq<Instance>)
    requires |ds| > 0
    ensures TotalCount(Classes(StrataDistribution(ds)), Targets(ds), |StrataDistribution(ds)|) == |ds|
    ensures Entropy.Sum(Proportions(StrataDistribution(ds)), |StrataDistribution(ds)|) == 1.0
  {
    var cs := Distinct(Targets(ds));
    assert Classes(StrataDistribution(ds)) == cs;
    var ps := Proportions(StrataDistribution(ds));
    assert forall j :: 0 <= j < |ps| ==> ps[j] == Count(Targets(ds), cs[j]) as real / |ds| as real;
    ShareSumIsCountRatio(ps, cs, Targets(ds), |ds|, |cs|);
    TotalCountOfCover(cs, Targets(ds));
    Entropy.WholeShare(|ds| as real);
  }

  /** The scan stops at the first instance of class `c` of the cycle: no
      position it passes holds one. */
  lemma {:induction false} ScanFindsFirst(ds: seq<Instance>, c: Value, pos: nat, steps: nat)
    requires |ds| > 0 && c in Targets(ds) && steps < |ds|
    requires forall q :: pos <= q < pos + steps ==> CycleAt(ds, q).target != c
    ensures forall q :: pos <= q < ScanFrom(ds, c, pos, steps) ==> CycleAt(ds, q).target != c
    decreases |ds| - steps
  {
    if CycleAt(ds, pos + steps).target != c {
      ScanContinues(ds, c, pos, steps);
      ScanFindsFirst(ds, c, pos, steps + 1);
    }
  }

  /** A stratum takes only instances of the dataset of its own class. */
  lemma {:induction false} TakeStratumMembers(ds: seq<Instance>, c: Value, count: nat, pos: nat)
    requires |ds| > 0 && c in Targets(ds)
    ensures forall j :: 0 <= j < count ==>
      TakeStratum(ds, c, count, pos).0[j].target == c && TakeStratum(ds, c, count, pos).0[j] in ds
  {
    if count > 0 {
      TakeStratumMembers(ds, c, count - 1, pos);
      var prev := TakeStratum(ds, c, count - 1, pos);
      var p := ScanFrom(ds, c, prev.1, 0);
      assert TakeStratum(ds, c, count, pos).0 == prev.0 + [CycleAt(ds, p)];
    }
  }

  /** A fold cut from the first `j` strata holds as many instances as their
      sizes add up to, all of them from the dataset. */
  lemma {:induction false} FoldOfStrataMembers(ds: seq<Instance>, strata: seq<Stratum>, fs: nat, j: nat, pos: nat)
    requires |ds| > 0 && j <= |strata| && ClassesOf(ds, strata)
    ensures |FoldOfStrata(ds, strata, fs, j, pos).0| == StrataTotal(strata, fs, j)
    ensures forall e :: 0 <= e < |FoldOfStrata(ds, strata, fs, j, pos).0| ==> FoldOfStrata(ds, strata, fs, j, pos).0[e] in ds
  {
    if j > 0 {
      FoldOfStrataMembers(ds, strata, fs, j - 1, pos);
      var prev := FoldOfStrata(ds, strata, fs, j - 1, pos);
      var s := strata[j - 1];
      var take := TakeStratum(ds, s.target, StratumSize(s.proportion, fs), prev.1);
      TakeStratumMembers(ds, s.target, StratumSize(s.proportion, fs), prev.1);
      assert FoldOfStrata(ds, strata, fs, j, pos).0 == prev.0 + take.0;
    }
  }

  /** Filtering a list whose instances all have class `c` by class `y`
      keeps all of them when `y` is `c` and none otherwise. */
  lemma {:induction false} FilterUniform(xs: seq<Instance>, c: Value, y: Value, n: nat)
    requires n <= |xs|
    requires forall j :: 0 <= j < |xs| ==> xs[j].target == c
    ensures Filter(xs, HasTarget(y), n) == (if c == y then xs[..n] else [])
  {
    if n > 0 {
      FilterUniform(xs, c, y, n - 1);
      assert xs[..n] == xs[..n - 1] + [xs[n - 1]];
    }
  }

  /** The stratum of class `c` adds `count` instances of that class to
      the fold and no instance of any other class. */
  lemma TakeStratumCounts(ds: seq<Instance>, c: Value, count: nat, pos: nat, y: Value)
    requires |ds| > 0 && c in Targets(ds)
    ensures |WithTarget(TakeStratum(ds, c, count, pos).0, y)| == (if c == y then count else 0)
  {
    var taken := TakeStratum(ds, c, count, pos).0;
    TakeStratumMembers(ds, c, count, pos);
    FilterUniform(taken, c, y, |taken|);
  }

  /** After the first `j` strata, a fold holds `round(p * fs)` instances of
      each of their classes and none of the classes of later strata. */
  lemma {:induction false} FoldOfStrataCounts(ds: seq<Instance>, strata: seq<Stratum>, fs: nat, j: nat, pos: nat, q: nat)
    requires |ds| > 0 && j <= |strata| && q < |strata|
    requires ClassesOf(ds, strata) && DistinctClasses(strata)
    ensures |WithTarget(FoldOfStrata(ds, strata, fs, j, pos).0, strata[q].target)| ==
      (if q < j then StratumSize(strata[q].proportion, fs) else 0)
  {
    if j > 0 {
      FoldOfStrataCounts(ds, strata, fs, j - 1, pos, q);
      var prev := FoldOfStrata(ds, strata, fs, j - 1, pos);
      var s := strata[j - 1];
      var take := TakeStratum(ds, s.target, StratumSize(s.proportion, fs), prev.1);
      var x := strata[q].target;
      assert FoldOfStrata(ds, strata, fs, j, pos).0 == prev.0 + take.0;
      WithTargetAppend(prev.0, take.0, x);
      TakeStratumCounts(ds, s.target, StratumSize(s.proportion, fs), prev.1, x);
      if q != j - 1 {
        assert s.target != x;
      }
    }
  }

  /** Every fold cut by the fold loop is stratified. */
  lemma {:induction false} PrefixFoldsStratified(ds: seq<Instance>, strata: seq<Stratum>, fs: nat, i: nat, pos: nat)
    requires |ds| > 0
    requires ClassesOf(ds, strata) && DistinctClasses(strata)
    ensures forall f :: 0 <= f < i ==> StratifiedFold(StratifiedFoldsPrefix(ds, strata, fs, i, pos).0[f], strata, fs)
    ensures forall f, e :: 0 <= f < i && 0 <= e < |StratifiedFoldsPrefix(ds, strata, fs, i, pos).0[f]| ==>
      StratifiedFoldsPrefix(ds, strata, fs, i, pos).0[f][e] in ds
  {
    if i > 0 {
      PrefixFoldsStratified(ds, strata, fs, i - 1, pos);
      var prev := StratifiedFoldsPrefix(ds, strata, fs, i - 1, pos);
      var fold := FoldOfStrata(ds, strata, fs, |strata|, prev.1).0;
      FoldOfStrataMembers(ds, strata, fs, |strata|, prev.1);
      forall q | 0 <= q < |strata|
        ensures |WithTarget(fold, strata[q].target)| == StratumSize(strata[q].proportion, fs)
      {
        FoldOfStrataCounts(ds, strata, fs, |strata|, prev.1, q);
      }
      assert StratifiedFoldsPrefix(ds, strata, fs, i, pos).0 == prev.0 + [fold];
    }
  }

  /** `_fold_division` keeps the class proportions in every fold: each of
      the first `k - 1` folds holds, of every class with share `p`,
      `round(p * (n / k))` instances and nothing else; the last fold holds
      the same, followed by the `n % k` remaining instances; every fold holds
      instances of the dataset. */
  lemma StratifiedFoldsShape(ds: seq<Instance>, k: nat, offset: nat)
    requires |ds| > 0 && k > 0
    ensures forall f :: 0 <= f < k - 1 ==>
      StratifiedFold(StratifiedFoldsOf(ds, k, offset).value[f], StrataDistribution(ds), |ds| / k)
    ensures |StratifiedFoldsOf(ds, k, offset).value[k - 1]| ==
      StrataTotal(StrataDistribution(ds), |ds| / k, |StrataDistribution(ds)|) + |ds| % k
    ensures StratifiedFold(StratifiedFoldsOf(ds, k, offset).value[k - 1]
      [..StrataTotal(StrataDistribution(ds), |ds| / k, |StrataDistribution(ds)|)], StrataDistribution(ds), |ds| / k)
    ensures forall f, e :: 0 <= f < k && 0 <= e < |StratifiedFoldsOf(ds, k, offset).value[f]| ==>
      StratifiedFoldsOf(ds, k, offset).value[f][e] in ds
  {
    var strata := StrataDistribution(ds);
    var fs := FoldSize(|ds|, k);
    var cut := StratifiedFoldsPrefix(ds, strata, fs, k, offset);
    var tail := Window(ds, cut.1, |ds| - k * fs);
    var folds := StratifiedFoldsOf(ds, k, offset).value;
    PrefixFoldsStratified(ds, strata, fs, k, offset);
    assert folds[k - 1] == cut.0[k - 1] + tail;
    assert folds[k - 1][..|cut.0[k - 1]|] == cut.0[k - 1];
    ModUnique(|ds|, k, fs, |ds| - k * fs);
    forall e | 0 <= e < |tail| ensures tail[e] in ds {
    }
  }

  // ---------------------------------------------------------------------
  // The loops of cross_validation.py

  /** `_get_strata_distribution`: the targets, their Counter, then one share
      per key. */
  method GetStrataDistribution(ds: seq<Instance>) returns (strata: seq<Stratum>)
    ensures strata == StrataDistribution(ds)
  {
    var n := |ds|;
    var targets: seq<Value> := [];
    var k := 0;
    while k < n
      invariant 0 <= k <= n
      invariant |targets| == k && forall j :: 0 <= j < k ==> targets[j] == ds[j].target
    {
      targets := targets + [ds[k].target];
      k := k + 1;
    }
    assert targets == Targets(ds);
    var keys := Distinct(targets);
    var occurrences: map<Value, nat> := map[];
    k := 0;
    while k < |keys|
      invariant 0 <= k <= |keys|
      invariant forall j :: 0 <= j < k ==> keys[j] in occurrences && occurrences[keys[j]] == Count(targets, keys[j])
    {
      occurrences := occurrences[keys[k] := Count(targets, keys[k])];
      k := k + 1;
    }
    strata := [];
    k := 0;
    while k < |keys|
      invariant 0 <= k <= |keys|
      invariant |strata| == k
      invariant forall j :: 0 <= j < k ==> strata[j] == StrataDistribution(ds)[j]
    {
      var o := keys[k];
      strata := strata + [Stratum(o, occurrences[o] as real / n as real)];
      k := k + 1;
    }
  }

  /** `el = next(...)` followed by `while el.target.value != strata: el =
      next(...)`. */
  method NextOfClass(cursor: Cycle<Instance>, c: Value) returns (el: Instance)
    requires |cursor.items| > 0 && c in Targets(cursor.items)
    modifies cursor
    ensures el == CycleAt(cursor.items, ScanFrom(cursor.items, c, old(cursor.position), 0))
    ensures cursor.position == ScanFrom(cursor.items, c, old(cursor.position), 0) + 1
  {
    ghost var ds := cursor.items;
    ghost var start := cursor.position;
    el := cursor.Next();
    ghost var steps := 0;
    while el.target != c
      invariant 0 <= steps < |ds| && cursor.items == ds
      invariant cursor.position == start + steps + 1
      invariant el == CycleAt(ds, start + steps)
      invariant forall q :: start <= q < start + steps ==> CycleAt(ds, q).target != c
      invariant ScanFrom(ds, c, start, steps) == ScanFrom(ds, c, start, 0)
      decreases |ds| - steps
    {
      ScanContinues(ds, c, start, steps);
      el := cursor.Next();
      steps := steps + 1;
    }
  }

  /** The loop over `range(strata_size)` for one stratum. */
  method TakeFromCycle(cursor: Cycle<Instance>, c: Value, count: nat, fold: seq<Instance>)
      returns (r: seq<Instance>)
    requires |cursor.items| > 0 && c in Targets(cursor.items)
    modifies cursor
    ensures r == fold + TakeStratum(cursor.items, c, count, old(cursor.position)).0
    ensures cursor.position == TakeStratum(cursor.items, c, count, old(cursor.position)).1
  {
    r := fold;
    var e := 0;
    while e < count
      invariant 0 <= e <= count
      invariant r == fold + TakeStratum(cursor.items, c, e, old(cursor.position)).0
      invariant cursor.position == TakeStratum(cursor.items, c, e, old(cursor.position)).1
    {
      var el := NextOfClass(cursor, c);
      r := r + [el];
      e := e + 1;
    }
  }

  /** The loop over the strata for one fold. */
  method FoldFromCycle(cursor: Cycle<Instance>, strata: seq<Stratum>, fs: nat) returns (fold: seq<Instance>)
    requires |cursor.items| > 0
    requires ClassesOf(cursor.items, strata)
    modifies cursor
    ensures fold == FoldOfStrata(cursor.items, strata, fs, |strata|, old(cursor.position)).0
    ensures cursor.position == FoldOfStrata(cursor.items, strata, fs, |strata|, old(cursor.position)).1
  {
    fold := [];
    var q := 0;
    while q < |strata|
      invariant 0 <= q <= |strata|
      invariant fold == FoldOfStrata(cursor.items, strata, fs, q, old(cursor.position)).0
      invariant cursor.position == FoldOfStrata(cursor.items, strata, fs, q, old(cursor.position)).1
    {
      var size := StratumSize(strata[q].proportion, fs);
      fold := TakeFromCycle(cursor, strata[q].target, size, fold);
      q := q + 1;
    }
  }

  /** The fold loop: `k` stratified folds. */
  method CutStratifiedFolds(cursor: Cycle<Instance>, strata: seq<Stratum>, fs: nat, k: nat)
      returns (folds: seq<seq<Instance>>)
    requires |cursor.items| > 0
    requires ClassesOf(cursor.items, strata)
    modifies cursor
    ensures folds == StratifiedFoldsPrefix(cursor.items, strata, fs, k, old(cursor.position)).0
    ensures cursor.position == StratifiedFoldsPrefix(cursor.items, strata, fs, k, old(cursor.position)).1
  {
    folds := [];
    var i := 0;
    while i < k
      invariant 0 <= i <= k
      invariant folds == StratifiedFoldsPrefix(cursor.items, strata, fs, i, old(cursor.position)).0
      invariant cursor.position == StratifiedFoldsPrefix(cursor.items, strata, fs, i, old(cursor.position)).1
    {
      var fold := FoldFromCycle(cursor, strata, fs);
      folds := folds + [fold];
      i := i + 1;
    }
  }

  /** `_fold_division` with its cycle. */
  method StratifiedFoldDivision(ds: seq<Instance>, k: nat, offset: nat) returns (r: Result<seq<seq<Instance>>, FoldError>)
    ensures r == StratifiedFoldsOf(ds, k, offset)
  {
    var strata := GetStrataDistribution(ds);
    var n := |ds|;
    var cursor := new Cycle(ds);
    if k == 0 {
      return Err(ZeroFolds);
    }
    var fs := FoldSize(n, k);
    if n == 0 {
      if offset > 0 {
        return Err(StopIteration);
      }
      return Ok(seq(k, i => []));
    }
    Skip(cursor, offset);
    var folds := CutStratifiedFolds(cursor, strata, fs, k);
    ghost var cut := StratifiedFoldsPrefix(ds, strata, fs, k, offset);
    assert folds == cut.0 && cursor.position == cut.1;
    var remaining := n - k * fs;
    var last := AppendNext(cursor, folds[k - 1], remaining);
    assert last == cut.0[k - 1] + Window(ds, cut.1, remaining);
    folds := folds[k - 1 := last];
    return Ok(folds);
  }

  /** `cross_validation_division` of cross_validation.py: `r` repetitions,
      repetition `rep > 0` offset by `draws[rep]`. */
  method StratifiedCrossValidationDivision(ds: seq<Instance>, k: nat, r: nat, draws: seq<int>)
      returns (res: Result<seq<seq<seq<Instance>>>, FoldError>)
    requires r <= |draws| && ValidOffsetDraws(|ds|, k, draws)
    ensures res == RepetitionsPrefix(|ds|, k, draws, StratifiedDivision(ds, k), r)
  {
    var repetitions: seq<seq<seq<Instance>>> := [];
    var rep := 0;
    while rep < r
      invariant 0 <= rep <= r
      invariant RepetitionsPrefix(|ds|, k, draws, StratifiedDivision(ds, k), rep) == Ok(repetitions)
    {
      var offset := 0;
      if rep > 0 {
        var o := RepetitionOffset(|ds|, k, draws[rep]);
        if o.Err? {
          FirstErrorStays(|ds|, k, draws, StratifiedDivision(ds, k), rep + 1, r);
          return Err(o.error);
        }
        offset := o.value;
      }
      var folds := StratifiedFoldDivision(ds, k, offset);
      if folds.Err? {
        FirstErrorStays(|ds|, k, draws, StratifiedDivision(ds, k), rep + 1, r);
        return Err(folds.error);
      }
      repetitions := repetitions + [folds.value];
      rep := rep + 1;
    }
    return Ok(repetitions);
  }
}
