/** Entropy-based split selection (entropy_calculator.py). Python's floats are
    exact reals here and `math.log2` is the parameter `log2`, about which
    nothing is assumed except, where a lemma says so, `log2(1.0) == 0.0`. */
module Entropy {
  import opened Wrappers
  import opened Counting
  import opened Instances
  import opened Partitions

  /** `part / whole`, the share of a sub-list in a partition. */
  function Proportion(part: nat, whole: nat): real
    requires whole > 0
  {
    part as real / whole as real
  }

  /** The entropy term `p·log2(p)` of a class of `part` members in a
      partition of `whole`, with `p = part / whole`. */
  function PLogP(part: nat, whole: nat, log2: real -> real): real
    requires whole > 0
  {
    Proportion(part, whole) * log2(Proportion(part, whole))
  }

  /** The weighted term `(part / whole)·h` of a sub-partition of entropy `h`. */
  function Weighted(part: nat, whole: nat, h: real): real
    requires whole > 0
  {
    Proportion(part, whole) * h
  }

  /** `ws[0] + … + ws[n-1]`, added left to right. */
  function Sum(ws: seq<real>, n: nat): real
    requires n <= |ws|
  {
    if n == 0 then 0.0 else Sum(ws, n - 1) + ws[n - 1]
  }

  /** `-Σ p_c·log2(p_c)` over the first `n` classes of `cs`, subtracted in
      the order of `cs`, where `p_c` is the share of instances of `xs` whose
      target is `c`. */
  function EntropyOver(xs: seq<Instance>, cs: seq<Value>, n: nat, log2: real -> real): real
    requires n <= |cs| && (|xs| > 0 || n == 0)
  {
    if n == 0 then 0.0
    else EntropyOver(xs, cs, n - 1, log2) - PLogP(|WithTarget(xs, cs[n - 1])|, |xs|, log2)
  }

  /** Target entropy of a partition, summed over its distinct target classes. */
  function Entropy(xs: seq<Instance>, log2: real -> real): real {
    var cs := TargetClasses(xs);
    EntropyOver(xs, cs, |cs|, log2)
  }

  /** The weighted terms `(|S_v| / |xs|)·Entropy(S_v)` of the values `vs`, in
      order, where `S_v` holds the instances whose column `i` is `v`. */
  function ValueTerms(xs: seq<Instance>, i: nat, vs: seq<Value>, log2: real -> real): (ws: seq<real>)
    requires |xs| > 0 || |vs| == 0
    ensures |ws| == |vs|
  {
    seq(|vs|, j requires 0 <= j < |vs| =>
      Weighted(|WithAttributeValue(xs, i, vs[j])|, |xs|, Entropy(WithAttributeValue(xs, i, vs[j]), log2)))
  }

  /** Weighted entropy of the partition split on column `i`. */
  function AttributeEntropy(xs: seq<Instance>, i: nat, log2: real -> real): real
    requires HasColumn(xs, i)
  {
    var vs := AttributeClasses(xs, i);
    Sum(ValueTerms(xs, i, vs, log2), |vs|)
  }

  /** Information gain of column `i`. */
  function Gain(xs: seq<Instance>, i: nat, log2: real -> real): real
    requires HasColumn(xs, i)
  {
    Entropy(xs, log2) - AttributeEntropy(xs, i, log2)
  }

  /** Every instance has at least the columns `0 .. k-1`. */
  ghost predicate HasColumns(xs: seq<Instance>, k: nat) {
    forall j :: 0 <= j < |xs| ==> k <= |xs[j].attributes|
  }

  /** The gains of the columns `0 .. k-1`, in column order. */
  function Gains(xs: seq<Instance>, k: nat, log2: real -> real): (g: seq<real>)
    requires HasColumns(xs, k)
    ensures |g| == k
  {
    if k == 0 then [] else Gains(xs, k - 1, log2) + [Gain(xs, k - 1, log2)]
  }

  /** Entry `j` of the gains list is the gain of column `j`. */
  lemma {:induction false} GainsAt(xs: seq<Instance>, k: nat, log2: real -> real, j: nat)
    requires HasColumns(xs, k) && j < k
    ensures HasColumn(xs, j)
    ensures Gains(xs, k, log2)[j] == Gain(xs, j, log2)
  {
    var p := Gains(xs, k - 1, log2);
    assert Gains(xs, k, log2) == p + [Gain(xs, k - 1, log2)];
    if j < k - 1 {
      GainsAt(xs, k - 1, log2, j);
      assert (p + [Gain(xs, k - 1, log2)])[j] == p[j];
    }
  }

  /** The weights `|S_v| / |xs|` of the values `vs`, in order. */
  function Shares(xs: seq<Instance>, i: nat, vs: seq<Value>): (ws: seq<real>)
    requires HasColumn(xs, i) && |xs| > 0
    ensures |ws| == |vs|
  {
    seq(|vs|, j requires 0 <= j < |vs| => Proportion(|WithAttributeValue(xs, i, vs[j])|, |xs|))
  }

  // ---------------------------------------------------------------------
  // Lemmas

  lemma ShareInUnitInterval(a: real, b: real)
    requires 0.0 < a <= b
    ensures 0.0 < a / b <= 1.0
  {
    assert a / b * b == a;
  }

  /** All instances make up a share of 1. */
  lemma WholeShare(n: real)
    requires n > 0.0
    ensures n / n == 1.0
  {
  }

  /** Shares of the same whole add up to the share of the summed counts. */
  lemma AddShares(a: real, b: real, n: real)
    requires n > 0.0
    ensures a / n + b / n == (a + b) / n
  {
  }

  /** Every class of a partition has members, so every argument given to
      `log2` in the target entropy lies in (0, 1]. */
  lemma LogArgumentsInUnitInterval(xs: seq<Instance>)
    ensures forall c :: c in TargetClasses(xs) ==>
      |xs| > 0 && 0.0 < Proportion(|WithTarget(xs, c)|, |xs|) <= 1.0
  {
    TargetClassesCover(xs);
    forall c | c in TargetClasses(xs)
      ensures |xs| > 0 && 0.0 < Proportion(|WithTarget(xs, c)|, |xs|) <= 1.0
    {
      ShareInUnitInterval(|WithTarget(xs, c)| as real, |xs| as real);
    }
  }

  /** The first `n` weights add up to the share of instances whose value
      in column `i` is one of the first `n` values. */
  lemma {:induction false} WeightSumIsCountRatio(xs: seq<Instance>, i: nat, vs: seq<Value>, n: nat)
    requires HasColumn(xs, i) && |xs| > 0 && n <= |vs|
    ensures Sum(Shares(xs, i, vs), n) == TotalCount(vs, Column(xs, i), n) as real / |xs| as real
  {
    if n > 0 {
      WeightSumIsCountRatio(xs, i, vs, n - 1);
      var a := TotalCount(vs, Column(xs, i), n - 1) as real;
      var b := |WithAttributeValue(xs, i, vs[n - 1])| as real;
      WithAttributeValueSize(xs, i, vs[n - 1]);
      AddShares(a, b, |xs| as real);
    }
  }

  /** The sub-partitions of column `i` are disjoint and cover the partition,
      so the weights of the weighted entropy add up to 1. */
  lemma WeightsSumToOne(xs: seq<Instance>, i: nat)
    requires HasColumn(xs, i) && |xs| > 0
    ensures Sum(Shares(xs, i, AttributeClasses(xs, i)), |AttributeClasses(xs, i)|) == 1.0
  {
    WeightSumIsCountRatio(xs, i, AttributeClasses(xs, i), |AttributeClasses(xs, i)|);
    SubPartitionsCover(xs, i);
    WholeShare(|xs| as real);
  }

  /** A partition whose instances all share one target has that one class,
      and its entropy is the single term `1·log2(1)`, which is 0. */
  lemma SingleClassEntropyIsZero(xs: seq<Instance>, log2: real -> real)
    requires |xs| > 0
    requires forall j :: 0 <= j < |xs| ==> xs[j].target == xs[0].target
    requires log2(1.0) == 0.0
    ensures TargetClasses(xs) == [xs[0].target]
    ensures Entropy(xs, log2) == 0.0
  {
    var t := xs[0].target;
    var cs := TargetClasses(xs);
    assert Targets(xs)[0] == t;
    assert t in cs;
    forall j | 0 <= j < |cs| ensures cs[j] == t {
      var x := cs[j];
      assert x in Targets(xs);
      var k :| 0 <= k < |xs| && Targets(xs)[k] == x;
    }
    CountConstant(cs, t, |cs|);
    CountNoDups(cs, t);
    assert cs == [t];
    TargetClassesCover(xs);
    WholeShare(|xs| as real);
    var n := |WithTarget(xs, t)|;
    WithTargetSize(xs, t);
    assert n == |xs|;
    assert Proportion(n, |xs|) == 1.0;
    assert PLogP(n, |xs|, log2) == 0.0;
    assert EntropyOver(xs, cs, 1, log2) == EntropyOver(xs, cs, 0, log2) - PLogP(n, |xs|, log2);
  }

  /** `xs.index(max(xs))` on a non-empty list. */
  method IndexOfMax(xs: seq<real>) returns (k: nat)
    requires |xs| > 0
    ensures k == ArgMax(xs)
  {
    var m := xs[0];
    var j := 1;
    while j < |xs|
      invariant 1 <= j <= |xs|
      invariant m in xs
      invariant forall t :: 0 <= t < j ==> xs[t] <= m
    {
      if xs[j] > m {
        m := xs[j];
      }
      j := j + 1;
    }
    k := 0;
    while xs[k] != m
      invariant 0 <= k < |xs|
      invariant forall t :: 0 <= t < k ==> xs[t] != m
      invariant exists t :: k <= t < |xs| && xs[t] == m
      decreases |xs| - k
    {
      k := k + 1;
    }
    ghost var a := ArgMax(xs);
    assert xs[a] == m;
  }

  /** `EntropyCalculator`: the statistics of one partition, fixed at
      construction. */
  class EntropyCalculator {
    const instances: seq<Instance>
    const log2: real -> real
    const targetInformationValue: real
    const numAttributes: nat

    ghost predicate Valid() {
      |instances| > 0 &&
      numAttributes == |instances[0].attributes| &&
      Rectangular(instances, numAttributes) &&
      targetInformationValue == Entropy(instances, log2)
    }

    /** Reads the first instance for the column count; the partition must not
        be empty and all its instances have that many columns. */
    constructor (instances: seq<Instance>, log2: real -> real)
      requires |instances| > 0 && Rectangular(instances, |instances[0].attributes|)
      ensures Valid() && this.instances == instances && this.log2 == log2
    {
      this.instances := instances;
      this.log2 := log2;
      var e := CalculateEntropyClass(instances, log2);
      targetInformationValue := e;
      numAttributes := |instances[0].attributes|;
    }

    /** `__get_target_classes`: the targets, then `set`. */
    static method GetTargetClasses(ys: seq<Instance>) returns (cs: seq<Value>)
      ensures cs == TargetClasses(ys)
    {
      var values: seq<Value> := [];
      var k := 0;
      while k < |ys|
        invariant 0 <= k <= |ys|
        invariant |values| == k && forall j :: 0 <= j < k ==> values[j] == ys[j].target
      {
        values := values + [ys[k].target];
        k := k + 1;
      }
      assert values == Targets(ys);
      cs := Distinct(values);
    }

    /** `__calculate_entropy_class` (and `_calculate_entropy_target` on the
        whole partition): `entropy -= p·log2(p)` for each target class. */
    static method CalculateEntropyClass(ys: seq<Instance>, log2: real -> real) returns (e: real)
      ensures e == Entropy(ys, log2)
    {
      var classes := GetTargetClasses(ys);
      e := 0.0;
      var k := 0;
      while k < |classes|
        invariant 0 <= k <= |classes|
        invariant |ys| > 0 || |classes| == 0
        invariant e == EntropyOver(ys, classes, k, log2)
      {
        var sub := WithTarget(ys, classes[k]);
        e := e - PLogP(|sub|, |ys|, log2);
        k := k + 1;
      }
    }

    /** `__get_classes_attribute`: the values of column `i`, then `set`. */
    method GetClassesAttribute(i: nat) returns (vs: seq<Value>)
      requires Valid() && i < numAttributes
      ensures vs == AttributeClasses(instances, i)
    {
      var values: seq<Value> := [];
      var k := 0;
      while k < |instances|
        invariant 0 <= k <= |instances|
        invariant |values| == k && forall j :: 0 <= j < k ==> values[j] == instances[j].attributes[i].value
      {
        values := values + [instances[k].attributes[i].value];
        k := k + 1;
      }
      assert values == Column(instances, i);
      vs := Distinct(values);
    }

    /** `_calculate_entropy_attribute`: `attr_entropy += w_v·Entropy(S_v)` for
        each distinct value `v` of column `i`. */
    method CalculateEntropyAttribute(i: nat) returns (e: real)
      requires Valid() && i < numAttributes
      ensures e == AttributeEntropy(instances, i, log2)
    {
      var values := GetClassesAttribute(i);
      e := WeightedEntropy(instances, i, values, log2);
    }

    /** The loop of `_calculate_entropy_attribute` over the values `vs`. */
    static method WeightedEntropy(xs: seq<Instance>, i: nat, vs: seq<Value>, log2: real -> real) returns (e: real)
      requires |xs| > 0
      ensures e == Sum(ValueTerms(xs, i, vs, log2), |vs|)
    {
      ghost var terms := ValueTerms(xs, i, vs, log2);
      e := 0.0;
      var k := 0;
      while k < |vs|
        invariant 0 <= k <= |vs|
        invariant e == Sum(terms, k)
      {
        var sub := WithAttributeValue(xs, i, vs[k]);
        var h := CalculateEntropyClass(sub, log2);
        e := e + Weighted(|sub|, |xs|, h);
        k := k + 1;
      }
    }

    /** `gain_ID3`: target entropy minus the weighted entropy of column `i`. */
    method GainID3(i: nat) returns (g: real)
      requires Valid() && i < numAttributes
      ensures g == Gain(instances, i, log2)
    {
      var h := CalculateEntropyAttribute(i);
      g := targetInformationValue - h;
    }

    /** The list comprehension of `best_attribute`: `gain_ID3(i)` for every
        column, in column order. */
    method InformationGains() returns (gains: seq<real>)
      requires Valid()
      ensures gains == Gains(instances, numAttributes, log2)
    {
      gains := [];
      var idx := 0;
      while idx < numAttributes
        invariant 0 <= idx <= numAttributes
        invariant gains == Gains(instances, idx, log2)
      {
        var g := GainID3(idx);
        gains := gains + [g];
        idx := idx + 1;
      }
    }

    /** `best_attribute`: `info_gain_list.index(max(info_gain_list))`, the first
        column of largest gain; None where `max` of an empty list raises. */
    method BestAttribute() returns (r: Option<nat>)
      requires Valid()
      ensures r.None? <==> numAttributes == 0
      ensures r.Some? ==> r.value < numAttributes
      ensures r.Some? ==> forall j :: 0 <= j < numAttributes ==>
        Gains(instances, numAttributes, log2)[j] <= Gains(instances, numAttributes, log2)[r.value]
      ensures r.Some? ==> forall j :: 0 <= j < r.value ==>
        Gains(instances, numAttributes, log2)[j] < Gains(instances, numAttributes, log2)[r.value]
      ensures r.Some? ==> r.value == ArgMax(Gains(instances, numAttributes, log2))
    {
      var gains := InformationGains();
      if |gains| == 0 {
        return None;
      }
      var k := IndexOfMax(gains);
      return Some(k);
    }
  }
}
