/** The list filters and column operations that the split selection
    (entropy_calculator.py) and the tree builder (decision_tree.py) share. */
module Partitions {
  import opened Counting
  import opened Instances

  /** Every instance has exactly `m` attribute columns. */
  ghost predicate Rectangular(xs: seq<Instance>, m: nat) {
    forall j :: 0 <= j < |xs| ==> |xs[j].attributes| == m
  }

  /** Every instance has a column `i`. */
  ghost predicate HasColumn(xs: seq<Instance>, i: nat) {
    forall j :: 0 <= j < |xs| ==> i < |xs[j].attributes|
  }

  /** The target of every instance, in order. */
  function Targets(xs: seq<Instance>): seq<Value> {
    seq(|xs|, j requires 0 <= j < |xs| => xs[j].target)
  }

  /** The value of column `i` of every instance, in order. */
  function Column(xs: seq<Instance>, i: nat): seq<Value>
    requires HasColumn(xs, i)
  {
    seq(|xs|, j requires 0 <= j < |xs| => xs[j].attributes[i].value)
  }

  /** The distinct target classes of a partition (`__get_target_classes`). */
  function TargetClasses(xs: seq<Instance>): seq<Value> {
    Distinct(Targets(xs))
  }

  /** The distinct values of column `i` (`__get_classes_attribute`,
      `possible_values_of_attribute`). */
  function AttributeClasses(xs: seq<Instance>, i: nat): seq<Value>
    requires HasColumn(xs, i)
  {
    Distinct(Column(xs, i))
  }

  /** The test of the target filter. */
  function HasTarget(c: Value): Instance -> bool {
    (x: Instance) => x.target == c
  }

  /** The test of the attribute-value filter. */
  function HasValue(i: nat, v: Value): Instance -> bool {
    (x: Instance) => i < |x.attributes| && x.attributes[i].value == v
  }

  /** `[d for d in xs if d.target == c]`. */
  function WithTarget(xs: seq<Instance>, c: Value): seq<Instance> {
    Filter(xs, HasTarget(c), |xs|)
  }

  /** `[d for d in xs if d.attributes[i].value == v]`; an instance without
      column `i` is not selected. */
  function WithAttributeValue(xs: seq<Instance>, i: nat, v: Value): seq<Instance>
  {
    Filter(xs, HasValue(i, v), |xs|)
  }

  /** `s` without its element at index `i` (`list.pop(i)`). */
  function RemoveAt<T>(s: seq<T>, i: nat): (r: seq<T>)
    requires i < |s|
    ensures |r| == |s| - 1
  {
    s[..i] + s[i + 1..]
  }

  /** `s` without the first occurrence of `x` (`list.remove(x)`); unchanged
      when `x` is absent, where Python raises. */
  function RemoveFirst<T(==)>(s: seq<T>, x: T): (r: seq<T>)
    ensures x in s ==> |r| == |s| - 1
    ensures x !in s ==> r == s
  {
    if x in s then RemoveAt(s, FirstIndex(s, x)) else s
  }

  /** Every instance with its column `i` removed and its target kept. */
  function RemoveColumn(xs: seq<Instance>, i: nat): seq<Instance>
    requires HasColumn(xs, i)
  {
    seq(|xs|, j requires 0 <= j < |xs| => Instance(RemoveAt(xs[j].attributes, i), xs[j].target))
  }

  // ---------------------------------------------------------------------
  // Lemmas

  /** The filter by target keeps as many instances as the partition has
      targets equal to `c`. */
  lemma WithTargetSize(xs: seq<Instance>, c: Value)
    ensures |WithTarget(xs, c)| == Count(Targets(xs), c)
  {
    FilterSize(xs, HasTarget(c), Targets(xs), c, |xs|);
  }

  /** The filter by attribute value keeps as many instances as column `i`
      holds `v`. */
  lemma WithAttributeValueSize(xs: seq<Instance>, i: nat, v: Value)
    requires HasColumn(xs, i)
    ensures |WithAttributeValue(xs, i, v)| == Count(Column(xs, i), v)
  {
    FilterSize(xs, HasValue(i, v), Column(xs, i), v, |xs|);
  }

  /** Filtering by an attribute value keeps exactly the instances of the
      partition that hold that value. */
  lemma WithAttributeValueMembers(xs: seq<Instance>, i: nat, v: Value)
    requires HasColumn(xs, i)
    ensures forall x :: x in WithAttributeValue(xs, i, v) <==> x in xs && x.attributes[i].value == v
  {
    FilterMembers(xs, HasValue(i, v), |xs|);
    assert xs[..|xs|] == xs;
  }

  /** Filtering by target keeps exactly the instances with that target. */
  lemma WithTargetMembers(xs: seq<Instance>, c: Value)
    ensures forall x :: x in WithTarget(xs, c) <==> x in xs && x.target == c
  {
    FilterMembers(xs, HasTarget(c), |xs|);
    assert xs[..|xs|] == xs;
  }

  /** Filtering by an attribute value keeps the input order: filtering a
      concatenation filters each part and concatenates the results. */
  lemma WithAttributeValueAppend(xs: seq<Instance>, ys: seq<Instance>, i: nat, v: Value)
    requires HasColumn(xs, i) && HasColumn(ys, i)
    ensures HasColumn(xs + ys, i)
    ensures WithAttributeValue(xs + ys, i, v) == WithAttributeValue(xs, i, v) + WithAttributeValue(ys, i, v)
  {
    FilterAppend(xs, ys, HasValue(i, v), |ys|);
  }

  /** Filtering by target keeps the input order in the same sense. */
  lemma WithTargetAppend(xs: seq<Instance>, ys: seq<Instance>, c: Value)
    ensures WithTarget(xs + ys, c) == WithTarget(xs, c) + WithTarget(ys, c)
  {
    FilterAppend(xs, ys, HasTarget(c), |ys|);
  }

  /** Each distinct value of column `i` selects a non-empty sub-partition, and
      the sub-partitions of all distinct values together count every
      instance exactly once. */
  lemma SubPartitionsCover(xs: seq<Instance>, i: nat)
    requires HasColumn(xs, i)
    ensures forall v :: v in AttributeClasses(xs, i) ==> |WithAttributeValue(xs, i, v)| > 0
    ensures TotalCount(AttributeClasses(xs, i), Column(xs, i), |AttributeClasses(xs, i)|) == |xs|
  {
    forall v | v in AttributeClasses(xs, i) ensures |WithAttributeValue(xs, i, v)| > 0 {
      WithAttributeValueSize(xs, i, v);
    }
    TotalCountOfCover(AttributeClasses(xs, i), Column(xs, i));
  }

  /** Each target class of a partition selects a non-empty sub-list no longer
      than the partition, and the classes together count every instance once. */
  lemma TargetClassesCover(xs: seq<Instance>)
    ensures forall c :: c in TargetClasses(xs) ==> 0 < |WithTarget(xs, c)| <= |xs|
    ensures TotalCount(TargetClasses(xs), Targets(xs), |TargetClasses(xs)|) == |xs|
  {
    forall c | c in TargetClasses(xs) ensures 0 < |WithTarget(xs, c)| <= |xs| {
      WithTargetSize(xs, c);
    }
    TotalCountOfCover(TargetClasses(xs), Targets(xs));
  }

  /** When headers are distinct, removing the first occurrence of the header
      at index `i` is removing index `i`. */
  lemma RemoveFirstOfDistinct<T>(s: seq<T>, i: nat)
    requires i < |s| && NoDups(s)
    ensures RemoveFirst(s, s[i]) == RemoveAt(s, i)
  {
    assert FirstIndex(s, s[i]) == i;
  }
}
