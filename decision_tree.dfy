/** ID3 tree induction (decision_tree.py): a partition whose instances share
    one target becomes a leaf, so does one with no attribute left (labelled
    with its most frequent target); otherwise the column of largest
    information gain becomes a categorical decision node with one branch per
    distinct value of that column, built from the instances holding the value
    with the column removed. */
module DecisionTree {
  import opened Wrappers
  import opened Counting
  import opened Instances
  import opened Partitions
  import opened Entropy
  import opened Tree

  /** All instances have the target of the first one. */
  predicate SameTarget(xs: seq<Instance>)
    requires |xs| > 0
  {
    forall j :: 0 <= j < |xs| ==> xs[j].target == xs[0].target
  }

  /** `most_frequent_target_of` on a non-empty partition. */
  function MostFrequentTarget(xs: seq<Instance>): (t: Value)
    requires |xs| > 0
    ensures t in Targets(xs)
    ensures forall c :: c in Targets(xs) ==> Count(Targets(xs), c) <= Count(Targets(xs), t)
  {
    MostCommonIsMajority(Targets(xs));
    MostCommon(Targets(xs)).value
  }

  /** `EntropyCalculator(xs).best_attribute()` on `m > 0` columns. */
  function BestColumn(xs: seq<Instance>, m: nat, log2: real -> real): (i: nat)
    requires Rectangular(xs, m) && m > 0
    ensures i < m
  {
    ArgMax(Gains(xs, m, log2))
  }

  /** The instances holding `v` in column `i`, without that column: what the
      child for `v` is built from. */
  function Subset(xs: seq<Instance>, i: nat, v: Value): seq<Instance>
    requires HasColumn(xs, i)
  {
    WithAttributeValueMembers(xs, i, v);
    RemoveColumn(WithAttributeValue(xs, i, v), i)
  }

  /** `get_decision_tree(xs, headers)`: a leaf for a single-target
      partition, a majority leaf when no attribute is left or when some value
      of the best column selects no instance, otherwise a categorical node on
      the best column with the header of that column removed below it. */
  function BuildTree(xs: seq<Instance>, headers: seq<string>, log2: real -> real): Node
    requires |xs| > 0 && Rectangular(xs, |headers|)
    decreases |headers|, 1, 0
  {
    if SameTarget(xs) then Leaf(xs[0].target)
    else if |headers| == 0 then Leaf(MostFrequentTarget(xs))
    else
      var i := BestColumn(xs, |headers|, log2);
      var vs := AttributeClasses(xs, i);
      if exists j :: 0 <= j < |vs| && |WithAttributeValue(xs, i, vs[j])| == 0 then
        Leaf(MostFrequentTarget(xs))
      else
        Decision(xs[0].attributes[i].name, None,
          Branches(xs, i, vs, |vs|, RemoveFirst(headers, headers[i]), log2))
  }

  /** The branches for the first `n` values of `vs`, in order: value `v`
      leads to the tree built from the instances holding `v` in column `i`,
      without that column, over the remaining headers `rest`. */
  function Branches(xs: seq<Instance>, i: nat, vs: seq<Value>, n: nat, rest: seq<string>,
                    log2: real -> real): (bs: seq<TreeBranch>)
    requires |xs| > 0 && Rectangular(xs, |rest| + 1) && i < |rest| + 1
    requires n <= |vs| && forall j :: 0 <= j < n ==> |WithAttributeValue(xs, i, vs[j])| > 0
    ensures |bs| == n
    decreases |rest| + 1, 0, n
  {
    if n == 0 then []
    else
      SubsetShape(xs, i, |rest| + 1, vs[n - 1]);
      Branches(xs, i, vs, n - 1, rest, log2) +
        [TreeBranch(Category(vs[n - 1]), BuildTree(Subset(xs, i, vs[n - 1]), rest, log2))]
  }

  // ---------------------------------------------------------------------
  // Lemmas

  /** Removing a column keeps the instances and their targets and leaves
      one column fewer. */
  lemma RemoveColumnShape(xs: seq<Instance>, i: nat, m: nat)
    requires Rectangular(xs, m) && i < m
    ensures |RemoveColumn(xs, i)| == |xs|
    ensures Targets(RemoveColumn(xs, i)) == Targets(xs)
    ensures Rectangular(RemoveColumn(xs, i), m - 1)
    ensures forall j :: 0 <= j < |xs| ==>
      RemoveColumn(xs, i)[j].attributes == xs[j].attributes[..i] + xs[j].attributes[i + 1..]
  {
  }

  /** The child partition for `v` is as wide as the parent minus one
      column, is as long as the instances holding `v`, and its targets are
      targets of the parent. */
  lemma SubsetShape(xs: seq<Instance>, i: nat, m: nat, v: Value)
    requires Rectangular(xs, m) && i < m
    ensures HasColumn(WithAttributeValue(xs, i, v), i)
    ensures Rectangular(Subset(xs, i, v), m - 1)
    ensures |Subset(xs, i, v)| == |WithAttributeValue(xs, i, v)|
    ensures forall c :: c in Targets(Subset(xs, i, v)) ==> c in Targets(xs)
  {
    var w := WithAttributeValue(xs, i, v);
    WithAttributeValueMembers(xs, i, v);
    assert Rectangular(w, m) by {
      forall j | 0 <= j < |w| ensures |w[j].attributes| == m {
        assert w[j] in w;
      }
    }
    RemoveColumnShape(w, i, m);
    forall c | c in Targets(w) ensures c in Targets(xs) {
      var j :| 0 <= j < |w| && Targets(w)[j] == c;
      assert w[j] in w;
      var k :| 0 <= k < |xs| && xs[k] == w[j];
      assert Targets(xs)[k] == c;
    }
  }

  /** Branch `j` is labelled with the `j`-th value and leads to the tree of
      that value's sub-partition. */
  lemma {:induction false} BranchesAt(xs: seq<Instance>, i: nat, vs: seq<Value>, n: nat, rest: seq<string>,
                                      log2: real -> real, j: nat)
    requires |xs| > 0 && Rectangular(xs, |rest| + 1) && i < |rest| + 1
    requires n <= |vs| && forall j :: 0 <= j < n ==> |WithAttributeValue(xs, i, vs[j])| > 0
    requires j < n
    ensures |Subset(xs, i, vs[j])| > 0 && Rectangular(Subset(xs, i, vs[j]), |rest|)
    ensures Branches(xs, i, vs, n, rest, log2)[j] ==
      TreeBranch(Category(vs[j]), BuildTree(Subset(xs, i, vs[j]), rest, log2))
    decreases n
  {
    SubsetShape(xs, i, |rest| + 1, vs[j]);
    if j < n - 1 {
      BranchesAt(xs, i, vs, n - 1, rest, log2, j);
    }
  }

  /** Branch `j` of a decision node built from `xs` leads to the tree built
      from a non-empty child partition `c`, one column narrower, whose targets
      are targets of `xs`, over the headers `rest` that are one fewer. */
  lemma ChildTree(xs: seq<Instance>, headers: seq<string>, log2: real -> real, j: nat)
      returns (c: seq<Instance>, rest: seq<string>)
    requires |xs| > 0 && Rectangular(xs, |headers|)
    requires BuildTree(xs, headers, log2).Decision? && j < |BuildTree(xs, headers, log2).branches|
    ensures |headers| > 0 && |rest| == |headers| - 1
    ensures |c| > 0 && Rectangular(c, |rest|)
    ensures forall v :: v in Targets(c) ==> v in Targets(xs)
    ensures BuildTree(xs, headers, log2).branches[j].node == BuildTree(c, rest, log2)
  {
    var i := BestColumn(xs, |headers|, log2);
    var vs := AttributeClasses(xs, i);
    rest := RemoveFirst(headers, headers[i]);
    BranchesAt(xs, i, vs, |vs|, rest, log2, j);
    SubsetShape(xs, i, |headers|, vs[j]);
    c := Subset(xs, i, vs[j]);
  }

  /** Every leaf of the tree is labelled with a target of the training
      partition. */
  lemma {:induction false} LeavesAreTrainingTargets(xs: seq<Instance>, headers: seq<string>, log2: real -> real)
    requires |xs| > 0 && Rectangular(xs, |headers|)
    ensures forall v :: HasLeaf(BuildTree(xs, headers, log2), v) ==> v in Targets(xs)
    decreases |headers|
  {
    var t := BuildTree(xs, headers, log2);
    if t.Leaf? {
      assert Targets(xs)[0] == xs[0].target;
      if !SameTarget(xs) {
        MostCommonIsMajority(Targets(xs));
      }
    } else {
      forall v | HasLeaf(t, v) ensures v in Targets(xs) {
        var j :| 0 <= j < |t.branches| && HasLeaf(t.branches[j].node, v);
        var c, rest := ChildTree(xs, headers, log2, j);
        LeavesAreTrainingTargets(c, rest, log2);
      }
    }
  }

  /** Each level consumes one attribute, so the tree has at most
      `|headers|` decision nodes on any path. */
  lemma {:induction false} DepthBound(xs: seq<Instance>, headers: seq<string>, log2: real -> real)
    requires |xs| > 0 && Rectangular(xs, |headers|)
    ensures DepthAtMost(BuildTree(xs, headers, log2), |headers|)
    decreases |headers|
  {
    var t := BuildTree(xs, headers, log2);
    if t.Decision? {
      forall j | 0 <= j < |t.branches| ensures DepthAtMost(t.branches[j].node, |headers| - 1) {
        var c, rest := ChildTree(xs, headers, log2, j);
        DepthBound(c, rest, log2);
      }
    }
  }

  /** Every decision node of the tree is categorical: this builder never
      sets a threshold. */
  lemma {:induction false} AllCategorical(xs: seq<Instance>, headers: seq<string>, log2: real -> real)
    requires |xs| > 0 && Rectangular(xs, |headers|)
    ensures Categorical(BuildTree(xs, headers, log2))
    decreases |headers|
  {
    var t := BuildTree(xs, headers, log2);
    if t.Decision? {
      forall j | 0 <= j < |t.branches| ensures Categorical(t.branches[j].node) {
        var c, rest := ChildTree(xs, headers, log2, j);
        AllCategorical(c, rest, log2);
      }
    }
  }

  /** A mixed partition with attributes left always splits: it becomes a
      decision node on the column of largest gain (first among equals), with
      exactly one branch per distinct value of that column, in order; the
      empty-partition fallback never fires. */
  lemma SplitsOnBestColumn(xs: seq<Instance>, headers: seq<string>, log2: real -> real)
    requires |xs| > 0 && Rectangular(xs, |headers|)
    requires !SameTarget(xs) && |headers| > 0
    ensures var t := BuildTree(xs, headers, log2);
      var i := BestColumn(xs, |headers|, log2);
      t.Decision? && t.attribute == xs[0].attributes[i].name && t.threshold.None? &&
      |t.branches| == |AttributeClasses(xs, i)| &&
      forall j :: 0 <= j < |t.branches| ==> t.branches[j].edge == Category(AttributeClasses(xs, i)[j])
  {
    var i := BestColumn(xs, |headers|, log2);
    var vs := AttributeClasses(xs, i);
    var rest := RemoveFirst(headers, headers[i]);
    SubPartitionsCover(xs, i);
    assert !exists j :: 0 <= j < |vs| && |WithAttributeValue(xs, i, vs[j])| == 0 by {
      forall j | 0 <= j < |vs| ensures |WithAttributeValue(xs, i, vs[j])| > 0 {
        assert vs[j] in vs;
      }
    }
    forall j | 0 <= j < |vs| ensures BuildTree(xs, headers, log2).branches[j].edge == Category(vs[j]) {
      BranchesAt(xs, i, vs, |vs|, rest, log2, j);
    }
  }

  // ---------------------------------------------------------------------
  // The builder and its helpers

  /** `instances_have_the_same_target`. */
  method InstancesHaveTheSameTarget(xs: seq<Instance>) returns (b: bool)
    requires |xs| > 0
    ensures b <==> SameTarget(xs)
  {
    var first := xs[0].target;
    var k := 0;
    while k < |xs|
      invariant 0 <= k <= |xs|
      invariant forall j :: 0 <= j < k ==> xs[j].target == first
    {
      if xs[k].target != first {
        return false;
      }
      k := k + 1;
    }
    return true;
  }

  /** `most_frequent_target_of`: counts each distinct target into a map, then
      keeps the first target of strictly larger count; None on an empty
      partition. */
  method MostFrequentTargetOf(xs: seq<Instance>) returns (r: Option<Value>)
    ensures r == MostCommon(Targets(xs))
  {
    var targets: seq<Value> := [];
    var k := 0;
    while k < |xs|
      invariant 0 <= k <= |xs|
      invariant |targets| == k && forall j :: 0 <= j < k ==> targets[j] == xs[j].target
    {
      targets := targets + [xs[k].target];
      k := k + 1;
    }
    assert targets == Targets(xs);
    var unique := Distinct(targets);
    var quantity: map<Value, nat> := map[];
    k := 0;
    while k < |unique|
      invariant 0 <= k <= |unique|
      invariant forall j :: 0 <= j < k ==> unique[j] in quantity && quantity[unique[j]] == Count(targets, unique[j])
    {
      quantity := quantity[unique[k] := Count(targets, unique[k])];
      k := k + 1;
    }
    ghost var counts := CountsIn(unique, targets);
    r := None;
    var most: int := -1;
    k := 0;
    while k < |unique|
      invariant 0 <= k <= |unique|
      invariant k == 0 ==> r.None? && most == -1
      invariant k > 0 ==> r == Some(unique[ArgMaxPrefix(counts, k)]) && most as real == counts[ArgMaxPrefix(counts, k)]
    {
      var t := unique[k];
      assert counts[k] == quantity[t] as real;
      if quantity[t] > most {
        r := Some(t);
        most := quantity[t];
      }
      k := k + 1;
    }
  }

  /** `possible_values_of_attribute`: the column, then its distinct values. */
  method PossibleValuesOfAttribute(i: nat, xs: seq<Instance>) returns (vs: seq<Value>)
    requires HasColumn(xs, i)
    ensures vs == AttributeClasses(xs, i)
  {
    var values: seq<Value> := [];
    var k := 0;
    while k < |xs|
      invariant 0 <= k <= |xs|
      invariant |values| == k
      invariant forall j :: 0 <= j < k ==> values[j] == xs[j].attributes[i].value
    {
      values := values + [xs[k].attributes[i].value];
      k := k + 1;
    }
    assert values == Column(xs, i);
    vs := Distinct(values);
  }

  /** `remove_attribute_from_instances`: a copy of every instance without
      column `i`, targets kept. */
  method RemoveAttributeFromInstances(xs: seq<Instance>, i: nat) returns (r: seq<Instance>)
    requires HasColumn(xs, i)
    ensures r == RemoveColumn(xs, i)
  {
    r := [];
    var k := 0;
    while k < |xs|
      invariant 0 <= k <= |xs|
      invariant |r| == k
      invariant forall j :: 0 <= j < k ==> r[j] == Instance(RemoveAt(xs[j].attributes, i), xs[j].target)
    {
      var attributes := xs[k].attributes;
      var newAttributes := attributes[..i] + attributes[i + 1..];
      r := r + [Instance(newAttributes, xs[k].target)];
      k := k + 1;
    }
  }

  /** `EntropyCalculator(xs).best_attribute()` on a partition with columns. */
  method BestAttributeOf(xs: seq<Instance>, m: nat, log2: real -> real) returns (i: nat)
    requires |xs| > 0 && Rectangular(xs, m) && m > 0
    ensures i == BestColumn(xs, m, log2)
  {
    var calculator := new EntropyCalculator(xs, log2);
    var best := calculator.BestAttribute();
    i := best.value;
  }

  /** `get_decision_tree`, building each decision node in place with
      `add_branch`. */
  method GetDecisionTree(xs: seq<Instance>, headers: seq<string>, log2: real -> real) returns (t: Node)
    requires |xs| > 0 && Rectangular(xs, |headers|)
    ensures t == BuildTree(xs, headers, log2)
    decreases |headers|, 1
  {
    var same := InstancesHaveTheSameTarget(xs);
    if same {
      return Leaf(xs[0].target);
    }
    if |headers| == 0 {
      var m := MostFrequentTargetOf(xs);
      MostCommonIsMajority(Targets(xs));
      return Leaf(m.value);
    }
    var i := BestAttributeOf(xs, |headers|, log2);
    var node := new DecisionNode(xs[0].attributes[i].name, None);
    var available := RemoveFirst(headers, headers[i]);
    var values := PossibleValuesOfAttribute(i, xs);
    var complete := AddBranches(node, xs, i, values, available, log2);
    if !complete {
      var m := MostFrequentTargetOf(xs);
      MostCommonIsMajority(Targets(xs));
      return Leaf(m.value);
    }
    t := node.Snapshot();
  }

  /** The loop of `get_decision_tree` over the values of the chosen column
      `i`: adds one branch per value, built from the instances holding it
      without column `i`, and stops with `false` at the first value no
      instance holds (where the caller answers a majority leaf instead). */
  method AddBranches(node: DecisionNode, xs: seq<Instance>, i: nat, values: seq<Value>,
                     available: seq<string>, log2: real -> real) returns (complete: bool)
    requires |xs| > 0 && Rectangular(xs, |available| + 1) && i < |available| + 1
    requires node.branches == []
    modifies node
    ensures node.numericAttributeValue == old(node.numericAttributeValue)
    ensures complete <==> forall j :: 0 <= j < |values| ==> |WithAttributeValue(xs, i, values[j])| > 0
    ensures complete ==> node.branches == Branches(xs, i, values, |values|, available, log2)
    decreases |available| + 1, 0
  {
    var k := 0;
    while k < |values|
      invariant 0 <= k <= |values|
      invariant forall j :: 0 <= j < k ==> |WithAttributeValue(xs, i, values[j])| > 0
      invariant node.numericAttributeValue == old(node.numericAttributeValue)
      invariant node.branches == Branches(xs, i, values, k, available, log2)
    {
      var sub := WithAttributeValue(xs, i, values[k]);
      SubsetShape(xs, i, |available| + 1, values[k]);
      if |sub| == 0 {
        return false;
      }
      var reduced := RemoveAttributeFromInstances(sub, i);
      var child := GetDecisionTree(reduced, available, log2);
      node.AddBranch(TreeBranch(Category(values[k]), child));
      assert forall j :: 0 <= j < k + 1 ==> |WithAttributeValue(xs, i, values[j])| > 0 by {
        assert |WithAttributeValue(xs, i, values[k])| > 0;
      }
      k := k + 1;
    }
    return true;
  }
}
