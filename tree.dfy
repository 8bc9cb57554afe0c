/** The classification tree of tree_node.py: leaves hold a target value,
    decision nodes test one named attribute, either against a threshold
    (numeric node) or by value (categorical node). */
module Tree {
  import opened Wrappers
  import opened Counting
  import opened Instances

  /** What a branch is labelled with: an attribute value on a categorical
      node, or one of the two split tokens of a numeric node. */
  datatype Edge = Category(value: Value) | LessOrEqual | BiggerThan

  datatype TreeBranch = TreeBranch(edge: Edge, node: Node)

  /** `LeafNode` and `DecisionNode`; `threshold` is
      `numeric_attribute_value`, None for a categorical node. */
  datatype Node =
    | Leaf(classification: Value)
    | Decision(attribute: string, threshold: Option<real>, branches: seq<TreeBranch>)

  /** The exceptions `classify` raises. */
  datatype ClassifyError =
    | AttributeNotFound(attribute: string)
    | MissingSplitBranch(edge: Edge)
    | UnmatchedCategoricalValue(value: Value)
    | NotNumeric(value: Value)

  /** `v` labels some leaf of `node`. */
  ghost predicate HasLeaf(node: Node, v: Value)
    decreases node
  {
    match node
    case Leaf(c) => c == v
    case Decision(_, _, branches) =>
      exists j :: 0 <= j < |branches| && HasLeaf(branches[j].node, v)
  }

  /** Every path from `node` to a leaf passes at most `d` decision nodes. */
  ghost predicate DepthAtMost(node: Node, d: nat)
    decreases node
  {
    match node
    case Leaf(_) => true
    case Decision(_, _, branches) =>
      d > 0 && forall j :: 0 <= j < |branches| ==> DepthAtMost(branches[j].node, d - 1)
  }

  /** Every decision node of `node` is categorical. */
  ghost predicate Categorical(node: Node)
    decreases node
  {
    match node
    case Leaf(_) => true
    case Decision(_, threshold, branches) =>
      threshold.None? && forall j :: 0 <= j < |branches| ==> Categorical(branches[j].node)
  }

  /** `float(value)`: a numeric attribute already holds a number, a text is
      parsed with `parseFloat`. */
  function AsNumber(v: Value, parseFloat: string -> Option<real>): (r: Option<real>)
    ensures v.Num? ==> r == Some(v.number)
    ensures v.Str? ==> r == parseFloat(v.text)
  {
    match v
    case Num(x) => Some(x)
    case Str(s) => parseFloat(s)
  }

  /** The split token a numeric node follows for the number `x`. */
  function SplitEdge(x: real, threshold: real): (e: Edge)
    ensures e == LessOrEqual <==> x <= threshold
    ensures e == BiggerThan <==> x > threshold
  {
    if x <= threshold then LessOrEqual else BiggerThan
  }

  /** Index of the first branch labelled `e`. */
  function BranchWith(branches: seq<TreeBranch>, e: Edge): Option<nat> {
    FindFirst(branches, (b: TreeBranch) => b.edge == e)
  }

  /** `Node.classify`: a leaf answers its classification; a decision node
      looks up the first attribute of the instance with its name, then follows
      the first branch labelled with the split token (numeric node) or with
      the attribute's value (categorical node). */
  function Classification(node: Node, inst: Instance, parseFloat: string -> Option<real>): (r: Result<Value, ClassifyError>)
    ensures node.Leaf? ==> r == Ok(node.classification)
    ensures r.Ok? ==> HasLeaf(node, r.value)
    ensures node.Decision? && FindAttribute(inst.attributes, node.attribute).None? ==>
      r == Err(AttributeNotFound(node.attribute))
    decreases node
  {
    match node
    case Leaf(c) => Ok(c)
    case Decision(name, threshold, branches) =>
      match FindAttribute(inst.attributes, name)
      case None => Err(AttributeNotFound(name))
      case Some(k) =>
        var a := inst.attributes[k];
        if threshold.Some? then
          match AsNumber(a.value, parseFloat)
          case None => Err(NotNumeric(a.value))
          case Some(x) =>
            var e := SplitEdge(x, threshold.value);
            match BranchWith(branches, e)
            case None => Err(MissingSplitBranch(e))
            case Some(j) => Classification(branches[j].node, inst, parseFloat)
        else
          match BranchWith(branches, Category(a.value))
          case None => Err(UnmatchedCategoricalValue(a.value))
          case Some(j) => Classification(branches[j].node, inst, parseFloat)
  }

  // ---------------------------------------------------------------------
  // Lemmas

  /** A categorical node sends an instance down the first branch labelled
      with the value of the instance's first attribute of the node's name. */
  lemma CategoricalStep(name: string, branches: seq<TreeBranch>, inst: Instance,
                        parseFloat: string -> Option<real>, k: nat, j: nat)
    requires k < |inst.attributes| && inst.attributes[k].name == name
    requires forall i :: 0 <= i < k ==> inst.attributes[i].name != name
    requires j < |branches| && branches[j].edge == Category(inst.attributes[k].value)
    requires forall i :: 0 <= i < j ==> branches[i].edge != branches[j].edge
    ensures Classification(Decision(name, None, branches), inst, parseFloat) ==
      Classification(branches[j].node, inst, parseFloat)
  {
    assert FindAttribute(inst.attributes, name) == Some(k);
    assert BranchWith(branches, branches[j].edge) == Some(j);
  }

  /** A value that no branch of a categorical node carries is an error. */
  lemma UnmatchedCategory(name: string, branches: seq<TreeBranch>, inst: Instance,
                          parseFloat: string -> Option<real>, k: nat)
    requires k < |inst.attributes| && inst.attributes[k].name == name
    requires forall i :: 0 <= i < k ==> inst.attributes[i].name != name
    requires forall j :: 0 <= j < |branches| ==> branches[j].edge != Category(inst.attributes[k].value)
    ensures Classification(Decision(name, None, branches), inst, parseFloat) ==
      Err(UnmatchedCategoricalValue(inst.attributes[k].value))
  {
    assert FindAttribute(inst.attributes, name) == Some(k);
  }

  /** The threshold decides the branch of a numeric node: a number at most
      the threshold goes down the `LessOrEqual` branch, a larger one down the
      `BiggerThan` branch, and a threshold of 0.0 still makes the node
      numeric. */
  lemma NumericStep(name: string, t: real, branches: seq<TreeBranch>, inst: Instance,
                    parseFloat: string -> Option<real>, k: nat, x: real, j: nat)
    requires k < |inst.attributes| && inst.attributes[k].name == name
    requires forall i :: 0 <= i < k ==> inst.attributes[i].name != name
    requires AsNumber(inst.attributes[k].value, parseFloat) == Some(x)
    requires j < |branches| && branches[j].edge == (if x <= t then LessOrEqual else BiggerThan)
    requires forall i :: 0 <= i < j ==> branches[i].edge != branches[j].edge
    ensures Classification(Decision(name, Some(t), branches), inst, parseFloat) == Classification(branches[j].node, inst, parseFloat)
  {
    assert FindAttribute(inst.attributes, name) == Some(k);
    assert BranchWith(branches, branches[j].edge) == Some(j);
  }

  /** A numeric node none of whose branches carries the split token the
      value calls for is an error. */
  lemma MissingSplit(name: string, t: real, branches: seq<TreeBranch>, inst: Instance,
                     parseFloat: string -> Option<real>, k: nat, x: real)
    requires k < |inst.attributes| && inst.attributes[k].name == name
    requires forall i :: 0 <= i < k ==> inst.attributes[i].name != name
    requires AsNumber(inst.attributes[k].value, parseFloat) == Some(x)
    requires forall j :: 0 <= j < |branches| ==> branches[j].edge != (if x <= t then LessOrEqual else BiggerThan)
    ensures Classification(Decision(name, Some(t), branches), inst, parseFloat) ==
      Err(MissingSplitBranch(if x <= t then LessOrEqual else BiggerThan))
  {
    assert FindAttribute(inst.attributes, name) == Some(k);
  }

  /** Classification never looks at the target of the instance. */
  lemma {:induction false} ClassifyIgnoresTarget(node: Node, attributes: seq<Attribute>, t1: Value, t2: Value,
                                                 parseFloat: string -> Option<real>)
    ensures Classification(node, Instance(attributes, t1), parseFloat) == Classification(node, Instance(attributes, t2), parseFloat)
    decreases node
  {
    match node
    case Leaf(_) =>
    case Decision(name, threshold, branches) =>
      forall j | 0 <= j < |branches|
        ensures Classification(branches[j].node, Instance(attributes, t1), parseFloat) ==
                Classification(branches[j].node, Instance(attributes, t2), parseFloat)
      {
        ClassifyIgnoresTarget(branches[j].node, attributes, t1, t2, parseFloat);
      }
  }

  // ---------------------------------------------------------------------
  // The mutable decision node

  /** `DecisionNode` while the tree builder adds its branches. */
  class DecisionNode {
    const associateAttribute: string
    var branches: seq<TreeBranch>
    var numericAttributeValue: Option<real>

    /** A node with no branches; numeric when a threshold is given. */
    constructor (associateAttribute: string, numericAttributeValue: Option<real>)
      ensures this.associateAttribute == associateAttribute
      ensures branches == [] && this.numericAttributeValue == numericAttributeValue
    {
      this.associateAttribute := associateAttribute;
      branches := [];
      this.numericAttributeValue := numericAttributeValue;
    }

    /** The node as an immutable tree. */
    function Snapshot(): Node
      reads this
    {
      Decision(associateAttribute, numericAttributeValue, branches)
    }

    /** `add_branch`: appends one branch. */
    method AddBranch(b: TreeBranch)
      modifies this
      ensures branches == old(branches) + [b]
      ensures numericAttributeValue == old(numericAttributeValue)
    {
      branches := branches + [b];
    }

    /** `set_as_numeric_node`: gives the node a threshold. */
    method SetAsNumericNode(threshold: real)
      modifies this
      ensures numericAttributeValue == Some(threshold)
      ensures branches == old(branches)
    {
      numericAttributeValue := Some(threshold);
    }

    /** `DecisionNode.classify` with its loops over the instance's attributes
        and over the node's branches. */
    method Classify(inst: Instance, parseFloat: string -> Option<real>) returns (r: Result<Value, ClassifyError>)
      ensures r == Classification(Snapshot(), inst, parseFloat)
    {
      var k := 0;
      while k < |inst.attributes| && inst.attributes[k].name != associateAttribute
        invariant 0 <= k <= |inst.attributes|
        invariant forall j :: 0 <= j < k ==> inst.attributes[j].name != associateAttribute
      {
        k := k + 1;
      }
      if k == |inst.attributes| {
        return Err(AttributeNotFound(associateAttribute));
      }
      assert FindAttribute(inst.attributes, associateAttribute) == Some(k);
      var a := inst.attributes[k];
      var e: Edge;
      if numericAttributeValue.Some? {
        var x := AsNumber(a.value, parseFloat);
        if x.None? {
          return Err(NotNumeric(a.value));
        }
        if x.value <= numericAttributeValue.value {
          e := LessOrEqual;
        } else {
          e := BiggerThan;
        }
      } else {
        e := Category(a.value);
      }
      var j := 0;
      while j < |branches|
        invariant 0 <= j <= |branches|
        invariant forall i :: 0 <= i < j ==> branches[i].edge != e
      {
        if branches[j].edge == e {
          assert BranchWith(branches, e) == Some(j);
          return Classification(branches[j].node, inst, parseFloat);
        }
        j := j + 1;
      }
      assert BranchWith(branches, e).None?;
      if numericAttributeValue.Some? {
        return Err(MissingSplitBranch(e));
      }
      return Err(UnmatchedCategoricalValue(a.value));
    }
  }
}
