/** Typed attributes and labelled data instances (data_instance.py, and the
    two-field record of datainstance.py, which is `Instance` below). */
module Instances {
  import opened Wrappers
  import opened Counting

  /** An attribute value: the raw text of a categorical or target attribute,
      or the parsed number of a numeric one. */
  datatype Value = Str(text: string) | Num(number: real)

  /** `Attribute`: a name, a value and the one-letter type tag it was built with. */
  datatype Attribute = Attribute(name: string, value: Value, attrType: string)

  datatype AttributeError = InvalidMetadataType | NotANumber

  /** A value tagged 'n' holds a number, one tagged 'c' or 't' holds text. */
  ghost predicate WellTyped(a: Attribute) {
    (a.attrType == "n" ==> a.value.Num?) &&
    (a.attrType == "c" || a.attrType == "t" ==> a.value.Str?) &&
    a.attrType in {"c", "n", "t"}
  }

  /** `Attribute.__init__`: dispatch on the type tag. `parseFloat` stands for
      Python's `float`, None where it raises. */
  function NewAttribute(name: string, value: string, attrType: string,
                        parseFloat: string -> Option<real>): (r: Result<Attribute, AttributeError>)
    ensures r.Ok? ==> r.value.name == name && r.value.attrType == attrType && WellTyped(r.value)
    ensures (attrType == "c" || attrType == "t") ==> r.Ok? && r.value.value == Str(value)
    ensures attrType == "n" ==> (r.Ok? <==> parseFloat(value).Some?)
    ensures attrType == "n" && r.Ok? ==> r.value.value == Num(parseFloat(value).value)
    ensures r == Err(InvalidMetadataType) <==> attrType !in {"c", "n", "t"}
  {
    if attrType == "c" then Ok(Attribute(name, Str(value), attrType))
    else if attrType == "n" then
      match parseFloat(value)
      case None => Err(NotANumber)
      case Some(x) => Ok(Attribute(name, Num(x), attrType))
    else if attrType == "t" then Ok(Attribute(name, Str(value), attrType))
    else Err(InvalidMetadataType)
  }

  /** A labelled record: its non-target attributes in order and the value of
      its target attribute. */
  datatype Instance = Instance(attributes: seq<Attribute>, target: Value)

  predicate IsTarget(a: Attribute) { a.attrType == "t" }

  /** Index of the first attribute called `name`. */
  function FindAttribute(attributes: seq<Attribute>, name: string): Option<nat> {
    FindFirst(attributes, (a: Attribute) => a.name == name)
  }

  /** What `DataInstance.__init__` makes of the attribute list: the first
      target attribute and the list without it; None when there is none
      (`next` on an empty generator raises). */
  function SplitTarget(attributes: seq<Attribute>): (r: Option<(Attribute, seq<Attribute>)>)
    ensures r.None? <==> forall j :: 0 <= j < |attributes| ==> !IsTarget(attributes[j])
    ensures r.Some? ==> IsTarget(r.value.0) && |r.value.1| == |attributes| - 1
    ensures r.Some? ==>
      (exists i :: 0 <= i < |attributes| && attributes[i] == r.value.0 &&
        (forall j :: 0 <= j < i ==> !IsTarget(attributes[j])) &&
        r.value.1 == attributes[..i] + attributes[i + 1..])
  {
    match FindFirst(attributes, IsTarget)
    case None => None
    case Some(i) => Some((attributes[i], attributes[..i] + attributes[i + 1..]))
  }

  /** The remaining attributes keep their relative order: the ones before the
      extracted target stay in place, the ones after it (later target
      attributes included) move one position left. */
  lemma SplitTargetKeepsOrder(attributes: seq<Attribute>, i: nat)
    requires SplitTarget(attributes).Some?
    requires FindFirst(attributes, IsTarget) == Some(i)
    ensures SplitTarget(attributes).value.0 == attributes[i]
    ensures forall j :: 0 <= j < i ==> SplitTarget(attributes).value.1[j] == attributes[j]
    ensures forall j :: i < j < |attributes| ==> SplitTarget(attributes).value.1[j - 1] == attributes[j]
  {
  }

  /** A mutable Python list of attributes. */
  class AttributeList {
    var items: seq<Attribute>

    constructor (items: seq<Attribute>)
      ensures this.items == items
    {
      this.items := items;
    }
  }

  /** `DataInstance`: an id, the caller's attribute list (with its target
      popped out) and the target attribute. */
  class DataInstance {
    const id: int
    const attributes: AttributeList
    const target: Attribute

    constructor Init(id: int, attributes: AttributeList, target: Attribute)
      ensures this.id == id && this.attributes == attributes && this.target == target
    {
      this.id := id;
      this.attributes := attributes;
      this.target := target;
    }

    /** `DataInstance.__init__`: finds the first attribute tagged 't', pops it
        out of the caller's list in place and keeps that very list; None when
        no attribute is tagged 't'. */
    static method New(id: int, attributes: AttributeList) returns (r: Option<DataInstance>)
      modifies attributes
      ensures r.None? <==> SplitTarget(old(attributes.items)).None?
      ensures r.None? ==> attributes.items == old(attributes.items)
      ensures r.Some? ==> fresh(r.value) && r.value.id == id && r.value.attributes == attributes
      ensures r.Some? ==> (r.value.target, attributes.items) == SplitTarget(old(attributes.items)).value
    {
      var items := attributes.items;
      var i := 0;
      while i < |items| && !IsTarget(items[i])
        invariant 0 <= i <= |items|
        invariant forall j :: 0 <= j < i ==> !IsTarget(items[j])
      {
        i := i + 1;
      }
      if i == |items| {
        return None;
      }
      var target := items[i];
      attributes.items := items[..i] + items[i + 1..];
      var instance := new DataInstance.Init(id, attributes, target);
      return Some(instance);
    }

    /** The record as a value: the current attributes and the target's value. */
    function Value(): Instance
      reads attributes
    {
      Instance(attributes.items, target.value)
    }

    /** `attribute_with_name`: the first attribute called `name`; None where
        the source raises. */
    method AttributeWithName(name: string) returns (r: Option<Attribute>)
      ensures r.Some? ==> r.value in attributes.items && r.value.name == name
      ensures r.Some? <==> exists j :: 0 <= j < |attributes.items| && attributes.items[j].name == name
      ensures r.Some? ==> r.value == attributes.items[FindAttribute(attributes.items, name).value]
    {
      var items := attributes.items;
      var i := 0;
      while i < |items|
        invariant 0 <= i <= |items|
        invariant forall j :: 0 <= j < i ==> items[j].name != name
      {
        if items[i].name == name {
          return Some(items[i]);
        }
        i := i + 1;
      }
      return None;
    }
  }
}
