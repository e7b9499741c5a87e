/** attribute_generator.rs: putting one attribute declaration onto an element. */
module Attributes {
  import opened Wrappers
  import opened Records
  import opened Values
  import opened XmlElement

  const ComplexElementsMessage := "Attributes can contain complex elements"
  const GroupsMessage := "Attributes cannot include groups"
  const OwnAttributesMessage := "Attributes cannot have their own attributes"
  const NoTypeDataMessage := "No type dat for attribute"
  const DataTypeNotFoundMessage := "Data type not found"
  const EmptyNameMessage := "Attribute Name is empty"
  const EmptyTypeNameMessage := "Attribute type name is empty"

  /** A data type has the shape an attribute's type must have: no elements, groups or
      attributes, and some type information. */
  predicate AttributeTypeShapeOk(t: TypeGenerator) {
    t.elements == [] && t.groups == [] && t.attributes == [] && t.typeInfo != []
  }

  /** A data type can give an attribute value: it has the right shape and `generate`
      gives a value for its type information. */
  predicate AttributeTypeOk(t: TypeGenerator, f: Faker) {
    AttributeTypeShapeOk(t) && Generate(f, t.typeInfo).Built? && Generate(f, t.typeInfo).value.Some?
  }

  /** What putting an attribute on an element does: the program panics, or the crate's
      `Result` comes back. */
  type Attempt = Fallible<Result<Element>>

  /** The attempt returned `Ok`. */
  predicate Succeeds(r: Attempt) {
    r.Built? && r.value.Ok?
  }

  /** `generate_attribute_from_type`: the value of the attribute named `name` from the data
      type `t`. The checks run in the order of the source; a pattern `rand_regex` rejects
      panics inside `generate`. */
  function AttributeFromType(el: Element, t: TypeGenerator, name: string, f: Faker): (r: Attempt)
    ensures Succeeds(r) <==> AttributeTypeOk(t, f)
    ensures Succeeds(r) ==> r.value.value == AddAttribute(el, name, Generate(f, t.typeInfo).value.value)
    ensures t.elements != [] ==> r == Built(Err(DataTypesFormatError(ComplexElementsMessage)))
    ensures t.elements == [] && t.groups != [] ==> r == Built(Err(DataTypesFormatError(GroupsMessage)))
    ensures t.elements == [] && t.groups == [] && t.attributes != [] ==>
      r == Built(Err(DataTypesFormatError(OwnAttributesMessage)))
    ensures t.elements == [] && t.groups == [] && t.attributes == [] && t.typeInfo == [] ==>
      r == Built(Err(DataTypeError(NoTypeDataMessage)))
    ensures AttributeTypeShapeOk(t) && Generate(f, t.typeInfo) == Built(None) ==>
      r == Built(Err(DataTypeError(DataTypeNotFoundMessage)))
    ensures r.Panic? <==> AttributeTypeShapeOk(t) && Generate(f, t.typeInfo).Panic?
    ensures r.Panic? ==> r.message == Generate(f, t.typeInfo).message
  {
    if |t.elements| > 0 then Built(Err(DataTypesFormatError(ComplexElementsMessage)))
    else if |t.groups| > 0 then Built(Err(DataTypesFormatError(GroupsMessage)))
    else if |t.attributes| > 0 then Built(Err(DataTypesFormatError(OwnAttributesMessage)))
    else if |t.typeInfo| == 0 then Built(Err(DataTypeError(NoTypeDataMessage)))
    else
      match Generate(f, t.typeInfo)
      case Panic(message) => Panic(message)
      case Built(Some(value)) => Built(Ok(AddAttribute(el, name, value)))
      case Built(None) => Built(Err(DataTypeError(DataTypeNotFoundMessage)))
  }

  /** `AttributeGenerator::generate`. The type name alone is a one-entry list, which
      `generate` never panics on. */
  function AttributeGenerate(a: AttributeGenerator, el: Element, dataTypes: seq<TypeGenerator>, f: Faker): (r: Attempt)
    ensures a.name == "" ==> r == Built(Err(DataTypesFormatError(EmptyNameMessage)))
    ensures a.name != "" && a.typeName == "" ==> r == Built(Err(DataTypesFormatError(EmptyTypeNameMessage)))
    ensures a.name != "" && a.typeName != "" && a.attributeType == Prohibited ==> r == Built(Ok(el))
    ensures a.name != "" && a.typeName != "" && a.attributeType != Prohibited && a.typeName in BuiltinTypeNames ==>
      r == Built(Ok(AddAttribute(el, a.name, GenerateType(f, a.typeName).value)))
  {
    if a.name == "" then Built(Err(DataTypesFormatError(EmptyNameMessage)))
    else if a.typeName == "" then Built(Err(DataTypesFormatError(EmptyTypeNameMessage)))
    else if a.attributeType == Prohibited then Built(Ok(el))
    else
      match Generate(f, [a.typeName]).value
      case Some(value) => Built(Ok(AddAttribute(el, a.name, value)))
      case None => MatchingFrom(a, 0, el, dataTypes, f)
  }

  /** The loop of `AttributeGenerator::generate` over the data types, from position `i`:
      every data type of the attribute's type name is applied; the first error or panic
      stops it. */
  function MatchingFrom(a: AttributeGenerator, i: nat, el: Element, dataTypes: seq<TypeGenerator>, f: Faker): Attempt
    requires i <= |dataTypes|
    decreases |dataTypes| - i
  {
    if i == |dataTypes| then Built(Ok(el))
    else if dataTypes[i].name == a.typeName then
      var step := AttributeFromType(el, dataTypes[i], a.name, f);
      if Succeeds(step) then MatchingFrom(a, i + 1, step.value.value, dataTypes, f) else step
    else MatchingFrom(a, i + 1, el, dataTypes, f)
  }

  /** `AttributeGenerator::generate` as the source writes it, on the element it extends. */
  method GenerateAttribute(a: AttributeGenerator, el: Element, dataTypes: seq<TypeGenerator>, f: Faker) returns (r: Attempt)
    ensures r == AttributeGenerate(a, el, dataTypes, f)
  {
    if a.name == "" {
      return Built(Err(DataTypesFormatError(EmptyNameMessage)));
    }
    if a.typeName == "" {
      return Built(Err(DataTypesFormatError(EmptyTypeNameMessage)));
    }
    if a.attributeType == Prohibited {
      return Built(Ok(el));
    }
    var value := Generate(f, [a.typeName]).value;
    if value.Some? {
      return Built(Ok(AddAttribute(el, a.name, value.value)));
    }
    var cur := el;
    for i := 0 to |dataTypes|
      invariant MatchingFrom(a, 0, el, dataTypes, f) == MatchingFrom(a, i, cur, dataTypes, f)
    {
      if dataTypes[i].name == a.typeName {
        var step := AttributeFromType(cur, dataTypes[i], a.name, f);
        if !Succeeds(step) {
          return step;
        }
        cur := step.value.value;
      }
    }
    return Built(Ok(cur));
  }

  // ----- Properties -------------------------------------------------------------------

  /** The data types named `typeName`, in order. */
  function Matching(dataTypes: seq<TypeGenerator>, typeName: string): seq<TypeGenerator> {
    if dataTypes == [] then []
    else (if dataTypes[0].name == typeName then [dataTypes[0]] else []) + Matching(dataTypes[1..], typeName)
  }

  /** Every one of `types` can give an attribute value. */
  predicate AllAttributeTypesOk(types: seq<TypeGenerator>, f: Faker) {
    forall k :: 0 <= k < |types| ==> AttributeTypeOk(types[k], f)
  }

  /** One attribute `name` per data type, valued from that type. */
  function TypePairs(name: string, f: Faker, types: seq<TypeGenerator>): (ps: seq<(string, string)>)
    requires AllAttributeTypesOk(types, f)
    ensures |ps| == |types| && forall k :: 0 <= k < |ps| ==> ps[k].0 == name
  {
    if types == [] then []
    else [(name, Generate(f, types[0].typeInfo).value.value)] + TypePairs(name, f, types[1..])
  }

  lemma AllAttributeTypesOkCons(t: TypeGenerator, types: seq<TypeGenerator>, f: Faker)
    requires AttributeTypeOk(t, f) && AllAttributeTypesOk(types, f)
    ensures AllAttributeTypesOk([t] + types, f)
  {
    assert forall k :: 1 <= k < |[t] + types| ==> ([t] + types)[k] == types[k - 1];
  }

  lemma {:induction false} MatchingUnfold(dataTypes: seq<TypeGenerator>, i: nat, typeName: string)
    requires i < |dataTypes|
    ensures Matching(dataTypes[i..], typeName) ==
      (if dataTypes[i].name == typeName then [dataTypes[i]] else []) + Matching(dataTypes[i + 1..], typeName)
  {
    assert dataTypes[i..][0] == dataTypes[i];
    assert dataTypes[i..][1..] == dataTypes[i + 1..];
  }

  /** The data-type loop succeeds exactly when every matching type can give a value, and
      then adds one attribute per matching type. */
  lemma {:induction false} MatchingFromOk(a: AttributeGenerator, i: nat, el: Element, dataTypes: seq<TypeGenerator>, f: Faker)
    requires i <= |dataTypes|
    ensures Succeeds(MatchingFrom(a, i, el, dataTypes, f)) <==>
      AllAttributeTypesOk(Matching(dataTypes[i..], a.typeName), f)
    ensures Succeeds(MatchingFrom(a, i, el, dataTypes, f)) ==>
      MatchingFrom(a, i, el, dataTypes, f).value.value ==
        el.(attributes := el.attributes + TypePairs(a.name, f, Matching(dataTypes[i..], a.typeName)))
    decreases |dataTypes| - i
  {
    if i == |dataTypes| {
      assert dataTypes[i..] == [];
      assert el.attributes + [] == el.attributes;
    } else {
      var d := dataTypes[i];
      var rest := Matching(dataTypes[i + 1..], a.typeName);
      MatchingUnfold(dataTypes, i, a.typeName);
      if d.name != a.typeName {
        MatchingFromOk(a, i + 1, el, dataTypes, f);
        assert [] + rest == rest;
      } else {
        var m := [d] + rest;
        assert m[1..] == rest;
        var step := AttributeFromType(el, d, a.name, f);
        if Succeeds(step) {
          MatchingFromOk(a, i + 1, step.value.value, dataTypes, f);
          TypePairsCons(el, a.name, d, rest, f);
        } else {
          assert !AttributeTypeOk(m[0], f);
        }
      }
    }
  }

  /** A matching type that gives a value adds its attribute in front of the others. */
  lemma TypePairsCons(el: Element, name: string, d: TypeGenerator, rest: seq<TypeGenerator>, f: Faker)
    requires AttributeTypeOk(d, f)
    ensures AllAttributeTypesOk([d] + rest, f) <==> AllAttributeTypesOk(rest, f)
    ensures AllAttributeTypesOk(rest, f) ==>
      AddAttribute(el, name, Generate(f, d.typeInfo).value.value).attributes + TypePairs(name, f, rest) ==
        el.attributes + TypePairs(name, f, [d] + rest)
  {
    var m := [d] + rest;
    assert m[1..] == rest;
    assert forall k :: 1 <= k < |m| ==> m[k] == rest[k - 1];
    if AllAttributeTypesOk(rest, f) {
      AllAttributeTypesOkCons(d, rest, f);
      assert el.attributes + [(name, Generate(f, d.typeInfo).value.value)] + TypePairs(name, f, rest) ==
        el.attributes + ([(name, Generate(f, d.typeInfo).value.value)] + TypePairs(name, f, rest));
    }
  }

  /** A failure of the data-type loop, an error or a panic, is that of the first matching
      type that cannot give a value. */
  lemma {:induction false} MatchingFromErr(a: AttributeGenerator, i: nat, el: Element, dataTypes: seq<TypeGenerator>, f: Faker)
    requires i <= |dataTypes|
    ensures var m := Matching(dataTypes[i..], a.typeName);
      !Succeeds(MatchingFrom(a, i, el, dataTypes, f)) ==>
        exists j :: 0 <= j < |m| && AttributeFromType(el, m[j], a.name, f) == MatchingFrom(a, i, el, dataTypes, f) &&
          AllAttributeTypesOk(m[..j], f)
    decreases |dataTypes| - i
  {
    if i < |dataTypes| {
      var d := dataTypes[i];
      var rest := Matching(dataTypes[i + 1..], a.typeName);
      MatchingUnfold(dataTypes, i, a.typeName);
      if d.name != a.typeName {
        MatchingFromErr(a, i + 1, el, dataTypes, f);
        assert [] + rest == rest;
      } else if Succeeds(AttributeFromType(el, d, a.name, f)) {
        var next := AttributeFromType(el, d, a.name, f).value.value;
        MatchingFromErr(a, i + 1, next, dataTypes, f);
        if !Succeeds(MatchingFrom(a, i + 1, next, dataTypes, f)) {
          MatchingErrShift(a, el, next, d, rest, MatchingFrom(a, i + 1, next, dataTypes, f), f);
        }
      } else {
        var m := [d] + rest;
        assert m[0] == d && m[..0] == [];
      }
    }
  }

  /** A failing data type fails the same way whatever element it would extend. */
  lemma ErrorIgnoresElement(el1: Element, el2: Element, t: TypeGenerator, name: string, f: Faker)
    ensures !Succeeds(AttributeFromType(el1, t, name, f)) ==> AttributeFromType(el1, t, name, f) == AttributeFromType(el2, t, name, f)
  {
  }

  /** The witness for the data types after a matching type that succeeded, shifted past it. */
  lemma MatchingErrShift(a: AttributeGenerator, el: Element, next: Element, d: TypeGenerator, rest: seq<TypeGenerator>, e: Attempt, f: Faker)
    requires AttributeTypeOk(d, f) && !Succeeds(e)
    requires exists j :: 0 <= j < |rest| && AttributeFromType(next, rest[j], a.name, f) == e && AllAttributeTypesOk(rest[..j], f)
    ensures exists j ::
      0 <= j < |[d] + rest| && AttributeFromType(el, ([d] + rest)[j], a.name, f) == e && AllAttributeTypesOk(([d] + rest)[..j], f)
  {
    var m := [d] + rest;
    var j :| 0 <= j < |rest| && AttributeFromType(next, rest[j], a.name, f) == e && AllAttributeTypesOk(rest[..j], f);
    ErrorIgnoresElement(next, el, rest[j], a.name, f);
    assert m[j + 1] == rest[j];
    assert m[..j + 1] == [d] + rest[..j];
    AllAttributeTypesOkCons(d, rest[..j], f);
  }

  /** An attribute of a user-defined type is added once for every data type of that name,
      valued from that type, in the order of the data types: none when no type matches,
      several when several do. It fails exactly when one of those types cannot give a
      value, with the error or panic of the first such type. */
  lemma AttributeGenerateFromDataTypes(a: AttributeGenerator, el: Element, dataTypes: seq<TypeGenerator>, f: Faker)
    requires a.name != "" && a.typeName != "" && a.attributeType != Prohibited
    requires a.typeName !in BuiltinTypeNames
    ensures Succeeds(AttributeGenerate(a, el, dataTypes, f)) <==>
      AllAttributeTypesOk(Matching(dataTypes, a.typeName), f)
    ensures Succeeds(AttributeGenerate(a, el, dataTypes, f)) ==>
      AttributeGenerate(a, el, dataTypes, f).value.value ==
        el.(attributes := el.attributes + TypePairs(a.name, f, Matching(dataTypes, a.typeName)))
    ensures var m := Matching(dataTypes, a.typeName);
      !Succeeds(AttributeGenerate(a, el, dataTypes, f)) ==>
        exists j :: 0 <= j < |m| && AttributeFromType(el, m[j], a.name, f) == AttributeGenerate(a, el, dataTypes, f) &&
          AllAttributeTypesOk(m[..j], f)
    ensures Matching(dataTypes, a.typeName) == [] ==> AttributeGenerate(a, el, dataTypes, f) == Built(Ok(el))
  {
    assert dataTypes[0..] == dataTypes;
    MatchingFromOk(a, 0, el, dataTypes, f);
    MatchingFromErr(a, 0, el, dataTypes, f);
    assert el.(attributes := el.attributes + []) == el;
  }

  /** Attributes only ever go onto the element: its name, texts and children are kept, and
      every attribute added carries the declaration's name. */
  lemma AttributeGenerateOnlyAddsAttributes(a: AttributeGenerator, el: Element, dataTypes: seq<TypeGenerator>, f: Faker)
    ensures Succeeds(AttributeGenerate(a, el, dataTypes, f)) ==>
      var r := AttributeGenerate(a, el, dataTypes, f).value.value;
      r.name == el.name && r.texts == el.texts && r.children == el.children &&
      |r.attributes| >= |el.attributes| && r.attributes[..|el.attributes|] == el.attributes &&
      forall k :: |el.attributes| <= k < |r.attributes| ==> r.attributes[k].0 == a.name
  {
    if a.name != "" && a.typeName != "" && a.attributeType != Prohibited && a.typeName !in BuiltinTypeNames {
      AttributeGenerateFromDataTypes(a, el, dataTypes, f);
      if Succeeds(AttributeGenerate(a, el, dataTypes, f)) {
        var r := AttributeGenerate(a, el, dataTypes, f).value.value;
        assert r.attributes[..|el.attributes|] == el.attributes;
      }
    } else if Succeeds(AttributeGenerate(a, el, dataTypes, f)) {
      var r := AttributeGenerate(a, el, dataTypes, f).value.value;
      assert r.attributes[..|el.attributes|] == el.attributes;
    }
  }

  /** `PartialEq for AttributeGenerator` compares every field, so it is equality. */
  lemma AttributeGeneratorEqIsEquality(a: AttributeGenerator, b: AttributeGenerator)
    ensures AttributeGeneratorEq(a, b) <==> a == b
  {
  }
}
