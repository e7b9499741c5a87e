/** The records the XSD-driven generator works on (element_generator.rs,
    type_generator.rs, attribute_generator.rs, group.rs, restriction.rs, error.rs),
    with their `new` constructors, `get_name` and their hand-written `PartialEq`. */
module Records {
  import opened Wrappers

  /** `XMLGeneratorError`: every failure carries a message. */
  datatype XmlGeneratorError =
    | DataTypeError(message: string)
    | XsdParserError(message: string)
    | DataTypesFormatError(message: string)
    | XmlBuilderError(message: string)

  /** `Result<T, XMLGeneratorError>`. */
  datatype Result<+T> = Ok(value: T) | Err(error: XmlGeneratorError)

  /** The `use` of an attribute declaration. */
  datatype AttributeUseType = Prohibited | Optional | Required

  /** What fetch_types.rs records about an attribute declaration. */
  datatype AttributeInfo = AttributeInfo(
    name: string,
    refName: Option<string>,
    typeName: Option<string>,
    attributeType: AttributeUseType)

  /** An element declaration: named or a reference, typed by name or by nested types. */
  datatype ElementGenerator = ElementGenerator(
    name: Option<string>,
    contents: seq<TypeGenerator>,
    typeInfo: Option<string>,
    reference: Option<string>,
    min: nat,
    max: Option<nat>)

  /** A simple or complex type: `typeInfo` holds a restriction base followed by its facets. */
  datatype TypeGenerator = TypeGenerator(
    name: string,
    typeInfo: seq<string>,
    elements: seq<ElementGenerator>,
    groups: seq<GroupInfo>,
    attributes: seq<AttributeInfo>,
    min: nat,
    max: Option<nat>)

  /** A sequence, choice, all or group particle of a complex type. */
  datatype GroupInfo = GroupInfo(elements: seq<ElementGenerator>, min: nat, max: Option<nat>)

  /** A restriction: its base type name and its facet values in document order. */
  datatype RestrictionInfo = RestrictionInfo(name: string, facets: seq<string>)

  /** An attribute to be emitted onto an element. */
  datatype AttributeGenerator = AttributeGenerator(
    name: string,
    attributeType: AttributeUseType,
    typeName: string)

  /** `ElementGenerator::new`. */
  function NewElementGenerator(): (g: ElementGenerator)
    ensures g.name.None? && g.contents == [] && g.typeInfo.None? && g.reference.None?
    ensures g.min == 1 && g.max.None?
  {
    ElementGenerator(None, [], None, None, 1, None)
  }

  /** `TypeGenerator::new`. */
  function NewTypeGenerator(): (t: TypeGenerator)
    ensures t.name == "" && t.typeInfo == [] && t.elements == [] && t.groups == [] && t.attributes == []
    ensures t.min == 1 && t.max.None?
  {
    TypeGenerator("", [], [], [], [], 1, None)
  }

  /** `GroupInfo::new`. */
  function NewGroupInfo(): (g: GroupInfo)
    ensures g.elements == [] && g.min == 0 && g.max.None?
  {
    GroupInfo([], 0, None)
  }

  /** `AttributeInfo::new`; every field is overwritten by fetch_types.rs before use. */
  function NewAttributeInfo(): AttributeInfo {
    AttributeInfo("", None, None, Optional)
  }

  /** `RestrictionInfo::new`. */
  function NewRestrictionInfo(): RestrictionInfo {
    RestrictionInfo("", [])
  }

  /** `AttributeGenerator::new`. */
  function NewAttributeGenerator(): (a: AttributeGenerator)
    ensures a.name == "" && a.typeName == "" && a.attributeType == Required
  {
    AttributeGenerator("", Required, "")
  }

  const NoNameMessage := "Element does not have a name or a reference"

  /** `ElementGenerator::get_name`: the name wins over the reference. */
  function GetName(e: ElementGenerator): (r: Result<string>)
    ensures r.Ok? <==> e.name.Some? || e.reference.Some?
    ensures r.Ok? ==> Some(r.value) == (if e.name.Some? then e.name else e.reference)
    ensures r.Err? ==> r.error == DataTypesFormatError(NoNameMessage)
  {
    if e.name.Some? then Ok(e.name.value)
    else if e.reference.Some? then Ok(e.reference.value)
    else Err(DataTypesFormatError(NoNameMessage))
  }

  /** The elements of every group, group after group. */
  function GroupMembers(groups: seq<GroupInfo>): seq<ElementGenerator> {
    if groups == [] then [] else groups[0].elements + GroupMembers(groups[1..])
  }

  /** The direct elements of a type followed by its groups' elements: the order in which
      both type_generator.rs and find_root.rs visit them. */
  function AllMembers(t: TypeGenerator): seq<ElementGenerator> {
    t.elements + GroupMembers(t.groups)
  }

  /** The members of every content of an element, content after content. */
  function ContentMembers(contents: seq<TypeGenerator>): seq<ElementGenerator> {
    if contents == [] then [] else AllMembers(contents[0]) + ContentMembers(contents[1..])
  }

  // ----- PartialEq ------------------------------------------------------------------

  /** `PartialEq for ElementGenerator`: name, type and contents; not reference, min, max. */
  predicate ElementEq(a: ElementGenerator, b: ElementGenerator)
    decreases a
  {
    a.name == b.name && a.typeInfo == b.typeInfo && |a.contents| == |b.contents| &&
    forall i :: 0 <= i < |a.contents| ==> TypeEq(a.contents[i], b.contents[i])
  }

  /** `PartialEq for TypeGenerator`: all seven fields. */
  predicate TypeEq(a: TypeGenerator, b: TypeGenerator)
    decreases a
  {
    a.name == b.name && a.typeInfo == b.typeInfo &&
    |a.elements| == |b.elements| &&
    (forall i :: 0 <= i < |a.elements| ==> ElementEq(a.elements[i], b.elements[i])) &&
    |a.groups| == |b.groups| &&
    (forall i :: 0 <= i < |a.groups| ==> GroupEq(a.groups[i], b.groups[i])) &&
    a.attributes == b.attributes && a.min == b.min && a.max == b.max
  }

  /** `PartialEq for GroupInfo`: elements, min and max. */
  predicate GroupEq(a: GroupInfo, b: GroupInfo)
    decreases a
  {
    |a.elements| == |b.elements| &&
    (forall i :: 0 <= i < |a.elements| ==> ElementEq(a.elements[i], b.elements[i])) &&
    a.min == b.min && a.max == b.max
  }

  /** `PartialEq for AttributeGenerator`: name, type name and use. */
  predicate AttributeGeneratorEq(a: AttributeGenerator, b: AttributeGenerator) {
    a.name == b.name && a.typeName == b.typeName && a.attributeType == b.attributeType
  }

  lemma {:induction false} ElementEqReflexive(a: ElementGenerator)
    ensures ElementEq(a, a)
    decreases a
  {
    forall i | 0 <= i < |a.contents| ensures TypeEq(a.contents[i], a.contents[i]) {
      TypeEqReflexive(a.contents[i]);
    }
  }

  lemma {:induction false} TypeEqReflexive(a: TypeGenerator)
    ensures TypeEq(a, a)
    decreases a
  {
    forall i | 0 <= i < |a.elements| ensures ElementEq(a.elements[i], a.elements[i]) {
      ElementEqReflexive(a.elements[i]);
    }
    forall i | 0 <= i < |a.groups| ensures GroupEq(a.groups[i], a.groups[i]) {
      GroupEqReflexive(a.groups[i]);
    }
  }

  lemma {:induction false} GroupEqReflexive(a: GroupInfo)
    ensures GroupEq(a, a)
    decreases a
  {
    forall i | 0 <= i < |a.elements| ensures ElementEq(a.elements[i], a.elements[i]) {
      ElementEqReflexive(a.elements[i]);
    }
  }

  lemma {:induction false} ElementEqSymmetric(a: ElementGenerator, b: ElementGenerator)
    requires ElementEq(a, b)
    ensures ElementEq(b, a)
    decreases a
  {
    forall i | 0 <= i < |b.contents| ensures TypeEq(b.contents[i], a.contents[i]) {
      TypeEqSymmetric(a.contents[i], b.contents[i]);
    }
  }

  lemma {:induction false} TypeEqSymmetric(a: TypeGenerator, b: TypeGenerator)
    requires TypeEq(a, b)
    ensures TypeEq(b, a)
    decreases a
  {
    forall i | 0 <= i < |b.elements| ensures ElementEq(b.elements[i], a.elements[i]) {
      ElementEqSymmetric(a.elements[i], b.elements[i]);
    }
    forall i | 0 <= i < |b.groups| ensures GroupEq(b.groups[i], a.groups[i]) {
      GroupEqSymmetric(a.groups[i], b.groups[i]);
    }
  }

  lemma {:induction false} GroupEqSymmetric(a: GroupInfo, b: GroupInfo)
    requires GroupEq(a, b)
    ensures GroupEq(b, a)
    decreases a
  {
    forall i | 0 <= i < |b.elements| ensures ElementEq(b.elements[i], a.elements[i]) {
      ElementEqSymmetric(a.elements[i], b.elements[i]);
    }
  }

  lemma {:induction false} ElementEqTransitive(a: ElementGenerator, b: ElementGenerator, c: ElementGenerator)
    requires ElementEq(a, b) && ElementEq(b, c)
    ensures ElementEq(a, c)
    decreases a
  {
    forall i | 0 <= i < |a.contents| ensures TypeEq(a.contents[i], c.contents[i]) {
      TypeEqTransitive(a.contents[i], b.contents[i], c.contents[i]);
    }
  }

  lemma {:induction false} TypeEqTransitive(a: TypeGenerator, b: TypeGenerator, c: TypeGenerator)
    requires TypeEq(a, b) && TypeEq(b, c)
    ensures TypeEq(a, c)
    decreases a
  {
    forall i | 0 <= i < |a.elements| ensures ElementEq(a.elements[i], c.elements[i]) {
      ElementEqTransitive(a.elements[i], b.elements[i], c.elements[i]);
    }
    forall i | 0 <= i < |a.groups| ensures GroupEq(a.groups[i], c.groups[i]) {
      GroupEqTransitive(a.groups[i], b.groups[i], c.groups[i]);
    }
  }

  lemma {:induction false} GroupEqTransitive(a: GroupInfo, b: GroupInfo, c: GroupInfo)
    requires GroupEq(a, b) && GroupEq(b, c)
    ensures GroupEq(a, c)
    decreases a
  {
    forall i | 0 <= i < |a.elements| ensures ElementEq(a.elements[i], c.elements[i]) {
      ElementEqTransitive(a.elements[i], b.elements[i], c.elements[i]);
    }
  }

  /** Element equality looks at name, type and contents only: changing the reference or
      the occurrence bounds keeps an element equal to itself, and equal elements agree
      on name and type. */
  lemma ElementEqIgnoresReferenceAndBounds(e: ElementGenerator, r: Option<string>, lo: nat, hi: Option<nat>)
    ensures ElementEq(e, e.(reference := r, min := lo, max := hi))
    ensures forall f :: ElementEq(e, f) ==> f.name == e.name && f.typeInfo == e.typeInfo
  {
    ElementEqReflexive(e);
  }
}
