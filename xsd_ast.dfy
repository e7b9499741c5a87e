/** The part of the xsd_parser syntax tree that fetch_types.rs and fetch_elements.rs
    match on. Every variant they distinguish is here; payloads are kept only where the
    translation reads them, and an optional field the translation only tests for
    presence is a `bool`. */
module XsdAst {
  import opened Wrappers
  import opened Records

  /** A qualified name; the translation keeps only the local part. */
  datatype QName = QName(prefix: Option<string>, localName: string)

  datatype MaxOccurs = Unbounded | Bounded(bound: nat)

  datatype FacetType = FacetType(fixed: bool, hasAnnotation: bool, value: string)

  datatype FacetKind =
    | MinExclusive | MinInclusive | MaxExclusive | MaxInclusive
    | TotalDigits | FractionDigits | Length | MinLength | MaxLength
    | Enumeration | WhiteSpace | Pattern | ExplicitTimezone

  /** A facet: every kind but assertions carries a `FacetType`. */
  datatype Facet = ValueFacet(kind: FacetKind, facet: FacetType) | Assertion

  datatype RestrictionContent =
    | RestrictionAnnotation
    | RestrictionSimpleType
    | RestrictionFacet(facet: Facet)

  datatype Restriction = Restriction(base: Option<QName>, content: seq<RestrictionContent>)

  datatype SimpleBaseTypeContent =
    | SimpleAnnotation
    | SimpleRestriction(restriction: Restriction)
    | SimpleList
    | SimpleUnion

  datatype SimpleBaseType = SimpleBaseType(name: Option<string>, hasFinal: bool, content: seq<SimpleBaseTypeContent>)

  datatype AttributeType = AttributeType(
    name: Option<string>,
    reference: Option<QName>,
    typeName: Option<QName>,
    use: AttributeUseType,
    hasDefault: bool,
    hasFixed: bool,
    hasForm: bool,
    hasTargetNamespace: bool,
    hasInheritable: bool,
    hasAnnotation: bool,
    hasSimpleType: bool)

  /** An element declaration together with the nested types it contains. */
  datatype ElementType = ElementType(
    name: Option<string>,
    reference: Option<QName>,
    typeName: Option<QName>,
    hasSubstitutionGroup: bool,
    minOccurs: nat,
    maxOccurs: MaxOccurs,
    hasDefault: bool,
    hasFixed: bool,
    hasNillable: bool,
    isAbstract: bool,
    hasFinal: bool,
    hasBlock: bool,
    hasForm: bool,
    hasTargetNamespace: bool,
    content: seq<ElementTypeContent>)

  datatype ElementTypeContent =
    | ElementAnnotation
    | ElementSimpleType(simple: SimpleBaseType)
    | ElementComplexType(complex: ComplexBaseType)
    | Alternative
    | Unique
    | Key
    | Keyref

  /** A group, all, choice or sequence particle. */
  datatype GroupType = GroupType(
    name: Option<string>,
    reference: Option<QName>,
    minOccurs: nat,
    maxOccurs: MaxOccurs,
    content: seq<GroupTypeContent>)

  datatype GroupTypeContent =
    | GroupAnnotation
    | GroupElement(element: ElementType)
    | NestedGroup
    | NestedAll
    | NestedChoice
    | NestedSequence
    | AnyElement

  datatype ComplexBaseType = ComplexBaseType(
    name: Option<string>,
    hasMixed: bool,
    isAbstract: bool,
    hasFinal: bool,
    hasBlock: bool,
    defaultAttributesApply: bool,
    content: seq<ComplexBaseTypeContent>)

  datatype ComplexBaseTypeContent =
    | ComplexAnnotation
    | SimpleContent
    | ComplexContent
    | OpenContent
    | GroupParticle(group: GroupType)
    | AllParticle(group: GroupType)
    | ChoiceParticle(group: GroupType)
    | SequenceParticle(group: GroupType)
    | AttributeDecl(attribute: AttributeType)
    | AttributeGroupRef
    | AnyAttribute
    | Assert

  /** A top-level item of a schema. */
  datatype SchemaContent =
    | Include
    | Import
    | Redefine
    | Override
    | SchemaAnnotation
    | DefaultOpenContent
    | TopSimpleType(simple: SimpleBaseType)
    | TopComplexType(complex: ComplexBaseType)
    | TopGroup
    | TopAttributeGroup
    | TopElement(element: ElementType)
    | TopAttribute
    | Notation

  datatype Schema = Schema(content: seq<SchemaContent>)

  /** The top-level items of every schema, schema after schema. */
  function AllContents(schemas: seq<Schema>): seq<SchemaContent> {
    if schemas == [] then [] else schemas[0].content + AllContents(schemas[1..])
  }

  /** The particles of a complex type that become groups. */
  predicate IsParticle(c: ComplexBaseTypeContent) {
    c.GroupParticle? || c.AllParticle? || c.ChoiceParticle? || c.SequenceParticle?
  }

  /** The message of the `unimplemented!` a complex type item other than a particle or an
      attribute stops with; the same in `get_complex_group` and `get_complex_attributes`. */
  function UnsupportedComplexItem(c: ComplexBaseTypeContent): string {
    match c
    case ComplexAnnotation => "Annotation"
    case SimpleContent => "SimpleContent"
    case ComplexContent => "ComplexContent"
    case OpenContent => "OpenContent"
    case AttributeGroupRef => "AttributeGroup"
    case AnyAttribute => "AnyAttribute"
    case Assert => "Assert"
    case _ => ""
  }

  /** The message of the `unimplemented!` a top-level item other than a type or an element
      stops with; the same in `fetch_type` and `fetch_element`. */
  function UnsupportedSchemaItem(c: SchemaContent): string {
    match c
    case Include => "Include"
    case Import => "Import"
    case Redefine => "Redefine"
    case Override => "Override"
    case SchemaAnnotation => "Annotation"
    case DefaultOpenContent => "DefaultOpenContent"
    case TopGroup => "Top-level group not supported"
    case TopAttributeGroup => "AttributeGroup"
    case TopAttribute => "Attribute"
    case Notation => "Notation"
    case _ => ""
  }
}
