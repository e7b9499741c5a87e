/** fetch_types.rs: translating the parsed schema into generator records. The pure
    dispatchers are functions; every builder that fills a fresh record in a loop is a
    method proved to compute the function that specifies it. Each `unimplemented!` and
    `panic!` is a `Panic` carrying the macro's message. */
module FetchTypes {
  import opened Wrappers
  import opened Records
  import opened XsdAst
  import opened Collect

  /** `get_qname`: the local part of a qualified name. */
  function QNameText(q: QName): string {
    q.localName
  }

  function QNameTextOf(q: Option<QName>): Option<string> {
    if q.Some? then Some(QNameText(q.value)) else None
  }

  /** The `match` on `max_occurs` shared by `get_element_type` and `get_group`. */
  function MaxOf(m: MaxOccurs): (r: Option<nat>)
    ensures r.None? <==> m.Unbounded?
    ensures m.Bounded? ==> r == Some(m.bound)
  {
    match m
    case Unbounded => None
    case Bounded(x) => Some(x)
  }

  // ----- Facets and restrictions ---------------------------------------------------------

  /** `get_facet_type`. */
  function FacetValue(f: FacetType): Fallible<string> {
    if f.fixed then Panic("Fixed facet type")
    else if f.hasAnnotation then Panic("Annotation")
    else Built(f.value)
  }

  /** `get_facet`. */
  function FacetOf(f: Facet): Fallible<string> {
    match f
    case ValueFacet(_, x) => FacetValue(x)
    case Assertion => Panic("Assertion")
  }

  /** `get_restriction_content`. */
  function RestrictionContentOf(c: RestrictionContent): Fallible<string> {
    match c
    case RestrictionAnnotation => Panic("Annotation")
    case RestrictionSimpleType => Panic("SimpleType")
    case RestrictionFacet(x) => FacetOf(x)
  }

  /** `get_restriction`: the base's local name (empty without a base) and every facet. */
  function RestrictionOf(r: Restriction): Fallible<RestrictionInfo> {
    match CollectAll(r.content, RestrictionContentOf)
    case Panic(m) => Panic(m)
    case Built(facets) => Built(NewRestrictionInfo().(name := if r.base.Some? then QNameText(r.base.value) else "", facets := facets))
  }

  method GetRestriction(r: Restriction) returns (res: Fallible<RestrictionInfo>)
    ensures res == RestrictionOf(r)
  {
    var info := NewRestrictionInfo();
    if r.base.Some? {
      info := info.(name := QNameText(r.base.value));
    }
    for i := 0 to |r.content|
      invariant CollectAll(r.content, RestrictionContentOf) == CollectFrom(r.content, RestrictionContentOf, i, info.facets)
      invariant info.name == (if r.base.Some? then QNameText(r.base.value) else "")
    {
      var facet := RestrictionContentOf(r.content[i]);
      if facet.Panic? {
        return Panic(facet.message);
      }
      info := info.(facets := info.facets + [facet.value]);
    }
    return Built(info);
  }

  /** `get_content_restriction`. */
  function ContentRestrictionOf(c: SimpleBaseTypeContent): Fallible<RestrictionInfo> {
    match c
    case SimpleAnnotation => Panic("Annotation")
    case SimpleRestriction(x) => RestrictionOf(x)
    case SimpleList => Panic("List")
    case SimpleUnion => Panic("Union")
  }

  method GetContentRestriction(c: SimpleBaseTypeContent) returns (res: Fallible<RestrictionInfo>)
    ensures res == ContentRestrictionOf(c)
  {
    match c
    case SimpleAnnotation => res := Panic("Annotation");
    case SimpleRestriction(x) => res := GetRestriction(x);
    case SimpleList => res := Panic("List");
    case SimpleUnion => res := Panic("Union");
  }

  /** Each restriction's base name followed by its facets, restriction after restriction. */
  function RestrictionTexts(rs: seq<RestrictionInfo>): seq<string> {
    if rs == [] then []
    else RestrictionTexts(rs[..|rs| - 1]) + [rs[|rs| - 1].name] + rs[|rs| - 1].facets
  }

  // ----- Simple types --------------------------------------------------------------------

  /** `get_simple_type`: a named type whose `type_info` is "string" when it has no
      restriction, and the restrictions' texts otherwise. */
  function SimpleTypeOf(s: SimpleBaseType): Fallible<TypeGenerator> {
    var name := if s.name.Some? then s.name.value else "";
    if name == "" then Panic("Empty type")
    else if s.hasFinal then Panic("Final")
    else
      match CollectAll(s.content, ContentRestrictionOf)
      case Panic(m) => Panic(m)
      case Built(rs) =>
        Built(NewTypeGenerator().(name := name, typeInfo := if rs == [] then ["string"] else RestrictionTexts(rs)))
  }

  method GetSimpleType(s: SimpleBaseType) returns (res: Fallible<TypeGenerator>)
    ensures res == SimpleTypeOf(s)
  {
    var generator := NewTypeGenerator();
    generator := generator.(name := if s.name.Some? then s.name.value else "");
    if generator.name == "" {
      return Panic("Empty type");
    }
    if s.hasFinal {
      return Panic("Final");
    }
    var restrictions: seq<RestrictionInfo> := [];
    for i := 0 to |s.content|
      invariant CollectAll(s.content, ContentRestrictionOf) == CollectFrom(s.content, ContentRestrictionOf, i, restrictions)
    {
      var restriction := GetContentRestriction(s.content[i]);
      if restriction.Panic? {
        return Panic(restriction.message);
      }
      restrictions := restrictions + [restriction.value];
    }
    if |restrictions| == 0 {
      assert restrictions == [];
      generator := generator.(typeInfo := generator.typeInfo + ["string"]);
      assert generator.typeInfo == ["string"];
      return Built(generator);
    }
    for i := 0 to |restrictions|
      invariant generator == NewTypeGenerator().(name := s.name.value, typeInfo := RestrictionTexts(restrictions[..i]))
    {
      generator := generator.(typeInfo := generator.typeInfo + [restrictions[i].name]);
      for k := 0 to |restrictions[i].facets|
        invariant generator == NewTypeGenerator().(name := s.name.value,
          typeInfo := RestrictionTexts(restrictions[..i]) + [restrictions[i].name] + restrictions[i].facets[..k])
      {
        assert restrictions[i].facets[..k + 1] == restrictions[i].facets[..k] + [restrictions[i].facets[k]];
        generator := generator.(typeInfo := generator.typeInfo + [restrictions[i].facets[k]]);
      }
      assert restrictions[..i + 1][..i] == restrictions[..i];
      assert restrictions[i].facets[..|restrictions[i].facets|] == restrictions[i].facets;
    }
    assert restrictions[..|restrictions|] == restrictions;
    return Built(generator);
  }

  // ----- Attributes ----------------------------------------------------------------------

  /** The first unsupported feature of an attribute declaration, in the order
      `get_attribute` tests them. */
  function AttributeUnsupported(a: AttributeType): Option<string> {
    if a.hasDefault then Some("Default attribute")
    else if a.hasFixed then Some("Fixed attribute")
    else if a.hasForm then Some("Form attribute")
    else if a.hasTargetNamespace then Some("Target namespace attribute")
    else if a.hasInheritable then Some("Inheritable attribute")
    else if a.hasAnnotation then Some("Annotation")
    else if a.hasSimpleType then Some("Simple type attribute")
    else None
  }

  /** `get_attribute`: name (empty when absent), reference, type name and use. */
  function AttributeOf(a: AttributeType): Fallible<AttributeInfo> {
    match AttributeUnsupported(a)
    case Some(m) => Panic(m)
    case None =>
      Built(NewAttributeInfo().(
        name := if a.name.Some? then a.name.value else "",
        refName := QNameTextOf(a.reference),
        typeName := QNameTextOf(a.typeName),
        attributeType := a.use))
  }

  /** `get_complex_attributes`. */
  function ComplexAttributeOf(c: ComplexBaseTypeContent): Fallible<Option<AttributeInfo>> {
    if IsParticle(c) then Built(None)
    else if c.AttributeDecl? then MapSome(AttributeOf(c.attribute))
    else Panic(UnsupportedComplexItem(c))
  }

  // ----- Elements, complex types and groups ----------------------------------------------

  /** What `get_element_type` records before it reads the nested types. */
  function ElementHeader(e: ElementType): ElementGenerator {
    NewElementGenerator().(
      name := e.name,
      reference := QNameTextOf(e.reference),
      typeInfo := QNameTextOf(e.typeName),
      min := e.minOccurs,
      max := MaxOf(e.maxOccurs))
  }

  /** The first reason `get_element_type` stops before the nested types, in its order. */
  function ElementUnsupported(e: ElementType): Option<string> {
    if e.reference.Some? && e.name.Some? then Some("Name already defined.")
    else if e.hasSubstitutionGroup then Some("Element Substitution Groups")
    else if e.hasDefault then Some("Default Element")
    else if e.hasFixed then Some("Fixed elements")
    else if e.hasNillable then Some("Nillable elements")
    else if e.isAbstract then Some("Abstract elements")
    else if e.hasFinal then Some("Final elements")
    else if e.hasBlock then Some("Block elements")
    else if e.hasForm then Some("Form elements")
    else if e.hasTargetNamespace then Some("Namespace elements")
    else None
  }

  /** `get_element_type`. */
  function ElementTypeOf(e: ElementType): Fallible<ElementGenerator>
    decreases e, 1
  {
    match ElementUnsupported(e)
    case Some(m) => Panic(m)
    case None => ElementContentsFrom(e, 0, ElementHeader(e))
  }

  /** The loop of `get_element_type` over the nested types. */
  function ElementContentsFrom(e: ElementType, i: nat, g: ElementGenerator): Fallible<ElementGenerator>
    requires i <= |e.content|
    decreases e, 0, |e.content| - i
  {
    if i == |e.content| then Built(g)
    else
      match ElementContentOf(e.content[i])
      case Panic(m) => Panic(m)
      case Built(t) => ElementContentsFrom(e, i + 1, g.(contents := g.contents + [t]))
  }

  /** `get_element_content`. */
  function ElementContentOf(c: ElementTypeContent): Fallible<TypeGenerator>
    decreases c, 1
  {
    match c
    case ElementAnnotation => Panic("Annotation")
    case ElementSimpleType(x) => SimpleTypeOf(x)
    case ElementComplexType(x) => ComplexTypeOf(x)
    case Alternative => Panic("Alternative")
    case Unique => Panic("Unique")
    case Key => Panic("Key")
    case Keyref => Panic("Keyref")
  }

  /** The first reason `get_complex_type` stops before its items, in its order. */
  function ComplexUnsupported(x: ComplexBaseType): Option<string> {
    if x.hasMixed then Some("Mixed types")
    else if x.isAbstract then Some("Abstract types")
    else if x.hasFinal then Some("Final types")
    else if x.hasBlock then Some("Block types")
    else if !x.defaultAttributesApply then Some("Non-default attributes")
    else None
  }

  /** `get_complex_type`. */
  function ComplexTypeOf(x: ComplexBaseType): Fallible<TypeGenerator>
    decreases x, 1
  {
    match ComplexUnsupported(x)
    case Some(m) => Panic(m)
    case None => ComplexContentsFrom(x, 0, NewTypeGenerator().(name := if x.name.Some? then x.name.value else ""))
  }

  /** The loop of `get_complex_type`: each item is offered to `get_complex_group`, then to
      `get_complex_attributes`. */
  function ComplexContentsFrom(x: ComplexBaseType, i: nat, t: TypeGenerator): Fallible<TypeGenerator>
    requires i <= |x.content|
    decreases x, 0, |x.content| - i
  {
    if i == |x.content| then Built(t)
    else
      match ComplexGroupOf(x.content[i])
      case Panic(m) => Panic(m)
      case Built(group) =>
        var t' := if group.Some? then t.(groups := t.groups + [group.value]) else t;
        match ComplexAttributeOf(x.content[i])
        case Panic(m) => Panic(m)
        case Built(attribute) =>
          ComplexContentsFrom(x, i + 1, if attribute.Some? then t'.(attributes := t'.attributes + [attribute.value]) else t')
  }

  /** `get_complex_group`. */
  function ComplexGroupOf(c: ComplexBaseTypeContent): Fallible<Option<GroupInfo>>
    decreases c, 1
  {
    if IsParticle(c) then MapSome(GroupOf(c.group))
    else if c.AttributeDecl? then Built(None)
    else Panic(UnsupportedComplexItem(c))
  }

  /** The first reason `get_group` stops before its items. */
  function GroupUnsupported(g: GroupType): Option<string> {
    if g.name.Some? then Some("Named groups")
    else if g.reference.Some? then Some("Group references")
    else None
  }

  /** `get_group`. */
  function GroupOf(g: GroupType): Fallible<GroupInfo>
    decreases g, 1
  {
    match GroupUnsupported(g)
    case Some(m) => Panic(m)
    case None => GroupContentsFrom(g, 0, NewGroupInfo().(min := g.minOccurs, max := MaxOf(g.maxOccurs)))
  }

  /** The loop of `get_group` over its items. */
  function GroupContentsFrom(g: GroupType, i: nat, info: GroupInfo): Fallible<GroupInfo>
    requires i <= |g.content|
    decreases g, 0, |g.content| - i
  {
    if i == |g.content| then Built(info)
    else
      match GroupContentOf(g.content[i])
      case Panic(m) => Panic(m)
      case Built(e) => GroupContentsFrom(g, i + 1, info.(elements := info.elements + [e]))
  }

  /** `get_group_content`: only element declarations are supported inside a group. */
  function GroupContentOf(c: GroupTypeContent): Fallible<ElementGenerator>
    decreases c, 1
  {
    match c
    case GroupAnnotation => Panic("Annotation")
    case GroupElement(x) => ElementTypeOf(x)
    case NestedGroup => Panic("Embedded groups")
    case NestedAll => Panic("Embedded groups")
    case NestedChoice => Panic("Embedded groups")
    case NestedSequence => Panic("Embedded groups")
    case AnyElement => Panic("Any")
  }

  // ----- The builders as the source writes them ------------------------------------------

  method GetElementType(e: ElementType) returns (res: Fallible<ElementGenerator>)
    ensures res == ElementTypeOf(e)
    decreases e, 1
  {
    var generator := NewElementGenerator();
    generator := generator.(name := e.name);
    if e.reference.Some? {
      if generator.name.Some? {
        return Panic("Name already defined.");
      }
      generator := generator.(reference := Some(QNameText(e.reference.value)));
    }
    if e.typeName.Some? {
      generator := generator.(typeInfo := Some(QNameText(e.typeName.value)));
    }
    if e.hasSubstitutionGroup {
      return Panic("Element Substitution Groups");
    }
    generator := generator.(min := e.minOccurs);
    generator := generator.(max := match e.maxOccurs case Unbounded => None case Bounded(x) => Some(x));
    if e.hasDefault {
      return Panic("Default Element");
    }
    if e.hasFixed {
      return Panic("Fixed elements");
    }
    if e.hasNillable {
      return Panic("Nillable elements");
    }
    if e.isAbstract {
      return Panic("Abstract elements");
    }
    if e.hasFinal {
      return Panic("Final elements");
    }
    if e.hasBlock {
      return Panic("Block elements");
    }
    if e.hasForm {
      return Panic("Form elements");
    }
    if e.hasTargetNamespace {
      return Panic("Namespace elements");
    }
    assert generator == ElementHeader(e);
    res := GetElementContents(e, generator);
  }

  /** The loop of `get_element_type` over the nested types, pushing each translation. */
  method GetElementContents(e: ElementType, header: ElementGenerator) returns (res: Fallible<ElementGenerator>)
    ensures res == ElementContentsFrom(e, 0, header)
    decreases e, 0
  {
    var generator := header;
    for i := 0 to |e.content|
      invariant ElementContentsFrom(e, 0, header) == ElementContentsFrom(e, i, generator)
    {
      var result := GetElementContent(e.content[i]);
      if result.Panic? {
        return Panic(result.message);
      }
      generator := generator.(contents := generator.contents + [result.value]);
    }
    return Built(generator);
  }

  method GetElementContent(c: ElementTypeContent) returns (res: Fallible<TypeGenerator>)
    ensures res == ElementContentOf(c)
    decreases c, 1
  {
    match c
    case ElementAnnotation => res := Panic("Annotation");
    case ElementSimpleType(x) => res := GetSimpleType(x);
    case ElementComplexType(x) => res := GetComplexType(x);
    case Alternative => res := Panic("Alternative");
    case Unique => res := Panic("Unique");
    case Key => res := Panic("Key");
    case Keyref => res := Panic("Keyref");
  }

  method GetComplexType(x: ComplexBaseType) returns (res: Fallible<TypeGenerator>)
    ensures res == ComplexTypeOf(x)
    decreases x, 1
  {
    var generator := NewTypeGenerator();
    generator := generator.(name := if x.name.Some? then x.name.value else "");
    if x.hasMixed {
      return Panic("Mixed types");
    }
    if x.isAbstract {
      return Panic("Abstract types");
    }
    if x.hasFinal {
      return Panic("Final types");
    }
    if x.hasBlock {
      return Panic("Block types");
    }
    if !x.defaultAttributesApply {
      return Panic("Non-default attributes");
    }
    for i := 0 to |x.content|
      invariant ComplexTypeOf(x) == ComplexContentsFrom(x, i, generator)
    {
      var group := GetComplexGroup(x.content[i]);
      if group.Panic? {
        return Panic(group.message);
      }
      if group.value.Some? {
        generator := generator.(groups := generator.groups + [group.value.value]);
      }
      var attribute := ComplexAttributeOf(x.content[i]);
      if attribute.Panic? {
        return Panic(attribute.message);
      }
      if attribute.value.Some? {
        generator := generator.(attributes := generator.attributes + [attribute.value.value]);
      }
    }
    return Built(generator);
  }

  method GetComplexGroup(c: ComplexBaseTypeContent) returns (res: Fallible<Option<GroupInfo>>)
    ensures res == ComplexGroupOf(c)
    decreases c, 1
  {
    if IsParticle(c) {
      var group := GetGroup(c.group);
      res := if group.Panic? then Panic(group.message) else Built(Some(group.value));
    } else if c.AttributeDecl? {
      res := Built(None);
    } else {
      res := Panic(UnsupportedComplexItem(c));
    }
  }

  method GetGroup(g: GroupType) returns (res: Fallible<GroupInfo>)
    ensures res == GroupOf(g)
    decreases g, 1
  {
    var info := NewGroupInfo();
    if g.name.Some? {
      return Panic("Named groups");
    }
    if g.reference.Some? {
      return Panic("Group references");
    }
    info := info.(min := g.minOccurs);
    info := info.(max := match g.maxOccurs case Unbounded => None case Bounded(x) => Some(x));
    for i := 0 to |g.content|
      invariant GroupOf(g) == GroupContentsFrom(g, i, info)
    {
      var element := GetGroupContent(g.content[i]);
      if element.Panic? {
        return Panic(element.message);
      }
      info := info.(elements := info.elements + [element.value]);
    }
    return Built(info);
  }

  method GetGroupContent(c: GroupTypeContent) returns (res: Fallible<ElementGenerator>)
    ensures res == GroupContentOf(c)
    decreases c, 1
  {
    match c
    case GroupAnnotation => res := Panic("Annotation");
    case GroupElement(x) => res := GetElementType(x);
    case NestedGroup => res := Panic("Embedded groups");
    case NestedAll => res := Panic("Embedded groups");
    case NestedChoice => res := Panic("Embedded groups");
    case NestedSequence => res := Panic("Embedded groups");
    case AnyElement => res := Panic("Any");
  }

  // ----- fetch_types ---------------------------------------------------------------------

  /** `fetch_type`: top-level simple and complex types are translated, elements skipped. */
  function FetchType(c: SchemaContent): Fallible<Option<TypeGenerator>> {
    match c
    case TopSimpleType(x) => MapSome(SimpleTypeOf(x))
    case TopComplexType(x) => MapSome(ComplexTypeOf(x))
    case TopElement(_) => Built(None)
    case _ => Panic(UnsupportedSchemaItem(c))
  }

  method FetchTypeOf(c: SchemaContent) returns (res: Fallible<Option<TypeGenerator>>)
    ensures res == FetchType(c)
  {
    match c
    case TopSimpleType(x) =>
      var t := GetSimpleType(x);
      res := if t.Panic? then Panic(t.message) else Built(Some(t.value));
    case TopComplexType(x) =>
      var t := GetComplexType(x);
      res := if t.Panic? then Panic(t.message) else Built(Some(t.value));
    case TopElement(_) => res := Built(None);
    case _ => res := Panic(UnsupportedSchemaItem(c));
  }

  /** The outer loop of `fetch_types`, schema after schema. */
  function FetchTypesFrom(schemas: seq<Schema>, s: nat, acc: seq<TypeGenerator>): Fallible<seq<TypeGenerator>>
    requires s <= |schemas|
    decreases |schemas| - s
  {
    if s == |schemas| then Built(acc)
    else
      match CollectSomeFrom(schemas[s].content, FetchType, 0, acc)
      case Panic(m) => Panic(m)
      case Built(next) => FetchTypesFrom(schemas, s + 1, next)
  }

  function FetchTypes(schemas: seq<Schema>): Fallible<seq<TypeGenerator>> {
    FetchTypesFrom(schemas, 0, [])
  }

  method FetchTypesOf(schemas: seq<Schema>) returns (res: Fallible<seq<TypeGenerator>>)
    ensures res == FetchTypes(schemas)
  {
    var types: seq<TypeGenerator> := [];
    for s := 0 to |schemas|
      invariant FetchTypes(schemas) == FetchTypesFrom(schemas, s, types)
    {
      ghost var start := types;
      for i := 0 to |schemas[s].content|
        invariant CollectSomeFrom(schemas[s].content, FetchType, 0, start) ==
          CollectSomeFrom(schemas[s].content, FetchType, i, types)
      {
        var dataType := FetchTypeOf(schemas[s].content[i]);
        if dataType.Panic? {
          return Panic(dataType.message);
        }
        if dataType.value.Some? {
          types := types + [dataType.value.value];
        }
      }
    }
    return Built(types);
  }
}
