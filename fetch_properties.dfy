/** What the translation of fetch_types.rs and fetch_elements.rs produces, stated
    item by item: which declarations it accepts, where each translated part ends up and in
    which order. */
module FetchProperties {
  import opened Wrappers
  import opened Records
  import opened XsdAst
  import opened Collect
  import opened FetchTypes
  import opened FetchElements

  // ----- Restrictions and simple types ----------------------------------------------------

  /** A restriction item the translation accepts: a facet that is neither an assertion,
      fixed, nor annotated. */
  predicate PlainFacet(c: RestrictionContent) {
    c.RestrictionFacet? && c.facet.ValueFacet? && !c.facet.facet.fixed && !c.facet.facet.hasAnnotation
  }

  lemma RestrictionContentAccepts(c: RestrictionContent)
    ensures RestrictionContentOf(c).Built? <==> PlainFacet(c)
    ensures PlainFacet(c) ==> RestrictionContentOf(c) == Built(c.facet.facet.value)
  {
  }

  /** `get_restriction` succeeds exactly when every item is a plain facet, and then keeps the
      base's local name (empty without a base) and every facet value in document order. */
  lemma RestrictionOfSpec(r: Restriction)
    ensures RestrictionOf(r).Built? <==> forall k :: 0 <= k < |r.content| ==> PlainFacet(r.content[k])
    ensures RestrictionOf(r).Built? ==>
      RestrictionOf(r).value.name == (if r.base.Some? then r.base.value.localName else "") &&
      |RestrictionOf(r).value.facets| == |r.content| &&
      forall k :: 0 <= k < |r.content| ==> RestrictionOf(r).value.facets[k] == r.content[k].facet.facet.value
  {
    CollectAllSpec(r.content, RestrictionContentOf);
    forall k | 0 <= k < |r.content| {
      RestrictionContentAccepts(r.content[k]);
    }
  }

  /** A fixed facet stops the translation with "Fixed facet type" once the items before it
      are accepted. */
  lemma FixedFacetPanics(r: Restriction, k: nat)
    requires k < |r.content| && forall j :: 0 <= j < k ==> PlainFacet(r.content[j])
    requires r.content[k].RestrictionFacet? && r.content[k].facet.ValueFacet? && r.content[k].facet.facet.fixed
    ensures RestrictionOf(r) == Panic("Fixed facet type")
  {
    CollectAllSpec(r.content, RestrictionContentOf);
    forall j | 0 <= j < k {
      RestrictionContentAccepts(r.content[j]);
    }
    if CollectAll(r.content, RestrictionContentOf).Panic? {
      var q :| 0 <= q < |r.content| && RestrictionContentOf(r.content[q]) == Panic(CollectAll(r.content, RestrictionContentOf).message) &&
        forall j :: 0 <= j < q ==> RestrictionContentOf(r.content[j]).Built?;
      assert q >= k;
    }
  }

  lemma {:induction false} RestrictionTextsAppend(a: seq<RestrictionInfo>, b: seq<RestrictionInfo>)
    ensures RestrictionTexts(a + b) == RestrictionTexts(a) + RestrictionTexts(b)
    decreases |b|
  {
    if b == [] {
      assert a + b == a;
    } else {
      var n := |b| - 1;
      assert (a + b)[..|a + b| - 1] == a + b[..n];
      assert (a + b)[|a + b| - 1] == b[n];
      RestrictionTextsAppend(a, b[..n]);
    }
  }

  /** The text of a single restriction is its base name followed by its facets. */
  lemma RestrictionTextsSingle(r: RestrictionInfo)
    ensures RestrictionTexts([r]) == [r.name] + r.facets
  {
    assert [r][..0] == [];
  }

  /** `get_simple_type`: an unnamed (or empty-named) type panics with "Empty type";
      otherwise the record has the type's name, no elements, groups or attributes, and
      `type_info` "string" when there is no restriction or the restrictions' base names
      each followed by their facets. */
  lemma SimpleTypeOfSpec(s: SimpleBaseType)
    ensures s.name.None? || s.name == Some("") ==> SimpleTypeOf(s) == Panic("Empty type")
    ensures SimpleTypeOf(s).Built? ==>
      var t := SimpleTypeOf(s).value;
      s.name.Some? && t.name == s.name.value && t.elements == [] && t.groups == [] && t.attributes == []
    ensures SimpleTypeOf(s).Built? && s.content == [] ==> SimpleTypeOf(s).value.typeInfo == ["string"]
    ensures SimpleTypeOf(s).Built? && s.content != [] ==>
      exists rs: seq<RestrictionInfo> ::
        |rs| == |s.content| &&
        (forall k :: 0 <= k < |s.content| ==>
          s.content[k].SimpleRestriction? && RestrictionOf(s.content[k].restriction) == Built(rs[k])) &&
        SimpleTypeOf(s).value.typeInfo == RestrictionTexts(rs)
  {
    CollectAllSpec(s.content, ContentRestrictionOf);
    if SimpleTypeOf(s).Built? && s.content != [] {
      var rs := CollectAll(s.content, ContentRestrictionOf).value;
      assert |rs| == |s.content|;
    }
  }

  // ----- Elements and groups --------------------------------------------------------------

  lemma {:induction false} ElementContentsCollect(e: ElementType, i: nat, g: ElementGenerator)
    requires i <= |e.content|
    ensures ElementContentsFrom(e, i, g) ==
      match CollectFrom(e.content, ElementContentOf, i, g.contents)
      case Panic(m) => Panic(m)
      case Built(cs) => Built(g.(contents := cs))
    decreases |e.content| - i
  {
    if i < |e.content| {
      match ElementContentOf(e.content[i])
      case Panic(m) =>
      case Built(t) => ElementContentsCollect(e, i + 1, g.(contents := g.contents + [t]));
    }
  }

  /** The loop of `get_element_type` is the nested-type loop, started from the element's
      header. */
  lemma ElementOfCollect(e: ElementType)
    requires ElementUnsupported(e).None?
    ensures ElementTypeOf(e) ==
      match CollectAll(e.content, ElementContentOf)
      case Panic(m) => Panic(m)
      case Built(cs) => Built(ElementHeader(e).(contents := cs))
  {
    ElementContentsCollect(e, 0, ElementHeader(e));
  }

  /** `get_element_type`: an element with both a name and a reference panics; otherwise,
      once no unsupported feature is present, the record keeps the name, the local names of
      the reference and of the type, `min_occurs`, and `max_occurs` with unbounded as
      none, and holds the translation of every nested type in order. */
  lemma ElementTypeOfSpec(e: ElementType)
    ensures e.reference.Some? && e.name.Some? ==> ElementTypeOf(e) == Panic("Name already defined.")
    ensures ElementTypeOf(e).Built? <==>
      ElementUnsupported(e).None? && forall k :: 0 <= k < |e.content| ==> ElementContentOf(e.content[k]).Built?
    ensures ElementTypeOf(e).Built? ==>
      var g := ElementTypeOf(e).value;
      g.name == e.name && g.reference == QNameTextOf(e.reference) && g.typeInfo == QNameTextOf(e.typeName) &&
      g.min == e.minOccurs && (g.max.None? <==> e.maxOccurs.Unbounded?) &&
      (e.maxOccurs.Bounded? ==> g.max == Some(e.maxOccurs.bound)) &&
      |g.contents| == |e.content| &&
      forall k :: 0 <= k < |e.content| ==> ElementContentOf(e.content[k]) == Built(g.contents[k])
  {
    if ElementUnsupported(e).None? {
      ElementOfCollect(e);
      CollectAllSpec(e.content, ElementContentOf);
    }
  }

  lemma {:induction false} GroupContentsCollect(g: GroupType, i: nat, info: GroupInfo)
    requires i <= |g.content|
    ensures GroupContentsFrom(g, i, info) ==
      match CollectFrom(g.content, GroupContentOf, i, info.elements)
      case Panic(m) => Panic(m)
      case Built(es) => Built(info.(elements := es))
    decreases |g.content| - i
  {
    if i < |g.content| {
      match GroupContentOf(g.content[i])
      case Panic(m) =>
      case Built(x) => GroupContentsCollect(g, i + 1, info.(elements := info.elements + [x]));
    }
  }

  /** One item of a group: an element declaration translates as an element, anything else
      panics. */
  lemma GroupContentOfSpec(c: GroupTypeContent)
    ensures GroupContentOf(c).Built? <==> c.GroupElement? && ElementTypeOf(c.element).Built?
    ensures c.GroupElement? ==> GroupContentOf(c) == ElementTypeOf(c.element)
  {
  }

  /** The loop of `get_group` is the item loop, started from the group's bounds. */
  lemma GroupOfCollect(g: GroupType)
    requires GroupUnsupported(g).None?
    ensures GroupOf(g) ==
      match CollectAll(g.content, GroupContentOf)
      case Panic(m) => Panic(m)
      case Built(es) => Built(NewGroupInfo().(min := g.minOccurs, max := MaxOf(g.maxOccurs), elements := es))
  {
    GroupContentsCollect(g, 0, NewGroupInfo().(min := g.minOccurs, max := MaxOf(g.maxOccurs)));
  }

  /** `get_group`: named groups and group references panic; otherwise the group keeps
      `min_occurs`, `max_occurs` with unbounded as none, and holds every nested element
      declaration's translation in order; any other nested item panics. */
  lemma GroupOfSpec(g: GroupType)
    ensures g.name.Some? ==> GroupOf(g) == Panic("Named groups")
    ensures g.name.None? && g.reference.Some? ==> GroupOf(g) == Panic("Group references")
    ensures GroupOf(g).Built? <==>
      g.name.None? && g.reference.None? &&
      forall k :: 0 <= k < |g.content| ==> g.content[k].GroupElement? && ElementTypeOf(g.content[k].element).Built?
    ensures GroupOf(g).Built? ==>
      var info := GroupOf(g).value;
      info.min == g.minOccurs && (info.max.None? <==> g.maxOccurs.Unbounded?) &&
      (g.maxOccurs.Bounded? ==> info.max == Some(g.maxOccurs.bound)) &&
      |info.elements| == |g.content| &&
      forall k :: 0 <= k < |g.content| ==> ElementTypeOf(g.content[k].element) == Built(info.elements[k])
  {
    if GroupUnsupported(g).None? {
      GroupOfCollect(g);
      CollectAllSpec(g.content, GroupContentOf);
      forall k | 0 <= k < |g.content|
        ensures GroupContentOf(g.content[k]).Built? <==> g.content[k].GroupElement? && ElementTypeOf(g.content[k].element).Built?
        ensures g.content[k].GroupElement? ==> GroupContentOf(g.content[k]) == ElementTypeOf(g.content[k].element)
      {
        GroupContentOfSpec(g.content[k]);
      }
    }
  }

  // ----- Attributes ----------------------------------------------------------------------

  /** An attribute declaration is translated exactly when it uses none of the unsupported
      features; otherwise the panic names the first of them in the order `get_attribute`
      tests them. A translated declaration keeps its name (empty when it has none), the
      local names of its reference and type, and its use. */
  lemma AttributeOfSpec(a: AttributeType)
    ensures AttributeOf(a).Panic? <==>
      a.hasDefault || a.hasFixed || a.hasForm || a.hasTargetNamespace || a.hasInheritable ||
      a.hasAnnotation || a.hasSimpleType
    ensures a.hasDefault ==> AttributeOf(a) == Panic("Default attribute")
    ensures !a.hasDefault && a.hasFixed ==> AttributeOf(a) == Panic("Fixed attribute")
    ensures !a.hasDefault && !a.hasFixed && a.hasForm ==> AttributeOf(a) == Panic("Form attribute")
    ensures !a.hasDefault && !a.hasFixed && !a.hasForm && a.hasTargetNamespace ==>
      AttributeOf(a) == Panic("Target namespace attribute")
    ensures !a.hasDefault && !a.hasFixed && !a.hasForm && !a.hasTargetNamespace && a.hasInheritable ==>
      AttributeOf(a) == Panic("Inheritable attribute")
    ensures (!a.hasDefault && !a.hasFixed && !a.hasForm && !a.hasTargetNamespace && !a.hasInheritable &&
             a.hasAnnotation) ==> AttributeOf(a) == Panic("Annotation")
    ensures (!a.hasDefault && !a.hasFixed && !a.hasForm && !a.hasTargetNamespace && !a.hasInheritable &&
             !a.hasAnnotation && a.hasSimpleType) ==> AttributeOf(a) == Panic("Simple type attribute")
    ensures AttributeOf(a).Built? ==>
      var info := AttributeOf(a).value;
      (a.name.Some? ==> info.name == a.name.value) && (a.name.None? ==> info.name == "") &&
      (info.refName.Some? <==> a.reference.Some?) &&
      (a.reference.Some? ==> info.refName.value == a.reference.value.localName) &&
      (info.typeName.Some? <==> a.typeName.Some?) &&
      (a.typeName.Some? ==> info.typeName.value == a.typeName.value.localName) &&
      info.attributeType == a.use
  {
  }

  /** The attribute pass over a complex type's items: a particle gives nothing, an
      attribute its translation, and any other item panics with its own message. */
  lemma ComplexAttributeOfSpec(c: ComplexBaseTypeContent)
    ensures IsParticle(c) ==> ComplexAttributeOf(c) == Built(None)
    ensures c.AttributeDecl? ==>
      (ComplexAttributeOf(c).Panic? <==> AttributeOf(c.attribute).Panic?) &&
      (ComplexAttributeOf(c).Built? ==> ComplexAttributeOf(c).value == Some(AttributeOf(c.attribute).value))
    ensures !IsParticle(c) && !c.AttributeDecl? ==> ComplexAttributeOf(c) == Panic(UnsupportedComplexItem(c))
  {
  }

  // ----- Complex types -------------------------------------------------------------------

  /** Where one item of a complex type goes. */
  datatype ComplexItem = GroupItem(group: GroupInfo) | AttributeItem(attribute: AttributeInfo)

  /** Reference translation of one item: a particle becomes a group, an attribute an
      attribute, anything else panics. */
  function ComplexItemOf(c: ComplexBaseTypeContent): Fallible<ComplexItem> {
    if IsParticle(c) then
      match GroupOf(c.group)
      case Panic(m) => Panic(m)
      case Built(g) => Built(GroupItem(g))
    else if c.AttributeDecl? then
      match AttributeOf(c.attribute)
      case Panic(m) => Panic(m)
      case Built(a) => Built(AttributeItem(a))
    else Panic(UnsupportedComplexItem(c))
  }

  function GroupItems(items: seq<ComplexItem>): seq<GroupInfo> {
    if items == [] then []
    else (if items[0].GroupItem? then [items[0].group] else []) + GroupItems(items[1..])
  }

  function AttributeItems(items: seq<ComplexItem>): seq<AttributeInfo> {
    if items == [] then []
    else (if items[0].AttributeItem? then [items[0].attribute] else []) + AttributeItems(items[1..])
  }

  /** Every item goes to exactly one of the two lists. */
  lemma {:induction false} ItemsPartition(items: seq<ComplexItem>)
    ensures |GroupItems(items)| + |AttributeItems(items)| == |items|
    decreases |items|
  {
    if items != [] {
      ItemsPartition(items[1..]);
    }
  }

  /** `t` with the groups and the attributes of `items` appended to its lists. */
  function AddItems(t: TypeGenerator, items: seq<ComplexItem>): TypeGenerator {
    t.(groups := t.groups + GroupItems(items), attributes := t.attributes + AttributeItems(items))
  }

  /** `t` with one item appended to the list of its kind. */
  function AddItem(t: TypeGenerator, item: ComplexItem): TypeGenerator {
    if item.GroupItem? then t.(groups := t.groups + [item.group]) else t.(attributes := t.attributes + [item.attribute])
  }

  /** One round of the loop of `get_complex_type`. */
  lemma ComplexContentsStep(x: ComplexBaseType, i: nat, t: TypeGenerator)
    requires i < |x.content|
    ensures ComplexContentsFrom(x, i, t) ==
      match ComplexItemOf(x.content[i])
      case Panic(m) => Panic(m)
      case Built(item) => ComplexContentsFrom(x, i + 1, AddItem(t, item))
  {
  }

  lemma AddItemsCons(t: TypeGenerator, item: ComplexItem, items: seq<ComplexItem>)
    ensures AddItems(AddItem(t, item), items) == AddItems(t, [item] + items)
  {
    ItemsCons(item, items);
    if item.GroupItem? {
      assert t.groups + [item.group] + GroupItems(items) == t.groups + ([item.group] + GroupItems(items));
      assert t.attributes + AttributeItems([item] + items) == t.attributes + ([] + AttributeItems(items));
    } else {
      assert t.attributes + [item.attribute] + AttributeItems(items) == t.attributes + ([item.attribute] + AttributeItems(items));
      assert t.groups + GroupItems([item] + items) == t.groups + ([] + GroupItems(items));
    }
  }

  /** An item in front goes to the list of its kind. */
  lemma ItemsCons(item: ComplexItem, items: seq<ComplexItem>)
    ensures GroupItems([item] + items) == (if item.GroupItem? then [item.group] else []) + GroupItems(items)
    ensures AttributeItems([item] + items) == (if item.AttributeItem? then [item.attribute] else []) + AttributeItems(items)
  {
    var all := [item] + items;
    assert all[0] == item && all[1..] == items;
  }

  lemma {:induction false} ComplexContentsSplit(x: ComplexBaseType, i: nat, t: TypeGenerator)
    requires i <= |x.content|
    ensures ComplexContentsFrom(x, i, t) ==
      match CollectAll(x.content[i..], ComplexItemOf)
      case Panic(m) => Panic(m)
      case Built(items) => Built(AddItems(t, items))
    decreases |x.content| - i
  {
    var rest := x.content[i..];
    if i == |x.content| {
      assert rest == [];
      assert t.groups + [] == t.groups && t.attributes + [] == t.attributes;
    } else {
      var c := x.content[i];
      assert rest[0] == c;
      assert rest[1..] == x.content[i + 1..];
      ComplexContentsStep(x, i, t);
      match ComplexItemOf(c)
      case Panic(m) =>
      case Built(item) =>
        CollectFromShift(rest, ComplexItemOf, [item]);
        ComplexContentsSplit(x, i + 1, AddItem(t, item));
        match CollectAll(x.content[i + 1..], ComplexItemOf)
        case Panic(m) =>
        case Built(items) =>
          AddItemsCons(t, item, items);
    }
  }

  /** `get_complex_type`: once no unsupported feature is present, each item in order goes
      either to `groups` (sequence, choice, all, group) or to `attributes`, never both; the
      first other item panics. The type keeps its name (empty when absent) and has no
      `type_info` and no direct elements. */
  lemma ComplexTypeOfSpec(x: ComplexBaseType)
    ensures ComplexUnsupported(x).Some? ==> ComplexTypeOf(x) == Panic(ComplexUnsupported(x).value)
    ensures ComplexUnsupported(x).None? ==>
      ComplexTypeOf(x) ==
        match CollectAll(x.content, ComplexItemOf)
        case Panic(m) => Panic(m)
        case Built(items) =>
          Built(NewTypeGenerator().(name := if x.name.Some? then x.name.value else "",
            groups := GroupItems(items), attributes := AttributeItems(items)))
    ensures ComplexTypeOf(x).Built? ==>
      (forall k :: 0 <= k < |x.content| ==> IsParticle(x.content[k]) || x.content[k].AttributeDecl?) &&
      |ComplexTypeOf(x).value.groups| + |ComplexTypeOf(x).value.attributes| == |x.content| &&
      ComplexTypeOf(x).value.typeInfo == [] && ComplexTypeOf(x).value.elements == []
  {
    if ComplexUnsupported(x).None? {
      var t := NewTypeGenerator().(name := if x.name.Some? then x.name.value else "");
      ComplexContentsSplit(x, 0, t);
      assert x.content[0..] == x.content;
      CollectAllSpec(x.content, ComplexItemOf);
      if CollectAll(x.content, ComplexItemOf).Built? {
        var items := CollectAll(x.content, ComplexItemOf).value;
        ItemsPartition(items);
        assert [] + GroupItems(items) == GroupItems(items);
        assert [] + AttributeItems(items) == AttributeItems(items);
      }
    }
  }

  // ----- fetch_types and fetch_elements --------------------------------------------------

  lemma {:induction false} FetchTypesFromAll(schemas: seq<Schema>, s: nat, acc: seq<TypeGenerator>)
    requires s <= |schemas|
    ensures FetchTypesFrom(schemas, s, acc) ==
      match CollectAll(AllContents(schemas[s..]), FetchType)
      case Panic(m) => Panic(m)
      case Built(ys) => Built(acc + Somes(ys))
    decreases |schemas| - s
  {
    var rest := schemas[s..];
    if s == |schemas| {
      assert rest == [];
      assert acc + [] == acc;
    } else {
      assert rest[0] == schemas[s] && rest[1..] == schemas[s + 1..];
      var here := schemas[s].content;
      CollectSomeFromSpec(here, FetchType, 0, acc);
      assert here[0..] == here;
      CollectAllAppend(here, AllContents(schemas[s + 1..]), FetchType);
      match CollectAll(here, FetchType)
      case Panic(m) =>
      case Built(ya) =>
        FetchTypesFromAll(schemas, s + 1, acc + Somes(ya));
        match CollectAll(AllContents(schemas[s + 1..]), FetchType)
        case Panic(m) =>
        case Built(yb) =>
          SomesAppend(ya, yb);
          assert acc + Somes(ya) + Somes(yb) == acc + (Somes(ya) + Somes(yb));
    }
  }

  predicate IsTypeDecl(c: SchemaContent) {
    c.TopSimpleType? || c.TopComplexType?
  }

  /** The translation of a top-level type declaration. */
  function TypeDeclOf(c: SchemaContent): Fallible<TypeGenerator> {
    if c.TopSimpleType? then SimpleTypeOf(c.simple)
    else if c.TopComplexType? then ComplexTypeOf(c.complex)
    else Panic("")
  }

  /** The top-level items `fetch_types` and `fetch_elements` accept. */
  predicate IsDeclaration(c: SchemaContent) {
    c.TopSimpleType? || c.TopComplexType? || c.TopElement?
  }

  /** `fetch_types`: it succeeds exactly when every top-level item is a type or an element
      declaration and every type translates; the result is the translations of the type
      declarations of all schemas in document order, elements skipped. The first item in
      document order that is not accepted stops it with its own message. */
  lemma FetchTypesSpec(schemas: seq<Schema>)
    ensures FetchTypes.FetchTypes(schemas).Built? <==>
      forall k :: 0 <= k < |AllContents(schemas)| ==>
        IsDeclaration(AllContents(schemas)[k]) &&
        (IsTypeDecl(AllContents(schemas)[k]) ==> TypeDeclOf(AllContents(schemas)[k]).Built?)
    ensures FetchTypes.FetchTypes(schemas).Built? ==>
      var decls := Filter(AllContents(schemas), IsTypeDecl);
      |FetchTypes.FetchTypes(schemas).value| == |decls| &&
      forall k :: 0 <= k < |decls| ==> TypeDeclOf(decls[k]) == Built(FetchTypes.FetchTypes(schemas).value[k])
    ensures FetchTypes.FetchTypes(schemas).Panic? ==>
      exists k :: 0 <= k < |AllContents(schemas)| && FetchType(AllContents(schemas)[k]) == Panic(FetchTypes.FetchTypes(schemas).message) &&
        forall j :: 0 <= j < k ==> FetchType(AllContents(schemas)[j]).Built?
  {
    var all := AllContents(schemas);
    FetchTypesFromAll(schemas, 0, []);
    assert schemas[0..] == schemas;
    CollectAllSpec(all, FetchType);
    forall k | 0 <= k < |all|
      ensures FetchType(all[k]).Built? <==> IsDeclaration(all[k]) && (IsTypeDecl(all[k]) ==> TypeDeclOf(all[k]).Built?)
    {
      FetchTypeAccepts(all[k]);
    }
    if CollectAll(all, FetchType).Built? {
      assert [] + Somes(CollectAll(all, FetchType).value) == Somes(CollectAll(all, FetchType).value);
      forall x ensures IsTypeDecl(x) ==> FetchType(x) == MapSome(TypeDeclOf(x)) {
        FetchTypeAccepts(x);
      }
      forall x ensures !IsTypeDecl(x) && FetchType(x).Built? ==> FetchType(x).value.None? {
        FetchTypeAccepts(x);
      }
      SomesOfFilter(all, FetchType, IsTypeDecl, TypeDeclOf);
    }
  }

  /** One top-level item as `fetch_types` sees it. */
  lemma FetchTypeAccepts(c: SchemaContent)
    ensures FetchType(c).Built? <==> IsDeclaration(c) && (IsTypeDecl(c) ==> TypeDeclOf(c).Built?)
    ensures IsTypeDecl(c) ==> FetchType(c) == MapSome(TypeDeclOf(c))
    ensures !IsTypeDecl(c) && FetchType(c).Built? ==> FetchType(c).value.None?
  {
  }

  lemma {:induction false} FetchElementsFromAll(schemas: seq<Schema>, s: nat, acc: seq<ElementGenerator>)
    requires s <= |schemas|
    ensures FetchElementsFrom(schemas, s, acc) ==
      match CollectAll(AllContents(schemas[s..]), FetchElement)
      case Panic(m) => Panic(m)
      case Built(ys) => Built(acc + Somes(ys))
    decreases |schemas| - s
  {
    var rest := schemas[s..];
    if s == |schemas| {
      assert rest == [];
      assert acc + [] == acc;
    } else {
      assert rest[0] == schemas[s] && rest[1..] == schemas[s + 1..];
      var here := schemas[s].content;
      CollectSomeFromSpec(here, FetchElement, 0, acc);
      assert here[0..] == here;
      CollectAllAppend(here, AllContents(schemas[s + 1..]), FetchElement);
      match CollectAll(here, FetchElement)
      case Panic(m) =>
      case Built(ya) =>
        FetchElementsFromAll(schemas, s + 1, acc + Somes(ya));
        match CollectAll(AllContents(schemas[s + 1..]), FetchElement)
        case Panic(m) =>
        case Built(yb) =>
          SomesAppend(ya, yb);
          assert acc + Somes(ya) + Somes(yb) == acc + (Somes(ya) + Somes(yb));
    }
  }

  predicate IsElementDecl(c: SchemaContent) {
    c.TopElement?
  }

  /** The translation of a top-level element declaration. */
  function ElementDeclOf(c: SchemaContent): Fallible<ElementGenerator> {
    if c.TopElement? then ElementTypeOf(c.element) else Panic("")
  }

  /** `fetch_elements`: it succeeds exactly when every top-level item is a type or an
      element declaration and every element translates; the result has one record per
      element declaration of all schemas, in document order. The first item in document
      order that is not accepted stops it with its own message. */
  lemma FetchElementsSpec(schemas: seq<Schema>)
    ensures FetchElements.FetchElements(schemas).Built? <==>
      forall k :: 0 <= k < |AllContents(schemas)| ==>
        IsDeclaration(AllContents(schemas)[k]) &&
        (IsElementDecl(AllContents(schemas)[k]) ==> ElementDeclOf(AllContents(schemas)[k]).Built?)
    ensures FetchElements.FetchElements(schemas).Built? ==>
      var decls := Filter(AllContents(schemas), IsElementDecl);
      |FetchElements.FetchElements(schemas).value| == |decls| &&
      forall k :: 0 <= k < |decls| ==> ElementDeclOf(decls[k]) == Built(FetchElements.FetchElements(schemas).value[k])
    ensures FetchElements.FetchElements(schemas).Panic? ==>
      exists k :: 0 <= k < |AllContents(schemas)| && FetchElement(AllContents(schemas)[k]) == Panic(FetchElements.FetchElements(schemas).message) &&
        forall j :: 0 <= j < k ==> FetchElement(AllContents(schemas)[j]).Built?
  {
    var all := AllContents(schemas);
    FetchElementsFromAll(schemas, 0, []);
    assert schemas[0..] == schemas;
    CollectAllSpec(all, FetchElement);
    forall k | 0 <= k < |all|
      ensures FetchElement(all[k]).Built? <==> IsDeclaration(all[k]) && (IsElementDecl(all[k]) ==> ElementDeclOf(all[k]).Built?)
    {
      FetchElementAccepts(all[k]);
    }
    if CollectAll(all, FetchElement).Built? {
      assert [] + Somes(CollectAll(all, FetchElement).value) == Somes(CollectAll(all, FetchElement).value);
      forall x ensures IsElementDecl(x) ==> FetchElement(x) == MapSome(ElementDeclOf(x)) {
        FetchElementAccepts(x);
      }
      forall x ensures !IsElementDecl(x) && FetchElement(x).Built? ==> FetchElement(x).value.None? {
        FetchElementAccepts(x);
      }
      SomesOfFilter(all, FetchElement, IsElementDecl, ElementDeclOf);
    }
  }

  /** One top-level item as `fetch_elements` sees it. */
  lemma FetchElementAccepts(c: SchemaContent)
    ensures FetchElement(c).Built? <==> IsDeclaration(c) && (IsElementDecl(c) ==> ElementDeclOf(c).Built?)
    ensures IsElementDecl(c) ==> FetchElement(c) == MapSome(ElementDeclOf(c))
    ensures !IsElementDecl(c) && FetchElement(c).Built? ==> FetchElement(c).value.None?
  {
  }

  /** An item that is neither a type nor an element declaration stops both `fetch_type` and
      `fetch_element` with the same message. */
  lemma UnsupportedItemsPanic(c: SchemaContent)
    requires !IsDeclaration(c)
    ensures FetchType(c) == Panic(UnsupportedSchemaItem(c)) && FetchElement(c) == Panic(UnsupportedSchemaItem(c))
    ensures c.TopGroup? ==> UnsupportedSchemaItem(c) == "Top-level group not supported"
  {
  }
}
