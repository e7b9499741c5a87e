/** Element emission of the root crate (src/lib.rs): a struct becomes an element named
    after it; each field becomes a child holding a fake value when its type is primitive,
    the element of the struct its type names otherwise, and nothing when neither applies.
    Following a struct-typed field is not guarded against cycles, so that step consumes
    fuel. */
module StructEmit {
  import opened Wrappers
  import opened XmlElement
  import opened Collect
  import opened StructFields
  import opened StructRoot

  /** A result computed within the fuel, or the fuel ran out. */
  datatype Fuelled<+T> = Done(value: T) | OutOfFuel

  /** The primitive type names `get_string` has a fake value for. */
  const PrimitiveNames: set<string> := {
    "i8", "u8", "i16", "u16", "i32", "u32", "i64", "u64", "i128", "u128",
    "isize", "usize", "f32", "f64", "bool", "char", "String"}

  /** `get_string`. `fake` stands for the printed value the `fake` crate produces for a
      primitive type. */
  function GetString(fake: string -> string, typeName: string): (r: Option<string>)
    ensures r.Some? <==> typeName in PrimitiveNames
    ensures r.Some? ==> r.value == fake(typeName)
  {
    match typeName
    case "i8" => Some(fake("i8"))
    case "u8" => Some(fake("u8"))
    case "i16" => Some(fake("i16"))
    case "u16" => Some(fake("u16"))
    case "i32" => Some(fake("i32"))
    case "u32" => Some(fake("u32"))
    case "i64" => Some(fake("i64"))
    case "u64" => Some(fake("u64"))
    case "i128" => Some(fake("i128"))
    case "u128" => Some(fake("u128"))
    case "isize" => Some(fake("isize"))
    case "usize" => Some(fake("usize"))
    case "f32" => Some(fake("f32"))
    case "f64" => Some(fake("f64"))
    case "bool" => Some(fake("bool"))
    case "char" => Some(fake("char"))
    case "String" => Some(fake("String"))
    case _ => None
  }

  /** `generate_element`. */
  function GenerateElement(root: StructInfo, structs: seq<StructInfo>, fake: string -> string, fuel: nat): Fuelled<Element>
    decreases fuel, 3
  {
    FieldsFrom(root, 0, New(root.name), structs, fake, fuel)
  }

  /** The loop of `generate_element` over the fields, from field `i` on. */
  function FieldsFrom(root: StructInfo, i: nat, element: Element, structs: seq<StructInfo>, fake: string -> string, fuel: nat): Fuelled<Element>
    requires i <= |root.fields|
    decreases fuel, 2, |root.fields| - i
  {
    if i == |root.fields| then Done(element)
    else
      match GetChild(root.fields[i], structs, fake, fuel)
      case OutOfFuel => OutOfFuel
      case Done(child) =>
        FieldsFrom(root, i + 1, if child.Some? then AddChild(element, child.value) else element, structs, fake, fuel)
  }

  /** `get_child`: a primitive field is a child named after the field holding a value. */
  function GetChild(field: FieldInfo, structs: seq<StructInfo>, fake: string -> string, fuel: nat): Fuelled<Option<Element>>
    decreases fuel, 1
  {
    match GetString(fake, field.fieldType.name)
    case Some(value) => Done(Some(AddText(New(field.name), value)))
    case None => GetElement(field, structs, fake, fuel)
  }

  /** `get_element`: the element of the first struct named after the field's type. */
  function GetElement(field: FieldInfo, structs: seq<StructInfo>, fake: string -> string, fuel: nat): Fuelled<Option<Element>>
    decreases fuel, 0
  {
    match FirstNamed(structs, field.fieldType.name, 0)
    case None => Done(None)
    case Some(structure) =>
      if fuel == 0 then OutOfFuel
      else
        match GenerateElement(structure, structs, fake, fuel - 1)
        case OutOfFuel => OutOfFuel
        case Done(element) => Done(Some(element))
  }

  /** `generate_element` as the source writes it: a loop adding each present child. */
  method GenerateElementOf(root: StructInfo, structs: seq<StructInfo>, fake: string -> string, fuel: nat) returns (r: Fuelled<Element>)
    ensures r == GenerateElement(root, structs, fake, fuel)
  {
    var element := New(root.name);
    for i := 0 to |root.fields|
      invariant GenerateElement(root, structs, fake, fuel) == FieldsFrom(root, i, element, structs, fake, fuel)
    {
      var child := GetChild(root.fields[i], structs, fake, fuel);
      if child.OutOfFuel? {
        return OutOfFuel;
      }
      if child.value.Some? {
        element := AddChild(element, child.value.value);
      }
    }
    return Done(element);
  }

  // ----- What generate_element promises ----------------------------------------------------

  /** A field that yields a child: a primitive one, or one whose type names a struct. */
  predicate Kept(structs: seq<StructInfo>, field: FieldInfo) {
    field.fieldType.name in PrimitiveNames || FirstNamed(structs, field.fieldType.name, 0).Some?
  }

  /** The name of the child a kept field yields. */
  function ChildName(field: FieldInfo): string {
    if field.fieldType.name in PrimitiveNames then field.name else field.fieldType.name
  }

  /** `get_element`: a field whose type names no struct gives nothing; otherwise the first
      struct of that name is generated (one level of fuel per nested struct), and its element
      is named after the struct, with no attributes and no text. */
  lemma GetElementSpec(field: FieldInfo, structs: seq<StructInfo>, fake: string -> string, fuel: nat)
    ensures (forall k :: 0 <= k < |structs| ==> structs[k].name != field.fieldType.name) ==>
      GetElement(field, structs, fake, fuel) == Done(None)
    ensures (exists k :: 0 <= k < |structs| && structs[k].name == field.fieldType.name) && fuel == 0 ==>
      GetElement(field, structs, fake, fuel) == OutOfFuel
    ensures GetElement(field, structs, fake, fuel).Done? && GetElement(field, structs, fake, fuel).value.Some? ==>
      var e := GetElement(field, structs, fake, fuel).value.value;
      e.name == field.fieldType.name && e.attributes == [] && e.texts == [] &&
      exists k :: 0 <= k < |structs| && structs[k].name == field.fieldType.name
    decreases fuel, 0
  {
    var found := FirstNamed(structs, field.fieldType.name, 0);
    FirstNamedNone(structs, field.fieldType.name, 0);
    if found.Some? && fuel > 0 {
      GenerateElementHeader(found.value, structs, fake, fuel - 1);
    }
  }

  /** A primitive field yields a child named after the field holding one value; a field
      naming no struct yields nothing; a field naming a struct yields that struct's element,
      named after the struct. */
  lemma GetChildSpec(field: FieldInfo, structs: seq<StructInfo>, fake: string -> string, fuel: nat)
    ensures field.fieldType.name in PrimitiveNames ==>
      GetChild(field, structs, fake, fuel) == Done(Some(Element(field.name, [], [fake(field.fieldType.name)], [])))
    ensures !Kept(structs, field) ==> GetChild(field, structs, fake, fuel) == Done(None)
    ensures GetChild(field, structs, fake, fuel).Done? ==>
      (GetChild(field, structs, fake, fuel).value.Some? <==> Kept(structs, field))
    ensures Kept(structs, field) && GetChild(field, structs, fake, fuel).Done? ==>
      GetChild(field, structs, fake, fuel).value.value.name == ChildName(field)
    ensures field.fieldType.name !in PrimitiveNames && Kept(structs, field) && fuel > 0 ==>
      var structure := FirstNamed(structs, field.fieldType.name, 0).value;
      GetChild(field, structs, fake, fuel) ==
        match GenerateElement(structure, structs, fake, fuel - 1)
        case OutOfFuel => OutOfFuel
        case Done(e) => Done(Some(e))
    decreases fuel, 1
  {
    if field.fieldType.name in PrimitiveNames {
      var value := fake(field.fieldType.name);
      assert GetString(fake, field.fieldType.name) == Some(value);
      assert [] + [value] == [value];
      assert AddText(New(field.name), value) == Element(field.name, [], [value], []);
      assert GetChild(field, structs, fake, fuel) == Done(Some(AddText(New(field.name), value)));
    }
    if field.fieldType.name !in PrimitiveNames && Kept(structs, field) && fuel > 0 {
      var structure := FirstNamed(structs, field.fieldType.name, 0).value;
      GenerateElementHeader(structure, structs, fake, fuel - 1);
    }
  }

  /** The element keeps the struct's name and gets no attribute and no text. */
  lemma GenerateElementHeader(root: StructInfo, structs: seq<StructInfo>, fake: string -> string, fuel: nat)
    ensures GenerateElement(root, structs, fake, fuel).Done? ==>
      var e := GenerateElement(root, structs, fake, fuel).value;
      e.name == root.name && e.attributes == [] && e.texts == []
    decreases fuel, 3
  {
    FieldsFromChildren(root, 0, New(root.name), structs, fake, fuel);
  }

  /** `e` is `element` with one child appended per field of `kept`, named after it, and
      nothing else changed. */
  predicate FieldsAppended(element: Element, e: Element, kept: seq<FieldInfo>) {
    e.name == element.name && e.attributes == element.attributes && e.texts == element.texts &&
    |e.children| == |element.children| + |kept| && e.children[..|element.children|] == element.children &&
    forall k :: 0 <= k < |kept| ==> e.children[|element.children| + k].name == ChildName(kept[k])
  }

  /** A child added for `field` before the children of `tail` is the first of them. */
  lemma FieldsAppendedStep(element: Element, child: Element, e: Element, field: FieldInfo, tail: seq<FieldInfo>)
    requires child.name == ChildName(field) && FieldsAppended(AddChild(element, child), e, tail)
    ensures FieldsAppended(element, e, [field] + tail)
  {
    var n := |element.children|;
    var next := AddChild(element, child);
    assert e.children[..n] == next.children[..n];
    forall k | 0 <= k < |[field] + tail|
      ensures e.children[n + k].name == ChildName(([field] + tail)[k])
    {
      if k == 0 {
        assert e.children[n] == next.children[n];
      } else {
        assert ([field] + tail)[k] == tail[k - 1];
      }
    }
  }

  lemma {:induction false} FieldsFromChildren(root: StructInfo, i: nat, element: Element, structs: seq<StructInfo>, fake: string -> string, fuel: nat)
    requires i <= |root.fields|
    ensures FieldsFrom(root, i, element, structs, fake, fuel).Done? ==>
      FieldsAppended(element, FieldsFrom(root, i, element, structs, fake, fuel).value, Filter(root.fields[i..], f => Kept(structs, f)))
    decreases fuel, 2, |root.fields| - i
  {
    var keep := f => Kept(structs, f);
    var rest := root.fields[i..];
    if i < |root.fields| {
      var field := root.fields[i];
      assert rest[0] == field && rest[1..] == root.fields[i + 1..];
      GetChildSpec(field, structs, fake, fuel);
      match GetChild(field, structs, fake, fuel)
      case OutOfFuel =>
      case Done(child) =>
        var next := if child.Some? then AddChild(element, child.value) else element;
        FieldsFromChildren(root, i + 1, next, structs, fake, fuel);
        var tail := Filter(root.fields[i + 1..], keep);
        if FieldsFrom(root, i + 1, next, structs, fake, fuel).Done? {
          var e := FieldsFrom(root, i + 1, next, structs, fake, fuel).value;
          if child.Some? {
            assert Filter(rest, keep) == [field] + tail;
            FieldsAppendedStep(element, child.value, e, field, tail);
          } else {
            assert Filter(rest, keep) == [] + tail;
          }
        }
    } else {
      assert rest == [];
    }
  }

  /** `generate_element` yields an element named after the struct, with no attribute and no
      text, holding one child per kept field in field order, each named after the field
      (primitive type) or after the struct its type names. */
  lemma GenerateElementSpec(root: StructInfo, structs: seq<StructInfo>, fake: string -> string, fuel: nat)
    ensures GenerateElement(root, structs, fake, fuel).Done? ==>
      var e := GenerateElement(root, structs, fake, fuel).value;
      var kept := Filter(root.fields, f => Kept(structs, f));
      e.name == root.name && e.attributes == [] && e.texts == [] &&
      |e.children| == |kept| && forall k :: 0 <= k < |kept| ==> e.children[k].name == ChildName(kept[k])
  {
    FieldsFromChildren(root, 0, New(root.name), structs, fake, fuel);
    assert root.fields[0..] == root.fields;
  }
}
