/** Element-tree emission of the XSD-driven generator: `ElementGenerator::generate`,
    `TypeGenerator::generate`, `generate_reference` and `generate_type_output`, as
    functions. Each loop of the source is a function `…From(…, i, acc)` that continues
    the loop at position `i` with the element built so far.

    `generate_reference` and `generate_type_output` look a name up and recurse into the
    definition they find, with no guard against cycles. `fuel` bounds the number of such
    look-ups on one path; running out is the outcome `OutOfFuel`, which stands for the
    non-termination of the source. */
module Emit {
  import opened Wrappers
  import opened Records
  import opened Values
  import opened XmlElement

  /** The result of generation: an element, an `XMLGeneratorError`, or running out of fuel. */
  datatype Outcome<+T> = Done(value: T) | Failed(error: XmlGeneratorError) | OutOfFuel

  /** What generation reads and never changes: the data types, the top-level elements
      and the value synthesiser. */
  datatype Env = Env(dataTypes: seq<TypeGenerator>, elements: seq<ElementGenerator>, faker: Faker)

  const ReferenceAndTypeMessage := "Element is a reference and a type"
  const ReferenceAndContentMessage := "Element references another element an contains content"
  const TypeAndContentMessage := "Data has a type and contains type elements"
  const TypeInfoAndElementsMessage := "Type includes type information and elements"
  const TypeInfoAndGroupsMessage := "Type includes type information and groups"
  const ReferenceNotFoundMessage := "Reference not found"

  function CannotFindDataTypeMessage(typeName: string): string {
    "Cannot find data type: " + typeName
  }

  /** `ElementGenerator::generate`. */
  function ElementGenerate(e: ElementGenerator, env: Env, fuel: nat): Outcome<Element>
    decreases fuel, 1, e
  {
    if e.reference.Some? then
      if e.typeInfo.Some? then Failed(DataTypesFormatError(ReferenceAndTypeMessage))
      else if |e.contents| > 0 then Failed(DataTypesFormatError(ReferenceAndContentMessage))
      else GenerateReference(e.reference.value, env, fuel)
    else
      match GetName(e)
      case Err(err) => Failed(err)
      case Ok(name) =>
        if e.typeInfo.Some? then
          if |e.contents| > 0 then Failed(DataTypesFormatError(TypeAndContentMessage))
          else GenerateTypeOutput(New(name), e.typeInfo.value, env, fuel)
        else ContentsFrom(e, 0, New(name), env, fuel)
  }

  /** The loop of `ElementGenerator::generate` over `contents`, from position `i`. */
  function ContentsFrom(e: ElementGenerator, i: nat, root: Element, env: Env, fuel: nat): Outcome<Element>
    requires i <= |e.contents|
    decreases fuel, 1, e, |e.contents| - i
  {
    if i == |e.contents| then Done(root)
    else
      match TypeGenerate(e.contents[i], root, env, fuel)
      case Done(next) => ContentsFrom(e, i + 1, next, env, fuel)
      case Failed(err) => Failed(err)
      case OutOfFuel => OutOfFuel
  }

  /** `TypeGenerator::generate`: texts for `type_info`, then the children of `elements`,
      then those of every group. The attributes are only printed. */
  function TypeGenerate(t: TypeGenerator, el: Element, env: Env, fuel: nat): Outcome<Element>
    decreases fuel, 1, t
  {
    match TypeInfoFrom(t, 0, el, env)
    case Done(withText) =>
      (match ElementsFrom(t, 0, withText, env, fuel)
       case Done(withElements) => GroupsFrom(t, 0, 0, withElements, env, fuel)
       case Failed(err) => Failed(err)
       case OutOfFuel => OutOfFuel)
    case Failed(err) => Failed(err)
    case OutOfFuel => OutOfFuel
  }

  /** The `type_info` loop: every entry re-checks that the type has neither elements nor
      groups, and appends a text when `generate([entry])` produces one. A one-entry list
      holds no pattern, so `generate` cannot panic here. */
  function TypeInfoFrom(t: TypeGenerator, i: nat, el: Element, env: Env): Outcome<Element>
    requires i <= |t.typeInfo|
    decreases |t.typeInfo| - i
  {
    if i == |t.typeInfo| then Done(el)
    else if |t.elements| > 0 then Failed(DataTypesFormatError(TypeInfoAndElementsMessage))
    else if |t.groups| > 0 then Failed(DataTypesFormatError(TypeInfoAndGroupsMessage))
    else
      match Generate(env.faker, [t.typeInfo[i]]).value
      case Some(text) => TypeInfoFrom(t, i + 1, AddText(el, text), env)
      case None => TypeInfoFrom(t, i + 1, el, env)
  }

  /** The `elements` loop: each element becomes one child; the first failure stops it. */
  function ElementsFrom(t: TypeGenerator, i: nat, el: Element, env: Env, fuel: nat): Outcome<Element>
    requires i <= |t.elements|
    decreases fuel, 1, t, |t.elements| - i
  {
    if i == |t.elements| then Done(el)
    else
      match ElementGenerate(t.elements[i], env, fuel)
      case Done(child) => ElementsFrom(t, i + 1, AddChild(el, child), env, fuel)
      case Failed(err) => Failed(err)
      case OutOfFuel => OutOfFuel
  }

  /** The nested `groups` loop, at element `k` of group `g`: every element of every group
      becomes a child, whatever kind of particle the group was. */
  function GroupsFrom(t: TypeGenerator, g: nat, k: nat, el: Element, env: Env, fuel: nat): Outcome<Element>
    requires g <= |t.groups| && (g < |t.groups| ==> k <= |t.groups[g].elements|)
    decreases fuel, 1, t, |t.groups| - g, if g < |t.groups| then |t.groups[g].elements| - k else 0
  {
    if g == |t.groups| then Done(el)
    else if k == |t.groups[g].elements| then GroupsFrom(t, g + 1, 0, el, env, fuel)
    else
      match ElementGenerate(t.groups[g].elements[k], env, fuel)
      case Done(child) => GroupsFrom(t, g, k + 1, AddChild(el, child), env, fuel)
      case Failed(err) => Failed(err)
      case OutOfFuel => OutOfFuel
  }

  /** `generate_reference`. */
  function GenerateReference(reference: string, env: Env, fuel: nat): Outcome<Element>
    decreases fuel, 0
  {
    ReferenceFrom(reference, 0, env, fuel)
  }

  /** The search loop of `generate_reference` from position `i`: `get_name` of every
      element passed over must succeed; the first match is generated. */
  function ReferenceFrom(reference: string, i: nat, env: Env, fuel: nat): Outcome<Element>
    requires i <= |env.elements|
    decreases fuel, 0, |env.elements| - i
  {
    if i == |env.elements| then Failed(XmlBuilderError(ReferenceNotFoundMessage))
    else
      match GetName(env.elements[i])
      case Err(err) => Failed(err)
      case Ok(name) =>
        if name == reference then
          if fuel == 0 then OutOfFuel else ElementGenerate(env.elements[i], env, fuel - 1)
        else ReferenceFrom(reference, i + 1, env, fuel)
  }

  /** `generate_type_output`: a built-in type adds one text, any other name is delegated to
      the first data type of that name. */
  function GenerateTypeOutput(el: Element, typeName: string, env: Env, fuel: nat): Outcome<Element>
    decreases fuel, 0
  {
    match GenerateType(env.faker, typeName)
    case Some(text) => Done(AddText(el, text))
    case None => DataTypeFrom(el, typeName, 0, env, fuel)
  }

  /** The search loop of `generate_type_output` over the data types, from position `i`. */
  function DataTypeFrom(el: Element, typeName: string, i: nat, env: Env, fuel: nat): Outcome<Element>
    requires i <= |env.dataTypes|
    decreases fuel, 0, |env.dataTypes| - i
  {
    if i == |env.dataTypes| then Failed(DataTypeError(CannotFindDataTypeMessage(typeName)))
    else if env.dataTypes[i].name == typeName then
      if fuel == 0 then OutOfFuel else TypeGenerate(env.dataTypes[i], el, env, fuel - 1)
    else DataTypeFrom(el, typeName, i + 1, env, fuel)
  }
}
