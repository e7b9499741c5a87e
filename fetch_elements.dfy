/** fetch_elements.rs: the top-level element declarations as generator records. */
module FetchElements {
  import opened Wrappers
  import opened Records
  import opened XsdAst
  import opened Collect
  import opened FetchTypes

  /** `fetch_element`: elements are translated, simple and complex types skipped. */
  function FetchElement(c: SchemaContent): Fallible<Option<ElementGenerator>> {
    match c
    case TopSimpleType(_) => Built(None)
    case TopComplexType(_) => Built(None)
    case TopElement(x) => MapSome(ElementTypeOf(x))
    case _ => Panic(UnsupportedSchemaItem(c))
  }

  method FetchElementOf(c: SchemaContent) returns (res: Fallible<Option<ElementGenerator>>)
    ensures res == FetchElement(c)
  {
    match c
    case TopSimpleType(_) => res := Built(None);
    case TopComplexType(_) => res := Built(None);
    case TopElement(x) =>
      var e := GetElementType(x);
      res := if e.Panic? then Panic(e.message) else Built(Some(e.value));
    case _ => res := Panic(UnsupportedSchemaItem(c));
  }

  /** The outer loop of `fetch_elements`, schema after schema. */
  function FetchElementsFrom(schemas: seq<Schema>, s: nat, acc: seq<ElementGenerator>): Fallible<seq<ElementGenerator>>
    requires s <= |schemas|
    decreases |schemas| - s
  {
    if s == |schemas| then Built(acc)
    else
      match CollectSomeFrom(schemas[s].content, FetchElement, 0, acc)
      case Panic(m) => Panic(m)
      case Built(next) => FetchElementsFrom(schemas, s + 1, next)
  }

  function FetchElements(schemas: seq<Schema>): Fallible<seq<ElementGenerator>> {
    FetchElementsFrom(schemas, 0, [])
  }

  method FetchElementsOf(schemas: seq<Schema>) returns (res: Fallible<seq<ElementGenerator>>)
    ensures res == FetchElements(schemas)
  {
    var elements: seq<ElementGenerator> := [];
    for s := 0 to |schemas|
      invariant FetchElements(schemas) == FetchElementsFrom(schemas, s, elements)
    {
      ghost var start := elements;
      for i := 0 to |schemas[s].content|
        invariant CollectSomeFrom(schemas[s].content, FetchElement, 0, start) ==
          CollectSomeFrom(schemas[s].content, FetchElement, i, elements)
      {
        var element := FetchElementOf(schemas[s].content[i]);
        if element.Panic? {
          return Panic(element.message);
        }
        if element.value.Some? {
          elements := elements + [element.value.value];
        }
      }
    }
    return Built(elements);
  }
}
