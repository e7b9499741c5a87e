/** rng2xsd.py, `RelaxNGToXSDConverter`: the translation of a RELAX NG schema tree into an
    XML Schema tree. The code appends each XSD node to its parent in place; here a
    conversion returns the nodes it appended, and the node it returns to its caller (which
    may still annotate it) is marked as created. Following a `ref` inlines the named
    pattern's children without a cycle check, so that step consumes fuel. */
module RngConvert {
  import opened Wrappers
  import opened RngNode
  import RngRoot

  /** An XSD element being built: its tag, attributes and children. */
  datatype XsdNode = XsdNode(tag: string, attributes: map<string, string>, children: seq<XsdNode>)

  /** What converting one pattern appended to the XSD parent: the one node the conversion
      created and returned, or nodes it appended while returning None. */
  datatype Appended = Created(node: XsdNode) | Appended(nodes: seq<XsdNode>)

  /** A conversion's outcome: done, an exception, or the fuel for following references ran
      out. */
  datatype Converted<+T> = Done(value: T) | Failed(error: PyError) | OutOfFuel

  /** The nodes a conversion appended. */
  function Nodes(a: Appended): seq<XsdNode> {
    if a.Created? then [a.node] else a.nodes
  }

  /** lxml refuses `None` as an attribute value. */
  const NoneValueMessage := "Argument must be bytes or unicode, got 'NoneType'"

  // ----- Data types and the pattern tests --------------------------------------------------

  const DataTypes: map<string, string> := map[
    "string" := "xs:string", "token" := "xs:token", "integer" := "xs:integer", "int" := "xs:int",
    "long" := "xs:long", "short" := "xs:short", "byte" := "xs:byte", "decimal" := "xs:decimal",
    "float" := "xs:float", "double" := "xs:double", "boolean" := "xs:boolean", "date" := "xs:date",
    "dateTime" := "xs:dateTime", "time" := "xs:time", "anyURI" := "xs:anyURI", "ID" := "xs:ID",
    "IDREF" := "xs:IDREF", "NMTOKEN" := "xs:NMTOKEN"]

  /** `_convert_data_type`. */
  function ConvertDataType(rngType: string): string {
    if rngType in DataTypes then DataTypes[rngType] else "xs:string"
  }

  /** `_is_attribute_pattern`. */
  predicate IsAttributePattern(n: Node)
    decreases n
  {
    n.tag == Rng("attribute") ||
    ((n.tag == Rng("optional") || n.tag == Rng("group")) &&
     exists k :: 0 <= k < |n.children| && IsAttributePattern(n.children[k]))
  }

  /** The containers `_is_element_pattern` looks into. */
  const ElementContainers: set<string> :=
    {Rng("optional"), Rng("choice"), Rng("group"), Rng("zeroOrMore"), Rng("oneOrMore")}

  /** `_is_element_pattern`. */
  predicate IsElementPattern(n: Node)
    decreases n
  {
    n.tag == Rng("element") ||
    (n.tag in ElementContainers && exists k :: 0 <= k < |n.children| && IsElementPattern(n.children[k]))
  }

  predicate AnyAttribute(cs: seq<Node>) {
    exists k :: 0 <= k < |cs| && IsAttributePattern(cs[k])
  }

  predicate AnyElement(cs: seq<Node>) {
    exists k :: 0 <= k < |cs| && IsElementPattern(cs[k])
  }

  predicate AnyText(cs: seq<Node>) {
    exists k :: 0 <= k < |cs| && cs[k].tag == Rng("text")
  }

  /** `elem.find(tag)`: the first direct child with that tag. */
  function FindChild(n: Node, tag: string): (r: Option<Node>)
    ensures r.Some? ==> r.value in n.children && r.value.tag == tag
  {
    FindFrom(n.children, 0, tag)
  }

  function FindFrom(cs: seq<Node>, i: nat, tag: string): (r: Option<Node>)
    requires i <= |cs|
    ensures r.Some? ==> r.value in cs && r.value.tag == tag
    decreases |cs| - i
  {
    if i == |cs| then None else if cs[i].tag == tag then Some(cs[i]) else FindFrom(cs, i + 1, tag)
  }

  /** The patterns of `cs` that pass `p`, in order. */
  function Select(cs: seq<Node>, p: Node -> bool): (r: seq<Node>)
    ensures forall k :: 0 <= k < |r| ==> p(r[k])
    ensures |r| <= |cs|
  {
    if cs == [] then [] else (if p(cs[0]) then [cs[0]] else []) + Select(cs[1..], p)
  }

  /** The patterns of complex content converted into the content parent. */
  predicate GoesToContent(n: Node) {
    !IsAttributePattern(n) && n.tag != Rng("text")
  }

  /** The patterns of complex content converted at all. */
  predicate IsConverted(n: Node) {
    IsAttributePattern(n) || n.tag != Rng("text")
  }

  /** The top-level patterns of a grammar without `start`. */
  predicate IsTopLevel(n: Node) {
    n.tag != Rng("define")
  }

  // ----- Attributes --------------------------------------------------------------------------

  /** The enumeration facets for the `value` children `values`, from position `i` on. */
  function Enumerations(values: seq<Node>, i: nat, acc: seq<XsdNode>): PyResult<seq<XsdNode>>
    requires i <= |values|
    decreases |values| - i
  {
    if i == |values| then Returned(acc)
    else if values[i].text.None? then Raised(TypeError(NoneValueMessage))
    else Enumerations(values, i + 1, acc + [XsdNode(Xs("enumeration"), map["value" := values[i].text.value], [])])
  }

  predicate IsValue(n: Node) {
    n.tag == Rng("value")
  }

  /** `_convert_attribute`: the type comes from a `data` child, else a fixed value from a
      `value` child, else an enumeration from a `choice` child, else it is a string. */
  function ConvertAttribute(n: Node): PyResult<XsdNode> {
    var name := Get(n, "name");
    if name.None? then Raised(TypeError(NoneValueMessage))
    else
      var attrs := map["name" := name.value];
      var data, value, choice := FindChild(n, Rng("data")), FindChild(n, Rng("value")), FindChild(n, Rng("choice"));
      if data.Some? then
        Returned(XsdNode(Xs("attribute"), attrs["type" := ConvertDataType(GetOr(data.value, "type", "string"))], []))
      else if value.Some? then
        if value.value.text.None? then Raised(TypeError(NoneValueMessage))
        else Returned(XsdNode(Xs("attribute"), attrs["fixed" := value.value.text.value]["type" := "xs:string"], []))
      else if choice.Some? then
        match Enumerations(Select(choice.value.children, IsValue), 0, [])
        case Raised(e) => Raised(e)
        case Returned(enums) =>
          var restriction := XsdNode(Xs("restriction"), map["base" := "xs:string"], enums);
          Returned(XsdNode(Xs("attribute"), attrs, [XsdNode(Xs("simpleType"), map[], [restriction])]))
      else Returned(XsdNode(Xs("attribute"), attrs["type" := "xs:string"], []))
  }

  // ----- Occurrences ---------------------------------------------------------------------------

  /** The wrapper a list of children is converted under. */
  datatype Occurrence = Plain | Optional | ZeroOrMore | OneOrMore

  /** The occurrence attributes `_convert_optional`, `_convert_zero_or_more` and
      `_convert_one_or_more` set on a created node. */
  function Annotate(node: XsdNode, occ: Occurrence): XsdNode {
    match occ
    case Plain => node
    case Optional =>
      if "minOccurs" in node.attributes then node else node.(attributes := node.attributes["minOccurs" := "0"])
    case ZeroOrMore => node.(attributes := node.attributes["minOccurs" := "0"]["maxOccurs" := "unbounded"])
    case OneOrMore => node.(attributes := node.attributes["minOccurs" := "1"]["maxOccurs" := "unbounded"])
  }

  /** What a loop appends for one converted child: only a created node is annotated. */
  function Annotated(a: Appended, occ: Occurrence): seq<XsdNode> {
    if a.Created? then [Annotate(a.node, occ)] else a.nodes
  }

  // ----- Patterns ----------------------------------------------------------------------------

  /** `_convert_pattern`. `named` maps each define's `name` (None for a define without one)
      to the define. */
  function ConvertPattern(named: map<Option<string>, Node>, n: Node, fuel: nat): Converted<Appended>
    decreases fuel, n, 2, 0
  {
    if n.tag == Rng("element") then ConvertElement(named, n, fuel)
    else if n.tag == Rng("attribute") then
      match ConvertAttribute(n)
      case Raised(e) => Failed(e)
      case Returned(a) => Done(Created(a))
    else if n.tag == Rng("ref") then
      var name := Get(n, "name");
      if name in named then
        if fuel == 0 then OutOfFuel
        else
          match ConvertFrom(named, named[name].children, 0, fuel - 1, Plain, [])
          case Done(nodes) => Done(Appended(nodes))
          case Failed(e) => Failed(e)
          case OutOfFuel => OutOfFuel
      else Done(Appended([]))
    else if n.tag == Rng("choice") then Container(named, n, Xs("choice"), fuel)
    else if n.tag == Rng("optional") then Repetition(named, n, Optional, fuel)
    else if n.tag == Rng("zeroOrMore") then Repetition(named, n, ZeroOrMore, fuel)
    else if n.tag == Rng("oneOrMore") then Repetition(named, n, OneOrMore, fuel)
    else if n.tag == Rng("group") || n.tag == Rng("interleave") then Container(named, n, Xs("sequence"), fuel)
    else if n.tag in {Rng("text"), Rng("data"), Rng("value"), Rng("empty")} then Done(Appended([]))
    else Repetition(named, n, Plain, fuel)
  }

  /** `_convert_choice` and `_convert_group`: one new node holding the children. */
  function Container(named: map<Option<string>, Node>, n: Node, tag: string, fuel: nat): Converted<Appended>
    decreases fuel, n, 1, 0
  {
    match ConvertFrom(named, n.children, 0, fuel, Plain, [])
    case Done(nodes) => Done(Created(XsdNode(tag, map[], nodes)))
    case Failed(e) => Failed(e)
    case OutOfFuel => OutOfFuel
  }

  /** The occurrence wrappers, and the fallback for unknown patterns: the children go to the
      parent and nothing is returned. */
  function Repetition(named: map<Option<string>, Node>, n: Node, occ: Occurrence, fuel: nat): Converted<Appended>
    decreases fuel, n, 1, 0
  {
    match ConvertFrom(named, n.children, 0, fuel, occ, [])
    case Done(nodes) => Done(Appended(nodes))
    case Failed(e) => Failed(e)
    case OutOfFuel => OutOfFuel
  }

  /** The loop over the patterns `cs` from position `i` on, each converted into the same
      parent after `acc`, each created node annotated for `occ`. */
  function ConvertFrom(named: map<Option<string>, Node>, cs: seq<Node>, i: nat, fuel: nat, occ: Occurrence, acc: seq<XsdNode>): Converted<seq<XsdNode>>
    requires i <= |cs|
    decreases fuel, cs, 0, |cs| - i
  {
    if i == |cs| then Done(acc)
    else
      match ConvertPattern(named, cs[i], fuel)
      case Failed(e) => Failed(e)
      case OutOfFuel => OutOfFuel
      case Done(a) => ConvertFrom(named, cs, i + 1, fuel, occ, acc + Annotated(a, occ))
  }

  // ----- Elements ----------------------------------------------------------------------------

  /** The name `_convert_element` gives the XSD element: the `name` attribute when it is
      non-empty, else the text of the first `name` in the first `choice` child. */
  function ElementName(n: Node): PyResult<Option<string>> {
    var name := Get(n, "name");
    if name.Some? && name.value != "" then Returned(name)
    else
      match FindChild(n, Rng("choice"))
      case None => Returned(None)
      case Some(choice) =>
        match FindChild(choice, Rng("name"))
        case None => Returned(None)
        case Some(first) => if first.text.None? then Raised(TypeError(NoneValueMessage)) else Returned(first.text)
  }

  /** The three shapes an element's content takes. */
  datatype ContentShape = StringContent | SimpleContent | ComplexContent

  function Shape(cs: seq<Node>): ContentShape {
    if cs == [] || (AnyText(cs) && !AnyElement(cs) && !AnyAttribute(cs)) then StringContent
    else if AnyText(cs) && AnyAttribute(cs) && !AnyElement(cs) then SimpleContent
    else ComplexContent
  }

  /** The XSD nodes below a complex type: those that go to the content parent and those
      that go to the complex type itself. */
  datatype Parts = Parts(content: seq<XsdNode>, typeLevel: seq<XsdNode>)

  /** `_convert_element`. */
  function ConvertElement(named: map<Option<string>, Node>, n: Node, fuel: nat): Converted<Appended>
    decreases fuel, n, 1, 0
  {
    match ElementName(n)
    case Raised(e) => Failed(e)
    case Returned(name) =>
      var base := if name.Some? then map["name" := name.value] else map[];
      var cs := n.children;
      match Shape(cs)
      case StringContent => Done(Created(XsdNode(Xs("element"), base["type" := "xs:string"], [])))
      case SimpleContent =>
        (match AttributesFrom(named, cs, 0, fuel, [])
         case Failed(e) => Failed(e)
         case OutOfFuel => OutOfFuel
         case Done(attrs) =>
           var extension := XsdNode(Xs("extension"), map["base" := "xs:string"], attrs);
           var simple := XsdNode(Xs("simpleContent"), map[], [extension]);
           Done(Created(XsdNode(Xs("element"), base, [XsdNode(Xs("complexType"), map[], [simple])]))))
      case ComplexContent =>
        var mixed := AnyText(cs) && AnyElement(cs);
        var withSequence := AnyElement(cs) || |cs| > 1;
        match ComplexFrom(named, cs, 0, fuel, withSequence, Parts([], []))
        case Failed(e) => Failed(e)
        case OutOfFuel => OutOfFuel
        case Done(parts) =>
          var complexType := XsdNode(Xs("complexType"), if mixed then map["mixed" := "true"] else map[],
            if withSequence then [XsdNode(Xs("sequence"), map[], parts.content)] + parts.typeLevel else parts.typeLevel);
          Done(Created(XsdNode(Xs("element"), base, [complexType])))
  }

  /** The simple-content loop: only attribute patterns are converted, into the extension. */
  function AttributesFrom(named: map<Option<string>, Node>, cs: seq<Node>, i: nat, fuel: nat, acc: seq<XsdNode>): Converted<seq<XsdNode>>
    requires i <= |cs|
    decreases fuel, cs, 0, |cs| - i
  {
    if i == |cs| then Done(acc)
    else if !IsAttributePattern(cs[i]) then AttributesFrom(named, cs, i + 1, fuel, acc)
    else
      match ConvertPattern(named, cs[i], fuel)
      case Failed(e) => Failed(e)
      case OutOfFuel => OutOfFuel
      case Done(a) => AttributesFrom(named, cs, i + 1, fuel, acc + Nodes(a))
  }

  /** The complex-content loop: attribute patterns go to the complex type, other non-text
      patterns to the content parent, which is the sequence when there is one and the
      complex type otherwise. */
  function ComplexFrom(named: map<Option<string>, Node>, cs: seq<Node>, i: nat, fuel: nat, withSequence: bool, acc: Parts): Converted<Parts>
    requires i <= |cs|
    decreases fuel, cs, 0, |cs| - i
  {
    if i == |cs| then Done(acc)
    else if !IsAttributePattern(cs[i]) && cs[i].tag == Rng("text") then ComplexFrom(named, cs, i + 1, fuel, withSequence, acc)
    else
      match ConvertPattern(named, cs[i], fuel)
      case Failed(e) => Failed(e)
      case OutOfFuel => OutOfFuel
      case Done(a) =>
        var next :=
          if IsAttributePattern(cs[i]) || !withSequence then acc.(typeLevel := acc.typeLevel + Nodes(a))
          else acc.(content := acc.content + Nodes(a));
        ComplexFrom(named, cs, i + 1, fuel, withSequence, next)
  }

  // ----- Named patterns ----------------------------------------------------------------------

  predicate IsDefine(n: Node) {
    n.tag == Rng("define")
  }

  /** The dictionary `_collect_named_patterns` fills from the nodes `xs`, taken in document
      order from position `i` on: each define is stored under its `name`, a later define
      replacing an earlier one of the same name. */
  function NamedFrom(xs: seq<Node>, i: nat, acc: map<Option<string>, Node>): map<Option<string>, Node>
    requires i <= |xs|
    decreases |xs| - i
  {
    if i == |xs| then acc
    else NamedFrom(xs, i + 1, if IsDefine(xs[i]) then acc[Get(xs[i], "name") := xs[i]] else acc)
  }

  /** The defines anywhere below the schema root. */
  function NamedPatterns(root: Node): map<Option<string>, Node> {
    NamedFrom(RngRoot.DescendantsOf(root.children), 0, map[])
  }

  /** `_collect_named_patterns`. */
  method CollectNamedPatterns(root: Node) returns (named: map<Option<string>, Node>)
    ensures named == NamedPatterns(root)
  {
    var defines := RngRoot.DescendantsOf(root.children);
    named := map[];
    for i := 0 to |defines|
      invariant NamedFrom(defines, 0, map[]) == NamedFrom(defines, i, named)
    {
      var node := defines[i];
      if node.tag == Rng("define") {
        named := named[Get(node, "name") := node];
      }
    }
  }

  // ----- The grammar -------------------------------------------------------------------------

  /** `_convert_grammar`: the children of the `start` child when there is one, else every
      top-level child that is not a `define`; the result is what the schema root receives. */
  function ConvertGrammar(named: map<Option<string>, Node>, root: Node, fuel: nat): Converted<seq<XsdNode>> {
    match FindChild(root, Rng("start"))
    case Some(start) => ConvertFrom(named, start.children, 0, fuel, Plain, [])
    case None => TopLevelFrom(named, root.children, 0, fuel, [])
  }

  function TopLevelFrom(named: map<Option<string>, Node>, cs: seq<Node>, i: nat, fuel: nat, acc: seq<XsdNode>): Converted<seq<XsdNode>>
    requires i <= |cs|
    decreases |cs| - i
  {
    if i == |cs| then Done(acc)
    else if cs[i].tag == Rng("define") then TopLevelFrom(named, cs, i + 1, fuel, acc)
    else
      match ConvertPattern(named, cs[i], fuel)
      case Failed(e) => Failed(e)
      case OutOfFuel => OutOfFuel
      case Done(a) => TopLevelFrom(named, cs, i + 1, fuel, acc + Nodes(a))
  }

  // ----- The source's loops ---------------------------------------------------------------------

  /** `for child in rng_elem: result = self._convert_pattern(child, xsd_parent)` with the
      occurrence annotation of `_convert_optional`, `_convert_zero_or_more` and
      `_convert_one_or_more`. */
  method ConvertChildren(named: map<Option<string>, Node>, cs: seq<Node>, fuel: nat, occ: Occurrence) returns (r: Converted<seq<XsdNode>>)
    ensures r == ConvertFrom(named, cs, 0, fuel, occ, [])
  {
    var appended: seq<XsdNode> := [];
    for i := 0 to |cs|
      invariant ConvertFrom(named, cs, 0, fuel, occ, []) == ConvertFrom(named, cs, i, fuel, occ, appended)
    {
      var result := ConvertPattern(named, cs[i], fuel);
      if !result.Done? {
        return if result.Failed? then Failed(result.error) else OutOfFuel;
      }
      if result.value.Created? {
        appended := appended + [Annotate(result.value.node, occ)];
      } else {
        appended := appended + result.value.nodes;
      }
    }
    return Done(appended);
  }

  /** The loop of `_convert_element` over the children of complex content. */
  method ConvertComplexChildren(named: map<Option<string>, Node>, cs: seq<Node>, fuel: nat, withSequence: bool) returns (r: Converted<Parts>)
    ensures r == ComplexFrom(named, cs, 0, fuel, withSequence, Parts([], []))
  {
    var content: seq<XsdNode>, typeLevel: seq<XsdNode> := [], [];
    for i := 0 to |cs|
      invariant ComplexFrom(named, cs, 0, fuel, withSequence, Parts([], [])) ==
        ComplexFrom(named, cs, i, fuel, withSequence, Parts(content, typeLevel))
    {
      var child := cs[i];
      if IsAttributePattern(child) {
        var result := ConvertPattern(named, child, fuel);
        if !result.Done? {
          return if result.Failed? then Failed(result.error) else OutOfFuel;
        }
        typeLevel := typeLevel + Nodes(result.value);
      } else if child.tag != Rng("text") {
        var result := ConvertPattern(named, child, fuel);
        if !result.Done? {
          return if result.Failed? then Failed(result.error) else OutOfFuel;
        }
        if withSequence {
          content := content + Nodes(result.value);
        } else {
          typeLevel := typeLevel + Nodes(result.value);
        }
      }
    }
    return Done(Parts(content, typeLevel));
  }
}
