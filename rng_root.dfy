/** xsd2xml.py, `find_root_element` and the root choice of `generate_xml`. The root element
    is named after the first element pattern below the root pattern, in document order.
    The code looks for it through XPath, with a namespace prefix when the schema binds one
    to the RELAX NG namespace; a schema that makes that namespace its default one has no
    such prefix, and then the un-prefixed query finds nothing. `FindRootElementAsWritten`
    keeps that behaviour; `FindRootElement`, which the rest of the model uses, accepts an
    element pattern in either form. */
module RngRoot {
  import opened Wrappers
  import opened RngNode
  import opened RngGenerate
  import opened RngGenerateProperties

  const NoRootPatternMessage := "No root pattern found in schema"
  const NoRootElementMessage := "No suitable root element found in schema"

  /** The first prefix the namespace map binds to the RELAX NG namespace, in the map's
      order; `None` for the default namespace and when there is no binding. */
  function RngPrefix(nsmap: seq<(Option<string>, string)>): Option<string> {
    if nsmap == [] then None
    else if nsmap[0].1 == RngNamespace then nsmap[0].0
    else RngPrefix(nsmap[1..])
  }

  // ----- Descendants in document order ---------------------------------------------------

  /** The descendants of the nodes `cs` and the nodes themselves, in document order. */
  function DescendantsOf(cs: seq<Node>): seq<Node>
    decreases cs
  {
    if cs == [] then [] else [cs[0]] + DescendantsOf(cs[0].children) + DescendantsOf(cs[1..])
  }

  /** The first node of `xs` whose tag passes `p`. */
  function FirstMatch(xs: seq<Node>, p: string -> bool): (r: Option<Node>)
    ensures r.Some? ==> r.value in xs && p(r.value.tag)
  {
    if xs == [] then None else if p(xs[0].tag) then Some(xs[0]) else FirstMatch(xs[1..], p)
  }

  /** XPath `.//name` below the nodes `cs` and including them: a search that stops at the
      first match in document order. */
  function FirstIn(cs: seq<Node>, p: string -> bool): Option<Node>
    decreases cs
  {
    if cs == [] then None
    else if p(cs[0].tag) then Some(cs[0])
    else
      match FirstIn(cs[0].children, p)
      case Some(x) => Some(x)
      case None => FirstIn(cs[1..], p)
  }

  lemma {:induction false} FirstMatchAppend(a: seq<Node>, b: seq<Node>, p: string -> bool)
    ensures FirstMatch(a + b, p) == if FirstMatch(a, p).Some? then FirstMatch(a, p) else FirstMatch(b, p)
    decreases |a|
  {
    if a != [] {
      assert (a + b)[0] == a[0] && (a + b)[1..] == a[1..] + b;
      FirstMatchAppend(a[1..], b, p);
    } else {
      assert a + b == b;
    }
  }

  /** The search stops at the first node in document order that matches. */
  lemma {:induction false} FirstInIsFirstMatch(cs: seq<Node>, p: string -> bool)
    ensures FirstIn(cs, p) == FirstMatch(DescendantsOf(cs), p)
    decreases cs
  {
    if cs != [] {
      var below, rest := DescendantsOf(cs[0].children), DescendantsOf(cs[1..]);
      assert DescendantsOf(cs) == [cs[0]] + (below + rest);
      FirstInIsFirstMatch(cs[0].children, p);
      FirstInIsFirstMatch(cs[1..], p);
      FirstMatchAppend(below, rest, p);
      assert ([cs[0]] + (below + rest))[1..] == below + rest;
    }
  }

  /** The first match precedes every other node that matches. */
  lemma {:induction false} FirstMatchSpec(xs: seq<Node>, p: string -> bool)
    ensures FirstMatch(xs, p).None? <==> forall k :: 0 <= k < |xs| ==> !p(xs[k].tag)
    ensures FirstMatch(xs, p).Some? ==>
      exists k :: 0 <= k < |xs| && xs[k] == FirstMatch(xs, p).value && forall j :: 0 <= j < k ==> !p(xs[j].tag)
    decreases |xs|
  {
    if xs != [] && !p(xs[0].tag) {
      FirstMatchSpec(xs[1..], p);
      if FirstMatch(xs, p).Some? {
        var k :| 0 <= k < |xs| - 1 && xs[1..][k] == FirstMatch(xs, p).value && forall j :: 0 <= j < k ==> !p(xs[1..][j].tag);
        assert xs[k + 1] == FirstMatch(xs, p).value;
        forall j | 0 <= j < k + 1
          ensures !p(xs[j].tag)
        {
          if j > 0 {
            assert xs[j] == xs[1..][j - 1];
          }
        }
      } else {
        forall k | 0 <= k < |xs|
          ensures !p(xs[k].tag)
        {
          if k > 0 {
            assert xs[k] == xs[1..][k - 1];
          }
        }
      }
    }
  }

  // ----- find_root_element -------------------------------------------------------------------

  /** `find_root_element` as written. An lxml element without children is falsy, so a root
      pattern without children counts as missing. */
  function FindRootElementAsWritten(rootPattern: Node, nsmap: seq<(Option<string>, string)>): PyResult<string> {
    if rootPattern.children == [] then Raised(ValueError(NoRootPatternMessage))
    else
      var prefix := RngPrefix(nsmap);
      var found :=
        if prefix.Some? && prefix.value != "" then FirstIn(rootPattern.children, t => t == Rng("element"))
        else FirstIn(rootPattern.children, t => t == "element");
      if found.Some? then Returned(GetOr(found.value, "name", "root")) else Returned("root")
  }

  /** An element pattern, in the RELAX NG namespace or in none. */
  predicate IsElementPattern(tag: string) {
    tag == Rng("element") || tag == "element"
  }

  /** `find_root_element` as intended: the first element pattern below the root pattern,
      however the schema spells the RELAX NG namespace. */
  function FindRootElement(rootPattern: Node): PyResult<string> {
    if rootPattern.children == [] then Raised(ValueError(NoRootPatternMessage))
    else
      var found := FirstIn(rootPattern.children, IsElementPattern);
      if found.Some? then Returned(GetOr(found.value, "name", "root")) else Returned("root")
  }

  /** The root pattern `<start><element name="doc"/></start>` written with the RELAX NG
      namespace as the default namespace. */
  function DefaultNamespaceStart(): Node {
    Node(Rng("start"), map[], None, [Node(Rng("element"), map["name" := "doc"], None, [])])
  }

  /** As written, a schema that binds the RELAX NG namespace as its default namespace gets
      the root name "root", whatever its element patterns are called; the intended search
      finds "doc". */
  lemma DefaultNamespaceMissesRoot()
    ensures FindRootElementAsWritten(DefaultNamespaceStart(), [(None, RngNamespace)]) == Returned("root")
    ensures FindRootElement(DefaultNamespaceStart()) == Returned("doc")
  {
    var e := DefaultNamespaceStart().children[0];
    assert Rng("element") != "element";
    assert FirstIn([e], t => t == "element") == FirstIn(e.children, t => t == "element");
  }

  /** The intended search raises exactly when the root pattern has no children, and
      otherwise names the root after the first element pattern below it in document order,
      or "root" when there is none. */
  lemma FindRootElementSpec(rootPattern: Node)
    ensures FindRootElement(rootPattern).Raised? <==> rootPattern.children == []
    ensures FindRootElement(rootPattern).Raised? ==> FindRootElement(rootPattern).error == ValueError(NoRootPatternMessage)
    ensures var below := DescendantsOf(rootPattern.children);
      FindRootElement(rootPattern).Returned? ==>
        if exists k :: 0 <= k < |below| && IsElementPattern(below[k].tag) then
          exists k :: 0 <= k < |below| && IsElementPattern(below[k].tag) &&
            (forall j :: 0 <= j < k ==> !IsElementPattern(below[j].tag)) &&
            FindRootElement(rootPattern).value == GetOr(below[k], "name", "root")
        else FindRootElement(rootPattern).value == "root"
  {
    var below := DescendantsOf(rootPattern.children);
    FirstInIsFirstMatch(rootPattern.children, IsElementPattern);
    FirstMatchSpec(below, IsElementPattern);
  }

  /** Where the schema binds the RELAX NG namespace to a prefix and writes no un-prefixed
      `element`, the code as written and the intended search agree. */
  lemma PrefixedSchemasAgree(rootPattern: Node, nsmap: seq<(Option<string>, string)>)
    requires RngPrefix(nsmap).Some? && RngPrefix(nsmap).value != ""
    requires forall k :: 0 <= k < |DescendantsOf(rootPattern.children)| ==> DescendantsOf(rootPattern.children)[k].tag != "element"
    ensures FindRootElementAsWritten(rootPattern, nsmap) == FindRootElement(rootPattern)
  {
    var below := DescendantsOf(rootPattern.children);
    FirstInIsFirstMatch(rootPattern.children, IsElementPattern);
    FirstInIsFirstMatch(rootPattern.children, t => t == Rng("element"));
    FirstMatchSame(below, IsElementPattern, t => t == Rng("element"));
  }

  lemma {:induction false} FirstMatchSame(xs: seq<Node>, p: string -> bool, q: string -> bool)
    requires forall k :: 0 <= k < |xs| ==> p(xs[k].tag) == q(xs[k].tag)
    ensures FirstMatch(xs, p) == FirstMatch(xs, q)
    decreases |xs|
  {
    if xs != [] {
      FirstMatchSame(xs[1..], p, q);
    }
  }

  // ----- generate_xml ------------------------------------------------------------------------

  /** The root name of `generate_xml`: the caller's, else the one the root search `found`,
      which must not be empty. */
  function ChooseRootName(rootName: Option<string>, found: PyResult<string>): PyResult<string> {
    if rootName.Some? then Returned(rootName.value)
    else
      match found
      case Raised(e) => Raised(e)
      case Returned(name) => if name == "" then Raised(ValueError(NoRootElementMessage)) else Returned(name)
  }

  /** A root element of the chosen name, filled by generating the root pattern into it with
      `generate_element` as written. */
  function BuildDocument(patterns: map<string, Node>, name: PyResult<string>, rootPattern: Node, src: Source, draw: nat): PyResult<OutElement> {
    match name
    case Raised(e) => Raised(e)
    case Returned(name) =>
      match GenerateElementAsWritten(patterns, rootPattern, OutElement(name, None, []), 0, src, draw)
      case Raised(e) => Raised(e)
      case Returned(s) => Returned(s.tree)
  }

  /** The same, filled with the intended `generate_element`. */
  function BuildDocumentIntended(patterns: map<string, Node>, name: PyResult<string>, rootPattern: Node, src: Source, draw: nat): PyResult<OutElement> {
    match name
    case Raised(e) => Raised(e)
    case Returned(name) =>
      match GenerateElement(patterns, rootPattern, OutElement(name, None, []), 0, src, draw)
      case Raised(e) => Raised(e)
      case Returned(s) => Returned(s.tree)
  }

  /** The document `generate_xml` builds before serialising it. Without a caller's name it
      asks `find_root_element` as written, with the schema's namespace map, and it fills the
      root with `generate_element` as written. */
  function GenerateDocument(patterns: map<string, Node>, rootName: Option<string>, rootPattern: Node, nsmap: seq<(Option<string>, string)>, src: Source, draw: nat): PyResult<OutElement> {
    BuildDocument(patterns, ChooseRootName(rootName, FindRootElementAsWritten(rootPattern, nsmap)), rootPattern, src, draw)
  }

  /** The document `generate_xml` would build with the intended root search and the
      intended depth-limit error. */
  function GenerateDocumentIntended(patterns: map<string, Node>, rootName: Option<string>, rootPattern: Node, src: Source, draw: nat): PyResult<OutElement> {
    BuildDocumentIntended(patterns, ChooseRootName(rootName, FindRootElement(rootPattern)), rootPattern, src, draw)
  }

  /** The caller's root name is used as given; without one the name `find_root_element`
      finds is used, its error passed on, and an empty name rejected; the document's root
      carries that name and no text, with everything generated below it. As written, the
      depth limit never surfaces as a circular-reference error. */
  lemma GenerateDocumentSpec(patterns: map<string, Node>, rootName: Option<string>, rootPattern: Node, nsmap: seq<(Option<string>, string)>, src: Source, draw: nat)
    ensures var found := FindRootElementAsWritten(rootPattern, nsmap);
      rootName.Some? ==> ChooseRootName(rootName, found) == Returned(rootName.value)
    ensures var found := FindRootElementAsWritten(rootPattern, nsmap);
      rootName.None? && found.Raised? ==> GenerateDocument(patterns, rootName, rootPattern, nsmap, src, draw) == Raised(found.error)
    ensures var found := FindRootElementAsWritten(rootPattern, nsmap);
      rootName.None? && found == Returned("") ==>
        GenerateDocument(patterns, rootName, rootPattern, nsmap, src, draw) == Raised(ValueError(NoRootElementMessage))
    ensures var found := FindRootElementAsWritten(rootPattern, nsmap);
      var doc := GenerateDocument(patterns, rootName, rootPattern, nsmap, src, draw);
      doc.Returned? ==>
        ChooseRootName(rootName, found).Returned? &&
        (rootName.None? ==> ChooseRootName(rootName, found).value != "") &&
        doc.value.tag == ChooseRootName(rootName, found).value &&
        doc.value.text == None
    ensures var doc := GenerateDocument(patterns, rootName, rootPattern, nsmap, src, draw);
      doc.Raised? ==> !doc.error.CircularReferenceError?
  {
    var found := FindRootElementAsWritten(rootPattern, nsmap);
    if ChooseRootName(rootName, found).Returned? {
      var name := ChooseRootName(rootName, found).value;
      GenerateExtends(patterns, rootPattern, OutElement(name, None, []), 0, src, draw);
    }
  }

  /** On the schema of the default-namespace finding, with no caller's name, the document
      as written is rooted at "root", where the intended search would root it at "doc". */
  lemma DefaultNamespaceDocument()
    ensures ChooseRootName(None, FindRootElementAsWritten(DefaultNamespaceStart(), [(None, RngNamespace)])) == Returned("root")
    ensures ChooseRootName(None, FindRootElement(DefaultNamespaceStart())) == Returned("doc")
  {
    DefaultNamespaceMissesRoot();
  }

  /** Where the schema binds the RELAX NG namespace to a prefix and writes no un-prefixed
      `element`, the document as written is the intended one, except that the depth-limit
      error is the `NameError` of the undefined class. */
  lemma PrefixedDocumentsAgree(patterns: map<string, Node>, rootName: Option<string>, rootPattern: Node, nsmap: seq<(Option<string>, string)>, src: Source, draw: nat)
    requires RngPrefix(nsmap).Some? && RngPrefix(nsmap).value != ""
    requires forall k :: 0 <= k < |DescendantsOf(rootPattern.children)| ==> DescendantsOf(rootPattern.children)[k].tag != "element"
    ensures GenerateDocument(patterns, rootName, rootPattern, nsmap, src, draw) ==
      AsWritten(GenerateDocumentIntended(patterns, rootName, rootPattern, src, draw))
  {
    PrefixedSchemasAgree(rootPattern, nsmap);
  }
}
