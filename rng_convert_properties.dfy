/** What rng2xsd.py promises about the conversion: the data type map, the two pattern
    tests, the shape an element's content takes, where each converted child goes, the
    occurrence annotations, the attribute priorities, and how the grammar and references
    are followed. */
module RngConvertProperties {
  import opened Wrappers
  import opened RngNode
  import opened RngConvert
  import RngRoot

  // ----- Tags ----------------------------------------------------------------------------------

  /** Two RELAX NG tags differ where their local names differ. */
  lemma RngDiffers(a: string, b: string, k: nat)
    requires k < |a| && k < |b| && a[k] != b[k]
    ensures Rng(a) != Rng(b)
  {
    var prefix := "{" + RngNamespace + "}";
    assert Rng(a)[|prefix| + k] == a[k] && Rng(b)[|prefix| + k] == b[k];
  }

  // ----- The data type map -------------------------------------------------------------------

  /** The eighteen listed names map to their `xs:` forms, anything else to "xs:string". */
  lemma ConvertDataTypeSpec(rngType: string)
    ensures rngType in DataTypeNames ==> ConvertDataType(rngType) == "xs:" + rngType
    ensures rngType !in DataTypeNames ==> ConvertDataType(rngType) == "xs:string"
  {
    if rngType in {"string", "token", "integer", "int", "long", "short"} {
      DataTypeEntries1(rngType);
    } else if rngType in {"byte", "decimal", "float", "double", "boolean", "date"} {
      DataTypeEntries2(rngType);
    } else if rngType in {"dateTime", "time", "anyURI", "ID", "IDREF", "NMTOKEN"} {
      DataTypeEntries3(rngType);
    } else {
      assert rngType !in DataTypes;
    }
  }

  lemma DataTypeEntries1(rngType: string)
    requires rngType in {"string", "token", "integer", "int", "long", "short"}
    ensures rngType in DataTypes && DataTypes[rngType] == "xs:" + rngType
  {
    if rngType == "string" {
      assert "xs:" + rngType == "xs:string";
    } else if rngType == "token" {
      assert "xs:" + rngType == "xs:token";
    } else if rngType == "integer" {
      assert "xs:" + rngType == "xs:integer";
    } else if rngType == "int" {
      assert "xs:" + rngType == "xs:int";
    } else if rngType == "long" {
      assert "xs:" + rngType == "xs:long";
    } else if rngType == "short" {
      assert "xs:" + rngType == "xs:short";
    }
  }

  lemma DataTypeEntries2(rngType: string)
    requires rngType in {"byte", "decimal", "float", "double", "boolean", "date"}
    ensures rngType in DataTypes && DataTypes[rngType] == "xs:" + rngType
  {
    if rngType == "byte" {
      assert "xs:" + rngType == "xs:byte";
    } else if rngType == "decimal" {
      assert "xs:" + rngType == "xs:decimal";
    } else if rngType == "float" {
      assert "xs:" + rngType == "xs:float";
    } else if rngType == "double" {
      assert "xs:" + rngType == "xs:double";
    } else if rngType == "boolean" {
      assert "xs:" + rngType == "xs:boolean";
    } else if rngType == "date" {
      assert "xs:" + rngType == "xs:date";
    }
  }

  lemma DataTypeEntries3(rngType: string)
    requires rngType in {"dateTime", "time", "anyURI", "ID", "IDREF", "NMTOKEN"}
    ensures rngType in DataTypes && DataTypes[rngType] == "xs:" + rngType
  {
    if rngType == "dateTime" {
      assert "xs:" + rngType == "xs:dateTime";
    } else if rngType == "time" {
      assert "xs:" + rngType == "xs:time";
    } else if rngType == "anyURI" {
      assert "xs:" + rngType == "xs:anyURI";
    } else if rngType == "ID" {
      assert "xs:" + rngType == "xs:ID";
    } else if rngType == "IDREF" {
      assert "xs:" + rngType == "xs:IDREF";
    } else if rngType == "NMTOKEN" {
      assert "xs:" + rngType == "xs:NMTOKEN";
    }
  }

  const DataTypeNames: set<string> := {"string", "token", "integer", "int", "long", "short", "byte", "decimal",
    "float", "double", "boolean", "date", "dateTime", "time", "anyURI", "ID", "IDREF", "NMTOKEN"}

  // ----- The pattern tests -------------------------------------------------------------------

  /** `path` leads from `n` through nodes tagged in `through` to a node tagged `target`. */
  predicate Reaches(n: Node, path: seq<nat>, through: set<string>, target: string)
    decreases |path|
  {
    if path == [] then n.tag == target
    else n.tag in through && path[0] < |n.children| && Reaches(n.children[path[0]], path[1..], through, target)
  }

  const AttributeContainers: set<string> := {Rng("optional"), Rng("group")}

  /** A pattern is an attribute pattern exactly when an attribute is reached from it through
      optional and group patterns only. */
  lemma {:induction false} AttributePatternSpec(n: Node)
    ensures IsAttributePattern(n) <==> exists path :: Reaches(n, path, AttributeContainers, Rng("attribute"))
    decreases n
  {
    if IsAttributePattern(n) {
      if n.tag == Rng("attribute") {
        var route: seq<nat> := [];
        assert Reaches(n, route, AttributeContainers, Rng("attribute"));
      } else {
        var k :| 0 <= k < |n.children| && IsAttributePattern(n.children[k]);
        AttributePatternSpec(n.children[k]);
        var below :| Reaches(n.children[k], below, AttributeContainers, Rng("attribute"));
        var route := [k] + below;
        assert route[1..] == below;
        assert Reaches(n, route, AttributeContainers, Rng("attribute"));
      }
      assert exists path :: Reaches(n, path, AttributeContainers, Rng("attribute"));
    } else {
      forall path | Reaches(n, path, AttributeContainers, Rng("attribute"))
        ensures false
      {
        ReachesAttribute(n, path);
      }
    }
  }

  lemma {:induction false} ReachesAttribute(n: Node, path: seq<nat>)
    requires Reaches(n, path, AttributeContainers, Rng("attribute"))
    ensures IsAttributePattern(n)
    decreases |path|
  {
    if path != [] {
      ReachesAttribute(n.children[path[0]], path[1..]);
    }
  }

  /** A pattern is an element pattern exactly when an element is reached from it through
      optional, choice, group, zeroOrMore and oneOrMore patterns only. */
  lemma {:induction false} ElementPatternSpec(n: Node)
    ensures IsElementPattern(n) <==> exists path :: Reaches(n, path, ElementContainers, Rng("element"))
    decreases n
  {
    if IsElementPattern(n) {
      if n.tag == Rng("element") {
        var route: seq<nat> := [];
        assert Reaches(n, route, ElementContainers, Rng("element"));
      } else {
        var k :| 0 <= k < |n.children| && IsElementPattern(n.children[k]);
        ElementPatternSpec(n.children[k]);
        var below :| Reaches(n.children[k], below, ElementContainers, Rng("element"));
        var route := [k] + below;
        assert route[1..] == below;
        assert Reaches(n, route, ElementContainers, Rng("element"));
      }
      assert exists path :: Reaches(n, path, ElementContainers, Rng("element"));
    } else {
      forall path | Reaches(n, path, ElementContainers, Rng("element"))
        ensures false
      {
        ReachesElement(n, path);
      }
    }
  }

  lemma {:induction false} ReachesElement(n: Node, path: seq<nat>)
    requires Reaches(n, path, ElementContainers, Rng("element"))
    ensures IsElementPattern(n)
    decreases |path|
  {
    if path != [] {
      ReachesElement(n.children[path[0]], path[1..]);
    }
  }

  // ----- find -----------------------------------------------------------------------------------

  /** `find` gives the first direct child with the tag, and None when there is none. */
  lemma FindChildSpec(n: Node, tag: string)
    ensures FindChild(n, tag).None? <==> forall k :: 0 <= k < |n.children| ==> n.children[k].tag != tag
    ensures FindChild(n, tag).Some? ==>
      exists k :: 0 <= k < |n.children| && n.children[k] == FindChild(n, tag).value &&
        forall j :: 0 <= j < k ==> n.children[j].tag != tag
  {
    FindFromSpec(n.children, 0, tag);
  }

  lemma {:induction false} FindFromSpec(cs: seq<Node>, i: nat, tag: string)
    requires i <= |cs|
    ensures FindFrom(cs, i, tag).None? <==> forall k :: i <= k < |cs| ==> cs[k].tag != tag
    ensures FindFrom(cs, i, tag).Some? ==>
      exists k :: i <= k < |cs| && cs[k] == FindFrom(cs, i, tag).value && forall j :: i <= j < k ==> cs[j].tag != tag
    decreases |cs| - i
  {
    if i < |cs| && cs[i].tag != tag {
      FindFromSpec(cs, i + 1, tag);
    }
  }

  // ----- The loops over children -------------------------------------------------------------

  /** Converting from position `i` is converting the suffix from its start. */
  lemma {:induction false} ConvertFromSuffix(named: map<Option<string>, Node>, cs: seq<Node>, i: nat, fuel: nat, occ: Occurrence, acc: seq<XsdNode>)
    requires i <= |cs|
    ensures ConvertFrom(named, cs, i, fuel, occ, acc) == ConvertFrom(named, cs[i..], 0, fuel, occ, acc)
    decreases |cs| - i
  {
    if i < |cs| {
      assert cs[i..][0] == cs[i] && cs[i..][1..] == cs[i + 1..];
      match ConvertPattern(named, cs[i], fuel)
      case Done(a) =>
        ConvertFromSuffix(named, cs, i + 1, fuel, occ, acc + Annotated(a, occ));
        ConvertFromSuffix(named, cs[i..], 1, fuel, occ, acc + Annotated(a, occ));
      case Failed(_) =>
      case OutOfFuel =>
    }
  }

  /** Converting a pattern and then a list is converting the list that starts with it. */
  lemma ConvertFromCons(named: map<Option<string>, Node>, c: Node, rest: seq<Node>, fuel: nat, occ: Occurrence, acc: seq<XsdNode>)
    ensures var r := ConvertPattern(named, c, fuel);
      ConvertFrom(named, [c] + rest, 0, fuel, occ, acc) ==
        if r.Failed? then Failed(r.error)
        else if r.OutOfFuel? then OutOfFuel
        else ConvertFrom(named, rest, 0, fuel, occ, acc + Annotated(r.value, occ))
  {
    assert ([c] + rest)[0] == c && ([c] + rest)[1..] == rest;
    if ConvertPattern(named, c, fuel).Done? {
      ConvertFromSuffix(named, [c] + rest, 1, fuel, occ, acc + Annotated(ConvertPattern(named, c, fuel).value, occ));
    }
  }

  lemma SelectCons(cs: seq<Node>, i: nat, p: Node -> bool)
    requires i < |cs|
    ensures p(cs[i]) ==> Select(cs[i..], p) == [cs[i]] + Select(cs[i + 1..], p)
    ensures !p(cs[i]) ==> Select(cs[i..], p) == Select(cs[i + 1..], p)
  {
    assert cs[i..][0] == cs[i] && cs[i..][1..] == cs[i + 1..];
    assert [] + Select(cs[i + 1..], p) == Select(cs[i + 1..], p);
  }

  /** The simple-content loop converts exactly the attribute patterns, in order. */
  lemma {:induction false} AttributesFromSpec(named: map<Option<string>, Node>, cs: seq<Node>, i: nat, fuel: nat, acc: seq<XsdNode>)
    requires i <= |cs|
    ensures AttributesFrom(named, cs, i, fuel, acc) == ConvertFrom(named, Select(cs[i..], IsAttributePattern), 0, fuel, Plain, acc)
    decreases |cs| - i
  {
    if i < |cs| {
      SelectCons(cs, i, IsAttributePattern);
      var rest := Select(cs[i + 1..], IsAttributePattern);
      if IsAttributePattern(cs[i]) {
        ConvertFromCons(named, cs[i], rest, fuel, Plain, acc);
        if ConvertPattern(named, cs[i], fuel).Done? {
          var a := ConvertPattern(named, cs[i], fuel).value;
          assert Annotated(a, Plain) == Nodes(a);
          AttributesFromSpec(named, cs, i + 1, fuel, acc + Nodes(a));
        }
      } else {
        AttributesFromSpec(named, cs, i + 1, fuel, acc);
      }
    }
  }

  /** A grammar without `start` converts exactly its top-level patterns other than the
      defines, in order. */
  lemma {:induction false} TopLevelFromSpec(named: map<Option<string>, Node>, cs: seq<Node>, i: nat, fuel: nat, acc: seq<XsdNode>)
    requires i <= |cs|
    ensures TopLevelFrom(named, cs, i, fuel, acc) == ConvertFrom(named, Select(cs[i..], IsTopLevel), 0, fuel, Plain, acc)
    decreases |cs| - i
  {
    if i < |cs| {
      SelectCons(cs, i, IsTopLevel);
      var rest := Select(cs[i + 1..], IsTopLevel);
      if IsTopLevel(cs[i]) {
        ConvertFromCons(named, cs[i], rest, fuel, Plain, acc);
        if ConvertPattern(named, cs[i], fuel).Done? {
          var a := ConvertPattern(named, cs[i], fuel).value;
          assert Annotated(a, Plain) == Nodes(a);
          TopLevelFromSpec(named, cs, i + 1, fuel, acc + Nodes(a));
        }
      } else {
        TopLevelFromSpec(named, cs, i + 1, fuel, acc);
      }
    }
  }

  /** The complex-content loop: with a sequence, the attribute patterns are converted into
      the complex type and the other non-text patterns into the sequence, each in order;
      without one, every pattern but the non-attribute text goes to the complex type, in
      order. */
  lemma ComplexFromSpec(named: map<Option<string>, Node>, cs: seq<Node>, i: nat, fuel: nat, withSequence: bool, acc: Parts)
    requires i <= |cs|
    ensures var r := ComplexFrom(named, cs, i, fuel, withSequence, acc);
      r.Done? && withSequence ==>
        ConvertFrom(named, Select(cs[i..], GoesToContent), 0, fuel, Plain, acc.content) == Done(r.value.content) &&
        ConvertFrom(named, Select(cs[i..], IsAttributePattern), 0, fuel, Plain, acc.typeLevel) == Done(r.value.typeLevel)
    ensures var r := ComplexFrom(named, cs, i, fuel, withSequence, acc);
      r.Done? && !withSequence ==>
        r.value.content == acc.content &&
        ConvertFrom(named, Select(cs[i..], IsConverted), 0, fuel, Plain, acc.typeLevel) == Done(r.value.typeLevel)
  {
    if withSequence {
      SequenceFromSpec(named, cs, i, fuel, acc);
    } else {
      FlatFromSpec(named, cs, i, fuel, acc);
    }
  }

  lemma {:induction false} SequenceFromSpec(named: map<Option<string>, Node>, cs: seq<Node>, i: nat, fuel: nat, acc: Parts)
    requires i <= |cs|
    ensures var r := ComplexFrom(named, cs, i, fuel, true, acc);
      r.Done? ==>
        ConvertFrom(named, Select(cs[i..], GoesToContent), 0, fuel, Plain, acc.content) == Done(r.value.content) &&
        ConvertFrom(named, Select(cs[i..], IsAttributePattern), 0, fuel, Plain, acc.typeLevel) == Done(r.value.typeLevel)
    decreases |cs| - i
  {
    if i < |cs| {
      SelectCons(cs, i, GoesToContent);
      SelectCons(cs, i, IsAttributePattern);
      if !IsAttributePattern(cs[i]) && cs[i].tag == Rng("text") {
        SequenceFromSpec(named, cs, i + 1, fuel, acc);
      } else if ConvertPattern(named, cs[i], fuel).Done? {
        var a := ConvertPattern(named, cs[i], fuel).value;
        assert Annotated(a, Plain) == Nodes(a);
        var next :=
          if IsAttributePattern(cs[i]) then acc.(typeLevel := acc.typeLevel + Nodes(a))
          else acc.(content := acc.content + Nodes(a));
        SequenceFromSpec(named, cs, i + 1, fuel, next);
        ConvertFromCons(named, cs[i], Select(cs[i + 1..], GoesToContent), fuel, Plain, acc.content);
        ConvertFromCons(named, cs[i], Select(cs[i + 1..], IsAttributePattern), fuel, Plain, acc.typeLevel);
      }
    }
  }

  lemma {:induction false} FlatFromSpec(named: map<Option<string>, Node>, cs: seq<Node>, i: nat, fuel: nat, acc: Parts)
    requires i <= |cs|
    ensures var r := ComplexFrom(named, cs, i, fuel, false, acc);
      r.Done? ==>
        r.value.content == acc.content &&
        ConvertFrom(named, Select(cs[i..], IsConverted), 0, fuel, Plain, acc.typeLevel) == Done(r.value.typeLevel)
    decreases |cs| - i
  {
    if i < |cs| {
      SelectCons(cs, i, IsConverted);
      if !IsAttributePattern(cs[i]) && cs[i].tag == Rng("text") {
        FlatFromSpec(named, cs, i + 1, fuel, acc);
      } else if ConvertPattern(named, cs[i], fuel).Done? {
        var a := ConvertPattern(named, cs[i], fuel).value;
        assert Annotated(a, Plain) == Nodes(a);
        var next := acc.(typeLevel := acc.typeLevel + Nodes(a));
        FlatFromSpec(named, cs, i + 1, fuel, next);
        ConvertFromCons(named, cs[i], Select(cs[i + 1..], IsConverted), fuel, Plain, acc.typeLevel);
      }
    }
  }

  // ----- Elements ----------------------------------------------------------------------------

  /** `_convert_element` fails where naming the element fails, and otherwise exactly where
      converting the children of a simple or complex content fails, with that child's
      error; a text-only or empty element always converts. A converted element is the one
      it creates, named as `ElementName` says, with no attribute but its name and its type. */
  lemma ConvertElementSpec(named: map<Option<string>, Node>, n: Node, fuel: nat)
    ensures ElementName(n).Raised? ==> ConvertElement(named, n, fuel) == Failed(ElementName(n).error)
    ensures ElementName(n).Returned? && Shape(n.children) == StringContent ==> ConvertElement(named, n, fuel).Done?
    ensures ElementName(n).Returned? && Shape(n.children) == SimpleContent ==>
      (ConvertElement(named, n, fuel).Failed? <==> AttributesFrom(named, n.children, 0, fuel, []).Failed?) &&
      (ConvertElement(named, n, fuel).Failed? ==>
        ConvertElement(named, n, fuel).error == AttributesFrom(named, n.children, 0, fuel, []).error)
    ensures ElementName(n).Returned? && Shape(n.children) == ComplexContent ==>
      var withSequence := AnyElement(n.children) || |n.children| > 1;
      (ConvertElement(named, n, fuel).Failed? <==> ComplexFrom(named, n.children, 0, fuel, withSequence, Parts([], [])).Failed?) &&
      (ConvertElement(named, n, fuel).Failed? ==>
        ConvertElement(named, n, fuel).error == ComplexFrom(named, n.children, 0, fuel, withSequence, Parts([], [])).error)
    ensures var r := ConvertElement(named, n, fuel);
      r.Done? ==>
        r.value.Created? && r.value.node.tag == Xs("element") &&
        r.value.node.attributes.Keys <= {"name", "type"} &&
        ElementName(n).Returned? &&
        ("name" in r.value.node.attributes <==> ElementName(n).value.Some?) &&
        ("name" in r.value.node.attributes ==> r.value.node.attributes["name"] == ElementName(n).value.value)
  {
    match Shape(n.children)
    case StringContent => StringElementNamed(named, n, fuel);
    case SimpleContent => SimpleElementNamed(named, n, fuel);
    case ComplexContent => ComplexElementNamed(named, n, fuel);
  }

  /** A named element pattern whose only child is an attribute pattern without a `name`:
      the element is named, but the attribute's conversion raises lxml's `TypeError`, and
      the element's conversion raises it too. */
  lemma NamelessAttributeFailsElement()
    ensures var n := Node(Rng("element"), map["name" := "x"], None, [Node(Rng("attribute"), map[], None, [])]);
      ElementName(n) == Returned(Some("x")) &&
      ConvertElement(map[], n, 0) == Failed(TypeError(NoneValueMessage))
  {
    var a := Node(Rng("attribute"), map[], None, []);
    var n := Node(Rng("element"), map["name" := "x"], None, [a]);
    ConvertElementSpec(map[], n, 0);
    AttributePatternSpec(a);
    assert Shape(n.children) == ComplexContent;
  }

  /** `a` is an element created for the pattern `n`, carrying the name `ElementName` gives
      and possibly a type, and no other attribute. */
  predicate NamedAsElement(n: Node, a: Appended) {
    a.Created? && a.node.tag == Xs("element") &&
    a.node.attributes.Keys <= {"name", "type"} &&
    ElementName(n).Returned? &&
    ("name" in a.node.attributes <==> ElementName(n).value.Some?) &&
    ("name" in a.node.attributes ==> a.node.attributes["name"] == ElementName(n).value.value)
  }

  lemma StringElementNamed(named: map<Option<string>, Node>, n: Node, fuel: nat)
    requires Shape(n.children) == StringContent
    ensures ConvertElement(named, n, fuel).Done? ==> NamedAsElement(n, ConvertElement(named, n, fuel).value)
  {
  }

  lemma SimpleElementNamed(named: map<Option<string>, Node>, n: Node, fuel: nat)
    requires Shape(n.children) == SimpleContent
    ensures ConvertElement(named, n, fuel).Done? ==> NamedAsElement(n, ConvertElement(named, n, fuel).value)
  {
  }

  lemma ComplexElementNamed(named: map<Option<string>, Node>, n: Node, fuel: nat)
    requires Shape(n.children) == ComplexContent
    ensures ConvertElement(named, n, fuel).Done? ==> NamedAsElement(n, ConvertElement(named, n, fuel).value)
  {
  }

  /** An element pattern without children, or with text alone, becomes an element of type
      "xs:string" with no content. */
  lemma StringElementSpec(named: map<Option<string>, Node>, n: Node, fuel: nat)
    requires ElementName(n).Returned?
    requires n.children == [] || (AnyText(n.children) && !AnyElement(n.children) && !AnyAttribute(n.children))
    ensures var r := ConvertElement(named, n, fuel);
      r.Done? && r.value.Created? && r.value.node.children == [] &&
      "type" in r.value.node.attributes && r.value.node.attributes["type"] == "xs:string"
  {
  }

  /** An element pattern with text and attributes but no elements gets simple content that
      extends "xs:string" with its attribute patterns, converted in order. */
  lemma SimpleContentElementSpec(named: map<Option<string>, Node>, n: Node, fuel: nat)
    requires AnyText(n.children) && AnyAttribute(n.children) && !AnyElement(n.children)
    ensures var r, attributes := ConvertElement(named, n, fuel), ConvertFrom(named, Select(n.children, IsAttributePattern), 0, fuel, Plain, []);
      r.Done? ==>
        r.value.Created? && "type" !in r.value.node.attributes && attributes.Done? &&
        var extension := XsdNode(Xs("extension"), map["base" := "xs:string"], attributes.value);
        r.value.node.children == [XsdNode(Xs("complexType"), map[], [XsdNode(Xs("simpleContent"), map[], [extension])])]
  {
    assert n.children[0..] == n.children;
    AttributesFromSpec(named, n.children, 0, fuel, []);
  }

  /** Any other element pattern (it has elements, or no text) gets a complex type, mixed
      exactly when there are both text and elements. With elements or more than one child
      the type holds a sequence of the other non-text patterns followed by the attribute
      patterns; otherwise it holds every converted pattern directly, in order. */
  lemma ComplexContentElementSpec(named: map<Option<string>, Node>, n: Node, fuel: nat)
    requires n.children != [] && (AnyElement(n.children) || !AnyText(n.children))
    ensures var r, cs := ConvertElement(named, n, fuel), n.children;
      r.Done? ==>
        r.value.Created? && "type" !in r.value.node.attributes &&
        |r.value.node.children| == 1 &&
        var complexType := r.value.node.children[0];
        complexType.tag == Xs("complexType") &&
        ("mixed" in complexType.attributes <==> AnyText(cs) && AnyElement(cs)) &&
        complexType.attributes.Keys <= {"mixed"} &&
        ("mixed" in complexType.attributes ==> complexType.attributes["mixed"] == "true") &&
        if AnyElement(cs) || |cs| > 1 then
          ConvertFrom(named, Select(cs, GoesToContent), 0, fuel, Plain, []).Done? &&
          ConvertFrom(named, Select(cs, IsAttributePattern), 0, fuel, Plain, []).Done? &&
          complexType.children ==
            [XsdNode(Xs("sequence"), map[], ConvertFrom(named, Select(cs, GoesToContent), 0, fuel, Plain, []).value)] +
            ConvertFrom(named, Select(cs, IsAttributePattern), 0, fuel, Plain, []).value
        else
          ConvertFrom(named, Select(cs, IsConverted), 0, fuel, Plain, []).Done? &&
          complexType.children == ConvertFrom(named, Select(cs, IsConverted), 0, fuel, Plain, []).value
  {
    ComplexContentHeader(named, n, fuel);
    ComplexContentChildren(named, n, fuel);
  }

  /** The element and the complex type it holds, without the type's children. */
  lemma ComplexContentHeader(named: map<Option<string>, Node>, n: Node, fuel: nat)
    requires Shape(n.children) == ComplexContent
    ensures var r, cs := ConvertElement(named, n, fuel), n.children;
      r.Done? ==>
        r.value.Created? && "type" !in r.value.node.attributes &&
        |r.value.node.children| == 1 &&
        var complexType := r.value.node.children[0];
        complexType.tag == Xs("complexType") &&
        ("mixed" in complexType.attributes <==> AnyText(cs) && AnyElement(cs)) &&
        complexType.attributes.Keys <= {"mixed"} &&
        ("mixed" in complexType.attributes ==> complexType.attributes["mixed"] == "true")
  {
  }

  /** The children of the complex type. */
  lemma ComplexContentChildren(named: map<Option<string>, Node>, n: Node, fuel: nat)
    requires Shape(n.children) == ComplexContent
    ensures var r, cs := ConvertElement(named, n, fuel), n.children;
      r.Done? ==>
        r.value.Created? && |r.value.node.children| == 1 &&
        var complexType := r.value.node.children[0];
        if AnyElement(cs) || |cs| > 1 then
          ConvertFrom(named, Select(cs, GoesToContent), 0, fuel, Plain, []).Done? &&
          ConvertFrom(named, Select(cs, IsAttributePattern), 0, fuel, Plain, []).Done? &&
          complexType.children ==
            [XsdNode(Xs("sequence"), map[], ConvertFrom(named, Select(cs, GoesToContent), 0, fuel, Plain, []).value)] +
            ConvertFrom(named, Select(cs, IsAttributePattern), 0, fuel, Plain, []).value
        else
          ConvertFrom(named, Select(cs, IsConverted), 0, fuel, Plain, []).Done? &&
          complexType.children == ConvertFrom(named, Select(cs, IsConverted), 0, fuel, Plain, []).value
  {
    var cs := n.children;
    assert cs[0..] == cs;
    ComplexFromSpec(named, cs, 0, fuel, AnyElement(cs) || |cs| > 1, Parts([], []));
  }

  // ----- Occurrences ---------------------------------------------------------------------------

  /** The attributes each occurrence sets. */
  function Touched(occ: Occurrence): set<string> {
    match occ
    case Plain => {}
    case Optional => {"minOccurs"}
    case _ => {"minOccurs", "maxOccurs"}
  }

  /** optional sets minOccurs to "0" only where it is absent; zeroOrMore sets "0" and
      "unbounded" and oneOrMore "1" and "unbounded", replacing what was there; nothing else
      about the node changes. */
  lemma AnnotateSpec(node: XsdNode, occ: Occurrence)
    ensures var r := Annotate(node, occ);
      r.tag == node.tag && r.children == node.children &&
      (forall key :: key !in Touched(occ) ==>
        (key in r.attributes <==> key in node.attributes) &&
        (key in node.attributes ==> r.attributes[key] == node.attributes[key]))
    ensures var r := Annotate(node, occ);
      occ == Optional ==>
        "minOccurs" in r.attributes &&
        r.attributes["minOccurs"] == (if "minOccurs" in node.attributes then node.attributes["minOccurs"] else "0")
    ensures var r := Annotate(node, occ);
      occ in {ZeroOrMore, OneOrMore} ==>
        "minOccurs" in r.attributes && "maxOccurs" in r.attributes &&
        r.attributes["minOccurs"] == (if occ == ZeroOrMore then "0" else "1") &&
        r.attributes["maxOccurs"] == "unbounded"
  {
  }

  /** A loop finishes only when every child converts. */
  lemma {:induction false} ConvertFromDone(named: map<Option<string>, Node>, cs: seq<Node>, i: nat, fuel: nat, occ: Occurrence, acc: seq<XsdNode>)
    requires i <= |cs|
    ensures ConvertFrom(named, cs, i, fuel, occ, acc).Done? ==> forall k :: i <= k < |cs| ==> ConvertPattern(named, cs[k], fuel).Done?
    decreases |cs| - i
  {
    if i < |cs| && ConvertPattern(named, cs[i], fuel).Done? {
      ConvertFromDone(named, cs, i + 1, fuel, occ, acc + Annotated(ConvertPattern(named, cs[i], fuel).value, occ));
    }
  }

  /** One turn of the conversion loop over a child whose conversion succeeds. */
  lemma ConvertFromStep(named: map<Option<string>, Node>, cs: seq<Node>, i: nat, fuel: nat, occ: Occurrence, acc: seq<XsdNode>)
    requires i < |cs| && ConvertPattern(named, cs[i], fuel).Done?
    ensures ConvertFrom(named, cs, i, fuel, occ, acc) ==
      ConvertFrom(named, cs, i + 1, fuel, occ, acc + Annotated(ConvertPattern(named, cs[i], fuel).value, occ))
  {
  }

  /** Each node annotated for `occ`, in order. */
  function AnnotateEach(nodes: seq<XsdNode>, occ: Occurrence): (r: seq<XsdNode>)
    ensures |r| == |nodes|
  {
    if nodes == [] then [] else [Annotate(nodes[0], occ)] + AnnotateEach(nodes[1..], occ)
  }

  /** Node `k` of the annotated nodes is node `k` annotated. */
  lemma {:induction false} AnnotateEachAt(nodes: seq<XsdNode>, occ: Occurrence, k: nat)
    requires k < |nodes|
    ensures AnnotateEach(nodes, occ)[k] == Annotate(nodes[k], occ)
    decreases k
  {
    if k > 0 {
      AnnotateEachAt(nodes[1..], occ, k - 1);
    }
  }

  lemma AnnotateEachStep(nodes: seq<XsdNode>, i: nat, occ: Occurrence)
    requires i < |nodes|
    ensures AnnotateEach(nodes[i..], occ) == [Annotate(nodes[i], occ)] + AnnotateEach(nodes[i + 1..], occ)
  {
    assert nodes[i..][0] == nodes[i] && nodes[i..][1..] == nodes[i + 1..];
  }

  /** Where every child's conversion returns the node it created, the loop appends each of
      those nodes annotated, in order. */
  lemma {:induction false} CreatedAreAnnotated(named: map<Option<string>, Node>, cs: seq<Node>, i: nat, fuel: nat, occ: Occurrence, acc: seq<XsdNode>, nodes: seq<XsdNode>)
    requires i <= |cs| && |nodes| == |cs|
    requires forall k :: i <= k < |cs| ==> ConvertPattern(named, cs[k], fuel) == Done(Created(nodes[k]))
    ensures ConvertFrom(named, cs, i, fuel, occ, acc) == Done(acc + AnnotateEach(nodes[i..], occ))
    decreases |cs| - i
  {
    if i == |cs| {
      assert nodes[i..] == [];
      assert acc + [] == acc;
    } else {
      var next := acc + [Annotate(nodes[i], occ)];
      assert Annotated(Created(nodes[i]), occ) == [Annotate(nodes[i], occ)];
      ConvertFromStep(named, cs, i, fuel, occ, acc);
      CreatedAreAnnotated(named, cs, i + 1, fuel, occ, next, nodes);
      AnnotateEachStep(nodes, i, occ);
      assert next + AnnotateEach(nodes[i + 1..], occ) == acc + AnnotateEach(nodes[i..], occ);
    }
  }

  /** Where no child's conversion returns a node, the occurrence changes nothing. */
  lemma {:induction false} UncreatedAreNotAnnotated(named: map<Option<string>, Node>, cs: seq<Node>, i: nat, fuel: nat, occ: Occurrence, acc: seq<XsdNode>)
    requires i <= |cs|
    requires forall k :: i <= k < |cs| ==> !(ConvertPattern(named, cs[k], fuel).Done? && ConvertPattern(named, cs[k], fuel).value.Created?)
    ensures ConvertFrom(named, cs, i, fuel, occ, acc) == ConvertFrom(named, cs, i, fuel, Plain, acc)
    decreases |cs| - i
  {
    if i < |cs| && ConvertPattern(named, cs[i], fuel).Done? {
      UncreatedAreNotAnnotated(named, cs, i + 1, fuel, occ, acc + ConvertPattern(named, cs[i], fuel).value.nodes);
    }
  }

  /** The patterns whose conversion returns the node it created. */
  const CreatingTags: set<string> := {Rng("element"), Rng("attribute"), Rng("choice"), Rng("group"), Rng("interleave")}

  /** Only element, attribute, choice, group and interleave patterns return a node, so only
      they are annotated: an element or attribute of the same kind, a choice, or a sequence. */
  lemma ConvertPatternReturns(named: map<Option<string>, Node>, n: Node, fuel: nat)
    ensures var r := ConvertPattern(named, n, fuel);
      r.Done? ==> (r.value.Created? <==> n.tag in CreatingTags)
    ensures var r := ConvertPattern(named, n, fuel);
      r.Done? && r.value.Created? ==>
        r.value.node.tag ==
          if n.tag == Rng("element") then Xs("element")
          else if n.tag == Rng("attribute") then Xs("attribute")
          else if n.tag == Rng("choice") then Xs("choice")
          else Xs("sequence")
  {
    if n.tag in CreatingTags {
      CreatingPatternReturns(named, n, fuel);
    } else {
      OtherPatternAppends(named, n, fuel);
    }
  }

  lemma CreatingPatternReturns(named: map<Option<string>, Node>, n: Node, fuel: nat)
    requires n.tag in CreatingTags
    ensures var r := ConvertPattern(named, n, fuel);
      r.Done? ==>
        r.value.Created? &&
        r.value.node.tag ==
          if n.tag == Rng("element") then Xs("element")
          else if n.tag == Rng("attribute") then Xs("attribute")
          else if n.tag == Rng("choice") then Xs("choice")
          else Xs("sequence")
  {
    if n.tag == Rng("element") {
      ConvertElementSpec(named, n, fuel);
    } else if n.tag == Rng("attribute") {
      AttributePatternReturns(named, n, fuel);
    } else {
      ContainerPatternReturns(named, n, fuel);
    }
  }

  lemma AttributePatternReturns(named: map<Option<string>, Node>, n: Node, fuel: nat)
    requires n.tag == Rng("attribute")
    ensures var r := ConvertPattern(named, n, fuel);
      r.Done? ==> r.value.Created? && r.value.node.tag == Xs("attribute")
  {
    RngDiffers("attribute", "element", 0);
    ConvertAttributeSpec(n);
  }

  lemma ContainerPatternReturns(named: map<Option<string>, Node>, n: Node, fuel: nat)
    requires n.tag in {Rng("choice"), Rng("group"), Rng("interleave")}
    ensures var r := ConvertPattern(named, n, fuel);
      r.Done? ==> r.value.Created? && r.value.node.tag == if n.tag == Rng("choice") then Xs("choice") else Xs("sequence")
  {
    RngDiffers("interleave", "zeroOrMore", 0);
    RngDiffers("interleave", "oneOrMore", 0);
    RngDiffers("interleave", "optional", 0);
    RngDiffers("group", "zeroOrMore", 0);
    RngDiffers("group", "oneOrMore", 0);
    RngDiffers("group", "optional", 0);
  }

  lemma OtherPatternAppends(named: map<Option<string>, Node>, n: Node, fuel: nat)
    requires n.tag !in CreatingTags
    ensures ConvertPattern(named, n, fuel).Done? ==> ConvertPattern(named, n, fuel).value.Appended?
  {
  }

  /** The occurrence wrappers convert their children with their own occurrence. */
  lemma RepetitionDispatch(named: map<Option<string>, Node>, n: Node, fuel: nat)
    requires n.tag in {Rng("optional"), Rng("zeroOrMore"), Rng("oneOrMore")}
    ensures n.tag == Rng("optional") ==> ConvertPattern(named, n, fuel) == Repetition(named, n, Optional, fuel)
    ensures n.tag == Rng("zeroOrMore") ==> ConvertPattern(named, n, fuel) == Repetition(named, n, ZeroOrMore, fuel)
    ensures n.tag == Rng("oneOrMore") ==> ConvertPattern(named, n, fuel) == Repetition(named, n, OneOrMore, fuel)
  {
    RngDiffers("attribute", "oneOrMore", 0);
  }

  /** A converted element pattern is a created element with no occurrence bounds of its
      own. */
  lemma ElementPatternCreated(named: map<Option<string>, Node>, c: Node, fuel: nat)
    requires c.tag == Rng("element")
    ensures var r := ConvertPattern(named, c, fuel);
      r.Done? ==>
        r.value.Created? && r.value.node.tag == Xs("element") &&
        "minOccurs" !in r.value.node.attributes && "maxOccurs" !in r.value.node.attributes
  {
    ConvertElementSpec(named, c, fuel);
  }

  /** An XSD element carrying the occurrence bounds of `occ`. */
  predicate BoundedElement(x: XsdNode, occ: Occurrence) {
    x.tag == Xs("element") && "minOccurs" in x.attributes &&
    x.attributes["minOccurs"] == (if occ == OneOrMore then "1" else "0") &&
    ("maxOccurs" in x.attributes <==> occ != Optional) &&
    ("maxOccurs" in x.attributes ==> x.attributes["maxOccurs"] == "unbounded")
  }

  /** Element patterns converted with a repeating occurrence append one bounded XSD
      element each. */
  lemma {:induction false} AnnotatedElements(named: map<Option<string>, Node>, cs: seq<Node>, i: nat, fuel: nat, occ: Occurrence, acc: seq<XsdNode>)
    requires i <= |cs| && occ != Plain
    requires forall k :: i <= k < |cs| ==> cs[k].tag == Rng("element")
    ensures var r := ConvertFrom(named, cs, i, fuel, occ, acc);
      r.Done? ==>
        |r.value| == |acc| + |cs| - i && r.value[..|acc|] == acc &&
        forall k :: |acc| <= k < |r.value| ==> BoundedElement(r.value[k], occ)
    decreases |cs| - i
  {
    if i < |cs| {
      ElementPatternCreated(named, cs[i], fuel);
      var c := ConvertPattern(named, cs[i], fuel);
      if c.Done? {
        var x := Annotate(c.value.node, occ);
        AnnotateSpec(c.value.node, occ);
        assert BoundedElement(x, occ);
        assert Annotated(c.value, occ) == [x];
        var next := acc + [x];
        AnnotatedElements(named, cs, i + 1, fuel, occ, next);
        var r := ConvertFrom(named, cs, i + 1, fuel, occ, next);
        if r.Done? {
          assert r.value[..|next|] == next;
          assert r.value[..|acc|] == next[..|acc|] == acc;
          assert r.value[|acc|] == next[|acc|] == x;
        }
      }
    }
  }

  /** Element patterns under optional, zeroOrMore or oneOrMore each become one XSD element
      with the wrapper's occurrence bounds: minOccurs "0" and no maxOccurs, "0" and
      "unbounded", "1" and "unbounded". */
  lemma RepeatedElements(named: map<Option<string>, Node>, n: Node, fuel: nat)
    requires n.tag in {Rng("optional"), Rng("zeroOrMore"), Rng("oneOrMore")}
    requires forall k :: 0 <= k < |n.children| ==> n.children[k].tag == Rng("element")
    ensures var r := ConvertPattern(named, n, fuel);
      r.Done? ==>
        r.value.Appended? && |r.value.nodes| == |n.children| &&
        forall k :: 0 <= k < |n.children| ==>
          r.value.nodes[k].tag == Xs("element") &&
          "minOccurs" in r.value.nodes[k].attributes &&
          r.value.nodes[k].attributes["minOccurs"] == (if n.tag == Rng("oneOrMore") then "1" else "0") &&
          ("maxOccurs" in r.value.nodes[k].attributes <==> n.tag != Rng("optional")) &&
          ("maxOccurs" in r.value.nodes[k].attributes ==> r.value.nodes[k].attributes["maxOccurs"] == "unbounded")
  {
    RepetitionDispatch(named, n, fuel);
    RngDiffers("optional", "oneOrMore", 1);
    RngDiffers("zeroOrMore", "oneOrMore", 0);
    RngDiffers("optional", "zeroOrMore", 0);
    var occ := if n.tag == Rng("optional") then Optional else if n.tag == Rng("zeroOrMore") then ZeroOrMore else OneOrMore;
    assert ConvertPattern(named, n, fuel) == Repetition(named, n, occ, fuel);
    AnnotatedElements(named, n.children, 0, fuel, occ, []);
  }

  // ----- Attributes ----------------------------------------------------------------------------

  /** The enumeration facets are the `value` texts in order; a `value` without text
      raises. */
  lemma {:induction false} EnumerationsSpec(values: seq<Node>, i: nat, acc: seq<XsdNode>)
    requires i <= |values|
    ensures Enumerations(values, i, acc).Returned? <==> forall k :: i <= k < |values| ==> values[k].text.Some?
    ensures Enumerations(values, i, acc).Raised? ==> Enumerations(values, i, acc).error == TypeError(NoneValueMessage)
    ensures var r := Enumerations(values, i, acc);
      r.Returned? ==>
        |r.value| == |acc| + |values| - i && r.value[..|acc|] == acc &&
        forall k :: i <= k < |values| ==>
          values[k].text.Some? && r.value[|acc| + k - i] == XsdNode(Xs("enumeration"), map["value" := values[k].text.value], [])
    decreases |values| - i
  {
    if i < |values| && values[i].text.Some? {
      var next := acc + [XsdNode(Xs("enumeration"), map["value" := values[i].text.value], [])];
      EnumerationsSpec(values, i + 1, next);
      var r := Enumerations(values, i + 1, next);
      if r.Returned? {
        assert r.value[..|acc|] == r.value[..|next|][..|acc|];
      }
    }
  }

  /** `_convert_attribute` needs a name, and the attribute it returns carries it. Its type
      comes from a `data` child first; without one, a `value` child fixes the value as an
      "xs:string"; without either, the type is "xs:string" unless a `choice` child gives an
      enumeration. */
  lemma ConvertAttributeSpec(n: Node)
    ensures Get(n, "name").None? ==> ConvertAttribute(n) == Raised(TypeError(NoneValueMessage))
    ensures var r := ConvertAttribute(n);
      r.Returned? ==>
        Get(n, "name").Some? && r.value.tag == Xs("attribute") &&
        "name" in r.value.attributes && r.value.attributes["name"] == Get(n, "name").value
    ensures var r, data := ConvertAttribute(n), FindChild(n, Rng("data"));
      Get(n, "name").Some? && data.Some? ==>
        r.Returned? && r.value.children == [] && "fixed" !in r.value.attributes &&
        "type" in r.value.attributes && r.value.attributes["type"] == ConvertDataType(GetOr(data.value, "type", "string"))
    ensures var r, value := ConvertAttribute(n), FindChild(n, Rng("value"));
      Get(n, "name").Some? && FindChild(n, Rng("data")).None? && value.Some? ==>
        (r.Raised? <==> value.value.text.None?) &&
        (r.Returned? ==>
          value.value.text.Some? && r.value.children == [] &&
          "fixed" in r.value.attributes && r.value.attributes["fixed"] == value.value.text.value &&
          "type" in r.value.attributes && r.value.attributes["type"] == "xs:string")
    ensures var r := ConvertAttribute(n);
      Get(n, "name").Some? && FindChild(n, Rng("data")).None? && FindChild(n, Rng("value")).None? && FindChild(n, Rng("choice")).None? ==>
        r.Returned? && r.value.children == [] && "fixed" !in r.value.attributes &&
        "type" in r.value.attributes && r.value.attributes["type"] == "xs:string"
  {
  }

  /** Without `data` and `value` children, a `choice` child makes the attribute an
      enumeration of its `value` children's texts, in order, restricting "xs:string"; a
      `value` without text raises. */
  lemma EnumeratedAttributeSpec(n: Node)
    requires Get(n, "name").Some? && FindChild(n, Rng("data")).None? && FindChild(n, Rng("value")).None?
    requires FindChild(n, Rng("choice")).Some?
    ensures var r, values := ConvertAttribute(n), Select(FindChild(n, Rng("choice")).value.children, IsValue);
      (r.Raised? <==> exists k :: 0 <= k < |values| && values[k].text.None?) &&
      (r.Returned? ==>
        r.value.attributes.Keys == {"name"} && |r.value.children| == 1 &&
        var simpleType := r.value.children[0];
        simpleType.tag == Xs("simpleType") && |simpleType.children| == 1 &&
        var restriction := simpleType.children[0];
        restriction.tag == Xs("restriction") && restriction.attributes == map["base" := "xs:string"] &&
        |restriction.children| == |values| &&
        forall k :: 0 <= k < |values| ==>
          values[k].text.Some? &&
          restriction.children[k] == XsdNode(Xs("enumeration"), map["value" := values[k].text.value], []))
  {
    var values := Select(FindChild(n, Rng("choice")).value.children, IsValue);
    EnumerationsSpec(values, 0, []);
    if ConvertAttribute(n).Returned? {
      var enums := Enumerations(values, 0, []).value;
      forall k | 0 <= k < |values|
        ensures values[k].text.Some? && enums[k] == XsdNode(Xs("enumeration"), map["value" := values[k].text.value], [])
      {
        assert enums[0 + k - 0] == enums[k];
      }
    }
  }

  // ----- References and the grammar ---------------------------------------------------------------

  /** A reference to a name with no define produces nothing; one to a define converts that
      define's children into the parent in its place, returning no node, so an enclosing
      occurrence annotates none of them. */
  lemma ConvertRefSpec(named: map<Option<string>, Node>, n: Node, fuel: nat)
    requires n.tag == Rng("ref")
    ensures Get(n, "name") !in named ==> ConvertPattern(named, n, fuel) == Done(Appended([]))
    ensures Get(n, "name") in named && fuel > 0 ==>
      var inlined := ConvertFrom(named, named[Get(n, "name")].children, 0, fuel - 1, Plain, []);
      (ConvertPattern(named, n, fuel).Done? <==> inlined.Done?) &&
      (inlined.Done? ==> ConvertPattern(named, n, fuel) == Done(Appended(inlined.value)))
  {
  }

  /** `_convert_grammar` converts the children of the first `start` child when there is
      one, and otherwise every top-level pattern that is not a define, in order. */
  lemma ConvertGrammarSpec(named: map<Option<string>, Node>, root: Node, fuel: nat)
    ensures FindChild(root, Rng("start")).Some? ==>
      ConvertGrammar(named, root, fuel) == ConvertFrom(named, FindChild(root, Rng("start")).value.children, 0, fuel, Plain, [])
    ensures FindChild(root, Rng("start")).None? ==>
      ConvertGrammar(named, root, fuel) == ConvertFrom(named, Select(root.children, IsTopLevel), 0, fuel, Plain, [])
  {
    assert root.children[0..] == root.children;
    TopLevelFromSpec(named, root.children, 0, fuel, []);
  }

  // ----- Named patterns -----------------------------------------------------------------------

  predicate Defines(n: Node, key: Option<string>) {
    IsDefine(n) && Get(n, "name") == key
  }

  lemma {:induction false} NamedFromSpec(xs: seq<Node>, i: nat, acc: map<Option<string>, Node>, key: Option<string>)
    requires i <= |xs|
    ensures key in NamedFrom(xs, i, acc) <==> key in acc || exists k :: i <= k < |xs| && Defines(xs[k], key)
    ensures (exists k :: i <= k < |xs| && Defines(xs[k], key)) ==>
      exists k :: i <= k < |xs| && Defines(xs[k], key) && NamedFrom(xs, i, acc)[key] == xs[k] &&
        forall j :: k < j < |xs| ==> !Defines(xs[j], key)
    ensures (forall k :: i <= k < |xs| ==> !Defines(xs[k], key)) && key in acc ==> NamedFrom(xs, i, acc)[key] == acc[key]
    decreases |xs| - i
  {
    if i < |xs| {
      var next := if IsDefine(xs[i]) then acc[Get(xs[i], "name") := xs[i]] else acc;
      NamedFromSpec(xs, i + 1, next, key);
      if !(exists k :: i + 1 <= k < |xs| && Defines(xs[k], key)) && Defines(xs[i], key) {
        assert NamedFrom(xs, i, acc)[key] == xs[i];
      }
    }
  }

  /** The named patterns are keyed by the names of the defines anywhere below the root, and
      each name holds the last define of that name in document order. */
  lemma NamedPatternsSpec(root: Node, key: Option<string>)
    ensures key in NamedPatterns(root) <==>
      exists k :: 0 <= k < |RngRoot.DescendantsOf(root.children)| && Defines(RngRoot.DescendantsOf(root.children)[k], key)
    ensures key in NamedPatterns(root) ==>
      exists k :: 0 <= k < |RngRoot.DescendantsOf(root.children)| && Defines(RngRoot.DescendantsOf(root.children)[k], key) &&
        NamedPatterns(root)[key] == RngRoot.DescendantsOf(root.children)[k] &&
        forall j :: k < j < |RngRoot.DescendantsOf(root.children)| ==> !Defines(RngRoot.DescendantsOf(root.children)[j], key)
  {
    var empty: map<Option<string>, Node> := map[];
    NamedFromSpec(RngRoot.DescendantsOf(root.children), 0, empty, key);
    assert NamedPatterns(root) == NamedFrom(RngRoot.DescendantsOf(root.children), 0, empty);
    assert key in NamedPatterns(root) <==>
      exists k :: 0 <= k < |RngRoot.DescendantsOf(root.children)| && Defines(RngRoot.DescendantsOf(root.children)[k], key);
  }
}
