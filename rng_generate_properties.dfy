/** What `generate_element` promises: it only ever appends under the parent, an element
    pattern appends one child, the repetition constructs append the advertised number of
    rounds, references expand only known patterns, and nesting deeper than ten levels
    raises. */
module RngGenerateProperties {
  import opened Wrappers
  import opened RngNode
  import opened RngGenerate

  /** The construct `generate_element` takes a tag for: the first of its tag tests that
      holds, or "" when none does. */
  function Kind(tag: string): string {
    if HasLocalName(tag, "element") then "element"
    else if HasLocalName(tag, "group") then "group"
    else if HasLocalName(tag, "choice") then "choice"
    else if HasLocalName(tag, "optional") then "optional"
    else if HasLocalName(tag, "zeroOrMore") then "zeroOrMore"
    else if HasLocalName(tag, "oneOrMore") then "oneOrMore"
    else if HasLocalName(tag, "ref") then "ref"
    else ""
  }

  /** `tree` is `parent` with children appended and nothing else changed. */
  predicate Extends(parent: OutElement, tree: OutElement) {
    tree.tag == parent.tag && tree.text == parent.text &&
    |parent.children| <= |tree.children| && tree.children[..|parent.children|] == parent.children
  }

  lemma ExtendsTransitive(a: OutElement, b: OutElement, c: OutElement)
    requires Extends(a, b) && Extends(b, c)
    ensures Extends(a, c)
  {
    assert c.children[..|a.children|] == c.children[..|b.children|][..|a.children|];
  }

  // ----- Only appending ------------------------------------------------------------------

  lemma SubElementExtends(parent: OutElement, child: OutElement)
    ensures Extends(parent, SubElement(parent, child))
  {
    assert SubElement(parent, child).children[..|parent.children|] == parent.children;
  }

  /** `generate_element` only appends children to the parent: its tag, its text and its
      existing children stay as they were. */
  lemma {:induction false} GenerateExtends(patterns: map<string, Node>, def: Node, parent: OutElement, depth: nat, src: Source, draw: nat)
    ensures GenerateElement(patterns, def, parent, depth, src, draw).Returned? ==>
      Extends(parent, GenerateElement(patterns, def, parent, depth, src, draw).value.tree)
    decreases MaxDepth + 1 - depth, def, 2, 2
  {
    if depth > MaxDepth {
    } else if HasLocalName(def.tag, "element") {
      match ContentFrom(patterns, def, 0, OutElement(GetOr(def, "name", "element"), None, []), depth + 1, src, draw)
      case Raised(_) =>
      case Returned(s) => SubElementExtends(parent, s.tree);
    } else if HasLocalName(def.tag, "group") {
      ChildrenExtends(patterns, def, 0, parent, depth + 1, src, draw);
    } else {
      NestedExtends(patterns, def, parent, depth, src, draw);
    }
  }

  /** `GenerateExtends` for the constructs after element and group, one construct at a
      time. */
  lemma {:induction false} NestedExtends(patterns: map<string, Node>, def: Node, parent: OutElement, depth: nat, src: Source, draw: nat)
    requires depth <= MaxDepth && !HasLocalName(def.tag, "element") && !HasLocalName(def.tag, "group")
    ensures GenerateElement(patterns, def, parent, depth, src, draw).Returned? ==>
      Extends(parent, GenerateElement(patterns, def, parent, depth, src, draw).value.tree)
    decreases MaxDepth + 1 - depth, def, 2, 1
  {
    var k := Kind(def.tag);
    if k == "choice" {
      ChoiceExtends(patterns, def, parent, depth, src, draw);
    } else if k == "optional" {
      OptionalExtends(patterns, def, parent, depth, src, draw);
    } else if k == "zeroOrMore" || k == "oneOrMore" {
      RepetitionExtends(patterns, def, parent, depth, src, draw);
    } else if k == "ref" {
      RefExtends(patterns, def, parent, depth, src, draw);
    } else {
      assert k == "";
      assert parent.children[..|parent.children|] == parent.children;
    }
  }

  lemma {:induction false} ChoiceExtends(patterns: map<string, Node>, def: Node, parent: OutElement, depth: nat, src: Source, draw: nat)
    requires depth <= MaxDepth && Kind(def.tag) == "choice"
    ensures GenerateElement(patterns, def, parent, depth, src, draw).Returned? ==>
      Extends(parent, GenerateElement(patterns, def, parent, depth, src, draw).value.tree)
    decreases MaxDepth + 1 - depth, def, 2, 0
  {
    if def.children != [] {
      ChoiceUnfold(patterns, def, parent, depth, src, draw);
      GenerateExtends(patterns, def.children[src.rnd(draw) % |def.children|], parent, depth + 1, src, draw + 1);
    } else {
      assert parent.children[..|parent.children|] == parent.children;
    }
  }

  lemma {:induction false} OptionalExtends(patterns: map<string, Node>, def: Node, parent: OutElement, depth: nat, src: Source, draw: nat)
    requires depth <= MaxDepth && Kind(def.tag) == "optional"
    ensures GenerateElement(patterns, def, parent, depth, src, draw).Returned? ==>
      Extends(parent, GenerateElement(patterns, def, parent, depth, src, draw).value.tree)
    decreases MaxDepth + 1 - depth, def, 2, 0
  {
    OptionalUnfold(patterns, def, parent, depth, src, draw);
    ChildrenExtends(patterns, def, 0, parent, depth + 1, src, draw + 1);
    assert parent.children[..|parent.children|] == parent.children;
  }

  lemma {:induction false} RepetitionExtends(patterns: map<string, Node>, def: Node, parent: OutElement, depth: nat, src: Source, draw: nat)
    requires depth <= MaxDepth && (Kind(def.tag) == "zeroOrMore" || Kind(def.tag) == "oneOrMore")
    ensures GenerateElement(patterns, def, parent, depth, src, draw).Returned? ==>
      Extends(parent, GenerateElement(patterns, def, parent, depth, src, draw).value.tree)
    decreases MaxDepth + 1 - depth, def, 2, 0
  {
    if Kind(def.tag) == "zeroOrMore" {
      ZeroOrMoreUnfold(patterns, def, parent, depth, src, draw);
      RepeatExtends(patterns, def, src.rnd(draw) % 4, parent, depth + 1, src, draw + 1);
    } else {
      OneOrMoreUnfold(patterns, def, parent, depth, src, draw);
      RepeatExtends(patterns, def, 1 + src.rnd(draw) % 3, parent, depth + 1, src, draw + 1);
    }
  }

  lemma {:induction false} RefExtends(patterns: map<string, Node>, def: Node, parent: OutElement, depth: nat, src: Source, draw: nat)
    requires depth <= MaxDepth && Kind(def.tag) == "ref"
    ensures GenerateElement(patterns, def, parent, depth, src, draw).Returned? ==>
      Extends(parent, GenerateElement(patterns, def, parent, depth, src, draw).value.tree)
    decreases MaxDepth + 1 - depth, def, 2, 0
  {
    RefSpec(patterns, def, parent, depth, src, draw);
    var name := Get(def, "name");
    if name.Some? && name.value in patterns {
      GenerateExtends(patterns, patterns[name.value], parent, depth + 1, src, draw);
    } else {
      assert parent.children[..|parent.children|] == parent.children;
    }
  }

  lemma {:induction false} RepeatExtends(patterns: map<string, Node>, def: Node, count: nat, parent: OutElement, depth: nat, src: Source, draw: nat)
    ensures RepeatFrom(patterns, def, count, parent, depth, src, draw).Returned? ==>
      Extends(parent, RepeatFrom(patterns, def, count, parent, depth, src, draw).value.tree)
    decreases MaxDepth + 1 - depth, def, 1, count
  {
    if count > 0 {
      ChildrenExtends(patterns, def, 0, parent, depth, src, draw);
      match ChildrenFrom(patterns, def, 0, parent, depth, src, draw)
      case Raised(_) =>
      case Returned(s) =>
        RepeatExtends(patterns, def, count - 1, s.tree, depth, src, s.draw);
        var r := RepeatFrom(patterns, def, count - 1, s.tree, depth, src, s.draw);
        if r.Returned? {
          ExtendsTransitive(parent, s.tree, r.value.tree);
        }
    }
  }

  lemma {:induction false} ChildrenExtends(patterns: map<string, Node>, def: Node, i: nat, parent: OutElement, depth: nat, src: Source, draw: nat)
    requires i <= |def.children|
    ensures ChildrenFrom(patterns, def, i, parent, depth, src, draw).Returned? ==>
      Extends(parent, ChildrenFrom(patterns, def, i, parent, depth, src, draw).value.tree)
    decreases MaxDepth + 1 - depth, def, 0, |def.children| - i
  {
    if i < |def.children| {
      GenerateExtends(patterns, def.children[i], parent, depth, src, draw);
      match GenerateElement(patterns, def.children[i], parent, depth, src, draw)
      case Raised(_) =>
      case Returned(s) =>
        ChildrenExtends(patterns, def, i + 1, s.tree, depth, src, s.draw);
        var r := ChildrenFrom(patterns, def, i + 1, s.tree, depth, src, s.draw);
        if r.Returned? {
          ExtendsTransitive(parent, s.tree, r.value.tree);
        }
    }
  }

  /** `_generate_content` keeps the element's tag. */
  lemma {:induction false} ContentKeepsTag(patterns: map<string, Node>, def: Node, i: nat, elem: OutElement, depth: nat, src: Source, draw: nat)
    requires i <= |def.children|
    ensures ContentFrom(patterns, def, i, elem, depth, src, draw).Returned? ==>
      ContentFrom(patterns, def, i, elem, depth, src, draw).value.tree.tag == elem.tag
    decreases |def.children| - i
  {
    if i < |def.children| {
      var child := def.children[i];
      if HasLocalName(child.tag, "text") {
        ContentKeepsTag(patterns, def, i + 1, elem.(text := Some(src.text(draw))), depth, src, draw + 1);
      } else if HasLocalName(child.tag, "data") {
        var d := DataForType(GetOr(child, "type", "string"), src, draw);
        ContentKeepsTag(patterns, def, i + 1, elem.(text := Some(d.value)), depth, src, d.draw);
      } else {
        GenerateExtends(patterns, child, elem, depth, src, draw);
        match GenerateElement(patterns, child, elem, depth, src, draw)
        case Raised(_) =>
        case Returned(s) =>
          ContentKeepsTag(patterns, def, i + 1, s.tree, depth, src, s.draw);
      }
    }
  }

  // ----- Element patterns and repetition counts -------------------------------------------

  /** An element pattern appends exactly one child, named by its `name` attribute or
      "element" without one. */
  lemma ElementAppendsOne(patterns: map<string, Node>, def: Node, parent: OutElement, depth: nat, src: Source, draw: nat)
    requires depth <= MaxDepth && Kind(def.tag) == "element"
    ensures var r := GenerateElement(patterns, def, parent, depth, src, draw);
      r.Returned? ==>
        Extends(parent, r.value.tree) && |r.value.tree.children| == |parent.children| + 1 &&
        r.value.tree.children[|parent.children|].tag == GetOr(def, "name", "element")
  {
    var elem := OutElement(GetOr(def, "name", "element"), None, []);
    ContentKeepsTag(patterns, def, 0, elem, depth + 1, src, draw);
    GenerateExtends(patterns, def, parent, depth, src, draw);
  }

  /** Every child of the pattern is an element pattern. */
  predicate ElementsOnly(def: Node) {
    forall k :: 0 <= k < |def.children| ==> Kind(def.children[k].tag) == "element"
  }

  lemma {:induction false} ChildrenAppendElements(patterns: map<string, Node>, def: Node, i: nat, parent: OutElement, depth: nat, src: Source, draw: nat)
    requires i <= |def.children| && depth <= MaxDepth && ElementsOnly(def)
    ensures var r := ChildrenFrom(patterns, def, i, parent, depth, src, draw);
      r.Returned? ==> Extends(parent, r.value.tree) && |r.value.tree.children| == |parent.children| + (|def.children| - i)
    decreases |def.children| - i
  {
    if i < |def.children| {
      ElementAppendsOne(patterns, def.children[i], parent, depth, src, draw);
      match GenerateElement(patterns, def.children[i], parent, depth, src, draw)
      case Raised(_) =>
      case Returned(s) =>
        ChildrenAppendElements(patterns, def, i + 1, s.tree, depth, src, s.draw);
        var r := ChildrenFrom(patterns, def, i + 1, s.tree, depth, src, s.draw);
        if r.Returned? {
          ExtendsTransitive(parent, s.tree, r.value.tree);
        }
    }
  }

  lemma {:induction false} RepeatAppendsElements(patterns: map<string, Node>, def: Node, count: nat, parent: OutElement, depth: nat, src: Source, draw: nat)
    requires depth <= MaxDepth && ElementsOnly(def)
    ensures var r := RepeatFrom(patterns, def, count, parent, depth, src, draw);
      r.Returned? ==> Extends(parent, r.value.tree) && |r.value.tree.children| == |parent.children| + count * |def.children|
    decreases count
  {
    if count > 0 {
      ChildrenAppendElements(patterns, def, 0, parent, depth, src, draw);
      match ChildrenFrom(patterns, def, 0, parent, depth, src, draw)
      case Raised(_) =>
      case Returned(s) =>
        RepeatAppendsElements(patterns, def, count - 1, s.tree, depth, src, s.draw);
        var r := RepeatFrom(patterns, def, count - 1, s.tree, depth, src, s.draw);
        if r.Returned? {
          ExtendsTransitive(parent, s.tree, r.value.tree);
          assert (count - 1) * |def.children| + |def.children| == count * |def.children|;
        }
    }
  }

  // What `generate_element` does with each construct, one construct at a time.

  lemma GroupUnfold(patterns: map<string, Node>, def: Node, parent: OutElement, depth: nat, src: Source, draw: nat)
    requires depth <= MaxDepth && Kind(def.tag) == "group"
    ensures GenerateElement(patterns, def, parent, depth, src, draw) == ChildrenFrom(patterns, def, 0, parent, depth + 1, src, draw)
  {
  }

  lemma ChoiceUnfold(patterns: map<string, Node>, def: Node, parent: OutElement, depth: nat, src: Source, draw: nat)
    requires depth <= MaxDepth && Kind(def.tag) == "choice" && def.children != []
    ensures GenerateElement(patterns, def, parent, depth, src, draw) ==
      GenerateElement(patterns, def.children[src.rnd(draw) % |def.children|], parent, depth + 1, src, draw + 1)
  {
  }

  lemma OptionalUnfold(patterns: map<string, Node>, def: Node, parent: OutElement, depth: nat, src: Source, draw: nat)
    requires depth <= MaxDepth && Kind(def.tag) == "optional"
    ensures GenerateElement(patterns, def, parent, depth, src, draw) ==
      if src.rnd(draw) % 2 == 0 then ChildrenFrom(patterns, def, 0, parent, depth + 1, src, draw + 1)
      else Returned(Step(parent, draw + 1))
  {
  }

  lemma ZeroOrMoreUnfold(patterns: map<string, Node>, def: Node, parent: OutElement, depth: nat, src: Source, draw: nat)
    requires depth <= MaxDepth && Kind(def.tag) == "zeroOrMore"
    ensures GenerateElement(patterns, def, parent, depth, src, draw) ==
      RepeatFrom(patterns, def, src.rnd(draw) % 4, parent, depth + 1, src, draw + 1)
  {
  }

  lemma OneOrMoreUnfold(patterns: map<string, Node>, def: Node, parent: OutElement, depth: nat, src: Source, draw: nat)
    requires depth <= MaxDepth && Kind(def.tag) == "oneOrMore"
    ensures GenerateElement(patterns, def, parent, depth, src, draw) ==
      RepeatFrom(patterns, def, 1 + src.rnd(draw) % 3, parent, depth + 1, src, draw + 1)
  {
  }

  /** A group of element patterns appends one child per element pattern. */
  lemma GroupAppendsAll(patterns: map<string, Node>, def: Node, parent: OutElement, depth: nat, src: Source, draw: nat)
    requires depth < MaxDepth && Kind(def.tag) == "group" && ElementsOnly(def)
    ensures var r := GenerateElement(patterns, def, parent, depth, src, draw);
      r.Returned? ==> Extends(parent, r.value.tree) && |r.value.tree.children| == |parent.children| + |def.children|
  {
    GroupUnfold(patterns, def, parent, depth, src, draw);
    ChildrenAppendElements(patterns, def, 0, parent, depth + 1, src, draw);
  }

  /** A non-empty choice of element patterns appends exactly one child, named after the
      chosen pattern. */
  lemma ChoiceAppendsOne(patterns: map<string, Node>, def: Node, parent: OutElement, depth: nat, src: Source, draw: nat)
    requires depth < MaxDepth && Kind(def.tag) == "choice" && ElementsOnly(def) && def.children != []
    ensures var r := GenerateElement(patterns, def, parent, depth, src, draw);
      var chosen := def.children[src.rnd(draw) % |def.children|];
      r.Returned? ==>
        Extends(parent, r.value.tree) && |r.value.tree.children| == |parent.children| + 1 &&
        r.value.tree.children[|parent.children|].tag == GetOr(chosen, "name", "element")
  {
    var chosen := def.children[src.rnd(draw) % |def.children|];
    assert Kind(chosen.tag) == "element";
    ChoiceUnfold(patterns, def, parent, depth, src, draw);
    ElementAppendsOne(patterns, chosen, parent, depth + 1, src, draw + 1);
  }

  /** An optional group of element patterns appends all of them or none. */
  lemma OptionalAllOrNothing(patterns: map<string, Node>, def: Node, parent: OutElement, depth: nat, src: Source, draw: nat)
    requires depth < MaxDepth && Kind(def.tag) == "optional" && ElementsOnly(def)
    ensures var r := GenerateElement(patterns, def, parent, depth, src, draw);
      r.Returned? ==>
        Extends(parent, r.value.tree) &&
        |r.value.tree.children| == |parent.children| + (if src.rnd(draw) % 2 == 0 then |def.children| else 0)
  {
    OptionalUnfold(patterns, def, parent, depth, src, draw);
    if src.rnd(draw) % 2 == 0 {
      ChildrenAppendElements(patterns, def, 0, parent, depth + 1, src, draw + 1);
    } else {
      assert parent.children[..|parent.children|] == parent.children;
    }
  }

  /** zeroOrMore appends its element patterns 0 to 3 times over. */
  lemma ZeroOrMoreRounds(patterns: map<string, Node>, def: Node, parent: OutElement, depth: nat, src: Source, draw: nat)
    requires depth < MaxDepth && Kind(def.tag) == "zeroOrMore" && ElementsOnly(def)
    ensures var r := GenerateElement(patterns, def, parent, depth, src, draw);
      var rounds := src.rnd(draw) % 4;
      r.Returned? ==>
        0 <= rounds <= 3 && Extends(parent, r.value.tree) &&
        |r.value.tree.children| == |parent.children| + rounds * |def.children|
  {
    ZeroOrMoreUnfold(patterns, def, parent, depth, src, draw);
    RepeatAppendsElements(patterns, def, src.rnd(draw) % 4, parent, depth + 1, src, draw + 1);
  }

  /** oneOrMore appends its element patterns 1 to 3 times over. */
  lemma OneOrMoreRounds(patterns: map<string, Node>, def: Node, parent: OutElement, depth: nat, src: Source, draw: nat)
    requires depth < MaxDepth && Kind(def.tag) == "oneOrMore" && ElementsOnly(def)
    ensures var r := GenerateElement(patterns, def, parent, depth, src, draw);
      var rounds := 1 + src.rnd(draw) % 3;
      r.Returned? ==>
        1 <= rounds <= 3 && Extends(parent, r.value.tree) &&
        |r.value.tree.children| == |parent.children| + rounds * |def.children|
  {
    OneOrMoreUnfold(patterns, def, parent, depth, src, draw);
    RepeatAppendsElements(patterns, def, 1 + src.rnd(draw) % 3, parent, depth + 1, src, draw + 1);
  }

  // ----- References -------------------------------------------------------------------------

  /** A ref naming a known pattern generates that pattern one level deeper; one naming no
      known pattern, or naming nothing, appends nothing and draws nothing. Since the known
      patterns are `define` elements, which are none of the handled constructs, a ref to a
      known pattern appends nothing either. */
  lemma RefSpec(patterns: map<string, Node>, def: Node, parent: OutElement, depth: nat, src: Source, draw: nat)
    requires depth <= MaxDepth && Kind(def.tag) == "ref"
    ensures var name := Get(def, "name");
      GenerateElement(patterns, def, parent, depth, src, draw) ==
        if name.Some? && name.value in patterns then GenerateElement(patterns, patterns[name.value], parent, depth + 1, src, draw)
        else Returned(Step(parent, draw))
    ensures var name := Get(def, "name");
      name.Some? && name.value in patterns && Kind(patterns[name.value].tag) == "" && depth < MaxDepth ==>
        GenerateElement(patterns, def, parent, depth, src, draw) == Returned(Step(parent, draw))
  {
  }

  /** Two suffixes of one string agree at each distance from its end. */
  lemma SuffixClash(t: string, a: string, b: string, k: nat)
    requires EndsWith(t, a) && 1 <= k <= |a| && k <= |b| && a[|a| - k] != b[|b| - k]
    ensures !EndsWith(t, b)
  {
    assert t[|t| - k] == a[|a| - k];
  }

  /** A `define` element, with or without the RELAX NG namespace, is none of the constructs
      `generate_element` handles. */
  lemma DefineIsNotHandled()
    ensures Kind(Rng("define")) == "" && Kind("define") == ""
  {
    DefineIsNot("element", 1);
    DefineIsNot("group", 1);
    DefineIsNot("choice", 2);
    DefineIsNot("optional", 1);
    DefineIsNot("zeroOrMore", 2);
    DefineIsNot("oneOrMore", 2);
    DefineIsNot("ref", 1);
  }

  /** `local` differs from "define" at distance `k` from the end. */
  lemma DefineIsNot(local: string, k: nat)
    requires 1 <= k <= 6 && k <= |local| && local[|local| - k] != "define"[6 - k]
    ensures !HasLocalName(Rng("define"), local) && !HasLocalName("define", local)
  {
    var t := Rng("define");
    assert t[|t| - 7..] == "}define";
    SuffixClash(t, "}define", "}" + local, k);
    SuffixClash("define", "define", "}" + local, k);
    assert |t| > |local| ==> t != local;
    assert "define"[6 - k] != local[|local| - k];
  }

  // ----- The depth guard ----------------------------------------------------------------------

  /** `k` groups nested around `leaf`. */
  function Nest(k: nat, leaf: Node): Node {
    if k == 0 then leaf else Node("group", map[], None, [Nest(k - 1, leaf)])
  }

  /** Each group level costs one level of depth. */
  lemma {:induction false} NestedGroups(patterns: map<string, Node>, k: nat, leaf: Node, parent: OutElement, depth: nat, src: Source, draw: nat)
    requires depth + k <= MaxDepth + 1
    ensures GenerateElement(patterns, Nest(k, leaf), parent, depth, src, draw) == GenerateElement(patterns, leaf, parent, depth + k, src, draw)
    decreases k
  {
    if k > 0 {
      NestStep(patterns, k, leaf, parent, depth, src, draw);
      NestedGroups(patterns, k - 1, leaf, parent, depth + 1, src, draw);
    }
  }

  /** The outermost group of a nest costs one level of depth. */
  lemma NestStep(patterns: map<string, Node>, k: nat, leaf: Node, parent: OutElement, depth: nat, src: Source, draw: nat)
    requires 0 < k && depth < MaxDepth + 1
    ensures GenerateElement(patterns, Nest(k, leaf), parent, depth, src, draw) ==
      GenerateElement(patterns, Nest(k - 1, leaf), parent, depth + 1, src, draw)
  {
    var n := Nest(k, leaf);
    GroupKind();
    assert n.tag == "group" && n.children[0] == Nest(k - 1, leaf);
    GroupUnfold(patterns, n, parent, depth, src, draw);
    OnlyChild(patterns, n, parent, depth + 1, src, draw);
  }

  lemma GroupKind()
    ensures Kind("group") == "group"
  {
    assert !HasLocalName("group", "element");
  }

  /** The children of a pattern with one child are that child. */
  lemma OnlyChild(patterns: map<string, Node>, def: Node, parent: OutElement, depth: nat, src: Source, draw: nat)
    requires |def.children| == 1
    ensures ChildrenFrom(patterns, def, 0, parent, depth, src, draw) == GenerateElement(patterns, def.children[0], parent, depth, src, draw)
  {
    match GenerateElement(patterns, def.children[0], parent, depth, src, draw)
    case Raised(_) =>
    case Returned(s) =>
      assert ChildrenFrom(patterns, def, 1, s.tree, depth, src, s.draw) == Returned(Step(s.tree, s.draw));
  }

  /** The guard admits ten levels of nesting and no more: an empty element pattern under
      ten groups is generated, under eleven the call raises. */
  lemma DepthLimit(patterns: map<string, Node>, parent: OutElement, src: Source, draw: nat)
    ensures var leaf := Node("element", map["name" := "leaf"], None, []);
      GenerateElement(patterns, Nest(10, leaf), parent, 0, src, draw) ==
        Returned(Step(SubElement(parent, OutElement("leaf", None, [])), draw))
    ensures forall leaf: Node ::
      GenerateElement(patterns, Nest(11, leaf), parent, 0, src, draw) == Raised(CircularReferenceError(DepthMessage))
  {
    var leaf := Node("element", map["name" := "leaf"], None, []);
    NestedGroups(patterns, 10, leaf, parent, 0, src, draw);
    forall leaf': Node
      ensures GenerateElement(patterns, Nest(11, leaf'), parent, 0, src, draw) == Raised(CircularReferenceError(DepthMessage))
    {
      NestedGroups(patterns, 11, leaf', parent, 0, src, draw);
    }
  }

  /** As written, the depth guard raises a `NameError` where the intended error is the
      circular-reference error: under eleven groups the two differ, under ten they agree. */
  lemma DepthLimitAsWritten(patterns: map<string, Node>, parent: OutElement, src: Source, draw: nat)
    ensures var leaf := Node("element", map["name" := "leaf"], None, []);
      GenerateElementAsWritten(patterns, Nest(10, leaf), parent, 0, src, draw) ==
        GenerateElement(patterns, Nest(10, leaf), parent, 0, src, draw)
    ensures forall leaf: Node ::
      GenerateElementAsWritten(patterns, Nest(11, leaf), parent, 0, src, draw) == Raised(NameError(UndefinedCircularMessage)) &&
      GenerateElement(patterns, Nest(11, leaf), parent, 0, src, draw) != GenerateElementAsWritten(patterns, Nest(11, leaf), parent, 0, src, draw)
  {
    DepthLimit(patterns, parent, src, draw);
  }
}
