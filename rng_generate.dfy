/** xsd2xml.py, `RelaxNGParser.generate_element` and its helpers: the RELAX NG constructs
    the generator handles, each appending to the ElementTree element under construction.
    The tree is a value here: a call returns the extended parent. Randomness is a source
    of draws indexed by a counter the calls thread through. */
module RngGenerate {
  import opened Wrappers
  import opened RngNode

  /** An ElementTree element under construction. */
  datatype OutElement = OutElement(tag: string, text: Option<string>, children: seq<OutElement>)

  /** The random module and Faker: `rnd(k)` is the k-th draw, `text(k)`, `word(k)` and
      `date(k)` the Faker value made at draw k. */
  datatype Source = Source(rnd: nat -> nat, text: nat -> string, word: nat -> string, date: nat -> string)

  /** A call that returned: the tree it left and the next unused draw. */
  datatype Step = Step(tree: OutElement, draw: nat)

  /** A generated text and the next unused draw. */
  datatype Drawn = Drawn(value: string, draw: nat)

  /** Deeper calls raise. */
  const MaxDepth: nat := 10

  const DepthMessage := "Maximum recursion depth exceeded"

  /** `ET.SubElement(parent, …)` once the child is complete. */
  function SubElement(parent: OutElement, child: OutElement): OutElement {
    parent.(children := parent.children + [child])
  }

  // ----- Decimal strings ---------------------------------------------------------------

  function Digit(d: nat): char
    requires d < 10
  {
    "0123456789"[d]
  }

  function DigitValue(c: char): nat {
    if '0' <= c <= '9' then (c as int - '0' as int) as nat else 0
  }

  /** `str(n)` for a natural number. */
  function DecimalString(n: nat): string
    decreases n
  {
    if n < 10 then [Digit(n)] else DecimalString(n / 10) + [Digit(n % 10)]
  }

  /** `int(s)` for a string of digits. */
  function ParseDecimal(s: string): nat
    decreases |s|
  {
    if s == [] then 0 else ParseDecimal(s[..|s| - 1]) * 10 + DigitValue(s[|s| - 1])
  }

  predicate IsDigits(s: string) {
    s != [] && forall k :: 0 <= k < |s| ==> '0' <= s[k] <= '9'
  }

  /** `str(n)` is a string of digits without a leading zero that parses back to n. */
  lemma {:induction false} DecimalStringSpec(n: nat)
    ensures IsDigits(DecimalString(n))
    ensures ParseDecimal(DecimalString(n)) == n
    ensures n > 0 ==> DecimalString(n)[0] != '0'
    decreases n
  {
    if n >= 10 {
      DecimalStringSpec(n / 10);
      var s := DecimalString(n);
      assert s[..|s| - 1] == DecimalString(n / 10);
      assert s[0] == DecimalString(n / 10)[0];
    }
  }

  // ----- _generate_data_for_type -------------------------------------------------------

  /** `_generate_data_for_type`. */
  function DataForType(dataType: string, src: Source, draw: nat): Drawn {
    if dataType == "string" then Drawn(src.text(draw), draw + 1)
    else if dataType == "int" then Drawn(DecimalString(1 + src.rnd(draw) % 1000), draw + 1)
    else if dataType == "date" then Drawn(src.date(draw), draw + 1)
    else Drawn(src.word(draw), draw + 1)
  }

  /** "int" gives the decimal string of an integer from 1 to 1000; "string" and "date" the
      matching Faker value; any other type a Faker word. */
  lemma DataForTypeSpec(dataType: string, src: Source, draw: nat)
    ensures dataType == "int" ==>
      var v := DataForType(dataType, src, draw).value;
      IsDigits(v) && 1 <= ParseDecimal(v) <= 1000 && v == DecimalString(ParseDecimal(v))
    ensures dataType == "string" ==> DataForType(dataType, src, draw).value == src.text(draw)
    ensures dataType == "date" ==> DataForType(dataType, src, draw).value == src.date(draw)
    ensures dataType !in {"string", "int", "date"} ==> DataForType(dataType, src, draw).value == src.word(draw)
    ensures DataForType(dataType, src, draw).draw == draw + 1
  {
    DecimalStringSpec(1 + src.rnd(draw) % 1000);
  }

  // ----- generate_element ----------------------------------------------------------------

  /** `generate_element(def, parent, depth)`. `patterns` maps each named pattern to its
      `define` element. */
  function GenerateElement(patterns: map<string, Node>, def: Node, parent: OutElement, depth: nat, src: Source, draw: nat): PyResult<Step>
    decreases MaxDepth + 1 - depth, def, 2, 0
  {
    if depth > MaxDepth then Raised(CircularReferenceError(DepthMessage))
    else if HasLocalName(def.tag, "element") then
      match ContentFrom(patterns, def, 0, OutElement(GetOr(def, "name", "element"), None, []), depth + 1, src, draw)
      case Raised(e) => Raised(e)
      case Returned(s) => Returned(Step(SubElement(parent, s.tree), s.draw))
    else if HasLocalName(def.tag, "group") then
      ChildrenFrom(patterns, def, 0, parent, depth + 1, src, draw)
    else if HasLocalName(def.tag, "choice") then
      if def.children == [] then Returned(Step(parent, draw))
      else GenerateElement(patterns, def.children[src.rnd(draw) % |def.children|], parent, depth + 1, src, draw + 1)
    else if HasLocalName(def.tag, "optional") then
      if src.rnd(draw) % 2 == 0 then ChildrenFrom(patterns, def, 0, parent, depth + 1, src, draw + 1)
      else Returned(Step(parent, draw + 1))
    else if HasLocalName(def.tag, "zeroOrMore") then
      RepeatFrom(patterns, def, src.rnd(draw) % 4, parent, depth + 1, src, draw + 1)
    else if HasLocalName(def.tag, "oneOrMore") then
      RepeatFrom(patterns, def, 1 + src.rnd(draw) % 3, parent, depth + 1, src, draw + 1)
    else if HasLocalName(def.tag, "ref") then
      var name := Get(def, "name");
      if name.Some? && name.value in patterns then
        GenerateElement(patterns, patterns[name.value], parent, depth + 1, src, draw)
      else Returned(Step(parent, draw))
    else Returned(Step(parent, draw))
  }

  /** `generate_element` as written: the depth guard names `CircularReferenceError`, which
      the script never defines, so it raises a `NameError`. `GenerateElement` raises the
      intended circular-reference error, and the rest of the model uses it. */
  function GenerateElementAsWritten(patterns: map<string, Node>, def: Node, parent: OutElement, depth: nat, src: Source, draw: nat): PyResult<Step> {
    AsWritten(GenerateElement(patterns, def, parent, depth, src, draw))
  }

  /** `count` more rounds of generating every child of `def`. */
  function RepeatFrom(patterns: map<string, Node>, def: Node, count: nat, parent: OutElement, depth: nat, src: Source, draw: nat): PyResult<Step>
    decreases MaxDepth + 1 - depth, def, 1, count
  {
    if count == 0 then Returned(Step(parent, draw))
    else
      match ChildrenFrom(patterns, def, 0, parent, depth, src, draw)
      case Raised(e) => Raised(e)
      case Returned(s) => RepeatFrom(patterns, def, count - 1, s.tree, depth, src, s.draw)
  }

  /** The loop `for child in element_def: generate_element(child, parent, depth)`, from
      child `i` on. */
  function ChildrenFrom(patterns: map<string, Node>, def: Node, i: nat, parent: OutElement, depth: nat, src: Source, draw: nat): PyResult<Step>
    requires i <= |def.children|
    decreases MaxDepth + 1 - depth, def, 0, |def.children| - i
  {
    if i == |def.children| then Returned(Step(parent, draw))
    else
      match GenerateElement(patterns, def.children[i], parent, depth, src, draw)
      case Raised(e) => Raised(e)
      case Returned(s) => ChildrenFrom(patterns, def, i + 1, s.tree, depth, src, s.draw)
  }

  /** The loop of `_generate_content` over the children of an element pattern, from child
      `i` on: text and data set the element's text, anything else is generated into the
      element at the same depth. */
  function ContentFrom(patterns: map<string, Node>, def: Node, i: nat, elem: OutElement, depth: nat, src: Source, draw: nat): PyResult<Step>
    requires i <= |def.children|
    decreases MaxDepth + 1 - depth, def, 0, |def.children| - i
  {
    if i == |def.children| then Returned(Step(elem, draw))
    else
      var child := def.children[i];
      if HasLocalName(child.tag, "text") then
        ContentFrom(patterns, def, i + 1, elem.(text := Some(src.text(draw))), depth, src, draw + 1)
      else if HasLocalName(child.tag, "data") then
        var d := DataForType(GetOr(child, "type", "string"), src, draw);
        ContentFrom(patterns, def, i + 1, elem.(text := Some(d.value)), depth, src, d.draw)
      else
        match GenerateElement(patterns, child, elem, depth, src, draw)
        case Raised(e) => Raised(e)
        case Returned(s) => ContentFrom(patterns, def, i + 1, s.tree, depth, src, s.draw)
  }

  // ----- The source's loops ----------------------------------------------------------------

  /** `generate_element` as the source writes it, with its repetition loops. */
  method Generate(patterns: map<string, Node>, def: Node, parent: OutElement, depth: nat, src: Source, draw: nat) returns (r: PyResult<Step>)
    ensures r == GenerateElement(patterns, def, parent, depth, src, draw)
    decreases MaxDepth + 1 - depth, def, 2, 0
  {
    if depth > MaxDepth {
      return Raised(CircularReferenceError(DepthMessage));
    }
    if HasLocalName(def.tag, "element") {
      var content := GenerateContent(patterns, def, OutElement(GetOr(def, "name", "element"), None, []), depth + 1, src, draw);
      if content.Raised? {
        return Raised(content.error);
      }
      return Returned(Step(SubElement(parent, content.value.tree), content.value.draw));
    } else if HasLocalName(def.tag, "group") {
      r := GenerateChildren(patterns, def, parent, depth + 1, src, draw);
    } else if HasLocalName(def.tag, "choice") {
      if def.children == [] {
        return Returned(Step(parent, draw));
      }
      var chosen := def.children[src.rnd(draw) % |def.children|];
      r := Generate(patterns, chosen, parent, depth + 1, src, draw + 1);
    } else if HasLocalName(def.tag, "optional") {
      if src.rnd(draw) % 2 == 0 {
        r := GenerateChildren(patterns, def, parent, depth + 1, src, draw + 1);
      } else {
        r := Returned(Step(parent, draw + 1));
      }
    } else if HasLocalName(def.tag, "zeroOrMore") {
      r := GenerateRepeat(patterns, def, src.rnd(draw) % 4, parent, depth + 1, src, draw + 1);
    } else if HasLocalName(def.tag, "oneOrMore") {
      r := GenerateRepeat(patterns, def, 1 + src.rnd(draw) % 3, parent, depth + 1, src, draw + 1);
    } else if HasLocalName(def.tag, "ref") {
      var name := Get(def, "name");
      if name.Some? && name.value in patterns {
        r := Generate(patterns, patterns[name.value], parent, depth + 1, src, draw);
      } else {
        r := Returned(Step(parent, draw));
      }
    } else {
      r := Returned(Step(parent, draw));
    }
  }

  /** `for _ in range(count): for child in element_def: …` of zeroOrMore and oneOrMore. */
  method GenerateRepeat(patterns: map<string, Node>, def: Node, count: nat, parent: OutElement, depth: nat, src: Source, draw: nat) returns (r: PyResult<Step>)
    ensures r == RepeatFrom(patterns, def, count, parent, depth, src, draw)
    decreases MaxDepth + 1 - depth, def, 1, 1
  {
    var tree: OutElement, next: nat := parent, draw;
    for round := 0 to count
      invariant RepeatFrom(patterns, def, count, parent, depth, src, draw) ==
        RepeatFrom(patterns, def, count - round, tree, depth, src, next)
    {
      var s := GenerateChildren(patterns, def, tree, depth, src, next);
      if s.Raised? {
        return Raised(s.error);
      }
      tree, next := s.value.tree, s.value.draw;
    }
    return Returned(Step(tree, next));
  }

  /** `for child in element_def: self.generate_element(child, parent, depth)`. */
  method GenerateChildren(patterns: map<string, Node>, def: Node, parent: OutElement, depth: nat, src: Source, draw: nat) returns (r: PyResult<Step>)
    ensures r == ChildrenFrom(patterns, def, 0, parent, depth, src, draw)
    decreases MaxDepth + 1 - depth, def, 1, 0
  {
    var tree: OutElement, next: nat := parent, draw;
    for i := 0 to |def.children|
      invariant ChildrenFrom(patterns, def, 0, parent, depth, src, draw) == ChildrenFrom(patterns, def, i, tree, depth, src, next)
    {
      var s := Generate(patterns, def.children[i], tree, depth, src, next);
      if s.Raised? {
        return Raised(s.error);
      }
      tree, next := s.value.tree, s.value.draw;
    }
    return Returned(Step(tree, next));
  }

  /** `_generate_content`. */
  method GenerateContent(patterns: map<string, Node>, def: Node, elem: OutElement, depth: nat, src: Source, draw: nat) returns (r: PyResult<Step>)
    ensures r == ContentFrom(patterns, def, 0, elem, depth, src, draw)
    decreases MaxDepth + 1 - depth, def, 1, 0
  {
    var tree: OutElement, next: nat := elem, draw;
    for i := 0 to |def.children|
      invariant ContentFrom(patterns, def, 0, elem, depth, src, draw) == ContentFrom(patterns, def, i, tree, depth, src, next)
    {
      var child := def.children[i];
      if HasLocalName(child.tag, "text") {
        tree, next := tree.(text := Some(src.text(next))), next + 1;
      } else if HasLocalName(child.tag, "data") {
        var d := DataForType(GetOr(child, "type", "string"), src, next);
        tree, next := tree.(text := Some(d.value)), d.draw;
      } else {
        var s := Generate(patterns, child, tree, depth, src, next);
        if s.Raised? {
          return Raised(s.error);
        }
        tree, next := s.value.tree, s.value.draw;
      }
    }
    return Returned(Step(tree, next));
  }
}
