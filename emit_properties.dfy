/** What element-tree emission guarantees: a type emits its members once each, in
    declaration order, whatever their group or bounds; no emitted element carries an
    attribute; an element is named after its name or the element it references; and the
    two name look-ups generate the first match. */
module EmitProperties {
  import opened Wrappers
  import opened Records
  import opened Values
  import opened XmlElement
  import opened Emit

  // ----- Reference definitions ----------------------------------------------------------

  /** Generating `members` one after another, each appended as a child of `el`: what the
      element loop and the group loops of `TypeGenerator::generate` do together. */
  function AppendAll(members: seq<ElementGenerator>, el: Element, env: Env, fuel: nat): Outcome<Element>
    decreases |members|
  {
    if members == [] then Done(el)
    else
      match ElementGenerate(members[0], env, fuel)
      case Done(child) => AppendAll(members[1..], AddChild(el, child), env, fuel)
      case Failed(err) => Failed(err)
      case OutOfFuel => OutOfFuel
  }

  /** The texts a `type_info` list contributes: one for each entry `generate` recognises. */
  function InfoTexts(f: Faker, typeInfo: seq<string>): seq<string> {
    if typeInfo == [] then []
    else
      (match Generate(f, [typeInfo[0]]).value case Some(text) => [text] case None => []) +
      InfoTexts(f, typeInfo[1..])
  }

  /** A type may carry type information only when it has neither elements nor groups. */
  predicate TypeInfoOk(t: TypeGenerator) {
    t.typeInfo == [] || (t.elements == [] && t.groups == [])
  }

  /** The texts of every content, content after content. */
  function ContentTexts(f: Faker, contents: seq<TypeGenerator>): seq<string> {
    if contents == [] then [] else InfoTexts(f, contents[0].typeInfo) + ContentTexts(f, contents[1..])
  }

  /** `r` is `el` with one more child per member, each the member's generated element. */
  predicate Extends(el: Element, r: Element, members: seq<ElementGenerator>, env: Env, fuel: nat) {
    r.name == el.name && r.attributes == el.attributes &&
    |r.children| == |el.children| + |members| &&
    r.children[..|el.children|] == el.children &&
    forall j :: 0 <= j < |members| ==> ElementGenerate(members[j], env, fuel) == Done(r.children[|el.children| + j])
  }

  /** The members still to be visited by the group loops at element `k` of group `g`. */
  function GroupRest(t: TypeGenerator, g: nat, k: nat): seq<ElementGenerator>
    requires g <= |t.groups| && (g < |t.groups| ==> k <= |t.groups[g].elements|)
  {
    if g == |t.groups| then [] else t.groups[g].elements[k..] + GroupMembers(t.groups[g + 1..])
  }

  /** No two top-level elements disagree on whether they are named or references: a
      declaration with both a name and a `ref` is rejected while fetching elements. */
  predicate NameOrReference(elements: seq<ElementGenerator>) {
    forall i :: 0 <= i < |elements| ==> elements[i].name.None? || elements[i].reference.None?
  }

  // ----- Appending members --------------------------------------------------------------

  /** Appending succeeds exactly when every member generates; the result extends `el` by
      the members' elements in order; a failure is that of the first failing member. */
  lemma {:induction false} AppendAllSpec(ms: seq<ElementGenerator>, el: Element, env: Env, fuel: nat)
    ensures AppendAll(ms, el, env, fuel).Done? <==>
      forall j :: 0 <= j < |ms| ==> ElementGenerate(ms[j], env, fuel).Done?
    ensures AppendAll(ms, el, env, fuel).Done? ==>
      Extends(el, AppendAll(ms, el, env, fuel).value, ms, env, fuel) &&
      AppendAll(ms, el, env, fuel).value.texts == el.texts
    ensures AppendAll(ms, el, env, fuel).Failed? ==>
      exists j :: 0 <= j < |ms| && ElementGenerate(ms[j], env, fuel) == Failed(AppendAll(ms, el, env, fuel).error) &&
        forall i :: 0 <= i < j ==> ElementGenerate(ms[i], env, fuel).Done?
    decreases |ms|
  {
    if ms != [] {
      var first := ElementGenerate(ms[0], env, fuel);
      if first.Done? {
        var next := AddChild(el, first.value);
        var tail := ms[1..];
        AppendAllSpec(tail, next, env, fuel);
        var o := AppendAll(ms, el, env, fuel);
        assert o == AppendAll(tail, next, env, fuel);
        assert forall j :: 1 <= j < |ms| ==> ms[j] == tail[j - 1];
        if o.Done? {
          AppendDoneStep(el, first.value, o.value, ms, env, fuel);
        }
        if o.Failed? {
          AppendFailedStep(ms, o.error, env, fuel);
        }
      } else {
        assert !ElementGenerate(ms[0], env, fuel).Done?;
      }
    }
  }

  /** A first member generating `child`, then the rest extending `el` plus `child`. */
  lemma AppendDoneStep(el: Element, child: Element, r: Element, ms: seq<ElementGenerator>, env: Env, fuel: nat)
    requires ms != [] && ElementGenerate(ms[0], env, fuel) == Done(child)
    requires Extends(AddChild(el, child), r, ms[1..], env, fuel)
    ensures Extends(el, r, ms, env, fuel)
  {
    var next := AddChild(el, child);
    assert r.children[..|next.children|] == el.children + [child];
    assert r.children[..|el.children|] == el.children by {
      assert r.children[..|el.children|] == r.children[..|next.children|][..|el.children|];
    }
    assert r.children[|el.children|] == child by {
      assert r.children[|el.children|] == r.children[..|next.children|][|el.children|];
    }
    forall j | 0 <= j < |ms|
      ensures ElementGenerate(ms[j], env, fuel) == Done(r.children[|el.children| + j])
    {
      if j > 0 {
        assert ms[j] == ms[1..][j - 1];
      }
    }
  }

  /** A first member that generates, then a first failure among the rest. */
  lemma AppendFailedStep(ms: seq<ElementGenerator>, err: XmlGeneratorError, env: Env, fuel: nat)
    requires ms != [] && ElementGenerate(ms[0], env, fuel).Done?
    requires exists j ::
      0 <= j < |ms[1..]| && ElementGenerate(ms[1..][j], env, fuel) == Failed(err) &&
      forall i :: 0 <= i < j ==> ElementGenerate(ms[1..][i], env, fuel).Done?
    ensures exists j ::
      0 <= j < |ms| && ElementGenerate(ms[j], env, fuel) == Failed(err) &&
      forall i :: 0 <= i < j ==> ElementGenerate(ms[i], env, fuel).Done?
  {
    var tail := ms[1..];
    var j' :| 0 <= j' < |tail| && ElementGenerate(tail[j'], env, fuel) == Failed(err) &&
      forall i :: 0 <= i < j' ==> ElementGenerate(tail[i], env, fuel).Done?;
    forall i | 0 <= i < j' + 1
      ensures ElementGenerate(ms[i], env, fuel).Done?
    {
      if i > 0 { assert ms[i] == tail[i - 1]; }
    }
    assert ElementGenerate(ms[j' + 1], env, fuel) == Failed(err);
  }

  /** Appending `a + b` appends `a`, then `b` to what that produced. */
  lemma {:induction false} AppendAllConcat(a: seq<ElementGenerator>, b: seq<ElementGenerator>, el: Element, env: Env, fuel: nat)
    ensures AppendAll(a + b, el, env, fuel) ==
      match AppendAll(a, el, env, fuel)
      case Done(mid) => AppendAll(b, mid, env, fuel)
      case Failed(err) => Failed(err)
      case OutOfFuel => OutOfFuel
    decreases |a|
  {
    if a == [] {
      assert a + b == b;
    } else {
      assert (a + b)[0] == a[0];
      assert (a + b)[1..] == a[1..] + b;
      match ElementGenerate(a[0], env, fuel)
      case Done(child) => AppendAllConcat(a[1..], b, AddChild(el, child), env, fuel);
      case Failed(_) =>
      case OutOfFuel =>
    }
  }

  /** `r` extends `el` by `m1` and `s` extends `r` by `m2`: `s` extends `el` by both. */
  lemma ExtendsTransitive(el: Element, r: Element, s: Element, m1: seq<ElementGenerator>, m2: seq<ElementGenerator>, env: Env, fuel: nat)
    requires Extends(el, r, m1, env, fuel) && Extends(r, s, m2, env, fuel)
    ensures Extends(el, s, m1 + m2, env, fuel)
  {
    var n := |el.children|;
    assert s.children[..n] == s.children[..|r.children|][..n];
    forall j | 0 <= j < |m1 + m2|
      ensures ElementGenerate((m1 + m2)[j], env, fuel) == Done(s.children[n + j])
    {
      if j < |m1| {
        assert s.children[n + j] == s.children[..|r.children|][n + j];
      } else {
        assert (m1 + m2)[j] == m2[j - |m1|];
      }
    }
  }

  // ----- The loops of TypeGenerator::generate ------------------------------------------

  lemma {:induction false} ElementsFromAppendsAll(t: TypeGenerator, i: nat, el: Element, env: Env, fuel: nat)
    requires i <= |t.elements|
    ensures ElementsFrom(t, i, el, env, fuel) == AppendAll(t.elements[i..], el, env, fuel)
    decreases |t.elements| - i
  {
    if i < |t.elements| {
      assert t.elements[i..][0] == t.elements[i];
      assert t.elements[i..][1..] == t.elements[i + 1..];
      match ElementGenerate(t.elements[i], env, fuel)
      case Done(child) => ElementsFromAppendsAll(t, i + 1, AddChild(el, child), env, fuel);
      case Failed(_) =>
      case OutOfFuel =>
    }
  }

  lemma {:induction false} GroupsFromAppendsAll(t: TypeGenerator, g: nat, k: nat, el: Element, env: Env, fuel: nat)
    requires g <= |t.groups| && (g < |t.groups| ==> k <= |t.groups[g].elements|)
    ensures GroupsFrom(t, g, k, el, env, fuel) == AppendAll(GroupRest(t, g, k), el, env, fuel)
    decreases |t.groups| - g, if g < |t.groups| then |t.groups[g].elements| - k else 0
  {
    if g < |t.groups| {
      var rest := GroupRest(t, g, k);
      if k == |t.groups[g].elements| {
        GroupsFromAppendsAll(t, g + 1, 0, el, env, fuel);
        assert rest == GroupMembers(t.groups[g + 1..]);
        if g + 1 < |t.groups| {
          assert t.groups[g + 1..][1..] == t.groups[g + 2..];
          assert t.groups[g + 1].elements[0..] == t.groups[g + 1].elements;
        }
      } else {
        assert rest[0] == t.groups[g].elements[k];
        assert rest[1..] == GroupRest(t, g, k + 1);
        match ElementGenerate(t.groups[g].elements[k], env, fuel)
        case Done(child) => GroupsFromAppendsAll(t, g, k + 1, AddChild(el, child), env, fuel);
        case Failed(_) =>
        case OutOfFuel =>
      }
    }
  }

  /** The `type_info` loop appends the recognised texts, or fails on the first entry when
      the type also has elements or groups. */
  lemma {:induction false} TypeInfoFromTexts(t: TypeGenerator, i: nat, el: Element, env: Env)
    requires i <= |t.typeInfo|
    ensures TypeInfoOk(t) ==>
      TypeInfoFrom(t, i, el, env) == Done(el.(texts := el.texts + InfoTexts(env.faker, t.typeInfo[i..])))
    ensures !TypeInfoOk(t) && i < |t.typeInfo| ==>
      TypeInfoFrom(t, i, el, env) == Failed(DataTypesFormatError(
        if |t.elements| > 0 then TypeInfoAndElementsMessage else TypeInfoAndGroupsMessage))
    decreases |t.typeInfo| - i
  {
    if i == |t.typeInfo| {
      assert t.typeInfo[i..] == [];
      assert el.texts + [] == el.texts;
    } else if TypeInfoOk(t) {
      var g := Generate(env.faker, [t.typeInfo[i]]).value;
      var next := if g.Some? then AddText(el, g.value) else el;
      assert TypeInfoFrom(t, i, el, env) == TypeInfoFrom(t, i + 1, next, env);
      TypeInfoFromTexts(t, i + 1, next, env);
      InfoTextsCons(el.texts, env.faker, t.typeInfo, i);
    }
  }

  /** One more entry of `type_info` adds its text, if it has one, in front of the others. */
  lemma InfoTextsCons(texts: seq<string>, f: Faker, typeInfo: seq<string>, i: nat)
    requires i < |typeInfo|
    ensures var g := Generate(f, [typeInfo[i]]).value;
      (if g.Some? then texts + [g.value] else texts) + InfoTexts(f, typeInfo[i + 1..]) == texts + InfoTexts(f, typeInfo[i..])
  {
    assert typeInfo[i..][0] == typeInfo[i];
    assert typeInfo[i..][1..] == typeInfo[i + 1..];
    var rest := InfoTexts(f, typeInfo[i + 1..]);
    match Generate(f, [typeInfo[i]]).value
    case Some(text) =>
      assert texts + [text] + rest == texts + ([text] + rest);
    case None =>
      assert [] + rest == rest;
  }

  /** `TypeGenerator::generate` rejects type information next to elements or groups;
      otherwise it adds the recognised texts and then every member, elements before group
      members, each exactly once. */
  lemma TypeGenerateAppendsMembers(t: TypeGenerator, el: Element, env: Env, fuel: nat)
    ensures TypeInfoOk(t) ==>
      TypeGenerate(t, el, env, fuel) ==
        AppendAll(AllMembers(t), el.(texts := el.texts + InfoTexts(env.faker, t.typeInfo)), env, fuel)
    ensures !TypeInfoOk(t) ==>
      TypeGenerate(t, el, env, fuel) == Failed(DataTypesFormatError(
        if |t.elements| > 0 then TypeInfoAndElementsMessage else TypeInfoAndGroupsMessage))
  {
    TypeInfoFromTexts(t, 0, el, env);
    if TypeInfoOk(t) {
      assert t.typeInfo[0..] == t.typeInfo;
      var w := el.(texts := el.texts + InfoTexts(env.faker, t.typeInfo));
      ElementsFromAppendsAll(t, 0, w, env, fuel);
      assert t.elements[0..] == t.elements;
      AppendAllConcat(t.elements, GroupMembers(t.groups), w, env, fuel);
      match AppendAll(t.elements, w, env, fuel)
      case Done(mid) =>
        GroupsFromAppendsAll(t, 0, 0, mid, env, fuel);
        if t.groups != [] {
          assert t.groups[0].elements[0..] == t.groups[0].elements;
          assert t.groups[1..] == t.groups[0 + 1..];
        }
      case Failed(_) =>
      case OutOfFuel =>
    }
  }

  /** The shape of a generated type: its members as children in order, its recognised
      texts, name and attributes untouched; it succeeds exactly when the type information
      is allowed and every member generates. */
  lemma TypeGenerateShape(t: TypeGenerator, el: Element, env: Env, fuel: nat)
    ensures TypeGenerate(t, el, env, fuel).Done? <==>
      TypeInfoOk(t) && forall j :: 0 <= j < |AllMembers(t)| ==> ElementGenerate(AllMembers(t)[j], env, fuel).Done?
    ensures TypeGenerate(t, el, env, fuel).Done? ==>
      Extends(el, TypeGenerate(t, el, env, fuel).value, AllMembers(t), env, fuel) &&
      TypeGenerate(t, el, env, fuel).value.texts == el.texts + InfoTexts(env.faker, t.typeInfo)
  {
    TypeGenerateAppendsMembers(t, el, env, fuel);
    AppendAllSpec(AllMembers(t), el.(texts := el.texts + InfoTexts(env.faker, t.typeInfo)), env, fuel);
  }

  /** Generation of a type reads its members, not how they are grouped: the bounds and
      kinds of its groups, its own bounds and its attributes change nothing. */
  lemma TypeGenerateDependsOnMembersOnly(t: TypeGenerator, u: TypeGenerator, el: Element, env: Env, fuel: nat)
    requires t.typeInfo == u.typeInfo && AllMembers(t) == AllMembers(u)
    requires (t.elements == []) == (u.elements == []) && (t.groups == []) == (u.groups == [])
    ensures TypeGenerate(t, el, env, fuel) == TypeGenerate(u, el, env, fuel)
  {
    TypeGenerateAppendsMembers(t, el, env, fuel);
    TypeGenerateAppendsMembers(u, el, env, fuel);
  }

  // ----- ElementGenerator::generate ----------------------------------------------------

  lemma {:induction false} ContentsFromShape(e: ElementGenerator, i: nat, root: Element, env: Env, fuel: nat)
    requires i <= |e.contents|
    ensures ContentsFrom(e, i, root, env, fuel).Done? ==>
      Extends(root, ContentsFrom(e, i, root, env, fuel).value, ContentMembers(e.contents[i..]), env, fuel) &&
      ContentsFrom(e, i, root, env, fuel).value.texts == root.texts + ContentTexts(env.faker, e.contents[i..])
    decreases |e.contents| - i
  {
    if i == |e.contents| {
      assert e.contents[i..] == [];
      assert root.children[..|root.children|] == root.children;
    } else {
      var c := e.contents[i];
      assert e.contents[i..][0] == c;
      assert e.contents[i..][1..] == e.contents[i + 1..];
      TypeGenerateShape(c, root, env, fuel);
      match TypeGenerate(c, root, env, fuel)
      case Done(mid) =>
        ContentsFromShape(e, i + 1, mid, env, fuel);
        if ContentsFrom(e, i, root, env, fuel).Done? {
          var r := ContentsFrom(e, i, root, env, fuel).value;
          assert r == ContentsFrom(e, i + 1, mid, env, fuel).value;
          ContentShapeStep(root, mid, r, e.contents[i..], env, fuel);
        }
      case Failed(_) =>
      case OutOfFuel =>
    }
  }

  /** The first content generated into `root` gives `mid`, the others turn `mid` into `r`:
      `r` has the members and the texts of all of them. */
  lemma ContentShapeStep(root: Element, mid: Element, r: Element, cs: seq<TypeGenerator>, env: Env, fuel: nat)
    requires cs != []
    requires Extends(root, mid, AllMembers(cs[0]), env, fuel) && mid.texts == root.texts + InfoTexts(env.faker, cs[0].typeInfo)
    requires Extends(mid, r, ContentMembers(cs[1..]), env, fuel) && r.texts == mid.texts + ContentTexts(env.faker, cs[1..])
    ensures Extends(root, r, ContentMembers(cs), env, fuel) && r.texts == root.texts + ContentTexts(env.faker, cs)
  {
    assert ContentMembers(cs) == AllMembers(cs[0]) + ContentMembers(cs[1..]);
    ExtendsTransitive(root, mid, r, AllMembers(cs[0]), ContentMembers(cs[1..]), env, fuel);
    ContentTextsStep(root.texts, cs, env.faker);
  }

  lemma ContentTextsStep(texts: seq<string>, cs: seq<TypeGenerator>, f: Faker)
    requires cs != []
    ensures texts + InfoTexts(f, cs[0].typeInfo) + ContentTexts(f, cs[1..]) == texts + ContentTexts(f, cs)
  {
    assert texts + InfoTexts(f, cs[0].typeInfo) + ContentTexts(f, cs[1..]) ==
      texts + (InfoTexts(f, cs[0].typeInfo) + ContentTexts(f, cs[1..]));
  }

  /** A named element that neither references nor is typed by name becomes one element of
      that name, without attributes, whose children are the members of its contents in
      order and whose texts are those of its contents' type information. */
  lemma ElementGenerateContents(e: ElementGenerator, env: Env, fuel: nat)
    requires e.reference.None? && e.typeInfo.None? && e.name.Some?
    ensures ElementGenerate(e, env, fuel).Done? ==>
      var r := ElementGenerate(e, env, fuel).value;
      r.name == e.name.value && r.attributes == [] &&
      r.texts == ContentTexts(env.faker, e.contents) &&
      Extends(New(e.name.value), r, ContentMembers(e.contents), env, fuel)
  {
    ContentsFromShape(e, 0, New(e.name.value), env, fuel);
    assert e.contents[0..] == e.contents;
  }

  /** The four shapes `ElementGenerator::generate` rejects, with their messages. */
  lemma ElementGenerateRejects(e: ElementGenerator, env: Env, fuel: nat)
    ensures e.reference.Some? && e.typeInfo.Some? ==>
      ElementGenerate(e, env, fuel) == Failed(DataTypesFormatError(ReferenceAndTypeMessage))
    ensures e.reference.Some? && e.typeInfo.None? && |e.contents| > 0 ==>
      ElementGenerate(e, env, fuel) == Failed(DataTypesFormatError(ReferenceAndContentMessage))
    ensures e.reference.None? && e.name.None? ==>
      ElementGenerate(e, env, fuel) == Failed(DataTypesFormatError(NoNameMessage))
    ensures e.reference.None? && e.name.Some? && e.typeInfo.Some? && |e.contents| > 0 ==>
      ElementGenerate(e, env, fuel) == Failed(DataTypesFormatError(TypeAndContentMessage))
  {
  }

  lemma {:induction false} ContentsFromIgnoresBounds(e: ElementGenerator, lo: nat, hi: Option<nat>, i: nat, root: Element, env: Env, fuel: nat)
    requires i <= |e.contents|
    ensures ContentsFrom(e.(min := lo, max := hi), i, root, env, fuel) == ContentsFrom(e, i, root, env, fuel)
    decreases |e.contents| - i
  {
    if i < |e.contents| {
      match TypeGenerate(e.contents[i], root, env, fuel)
      case Done(next) => ContentsFromIgnoresBounds(e, lo, hi, i + 1, next, env, fuel);
      case Failed(_) =>
      case OutOfFuel =>
    }
  }

  /** The occurrence bounds of an element never influence what is generated for it. */
  lemma ElementGenerateIgnoresBounds(e: ElementGenerator, lo: nat, hi: Option<nat>, env: Env, fuel: nat)
    ensures ElementGenerate(e.(min := lo, max := hi), env, fuel) == ElementGenerate(e, env, fuel)
  {
    if e.reference.None? && e.name.Some? && e.typeInfo.None? {
      ContentsFromIgnoresBounds(e, lo, hi, 0, New(e.name.value), env, fuel);
    }
  }

  // ----- The two look-ups ---------------------------------------------------------------

  lemma {:induction false} ReferenceFromSkips(reference: string, i: nat, k: nat, env: Env, fuel: nat)
    requires i <= k <= |env.elements|
    requires forall j :: i <= j < k ==> GetName(env.elements[j]).Ok? && GetName(env.elements[j]).value != reference
    ensures ReferenceFrom(reference, i, env, fuel) == ReferenceFrom(reference, k, env, fuel)
    decreases k - i
  {
    if i < k {
      ReferenceFromSkips(reference, i + 1, k, env, fuel);
    }
  }

  /** `generate_reference` generates the first element named `reference`; before it, a
      nameless element stops the search, and without one the reference is not found. */
  lemma GenerateReferenceFirstMatch(reference: string, k: nat, env: Env, fuel: nat)
    requires k <= |env.elements|
    requires forall j :: 0 <= j < k ==> GetName(env.elements[j]).Ok? && GetName(env.elements[j]).value != reference
    ensures k == |env.elements| ==>
      GenerateReference(reference, env, fuel) == Failed(XmlBuilderError(ReferenceNotFoundMessage))
    ensures k < |env.elements| && GetName(env.elements[k]).Err? ==>
      GenerateReference(reference, env, fuel) == Failed(DataTypesFormatError(NoNameMessage))
    ensures k < |env.elements| && GetName(env.elements[k]) == Ok(reference) ==>
      GenerateReference(reference, env, fuel) ==
        if fuel == 0 then OutOfFuel else ElementGenerate(env.elements[k], env, fuel - 1)
  {
    ReferenceFromSkips(reference, 0, k, env, fuel);
  }

  lemma {:induction false} DataTypeFromSkips(el: Element, typeName: string, i: nat, k: nat, env: Env, fuel: nat)
    requires i <= k <= |env.dataTypes|
    requires forall j :: i <= j < k ==> env.dataTypes[j].name != typeName
    ensures DataTypeFrom(el, typeName, i, env, fuel) == DataTypeFrom(el, typeName, k, env, fuel)
    decreases k - i
  {
    if i < k {
      DataTypeFromSkips(el, typeName, i + 1, k, env, fuel);
    }
  }

  /** `generate_type_output` adds a built-in value as text, or generates the first data
      type of that name into the element, or reports the type missing. */
  lemma GenerateTypeOutputFirstMatch(el: Element, typeName: string, k: nat, env: Env, fuel: nat)
    requires k <= |env.dataTypes|
    requires forall j :: 0 <= j < k ==> env.dataTypes[j].name != typeName
    ensures typeName in BuiltinTypeNames ==>
      GenerateTypeOutput(el, typeName, env, fuel) == Done(AddText(el, GenerateType(env.faker, typeName).value))
    ensures typeName !in BuiltinTypeNames && k == |env.dataTypes| ==>
      GenerateTypeOutput(el, typeName, env, fuel) == Failed(DataTypeError(CannotFindDataTypeMessage(typeName)))
    ensures typeName !in BuiltinTypeNames && k < |env.dataTypes| && env.dataTypes[k].name == typeName ==>
      GenerateTypeOutput(el, typeName, env, fuel) ==
        if fuel == 0 then OutOfFuel else TypeGenerate(env.dataTypes[k], el, env, fuel - 1)
  {
    DataTypeFromSkips(el, typeName, 0, k, env, fuel);
  }

  // ----- Names ----------------------------------------------------------------------------

  lemma {:induction false} DataTypeFromKeepsName(el: Element, typeName: string, i: nat, env: Env, fuel: nat)
    requires i <= |env.dataTypes|
    ensures DataTypeFrom(el, typeName, i, env, fuel).Done? ==>
      DataTypeFrom(el, typeName, i, env, fuel).value.name == el.name
    decreases |env.dataTypes| - i
  {
    if i < |env.dataTypes| {
      if env.dataTypes[i].name == typeName {
        if fuel > 0 {
          TypeGenerateShape(env.dataTypes[i], el, env, fuel - 1);
        }
      } else {
        DataTypeFromKeepsName(el, typeName, i + 1, env, fuel);
      }
    }
  }

  /** A generated element is named after the element's name or, for a reference, after the
      element it references. */
  lemma {:induction false} ElementGenerateName(e: ElementGenerator, env: Env, fuel: nat)
    requires NameOrReference(env.elements)
    ensures ElementGenerate(e, env, fuel).Done? ==>
      Some(ElementGenerate(e, env, fuel).value.name) == if e.reference.Some? then e.reference else e.name
    decreases fuel, 1, e
  {
    if e.reference.Some? {
      if e.typeInfo.None? && |e.contents| == 0 {
        ReferenceFromName(e.reference.value, 0, env, fuel);
      }
    } else if e.name.Some? {
      if e.typeInfo.Some? {
        if |e.contents| == 0 && GenerateType(env.faker, e.typeInfo.value).None? {
          DataTypeFromKeepsName(New(e.name.value), e.typeInfo.value, 0, env, fuel);
        }
      } else {
        ContentsFromShape(e, 0, New(e.name.value), env, fuel);
      }
    }
  }

  lemma {:induction false} ReferenceFromName(reference: string, i: nat, env: Env, fuel: nat)
    requires NameOrReference(env.elements) && i <= |env.elements|
    ensures ReferenceFrom(reference, i, env, fuel).Done? ==>
      ReferenceFrom(reference, i, env, fuel).value.name == reference
    decreases fuel, 0, |env.elements| - i
  {
    if i < |env.elements| && GetName(env.elements[i]).Ok? {
      if GetName(env.elements[i]).value == reference {
        if fuel > 0 {
          ElementGenerateName(env.elements[i], env, fuel - 1);
        }
      } else {
        ReferenceFromName(reference, i + 1, env, fuel);
      }
    }
  }

  // ----- No attributes -------------------------------------------------------------------

  /** The generator never adds attributes: no element of a generated tree has one. */
  lemma {:induction false} ElementGenerateNoAttributes(e: ElementGenerator, env: Env, fuel: nat)
    ensures ElementGenerate(e, env, fuel).Done? ==> NoAttributes(ElementGenerate(e, env, fuel).value)
    decreases fuel, 1, e
  {
    if e.reference.Some? {
      if e.typeInfo.None? && |e.contents| == 0 {
        ReferenceFromNoAttributes(e.reference.value, 0, env, fuel);
      }
    } else if e.name.Some? {
      var root := New(e.name.value);
      if e.typeInfo.Some? {
        if |e.contents| == 0 && GenerateType(env.faker, e.typeInfo.value).None? {
          DataTypeFromNoAttributes(root, e.typeInfo.value, 0, env, fuel);
        }
      } else {
        ContentsFromNoAttributes(e, 0, root, env, fuel);
      }
    }
  }

  lemma {:induction false} ContentsFromNoAttributes(e: ElementGenerator, i: nat, root: Element, env: Env, fuel: nat)
    requires i <= |e.contents| && NoAttributes(root)
    ensures ContentsFrom(e, i, root, env, fuel).Done? ==> NoAttributes(ContentsFrom(e, i, root, env, fuel).value)
    decreases fuel, 1, e, |e.contents| - i
  {
    if i < |e.contents| {
      TypeGenerateNoAttributes(e.contents[i], root, env, fuel);
      match TypeGenerate(e.contents[i], root, env, fuel)
      case Done(next) => ContentsFromNoAttributes(e, i + 1, next, env, fuel);
      case Failed(_) =>
      case OutOfFuel =>
    }
  }

  lemma {:induction false} TypeGenerateNoAttributes(t: TypeGenerator, el: Element, env: Env, fuel: nat)
    requires NoAttributes(el)
    ensures TypeGenerate(t, el, env, fuel).Done? ==> NoAttributes(TypeGenerate(t, el, env, fuel).value)
    decreases fuel, 1, t
  {
    TypeInfoFromTexts(t, 0, el, env);
    match TypeInfoFrom(t, 0, el, env)
    case Done(withText) =>
      ElementsFromNoAttributes(t, 0, withText, env, fuel);
      match ElementsFrom(t, 0, withText, env, fuel) {
        case Done(withElements) => GroupsFromNoAttributes(t, 0, 0, withElements, env, fuel);
        case Failed(_) =>
        case OutOfFuel =>
      }
    case Failed(_) =>
    case OutOfFuel =>
  }

  lemma {:induction false} ElementsFromNoAttributes(t: TypeGenerator, i: nat, el: Element, env: Env, fuel: nat)
    requires i <= |t.elements| && NoAttributes(el)
    ensures ElementsFrom(t, i, el, env, fuel).Done? ==> NoAttributes(ElementsFrom(t, i, el, env, fuel).value)
    decreases fuel, 1, t, |t.elements| - i
  {
    if i < |t.elements| {
      ElementGenerateNoAttributes(t.elements[i], env, fuel);
      match ElementGenerate(t.elements[i], env, fuel)
      case Done(child) =>
        AddChildNoAttributes(el, child);
        ElementsFromNoAttributes(t, i + 1, AddChild(el, child), env, fuel);
      case Failed(_) =>
      case OutOfFuel =>
    }
  }

  lemma {:induction false} GroupsFromNoAttributes(t: TypeGenerator, g: nat, k: nat, el: Element, env: Env, fuel: nat)
    requires g <= |t.groups| && (g < |t.groups| ==> k <= |t.groups[g].elements|) && NoAttributes(el)
    ensures GroupsFrom(t, g, k, el, env, fuel).Done? ==> NoAttributes(GroupsFrom(t, g, k, el, env, fuel).value)
    decreases fuel, 1, t, |t.groups| - g, if g < |t.groups| then |t.groups[g].elements| - k else 0
  {
    if g < |t.groups| {
      if k == |t.groups[g].elements| {
        GroupsFromNoAttributes(t, g + 1, 0, el, env, fuel);
      } else {
        ElementGenerateNoAttributes(t.groups[g].elements[k], env, fuel);
        match ElementGenerate(t.groups[g].elements[k], env, fuel)
        case Done(child) =>
          AddChildNoAttributes(el, child);
          GroupsFromNoAttributes(t, g, k + 1, AddChild(el, child), env, fuel);
        case Failed(_) =>
        case OutOfFuel =>
      }
    }
  }

  lemma {:induction false} ReferenceFromNoAttributes(reference: string, i: nat, env: Env, fuel: nat)
    requires i <= |env.elements|
    ensures ReferenceFrom(reference, i, env, fuel).Done? ==> NoAttributes(ReferenceFrom(reference, i, env, fuel).value)
    decreases fuel, 0, |env.elements| - i
  {
    if i < |env.elements| && GetName(env.elements[i]).Ok? {
      if GetName(env.elements[i]).value == reference {
        if fuel > 0 {
          ElementGenerateNoAttributes(env.elements[i], env, fuel - 1);
        }
      } else {
        ReferenceFromNoAttributes(reference, i + 1, env, fuel);
      }
    }
  }

  lemma {:induction false} DataTypeFromNoAttributes(el: Element, typeName: string, i: nat, env: Env, fuel: nat)
    requires i <= |env.dataTypes| && NoAttributes(el)
    ensures DataTypeFrom(el, typeName, i, env, fuel).Done? ==> NoAttributes(DataTypeFrom(el, typeName, i, env, fuel).value)
    decreases fuel, 0, |env.dataTypes| - i
  {
    if i < |env.dataTypes| {
      if env.dataTypes[i].name == typeName {
        if fuel > 0 {
          TypeGenerateNoAttributes(env.dataTypes[i], el, env, fuel - 1);
        }
      } else {
        DataTypeFromNoAttributes(el, typeName, i + 1, env, fuel);
      }
    }
  }

  lemma AddChildNoAttributes(el: Element, child: Element)
    requires NoAttributes(el) && NoAttributes(child)
    ensures NoAttributes(AddChild(el, child))
  {
    var r := AddChild(el, child);
    assert forall i :: 0 <= i < |r.children| ==> r.children[i] == if i < |el.children| then el.children[i] else child;
  }
}
