/** find_root.rs: choosing the root among the top-level element declarations. An element
    is dependent when it is the first one named after some reference or some member of
    some element's contents; the root is the one element that is not. */
module FindRoot {
  import opened Wrappers
  import opened Records

  const NoElementsMessage := "No elements found"
  const NoIndependentMessage := "No independent elements found"
  const MultipleIndependentMessage := "Multiple independent (root) elements found!"

  // ----- get_content_list -----------------------------------------------------------

  /** The names of `ms` in order; the first element with neither name nor reference makes
      it fail. */
  function Names(ms: seq<ElementGenerator>): Result<seq<string>> {
    if ms == [] then Ok([])
    else
      match GetName(ms[0])
      case Err(err) => Err(err)
      case Ok(name) =>
        match Names(ms[1..])
        case Err(err) => Err(err)
        case Ok(rest) => Ok([name] + rest)
  }

  /** The names succeed exactly when every member has a name or a reference, and then
      hold each member's name at its position. */
  lemma {:induction false} NamesSpec(ms: seq<ElementGenerator>)
    ensures Names(ms).Ok? <==> forall j :: 0 <= j < |ms| ==> GetName(ms[j]).Ok?
    ensures Names(ms).Ok? ==>
      |Names(ms).value| == |ms| && forall j :: 0 <= j < |ms| ==> GetName(ms[j]) == Ok(Names(ms).value[j])
    ensures Names(ms).Err? ==> Names(ms).error == DataTypesFormatError(NoNameMessage)
  {
    if ms != [] {
      NamesSpec(ms[1..]);
      assert forall j :: 1 <= j < |ms| ==> ms[j] == ms[1..][j - 1];
    }
  }

  /** `get_content_list`: the names of a type's members. */
  function ContentList(t: TypeGenerator): Result<seq<string>> {
    Names(AllMembers(t))
  }

  lemma {:induction false} GroupMembersAppend(a: seq<GroupInfo>, b: seq<GroupInfo>)
    ensures GroupMembers(a + b) == GroupMembers(a) + GroupMembers(b)
    decreases |a|
  {
    if a == [] {
      assert a + b == b;
    } else {
      assert (a + b)[0] == a[0];
      assert (a + b)[1..] == a[1..] + b;
      GroupMembersAppend(a[1..], b);
    }
  }

  /** Where element `k` of group `g` sits among a type's members. */
  lemma GroupMemberIndex(t: TypeGenerator, g: nat, k: nat)
    requires g < |t.groups| && k < |t.groups[g].elements|
    ensures |t.elements| + |GroupMembers(t.groups[..g])| + k < |AllMembers(t)|
    ensures AllMembers(t)[|t.elements| + |GroupMembers(t.groups[..g])| + k] == t.groups[g].elements[k]
  {
    assert t.groups == t.groups[..g] + [t.groups[g]] + t.groups[g + 1..];
    GroupMembersAppend(t.groups[..g] + [t.groups[g]], t.groups[g + 1..]);
    GroupMembersAppend(t.groups[..g], [t.groups[g]]);
    assert GroupMembers([t.groups[g]]) == t.groups[g].elements + GroupMembers([]);
  }

  /** `get_content_list` as the source writes it: two loops pushing names. */
  method GetContentList(t: TypeGenerator) returns (r: Result<seq<string>>)
    ensures r == ContentList(t)
  {
    ghost var ms := AllMembers(t);
    var output: seq<string> := [];
    for i := 0 to |t.elements|
      invariant |output| == i
      invariant forall j :: 0 <= j < i ==> GetName(ms[j]) == Ok(output[j])
    {
      assert ms[i] == t.elements[i];
      var name := GetName(t.elements[i]);
      if name.Err? {
        NamesSpec(ms);
        return Err(name.error);
      }
      output := output + [name.value];
    }
    for g := 0 to |t.groups|
      invariant |output| == |t.elements| + |GroupMembers(t.groups[..g])| <= |ms|
      invariant forall j :: 0 <= j < |output| ==> GetName(ms[j]) == Ok(output[j])
    {
      for k := 0 to |t.groups[g].elements|
        invariant |output| == |t.elements| + |GroupMembers(t.groups[..g])| + k <= |ms|
        invariant forall j :: 0 <= j < |output| ==> GetName(ms[j]) == Ok(output[j])
      {
        GroupMemberIndex(t, g, k);
        var name := GetName(t.groups[g].elements[k]);
        if name.Err? {
          NamesSpec(ms);
          return Err(name.error);
        }
        output := output + [name.value];
      }
      assert t.groups[..g + 1] == t.groups[..g] + [t.groups[g]];
      GroupMembersAppend(t.groups[..g], [t.groups[g]]);
      assert GroupMembers([t.groups[g]]) == t.groups[g].elements + GroupMembers([]);
    }
    assert t.groups[..|t.groups|] == t.groups;
    NamesSpec(ms);
    assert output == Names(ms).value;
    return Ok(output);
  }

  // ----- get_field_struct -----------------------------------------------------------

  /** The first element from position `i` on named `field`. */
  function FieldStructFrom(generators: seq<ElementGenerator>, field: string, i: nat): (r: Option<nat>)
    requires i <= |generators|
    ensures r.Some? ==>
      i <= r.value < |generators| && generators[r.value].name == Some(field) &&
      forall j :: i <= j < r.value ==> generators[j].name != Some(field)
    ensures r.None? ==> forall j :: i <= j < |generators| ==> generators[j].name != Some(field)
    decreases |generators| - i
  {
    if i == |generators| then None
    else if generators[i].name == Some(field) then Some(i)
    else FieldStructFrom(generators, field, i + 1)
  }

  /** `get_field_struct`: the position of the first element named `field`; references do
      not count. */
  function FieldStruct(generators: seq<ElementGenerator>, field: string): Option<nat> {
    FieldStructFrom(generators, field, 0)
  }

  method GetFieldStruct(generators: seq<ElementGenerator>, field: string) returns (r: Option<nat>)
    ensures r == FieldStruct(generators, field)
  {
    for i := 0 to |generators|
      invariant FieldStructFrom(generators, field, 0) == FieldStructFrom(generators, field, i)
    {
      if generators[i].name.Some? && generators[i].name.value == field {
        return Some(i);
      }
    }
    return None;
  }

  // ----- find_root_element, loop by loop ----------------------------------------------

  function RefField(g: ElementGenerator): seq<string> {
    if g.reference.Some? then [g.reference.value] else []
  }

  /** The loop over one element's contents, pushing each content list onto `acc`. */
  function ContentFieldsFrom(contents: seq<TypeGenerator>, c: nat, acc: seq<string>): Result<seq<string>>
    requires c <= |contents|
    decreases |contents| - c
  {
    if c == |contents| then Ok(acc)
    else
      match ContentList(contents[c])
      case Ok(names) => ContentFieldsFrom(contents, c + 1, acc + names)
      case Err(err) => Err(err)
  }

  /** The loop filling `all_fields`: each element's reference, then its content lists. */
  function FieldsFrom(generators: seq<ElementGenerator>, i: nat, acc: seq<string>): Result<seq<string>>
    requires i <= |generators|
    decreases |generators| - i
  {
    if i == |generators| then Ok(acc)
    else
      match ContentFieldsFrom(generators[i].contents, 0, acc + RefField(generators[i]))
      case Ok(next) => FieldsFrom(generators, i + 1, next)
      case Err(err) => Err(err)
  }

  /** The loop filling `dependent_elements`. */
  function DependentsFrom(generators: seq<ElementGenerator>, fields: seq<string>, k: nat, acc: seq<ElementGenerator>): seq<ElementGenerator>
    requires k <= |fields|
    decreases |fields| - k
  {
    if k == |fields| then acc
    else
      match FieldStruct(generators, fields[k])
      case Some(d) => DependentsFrom(generators, fields, k + 1, acc + [generators[d]])
      case None => DependentsFrom(generators, fields, k + 1, acc)
  }

  /** `Vec::contains`, which compares with `PartialEq for ElementGenerator`. */
  predicate Contains(s: seq<ElementGenerator>, x: ElementGenerator) {
    exists j :: 0 <= j < |s| && ElementEq(s[j], x)
  }

  /** The loop filling `independent_elements`. */
  function IndependentFrom(generators: seq<ElementGenerator>, deps: seq<ElementGenerator>, i: nat, acc: seq<ElementGenerator>): (r: seq<ElementGenerator>)
    requires i <= |generators|
    ensures forall x :: x in r ==> x in acc || x in generators
    decreases |generators| - i
  {
    if i == |generators| then acc
    else if !Contains(deps, generators[i]) then IndependentFrom(generators, deps, i + 1, acc + [generators[i]])
    else IndependentFrom(generators, deps, i + 1, acc)
  }

  /** The final scan: the first element contained in `independent_elements`. */
  function ScanFrom(generators: seq<ElementGenerator>, independent: seq<ElementGenerator>, i: nat): (r: Option<ElementGenerator>)
    requires i <= |generators|
    ensures r.Some? ==>
      exists j :: i <= j < |generators| && r.value == generators[j] && Contains(independent, generators[j]) &&
        forall m :: i <= m < j ==> !Contains(independent, generators[m])
    ensures r.None? ==> forall j :: i <= j < |generators| ==> !Contains(independent, generators[j])
    decreases |generators| - i
  {
    if i == |generators| then None
    else if Contains(independent, generators[i]) then Some(generators[i])
    else ScanFrom(generators, independent, i + 1)
  }

  /** `find_root_element`. The scan after the two count checks always finds an element,
      so the source's `unreachable!()` is never reached. */
  function FindRootElement(generators: seq<ElementGenerator>): (r: Result<ElementGenerator>)
    ensures generators == [] ==> r == Err(DataTypesFormatError(NoElementsMessage))
  {
    if generators == [] then Err(DataTypesFormatError(NoElementsMessage))
    else
      match FieldsFrom(generators, 0, [])
      case Err(err) => Err(err)
      case Ok(fields) =>
        var deps := DependentsFrom(generators, fields, 0, []);
        var independent := IndependentFrom(generators, deps, 0, []);
        if independent == [] then Err(DataTypesFormatError(NoIndependentMessage))
        else if |independent| > 1 then Err(DataTypesFormatError(MultipleIndependentMessage))
        else
          match ScanFrom(generators, independent, 0)
          case Some(root) => Ok(root)
          case None =>
            assert independent[0] in generators;
            ElementEqReflexive(independent[0]);
            assert false;
            Err(DataTypesFormatError(NoElementsMessage))
  }

  /** The inner loop of the first loop of `find_root_element`: pushing the content list of
      each of one element's contents after `acc`. */
  method CollectContentFields(contents: seq<TypeGenerator>, acc: seq<string>) returns (r: Result<seq<string>>)
    ensures r == ContentFieldsFrom(contents, 0, acc)
  {
    var fields := acc;
    for c := 0 to |contents|
      invariant ContentFieldsFrom(contents, 0, acc) == ContentFieldsFrom(contents, c, fields)
    {
      var contentList := GetContentList(contents[c]);
      if contentList.Err? {
        return Err(contentList.error);
      }
      fields := fields + contentList.value;
    }
    return Ok(fields);
  }

  /** The first loop of `find_root_element`: collecting `all_fields`. */
  method CollectFields(generators: seq<ElementGenerator>) returns (r: Result<seq<string>>)
    ensures r == FieldsFrom(generators, 0, [])
  {
    var allFields: seq<string> := [];
    for i := 0 to |generators|
      invariant FieldsFrom(generators, 0, []) == FieldsFrom(generators, i, allFields)
    {
      var generator := generators[i];
      ghost var before := allFields;
      if generator.reference.Some? {
        allFields := allFields + [generator.reference.value];
      }
      assert allFields == before + RefField(generator);
      var next := CollectContentFields(generator.contents, allFields);
      if next.Err? {
        return Err(next.error);
      }
      allFields := next.value;
    }
    return Ok(allFields);
  }

  /** The second loop of `find_root_element`: collecting `dependent_elements`. */
  method CollectDependents(generators: seq<ElementGenerator>, allFields: seq<string>) returns (deps: seq<ElementGenerator>)
    ensures deps == DependentsFrom(generators, allFields, 0, [])
  {
    deps := [];
    for k := 0 to |allFields|
      invariant DependentsFrom(generators, allFields, 0, []) == DependentsFrom(generators, allFields, k, deps)
    {
      var structure := GetFieldStruct(generators, allFields[k]);
      if structure.Some? {
        deps := deps + [generators[structure.value]];
      }
    }
  }

  /** The third loop of `find_root_element`: collecting `independent_elements`. */
  method CollectIndependents(generators: seq<ElementGenerator>, deps: seq<ElementGenerator>) returns (independent: seq<ElementGenerator>)
    ensures independent == IndependentFrom(generators, deps, 0, [])
  {
    independent := [];
    for i := 0 to |generators|
      invariant IndependentFrom(generators, deps, 0, []) == IndependentFrom(generators, deps, i, independent)
    {
      if !Contains(deps, generators[i]) {
        independent := independent + [generators[i]];
      }
    }
  }

  /** `find_root_element` as the source writes it: four loops and an early-return scan. */
  method FindRootElementOf(generators: seq<ElementGenerator>) returns (r: Result<ElementGenerator>)
    ensures r == FindRootElement(generators)
  {
    if |generators| == 0 {
      return Err(DataTypesFormatError(NoElementsMessage));
    }
    var fields := CollectFields(generators);
    if fields.Err? {
      return Err(fields.error);
    }
    var deps := CollectDependents(generators, fields.value);
    var independent := CollectIndependents(generators, deps);
    if |independent| == 0 {
      return Err(DataTypesFormatError(NoIndependentMessage));
    }
    if |independent| > 1 {
      return Err(DataTypesFormatError(MultipleIndependentMessage));
    }
    var found := ScanFor(generators, independent);
    if found.Some? {
      return Ok(found.value);
    }
    assert independent[0] in generators;
    ElementEqReflexive(independent[0]);
    assert false;
  }

  /** The final loop of `find_root_element`: the first element the independent list
      contains. */
  method ScanFor(generators: seq<ElementGenerator>, independent: seq<ElementGenerator>) returns (r: Option<ElementGenerator>)
    ensures r == ScanFrom(generators, independent, 0)
  {
    for i := 0 to |generators|
      invariant ScanFrom(generators, independent, 0) == ScanFrom(generators, independent, i)
    {
      if Contains(independent, generators[i]) {
        return Some(generators[i]);
      }
    }
    return None;
  }
}
