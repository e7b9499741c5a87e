/** `find_root` of the root crate (src/lib.rs): the root struct is the first one that no
    field's type names. A struct is dependent when it is the first struct named after
    some field's type. */
module StructRoot {
  import opened Wrappers
  import opened StructFields

  const NoRootMessage := "No root structs found!"

  /** The type names of a struct's fields, in order. */
  function FieldNamesOf(fields: seq<FieldInfo>): seq<string> {
    seq(|fields|, j requires 0 <= j < |fields| => fields[j].fieldType.name)
  }

  /** The type names of every field of every struct, in declaration order. */
  function FieldTypeNames(structs: seq<StructInfo>): seq<string> {
    if structs == [] then [] else FieldNamesOf(structs[0].fields) + FieldTypeNames(structs[1..])
  }

  // ----- The loops of find_root ------------------------------------------------------------

  /** `name` pushed unless it is already there. */
  function AddNew(acc: seq<string>, name: string): seq<string> {
    if name in acc then acc else acc + [name]
  }

  /** The nested loop filling `all_fields`, at field `f` of struct `s`. */
  function AllFieldsFrom(structs: seq<StructInfo>, s: nat, f: nat, acc: seq<string>): seq<string>
    requires s <= |structs| && (s < |structs| ==> f <= |structs[s].fields|)
    decreases |structs| - s, if s < |structs| then |structs[s].fields| - f else 0
  {
    if s == |structs| then acc
    else if f == |structs[s].fields| then AllFieldsFrom(structs, s + 1, 0, acc)
    else AllFieldsFrom(structs, s, f + 1, AddNew(acc, structs[s].fields[f].fieldType.name))
  }

  /** The loop of `get_field_struct` from position `i` on: the first struct named `name`. */
  function FirstNamed(structs: seq<StructInfo>, name: string, i: nat): (r: Option<StructInfo>)
    requires i <= |structs|
    ensures r.Some? ==> r.value.name == name && r.value in structs[i..]
    decreases |structs| - i
  {
    if i == |structs| then None
    else if structs[i].name == name then Some(structs[i])
    else FirstNamed(structs, name, i + 1)
  }

  /** `get_field_struct`. */
  method GetFieldStruct(structs: seq<StructInfo>, name: string) returns (r: Option<StructInfo>)
    ensures r == FirstNamed(structs, name, 0)
  {
    for i := 0 to |structs|
      invariant FirstNamed(structs, name, 0) == FirstNamed(structs, name, i)
    {
      if structs[i].name == name {
        return Some(structs[i]);
      }
    }
    return None;
  }

  /** The loop filling `dep_structs`. */
  function DepsFrom(structs: seq<StructInfo>, fields: seq<string>, k: nat, acc: seq<StructInfo>): seq<StructInfo>
    requires k <= |fields|
    decreases |fields| - k
  {
    if k == |fields| then acc
    else
      match FirstNamed(structs, fields[k], 0)
      case Some(x) => DepsFrom(structs, fields, k + 1, acc + [x])
      case None => DepsFrom(structs, fields, k + 1, acc)
  }

  /** The loop filling `independent_structs`. `Vec::contains` compares with
      `PartialEq for StructInfo`, which is structural equality (`StructInfoEq`). */
  function IndependentFrom(structs: seq<StructInfo>, deps: seq<StructInfo>, i: nat, acc: seq<StructInfo>): seq<StructInfo>
    requires i <= |structs|
    decreases |structs| - i
  {
    if i == |structs| then acc
    else IndependentFrom(structs, deps, i + 1, if structs[i] !in deps then acc + [structs[i]] else acc)
  }

  /** The final scan: the first struct contained in `independent`. */
  function ScanFrom(structs: seq<StructInfo>, independent: seq<StructInfo>, i: nat): (r: Option<nat>)
    requires i <= |structs|
    ensures r.Some? ==> i <= r.value < |structs|
    decreases |structs| - i
  {
    if i == |structs| then None
    else if structs[i] in independent then Some(i)
    else ScanFrom(structs, independent, i + 1)
  }

  /** `find_root`. */
  function FindRoot(structs: seq<StructInfo>): Fallible<StructInfo> {
    var fields := AllFieldsFrom(structs, 0, 0, []);
    var deps := DepsFrom(structs, fields, 0, []);
    var independent := IndependentFrom(structs, deps, 0, []);
    if independent == [] then Panic(NoRootMessage)
    else
      match ScanFrom(structs, independent, 0)
      case Some(k) => Built(structs[k])
      case None => Panic(NoRootMessage)
  }

  /** `find_root` as the source writes it: five loops, the last an early-return scan. */
  method FindRootOf(structs: seq<StructInfo>) returns (r: Fallible<StructInfo>)
    ensures r == FindRoot(structs)
  {
    var allFields: seq<string> := [];
    for s := 0 to |structs|
      invariant AllFieldsFrom(structs, 0, 0, []) == AllFieldsFrom(structs, s, 0, allFields)
    {
      for f := 0 to |structs[s].fields|
        invariant AllFieldsFrom(structs, 0, 0, []) == AllFieldsFrom(structs, s, f, allFields)
      {
        var name := structs[s].fields[f].fieldType.name;
        if name !in allFields {
          allFields := allFields + [name];
        }
      }
    }
    var deps: seq<StructInfo> := [];
    for k := 0 to |allFields|
      invariant DepsFrom(structs, allFields, 0, []) == DepsFrom(structs, allFields, k, deps)
    {
      var structure := GetFieldStruct(structs, allFields[k]);
      if structure.Some? {
        deps := deps + [structure.value];
      }
    }
    var independent: seq<StructInfo> := [];
    for i := 0 to |structs|
      invariant IndependentFrom(structs, deps, 0, []) == IndependentFrom(structs, deps, i, independent)
    {
      if structs[i] !in deps {
        independent := independent + [structs[i]];
      }
    }
    if |independent| == 0 {
      return Panic(NoRootMessage);
    }
    for i := 0 to |structs|
      invariant ScanFrom(structs, independent, 0) == ScanFrom(structs, independent, i)
    {
      if structs[i] in independent {
        return Built(structs[i]);
      }
    }
    return Panic(NoRootMessage);
  }

  // ----- What find_root promises -----------------------------------------------------------

  /** A struct is dependent when some field's type names it and it is the first struct
      of that name. */
  predicate Dependent(structs: seq<StructInfo>, x: StructInfo) {
    x.name in FieldTypeNames(structs) && FirstNamed(structs, x.name, 0) == Some(x)
  }

  /** The field type names not yet visited at field `f` of struct `s`. */
  function RestNames(structs: seq<StructInfo>, s: nat, f: nat): seq<string>
    requires s <= |structs| && (s < |structs| ==> f <= |structs[s].fields|)
  {
    if s == |structs| then [] else FieldNamesOf(structs[s].fields)[f..] + FieldTypeNames(structs[s + 1..])
  }

  lemma {:induction false} AllFieldsFromMembers(structs: seq<StructInfo>, s: nat, f: nat, acc: seq<string>, x: string)
    requires s <= |structs| && (s < |structs| ==> f <= |structs[s].fields|)
    ensures x in AllFieldsFrom(structs, s, f, acc) <==> x in acc || x in RestNames(structs, s, f)
    decreases |structs| - s, if s < |structs| then |structs[s].fields| - f else 0
  {
    if s < |structs| {
      var names := FieldNamesOf(structs[s].fields);
      if f == |structs[s].fields| {
        AllFieldsFromMembers(structs, s + 1, 0, acc, x);
        if s + 1 < |structs| {
          assert structs[s + 1..][0] == structs[s + 1];
          assert structs[s + 1..][1..] == structs[s + 2..];
          assert FieldNamesOf(structs[s + 1].fields)[0..] == FieldNamesOf(structs[s + 1].fields);
        } else {
          assert structs[s + 1..] == [];
        }
        assert names[f..] == [];
      } else {
        var acc' := AddNew(acc, structs[s].fields[f].fieldType.name);
        AllFieldsFromMembers(structs, s, f + 1, acc', x);
        assert names[f..] == [names[f]] + names[f + 1..];
      }
    }
  }

  /** `all_fields` holds exactly the field type names. */
  lemma AllFieldsMembers(structs: seq<StructInfo>, x: string)
    ensures x in AllFieldsFrom(structs, 0, 0, []) <==> x in FieldTypeNames(structs)
  {
    AllFieldsFromMembers(structs, 0, 0, [], x);
    if structs != [] {
      assert FieldNamesOf(structs[0].fields)[0..] == FieldNamesOf(structs[0].fields);
    }
  }

  lemma {:induction false} DepsFromMembers(structs: seq<StructInfo>, fields: seq<string>, k: nat, acc: seq<StructInfo>, x: StructInfo)
    requires k <= |fields|
    ensures x in DepsFrom(structs, fields, k, acc) <==>
      x in acc || exists j :: k <= j < |fields| && FirstNamed(structs, fields[j], 0) == Some(x)
    decreases |fields| - k
  {
    if k < |fields| {
      var next := match FirstNamed(structs, fields[k], 0) case Some(y) => acc + [y] case None => acc;
      DepsFromMembers(structs, fields, k + 1, next, x);
    }
  }

  /** `dep_structs` holds exactly the dependent structs. */
  lemma DepsAreDependent(structs: seq<StructInfo>, x: StructInfo)
    ensures x in DepsFrom(structs, AllFieldsFrom(structs, 0, 0, []), 0, []) <==> Dependent(structs, x)
  {
    var fields := AllFieldsFrom(structs, 0, 0, []);
    DepsFromMembers(structs, fields, 0, [], x);
    AllFieldsMembers(structs, x.name);
    if Dependent(structs, x) {
      var j :| 0 <= j < |fields| && fields[j] == x.name;
      assert FirstNamed(structs, fields[j], 0) == Some(x);
    }
  }

  lemma {:induction false} IndependentFromMembers(structs: seq<StructInfo>, deps: seq<StructInfo>, i: nat, acc: seq<StructInfo>, x: StructInfo)
    requires i <= |structs|
    ensures x in IndependentFrom(structs, deps, i, acc) <==> x in acc || (x in structs[i..] && x !in deps)
    decreases |structs| - i
  {
    if i < |structs| {
      assert structs[i..] == [structs[i]] + structs[i + 1..];
      IndependentFromMembers(structs, deps, i + 1, if structs[i] !in deps then acc + [structs[i]] else acc, x);
    }
  }

  lemma {:induction false} ScanFromFirst(structs: seq<StructInfo>, independent: seq<StructInfo>, i: nat)
    requires i <= |structs|
    ensures ScanFrom(structs, independent, i).Some? ==>
      var k := ScanFrom(structs, independent, i).value;
      i <= k < |structs| && structs[k] in independent && forall j :: i <= j < k ==> structs[j] !in independent
    ensures ScanFrom(structs, independent, i).None? ==> forall j :: i <= j < |structs| ==> structs[j] !in independent
    decreases |structs| - i
  {
    if i < |structs| {
      ScanFromFirst(structs, independent, i + 1);
    }
  }

  /** `find_root` panics exactly when every struct is dependent; otherwise it returns the
      first struct that is not, however many there are. */
  lemma FindRootSpec(structs: seq<StructInfo>)
    ensures FindRoot(structs).Panic? <==> forall k :: 0 <= k < |structs| ==> Dependent(structs, structs[k])
    ensures FindRoot(structs).Panic? ==> FindRoot(structs).message == NoRootMessage
    ensures FindRoot(structs).Built? ==>
      exists k :: 0 <= k < |structs| && FindRoot(structs).value == structs[k] && !Dependent(structs, structs[k]) &&
        forall j :: 0 <= j < k ==> Dependent(structs, structs[j])
  {
    var fields := AllFieldsFrom(structs, 0, 0, []);
    var deps := DepsFrom(structs, fields, 0, []);
    var independent := IndependentFrom(structs, deps, 0, []);
    assert structs[0..] == structs;
    forall x | true
      ensures x in independent <==> x in structs && !Dependent(structs, x)
    {
      IndependentFromMembers(structs, deps, 0, [], x);
      DepsAreDependent(structs, x);
    }
    ScanFromFirst(structs, independent, 0);
    if independent != [] {
      assert independent[0] in independent;
    }
  }

  /** When struct names are unique, a struct is dependent exactly when some field's type
      carries its name. */
  lemma {:induction false} UniqueNamesDependent(structs: seq<StructInfo>, k: nat)
    requires k < |structs|
    requires forall i, j :: 0 <= i < j < |structs| ==> structs[i].name != structs[j].name
    ensures Dependent(structs, structs[k]) <==> structs[k].name in FieldTypeNames(structs)
  {
    FirstNamedAt(structs, k, 0);
  }

  lemma {:induction false} FirstNamedAt(structs: seq<StructInfo>, k: nat, i: nat)
    requires i <= k < |structs|
    requires forall a, b :: 0 <= a < b < |structs| ==> structs[a].name != structs[b].name
    ensures FirstNamed(structs, structs[k].name, i) == Some(structs[k])
    decreases k - i
  {
    if i < k {
      FirstNamedAt(structs, k, i + 1);
    }
  }

  /** The search for a struct by name finds nothing exactly when no struct from `i` on has
      that name. */
  lemma {:induction false} FirstNamedNone(structs: seq<StructInfo>, name: string, i: nat)
    requires i <= |structs|
    ensures FirstNamed(structs, name, i).None? <==> forall k :: i <= k < |structs| ==> structs[k].name != name
    decreases |structs| - i
  {
    if i < |structs| {
      FirstNamedNone(structs, name, i + 1);
    }
  }
}
