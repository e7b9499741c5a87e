/** What `find_root_element` computes, stated without its loops: the fields are the
    references and content member names of all elements; an element is dependent when it
    equals the first element named after a field; the root is the only element that is
    not dependent. */
module FindRootProperties {
  import opened Wrappers
  import opened Records
  import opened FindRoot

  // ----- Declarative definitions -------------------------------------------------------

  /** Every member of every content has a name or a reference. */
  predicate ContentsNamed(contents: seq<TypeGenerator>) {
    forall m :: m in ContentMembers(contents) ==> GetName(m).Ok?
  }

  predicate AllContentsNamed(generators: seq<ElementGenerator>) {
    forall i :: 0 <= i < |generators| ==> ContentsNamed(generators[i].contents)
  }

  /** Some member of the contents goes by `f`. */
  predicate NamedMember(contents: seq<TypeGenerator>, f: string) {
    exists m :: m in ContentMembers(contents) && GetName(m) == Ok(f)
  }

  /** `g` references `f` or has a content member that goes by `f`. */
  predicate FieldOf(g: ElementGenerator, f: string) {
    g.reference == Some(f) || NamedMember(g.contents, f)
  }

  /** `f` is a field of some element. */
  predicate IsField(generators: seq<ElementGenerator>, f: string) {
    exists i :: 0 <= i < |generators| && FieldOf(generators[i], f)
  }

  /** Element `d` is the first element named after a field. */
  predicate ReferencedAt(generators: seq<ElementGenerator>, d: nat) {
    d < |generators| && generators[d].name.Some? && IsField(generators, generators[d].name.value) &&
    forall j :: 0 <= j < d ==> generators[j].name != generators[d].name
  }

  /** `x` equals, by `PartialEq`, an element that is referenced. */
  predicate Dependent(generators: seq<ElementGenerator>, x: ElementGenerator) {
    exists d :: 0 <= d < |generators| && ReferencedAt(generators, d) && ElementEq(generators[d], x)
  }

  /** Element `k` is the only element that is not dependent. */
  predicate UniqueRoot(generators: seq<ElementGenerator>, k: nat) {
    k < |generators| && !Dependent(generators, generators[k]) &&
    forall i :: 0 <= i < |generators| && i != k ==> Dependent(generators, generators[i])
  }

  // ----- Names and fields ----------------------------------------------------------------

  lemma {:induction false} NamesAppend(a: seq<ElementGenerator>, b: seq<ElementGenerator>)
    ensures Names(a + b).Ok? <==> Names(a).Ok? && Names(b).Ok?
    ensures Names(a + b).Ok? ==> Names(a + b).value == Names(a).value + Names(b).value
    decreases |a|
  {
    if a == [] {
      assert a + b == b;
    } else {
      assert (a + b)[0] == a[0];
      assert (a + b)[1..] == a[1..] + b;
      NamesAppend(a[1..], b);
      if Names(a + b).Ok? {
        var n := GetName(a[0]).value;
        assert Names(a + b).value == [n] + (Names(a[1..]).value + Names(b).value);
        assert Names(a).value == [n] + Names(a[1..]).value;
      }
    }
  }

  /** The names collected for `ms` are exactly the names its members go by. */
  lemma NamesMembership(ms: seq<ElementGenerator>)
    ensures Names(ms).Ok? <==> forall m :: m in ms ==> GetName(m).Ok?
    ensures Names(ms).Ok? ==> forall f :: f in Names(ms).value <==> exists m :: m in ms && GetName(m) == Ok(f)
  {
    NamesSpec(ms);
    if Names(ms).Ok? {
      var n := Names(ms).value;
      forall f ensures f in n <==> exists m :: m in ms && GetName(m) == Ok(f) {
        if f in n {
          var j :| 0 <= j < |n| && n[j] == f;
          assert ms[j] in ms && GetName(ms[j]) == Ok(f);
        }
        if exists m :: m in ms && GetName(m) == Ok(f) {
          var m :| m in ms && GetName(m) == Ok(f);
          var j :| 0 <= j < |ms| && ms[j] == m;
          assert n[j] == f;
        }
      }
    } else {
      var j :| 0 <= j < |ms| && GetName(ms[j]).Err?;
      assert ms[j] in ms;
    }
  }

  lemma {:induction false} ContentFieldsFromNames(contents: seq<TypeGenerator>, c: nat, acc: seq<string>)
    requires c <= |contents|
    ensures ContentFieldsFrom(contents, c, acc) ==
      match Names(ContentMembers(contents[c..]))
      case Ok(names) => Ok(acc + names)
      case Err(err) => Err(err)
    decreases |contents| - c
  {
    if c == |contents| {
      assert contents[c..] == [];
      assert acc + [] == acc;
    } else {
      assert contents[c..][0] == contents[c];
      assert contents[c..][1..] == contents[c + 1..];
      assert ContentMembers(contents[c..]) == AllMembers(contents[c]) + ContentMembers(contents[c + 1..]);
      NamesAppend(AllMembers(contents[c]), ContentMembers(contents[c + 1..]));
      NamesSpec(AllMembers(contents[c]));
      NamesSpec(ContentMembers(contents[c + 1..]));
      NamesSpec(ContentMembers(contents[c..]));
      match ContentList(contents[c])
      case Ok(names) =>
        ContentFieldsFromNames(contents, c + 1, acc + names);
        if Names(ContentMembers(contents[c + 1..])).Ok? {
          var rest := Names(ContentMembers(contents[c + 1..])).value;
          assert acc + names + rest == acc + (names + rest);
        }
      case Err(_) =>
    }
  }

  /** One element's turn in the `all_fields` loop. */
  lemma FieldsStep(generators: seq<ElementGenerator>, i: nat, acc: seq<string>)
    requires i < |generators|
    ensures Names(ContentMembers(generators[i].contents)).Ok? <==> ContentsNamed(generators[i].contents)
    ensures Names(ContentMembers(generators[i].contents)).Err? ==>
      FieldsFrom(generators, i, acc) == Err(DataTypesFormatError(NoNameMessage))
    ensures Names(ContentMembers(generators[i].contents)).Ok? ==>
      var next := acc + RefField(generators[i]) + Names(ContentMembers(generators[i].contents)).value;
      FieldsFrom(generators, i, acc) == FieldsFrom(generators, i + 1, next) &&
      forall f :: f in next <==> f in acc || FieldOf(generators[i], f)
  {
    var g := generators[i];
    var members := ContentMembers(g.contents);
    ContentFieldsFromNames(g.contents, 0, acc + RefField(g));
    assert g.contents[0..] == g.contents;
    NamesSpec(members);
    NamesMembership(members);
  }

  lemma {:induction false} FieldsFromSpec(generators: seq<ElementGenerator>, i: nat, acc: seq<string>)
    requires i <= |generators|
    ensures FieldsFrom(generators, i, acc).Ok? <==>
      forall j :: i <= j < |generators| ==> ContentsNamed(generators[j].contents)
    ensures FieldsFrom(generators, i, acc).Ok? ==> forall f :: f in FieldsFrom(generators, i, acc).value <==>
      (f in acc || exists j :: i <= j < |generators| && FieldOf(generators[j], f))
    ensures FieldsFrom(generators, i, acc).Err? ==>
      FieldsFrom(generators, i, acc).error == DataTypesFormatError(NoNameMessage)
    decreases |generators| - i
  {
    if i < |generators| {
      FieldsStep(generators, i, acc);
      var members := ContentMembers(generators[i].contents);
      if Names(members).Ok? {
        FieldsFromSpec(generators, i + 1, acc + RefField(generators[i]) + Names(members).value);
      }
    }
  }

  /** The `all_fields` loop fails exactly when some content member has neither name nor
      reference; otherwise it collects exactly the fields. */
  lemma FieldsSpec(generators: seq<ElementGenerator>)
    ensures FieldsFrom(generators, 0, []).Ok? <==> AllContentsNamed(generators)
    ensures FieldsFrom(generators, 0, []).Ok? ==>
      forall f :: f in FieldsFrom(generators, 0, []).value <==> IsField(generators, f)
    ensures FieldsFrom(generators, 0, []).Err? ==>
      FieldsFrom(generators, 0, []).error == DataTypesFormatError(NoNameMessage)
  {
    FieldsFromSpec(generators, 0, []);
  }

  // ----- Dependent elements ---------------------------------------------------------------

  /** Field `f` leads to an element equal to `x`. */
  predicate Hits(generators: seq<ElementGenerator>, f: string, x: ElementGenerator) {
    FieldStruct(generators, f).Some? && ElementEq(generators[FieldStruct(generators, f).value], x)
  }

  lemma {:induction false} DependentsFromContains(generators: seq<ElementGenerator>, fields: seq<string>, k: nat, acc: seq<ElementGenerator>, x: ElementGenerator)
    requires k <= |fields|
    ensures Contains(DependentsFrom(generators, fields, k, acc), x) <==>
      Contains(acc, x) || exists q :: k <= q < |fields| && Hits(generators, fields[q], x)
    decreases |fields| - k
  {
    if k < |fields| {
      match FieldStruct(generators, fields[k])
      case Some(d) =>
        var next := acc + [generators[d]];
        DependentsFromContains(generators, fields, k + 1, next, x);
        assert Contains(next, x) <==> Contains(acc, x) || ElementEq(generators[d], x) by {
          if Contains(next, x) {
            var j :| 0 <= j < |next| && ElementEq(next[j], x);
            if j < |acc| { assert acc[j] == next[j]; }
          }
          if Contains(acc, x) {
            var j :| 0 <= j < |acc| && ElementEq(acc[j], x);
            assert next[j] == acc[j];
          }
          assert next[|acc|] == generators[d];
        }
      case None =>
        DependentsFromContains(generators, fields, k + 1, acc, x);
    }
  }

  /** An element is in `dependent_elements` (by `PartialEq`) exactly when it is dependent. */
  lemma DependentsSpec(generators: seq<ElementGenerator>, fields: seq<string>, x: ElementGenerator)
    requires forall f :: f in fields <==> IsField(generators, f)
    ensures Contains(DependentsFrom(generators, fields, 0, []), x) <==> Dependent(generators, x)
  {
    DependentsFromContains(generators, fields, 0, [], x);
    if exists q :: 0 <= q < |fields| && Hits(generators, fields[q], x) {
      var q :| 0 <= q < |fields| && Hits(generators, fields[q], x);
      var d := FieldStruct(generators, fields[q]).value;
      assert fields[q] in fields;
      assert ReferencedAt(generators, d);
    }
    if Dependent(generators, x) {
      var d :| 0 <= d < |generators| && ReferencedAt(generators, d) && ElementEq(generators[d], x);
      var n := generators[d].name.value;
      assert n in fields;
      var q :| 0 <= q < |fields| && fields[q] == n;
      assert FieldStruct(generators, n) == Some(d);
      assert Hits(generators, fields[q], x);
    }
  }

  // ----- Independent elements -------------------------------------------------------------

  /** The elements not contained in `deps`, in order. */
  function Independents(gs: seq<ElementGenerator>, deps: seq<ElementGenerator>): seq<ElementGenerator> {
    if gs == [] then []
    else (if !Contains(deps, gs[0]) then [gs[0]] else []) + Independents(gs[1..], deps)
  }

  lemma {:induction false} IndependentFromFilter(generators: seq<ElementGenerator>, deps: seq<ElementGenerator>, i: nat, acc: seq<ElementGenerator>)
    requires i <= |generators|
    ensures IndependentFrom(generators, deps, i, acc) == acc + Independents(generators[i..], deps)
    decreases |generators| - i
  {
    if i == |generators| {
      assert generators[i..] == [];
      assert acc + [] == acc;
    } else {
      assert generators[i..][0] == generators[i];
      assert generators[i..][1..] == generators[i + 1..];
      if !Contains(deps, generators[i]) {
        IndependentFromFilter(generators, deps, i + 1, acc + [generators[i]]);
        assert acc + [generators[i]] + Independents(generators[i + 1..], deps) ==
          acc + ([generators[i]] + Independents(generators[i + 1..], deps));
      } else {
        IndependentFromFilter(generators, deps, i + 1, acc);
        assert [] + Independents(generators[i + 1..], deps) == Independents(generators[i + 1..], deps);
      }
    }
  }

  /** Element `k` is the only one of `gs` not contained in `deps`. */
  predicate UniqueFree(gs: seq<ElementGenerator>, deps: seq<ElementGenerator>, k: nat) {
    k < |gs| && !Contains(deps, gs[k]) && forall i :: 0 <= i < |gs| && i != k ==> Contains(deps, gs[i])
  }

  /** The filter is empty when every element is contained, and is one element exactly when
      one element is not. */
  lemma {:induction false} IndependentsShape(gs: seq<ElementGenerator>, deps: seq<ElementGenerator>)
    ensures Independents(gs, deps) == [] <==> forall i :: 0 <= i < |gs| ==> Contains(deps, gs[i])
    ensures forall k: nat :: UniqueFree(gs, deps, k) ==> Independents(gs, deps) == [gs[k]]
    ensures |Independents(gs, deps)| == 1 ==> exists k: nat :: UniqueFree(gs, deps, k)
  {
    IndependentsEmpty(gs, deps);
    forall k: nat | UniqueFree(gs, deps, k) ensures Independents(gs, deps) == [gs[k]] {
      IndependentsUnique(gs, deps, k);
    }
    if |Independents(gs, deps)| == 1 {
      IndependentsSingle(gs, deps);
    }
  }

  lemma {:induction false} IndependentsEmpty(gs: seq<ElementGenerator>, deps: seq<ElementGenerator>)
    ensures Independents(gs, deps) == [] <==> forall i :: 0 <= i < |gs| ==> Contains(deps, gs[i])
    decreases |gs|
  {
    if gs != [] {
      var t := gs[1..];
      IndependentsEmpty(t, deps);
      assert forall i :: 1 <= i < |gs| ==> gs[i] == t[i - 1];
    }
  }

  lemma {:induction false} IndependentsUnique(gs: seq<ElementGenerator>, deps: seq<ElementGenerator>, k: nat)
    requires UniqueFree(gs, deps, k)
    ensures Independents(gs, deps) == [gs[k]]
    decreases |gs|
  {
    var t := gs[1..];
    if k == 0 {
      forall i | 0 <= i < |t| ensures Contains(deps, t[i]) {
        assert t[i] == gs[i + 1];
      }
      IndependentsEmpty(t, deps);
    } else {
      forall i | 0 <= i < |t| && i != k - 1 ensures Contains(deps, t[i]) {
        assert t[i] == gs[i + 1];
      }
      assert t[k - 1] == gs[k];
      IndependentsUnique(t, deps, k - 1);
    }
  }

  lemma {:induction false} IndependentsSingle(gs: seq<ElementGenerator>, deps: seq<ElementGenerator>)
    requires |Independents(gs, deps)| == 1
    ensures exists k: nat :: UniqueFree(gs, deps, k)
    decreases |gs|
  {
    var t := gs[1..];
    assert forall i :: 1 <= i < |gs| ==> gs[i] == t[i - 1];
    if !Contains(deps, gs[0]) {
      assert Independents(t, deps) == [];
      IndependentsEmpty(t, deps);
      assert UniqueFree(gs, deps, 0);
    } else {
      IndependentsSingle(t, deps);
      var k': nat :| UniqueFree(t, deps, k');
      assert UniqueFree(gs, deps, k' + 1);
    }
  }

  lemma {:induction false} IndependentsHoldsOne(gs: seq<ElementGenerator>, deps: seq<ElementGenerator>, i: nat)
    requires i < |gs| && !Contains(deps, gs[i])
    ensures |Independents(gs, deps)| >= 1
    decreases |gs|
  {
    if i > 0 {
      assert gs[1..][i - 1] == gs[i];
      IndependentsHoldsOne(gs[1..], deps, i - 1);
    }
  }

  lemma {:induction false} IndependentsHoldsTwo(gs: seq<ElementGenerator>, deps: seq<ElementGenerator>, i: nat, j: nat)
    requires i < j < |gs| && !Contains(deps, gs[i]) && !Contains(deps, gs[j])
    ensures |Independents(gs, deps)| >= 2
    decreases |gs|
  {
    assert gs[1..][j - 1] == gs[j];
    if i == 0 {
      IndependentsHoldsOne(gs[1..], deps, j - 1);
    } else {
      assert gs[1..][i - 1] == gs[i];
      IndependentsHoldsTwo(gs[1..], deps, i - 1, j - 1);
    }
  }

  // ----- The result ---------------------------------------------------------------------

  /** When element `k` is the only one not contained in `deps` and `deps` is closed under
      `PartialEq`, the final scan finds element `k` itself. */
  lemma ScanFindsUniqueFree(gs: seq<ElementGenerator>, deps: seq<ElementGenerator>, k: nat)
    requires UniqueFree(gs, deps, k)
    ensures ScanFrom(gs, [gs[k]], 0) == Some(gs[k])
  {
    ElementEqReflexive(gs[k]);
    assert ElementEq([gs[k]][0], gs[k]);
    forall m | 0 <= m < k ensures !Contains([gs[k]], gs[m]) {
      if Contains([gs[k]], gs[m]) {
        assert ElementEq(gs[k], gs[m]);
        var j :| 0 <= j < |deps| && ElementEq(deps[j], gs[m]);
        ElementEqSymmetric(gs[k], gs[m]);
        ElementEqTransitive(deps[j], gs[m], gs[k]);
        assert false;
      }
    }
  }

  lemma ContainsIsDependent(generators: seq<ElementGenerator>, fields: seq<string>)
    requires forall f :: f in fields <==> IsField(generators, f)
    ensures forall x :: Contains(DependentsFrom(generators, fields, 0, []), x) <==> Dependent(generators, x)
  {
    forall x ensures Contains(DependentsFrom(generators, fields, 0, []), x) <==> Dependent(generators, x) {
      DependentsSpec(generators, fields, x);
    }
  }

  /** `find_root_element` once `all_fields` is collected: the count checks apply to the
      elements not contained in `deps`, and the scan looks for the single one. */
  lemma FindRootUnfold(generators: seq<ElementGenerator>, deps: seq<ElementGenerator>)
    requires generators != [] && FieldsFrom(generators, 0, []).Ok?
    requires deps == DependentsFrom(generators, FieldsFrom(generators, 0, []).value, 0, [])
    ensures Independents(generators, deps) == [] ==>
      FindRootElement(generators) == Err(DataTypesFormatError(NoIndependentMessage))
    ensures |Independents(generators, deps)| > 1 ==>
      FindRootElement(generators) == Err(DataTypesFormatError(MultipleIndependentMessage))
    ensures |Independents(generators, deps)| == 1 && ScanFrom(generators, Independents(generators, deps), 0).Some? ==>
      FindRootElement(generators) == Ok(ScanFrom(generators, Independents(generators, deps), 0).value)
  {
    IndependentFromFilter(generators, deps, 0, []);
    assert generators[0..] == generators;
    assert [] + Independents(generators, deps) == Independents(generators, deps);
  }

  /** With every element contained in `dependent_elements`, there is no root. */
  lemma NoFreeElement(generators: seq<ElementGenerator>, deps: seq<ElementGenerator>)
    requires generators != [] && FieldsFrom(generators, 0, []).Ok?
    requires deps == DependentsFrom(generators, FieldsFrom(generators, 0, []).value, 0, [])
    requires forall i :: 0 <= i < |generators| ==> Contains(deps, generators[i])
    ensures FindRootElement(generators) == Err(DataTypesFormatError(NoIndependentMessage))
  {
    FindRootUnfold(generators, deps);
    IndependentsShape(generators, deps);
  }

  /** With exactly one element `k` outside `dependent_elements`, the root is element `k`. */
  lemma OneFreeElement(generators: seq<ElementGenerator>, deps: seq<ElementGenerator>, k: nat)
    requires generators != [] && FieldsFrom(generators, 0, []).Ok?
    requires deps == DependentsFrom(generators, FieldsFrom(generators, 0, []).value, 0, [])
    requires UniqueFree(generators, deps, k)
    ensures FindRootElement(generators) == Ok(generators[k])
  {
    FindRootUnfold(generators, deps);
    IndependentsShape(generators, deps);
    ScanFindsUniqueFree(generators, deps, k);
  }

  /** With two elements outside `dependent_elements`, there are several roots. */
  lemma TwoFreeElements(generators: seq<ElementGenerator>, deps: seq<ElementGenerator>, i: nat, j: nat)
    requires generators != [] && FieldsFrom(generators, 0, []).Ok?
    requires deps == DependentsFrom(generators, FieldsFrom(generators, 0, []).value, 0, [])
    requires i < j < |generators| && !Contains(deps, generators[i]) && !Contains(deps, generators[j])
    ensures FindRootElement(generators) == Err(DataTypesFormatError(MultipleIndependentMessage))
  {
    FindRootUnfold(generators, deps);
    IndependentsHoldsTwo(generators, deps, i, j);
  }

  /** A root is always the single element outside `dependent_elements`. */
  lemma RootIsFree(generators: seq<ElementGenerator>, deps: seq<ElementGenerator>)
    requires generators != [] && FieldsFrom(generators, 0, []).Ok?
    requires deps == DependentsFrom(generators, FieldsFrom(generators, 0, []).value, 0, [])
    requires FindRootElement(generators).Ok?
    ensures exists k: nat :: UniqueFree(generators, deps, k) && FindRootElement(generators) == Ok(generators[k])
  {
    FindRootUnfold(generators, deps);
    IndependentsShape(generators, deps);
    var k: nat :| UniqueFree(generators, deps, k);
    OneFreeElement(generators, deps, k);
  }

  /** With every content member named, `all_fields` is collected and `dependent_elements`
      holds, up to `PartialEq`, exactly the dependent elements. */
  lemma DependentsOf(generators: seq<ElementGenerator>)
    requires AllContentsNamed(generators)
    ensures FieldsFrom(generators, 0, []).Ok?
    ensures forall x :: Contains(DependentsFrom(generators, FieldsFrom(generators, 0, []).value, 0, []), x) <==>
      Dependent(generators, x)
  {
    FieldsSpec(generators);
    ContainsIsDependent(generators, FieldsFrom(generators, 0, []).value);
  }

  // `find_root_element` in full, case by case: with no elements (the postcondition of
  // `FindRootElement`), a content member without a name, no independent element or two,
  // it fails with the source's messages; otherwise the root is the only element that is
  // not dependent.

  lemma RootNeedsNamedContents(generators: seq<ElementGenerator>)
    requires generators != [] && !AllContentsNamed(generators)
    ensures FindRootElement(generators) == Err(DataTypesFormatError(NoNameMessage))
  {
    FieldsSpec(generators);
  }

  lemma RootNeedsIndependent(generators: seq<ElementGenerator>)
    requires generators != [] && AllContentsNamed(generators)
    requires forall i :: 0 <= i < |generators| ==> Dependent(generators, generators[i])
    ensures FindRootElement(generators) == Err(DataTypesFormatError(NoIndependentMessage))
  {
    AllContained(generators);
    NoFreeElement(generators, DependentsFrom(generators, FieldsFrom(generators, 0, []).value, 0, []));
  }

  /** When every element is dependent, `dependent_elements` contains every element. */
  lemma AllContained(generators: seq<ElementGenerator>)
    requires AllContentsNamed(generators)
    requires forall i :: 0 <= i < |generators| ==> Dependent(generators, generators[i])
    ensures FieldsFrom(generators, 0, []).Ok?
    ensures forall i :: 0 <= i < |generators| ==>
      Contains(DependentsFrom(generators, FieldsFrom(generators, 0, []).value, 0, []), generators[i])
  {
    DependentsOf(generators);
    var deps := DependentsFrom(generators, FieldsFrom(generators, 0, []).value, 0, []);
    forall i | 0 <= i < |generators|
      ensures Contains(deps, generators[i])
    {
      assert Dependent(generators, generators[i]);
    }
  }

  lemma RootNotAmbiguous(generators: seq<ElementGenerator>, i: nat, j: nat)
    requires AllContentsNamed(generators)
    requires i < j < |generators| && !Dependent(generators, generators[i]) && !Dependent(generators, generators[j])
    ensures FindRootElement(generators) == Err(DataTypesFormatError(MultipleIndependentMessage))
  {
    DependentsOf(generators);
    TwoFreeElements(generators, DependentsFrom(generators, FieldsFrom(generators, 0, []).value, 0, []), i, j);
  }

  lemma RootIsUnique(generators: seq<ElementGenerator>, k: nat)
    requires AllContentsNamed(generators) && UniqueRoot(generators, k)
    ensures FindRootElement(generators) == Ok(generators[k])
  {
    DependentsOf(generators);
    var deps := DependentsFrom(generators, FieldsFrom(generators, 0, []).value, 0, []);
    assert UniqueFree(generators, deps, k);
    OneFreeElement(generators, deps, k);
  }

  lemma RootOnlyWhenUnique(generators: seq<ElementGenerator>)
    requires FindRootElement(generators).Ok?
    ensures AllContentsNamed(generators)
    ensures exists k: nat :: UniqueRoot(generators, k) && FindRootElement(generators) == Ok(generators[k])
  {
    FieldsSpec(generators);
    DependentsOf(generators);
    var deps := DependentsFrom(generators, FieldsFrom(generators, 0, []).value, 0, []);
    RootIsFree(generators, deps);
    var k: nat :| UniqueFree(generators, deps, k) && FindRootElement(generators) == Ok(generators[k]);
    assert UniqueRoot(generators, k);
  }

  /** `all_types` is never read: the type names of the elements do not change which
      names are fields, which elements are referenced, or whether collecting fields fails. */
  lemma TypeInfoDoesNotAffectFields(g1: seq<ElementGenerator>, g2: seq<ElementGenerator>)
    requires |g1| == |g2|
    requires forall i :: 0 <= i < |g1| ==> g2[i] == g1[i].(typeInfo := g2[i].typeInfo)
    ensures FieldsFrom(g1, 0, []) == FieldsFrom(g2, 0, [])
    ensures forall d :: ReferencedAt(g1, d) <==> ReferencedAt(g2, d)
  {
    FieldsEqual(g1, g2, 0, []);
    forall f ensures IsField(g1, f) <==> IsField(g2, f) {
      if IsField(g1, f) {
        var i :| 0 <= i < |g1| && FieldOf(g1[i], f);
        assert g2[i].reference == g1[i].reference && g2[i].contents == g1[i].contents;
      }
      if IsField(g2, f) {
        var i :| 0 <= i < |g2| && FieldOf(g2[i], f);
        assert g2[i].reference == g1[i].reference && g2[i].contents == g1[i].contents;
      }
    }
  }

  lemma {:induction false} FieldsEqual(g1: seq<ElementGenerator>, g2: seq<ElementGenerator>, i: nat, acc: seq<string>)
    requires |g1| == |g2| && i <= |g1|
    requires forall j :: 0 <= j < |g1| ==> g2[j] == g1[j].(typeInfo := g2[j].typeInfo)
    ensures FieldsFrom(g1, i, acc) == FieldsFrom(g2, i, acc)
    decreases |g1| - i
  {
    if i < |g1| {
      assert g2[i].reference == g1[i].reference && g2[i].contents == g1[i].contents;
      match ContentFieldsFrom(g1[i].contents, 0, acc + RefField(g1[i]))
      case Ok(next) => FieldsEqual(g1, g2, i + 1, next);
      case Err(_) =>
    }
  }
}
