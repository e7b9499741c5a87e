/** The generation routines of element_generator.rs, type_generator.rs and generate.rs
    as the loops they are, each proved to compute the function of `Emit` that specifies it. */
module EmitMethods {
  import opened Wrappers
  import opened Records
  import opened Values
  import opened XmlElement
  import opened Emit

  /** `ElementGenerator::generate`. */
  method GenerateElement(e: ElementGenerator, env: Env, fuel: nat) returns (r: Outcome<Element>)
    ensures r == ElementGenerate(e, env, fuel)
    decreases fuel, 1, e
  {
    if e.reference.Some? {
      if e.typeInfo.Some? {
        return Failed(DataTypesFormatError(ReferenceAndTypeMessage));
      }
      if |e.contents| > 0 {
        return Failed(DataTypesFormatError(ReferenceAndContentMessage));
      }
      r := GenerateReferenceOf(e.reference.value, env, fuel);
      return;
    }
    var name := GetName(e);
    if name.Err? {
      return Failed(name.error);
    }
    var root := New(name.value);
    if e.typeInfo.Some? {
      if |e.contents| > 0 {
        return Failed(DataTypesFormatError(TypeAndContentMessage));
      }
      r := GenerateTypeOutputOf(root, e.typeInfo.value, env, fuel);
      return;
    }
    var i := 0;
    while i < |e.contents|
      invariant 0 <= i <= |e.contents|
      invariant ContentsFrom(e, 0, New(name.value), env, fuel) == ContentsFrom(e, i, root, env, fuel)
    {
      var step := GenerateFromType(e.contents[i], root, env, fuel);
      if !step.Done? {
        return if step.Failed? then Failed(step.error) else OutOfFuel;
      }
      root := step.value;
      i := i + 1;
    }
    return Done(root);
  }

  /** `TypeGenerator::generate`, adding to `el`. */
  method GenerateFromType(t: TypeGenerator, el: Element, env: Env, fuel: nat) returns (r: Outcome<Element>)
    ensures r == TypeGenerate(t, el, env, fuel)
    decreases fuel, 1, t
  {
    var cur := el;
    var i := 0;
    while i < |t.typeInfo|
      invariant 0 <= i <= |t.typeInfo|
      invariant TypeInfoFrom(t, 0, el, env) == TypeInfoFrom(t, i, cur, env)
    {
      if |t.elements| > 0 {
        return Failed(DataTypesFormatError(TypeInfoAndElementsMessage));
      }
      if |t.groups| > 0 {
        return Failed(DataTypesFormatError(TypeInfoAndGroupsMessage));
      }
      var text := Generate(env.faker, [t.typeInfo[i]]).value;
      if text.Some? {
        cur := AddText(cur, text.value);
      }
      i := i + 1;
    }
    ghost var afterText := cur;
    i := 0;
    while i < |t.elements|
      invariant 0 <= i <= |t.elements|
      invariant ElementsFrom(t, 0, afterText, env, fuel) == ElementsFrom(t, i, cur, env, fuel)
    {
      var child := GenerateElement(t.elements[i], env, fuel);
      if !child.Done? {
        return if child.Failed? then Failed(child.error) else OutOfFuel;
      }
      cur := AddChild(cur, child.value);
      i := i + 1;
    }
    ghost var afterElements := cur;
    var g := 0;
    while g < |t.groups|
      invariant 0 <= g <= |t.groups|
      invariant GroupsFrom(t, 0, 0, afterElements, env, fuel) == GroupsFrom(t, g, 0, cur, env, fuel)
    {
      var k := 0;
      while k < |t.groups[g].elements|
        invariant 0 <= k <= |t.groups[g].elements|
        invariant GroupsFrom(t, 0, 0, afterElements, env, fuel) == GroupsFrom(t, g, k, cur, env, fuel)
      {
        var child := GenerateElement(t.groups[g].elements[k], env, fuel);
        if !child.Done? {
          return if child.Failed? then Failed(child.error) else OutOfFuel;
        }
        cur := AddChild(cur, child.value);
        k := k + 1;
      }
      g := g + 1;
    }
    return Done(cur);
  }

  /** `generate_reference`: the first element whose name is `reference` is generated. */
  method GenerateReferenceOf(reference: string, env: Env, fuel: nat) returns (r: Outcome<Element>)
    ensures r == GenerateReference(reference, env, fuel)
    decreases fuel, 0
  {
    var i := 0;
    while i < |env.elements|
      invariant 0 <= i <= |env.elements|
      invariant ReferenceFrom(reference, 0, env, fuel) == ReferenceFrom(reference, i, env, fuel)
    {
      var name := GetName(env.elements[i]);
      if name.Err? {
        return Failed(name.error);
      }
      if name.value == reference {
        if fuel == 0 {
          return OutOfFuel;
        }
        r := GenerateElement(env.elements[i], env, fuel - 1);
        return;
      }
      i := i + 1;
    }
    return Failed(XmlBuilderError(ReferenceNotFoundMessage));
  }

  /** `generate_type_output`. */
  method GenerateTypeOutputOf(el: Element, typeName: string, env: Env, fuel: nat) returns (r: Outcome<Element>)
    ensures r == GenerateTypeOutput(el, typeName, env, fuel)
    decreases fuel, 0
  {
    var text := GenerateType(env.faker, typeName);
    if text.Some? {
      return Done(AddText(el, text.value));
    }
    var i := 0;
    while i < |env.dataTypes|
      invariant 0 <= i <= |env.dataTypes|
      invariant DataTypeFrom(el, typeName, 0, env, fuel) == DataTypeFrom(el, typeName, i, env, fuel)
    {
      if env.dataTypes[i].name == typeName {
        if fuel == 0 {
          return OutOfFuel;
        }
        r := GenerateFromType(env.dataTypes[i], el, env, fuel - 1);
        return;
      }
      i := i + 1;
    }
    return Failed(DataTypeError(CannotFindDataTypeMessage(typeName)));
  }
}
