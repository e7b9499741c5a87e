/** Field descriptions of the root crate (src/lib.rs): the part of `syn`'s type syntax the
    field translation matches on, the reduction of `Option<T>` and `Vec<T>` to occurrence
    bounds, and the hand-written equalities of `FieldType`, `FieldInfo` and `StructInfo`. */
module StructFields {
  import opened Wrappers

  /** A field's type; every variant but a path is rejected. */
  datatype RustType =
    | TypeArray | TypeBareFn | TypeGroup | TypeImplTrait | TypeInfer | TypeMacro | TypeNever
    | TypeParen | PathType(path: TypePath) | TypePtr | TypeReference | TypeSlice
    | TypeTraitObject | TypeTuple | TypeVerbatim

  /** A path type. `qself` is the printed self type of a qualified path such as
      `<T as Trait>::Name`. */
  datatype TypePath = TypePath(qself: Option<string>, leadingColon: bool, segments: seq<PathSegment>)

  datatype PathSegment = PathSegment(ident: string, arguments: PathArguments)

  datatype PathArguments = NoArguments | AngleBracketed(args: seq<GenericArgument>) | Parenthesized

  datatype GenericArgument =
    | LifetimeArg | TypeArg(ty: RustType) | ConstArg | AssocTypeArg | AssocConstArg | ConstraintArg

  /** A field's type name with its occurrence bounds; `None` is no bound. */
  datatype FieldType = FieldType(name: string, minOccurrences: Option<nat>, maxOccurrences: Option<nat>)

  datatype FieldInfo = FieldInfo(name: string, fieldType: FieldType, attributes: seq<string>)

  datatype StructInfo = StructInfo(name: string, attrs: seq<string>, fields: seq<FieldInfo>)

  /** A field of a struct declaration; a tuple struct's fields have no `ident`. */
  datatype Field = Field(ident: Option<string>, ty: RustType, attrs: seq<string>)

  /** The message a rejected field type stops with. */
  function TypeMessage(t: RustType): string {
    match t
    case TypeArray => "Field type: Array"
    case TypeBareFn => "Field type: BareFn"
    case TypeGroup => "Field type: Group"
    case TypeImplTrait => "Field type: ImplTrait"
    case TypeInfer => "Field type: Infer"
    case TypeMacro => "Field type: Macro"
    case TypeNever => "Field type: Never"
    case TypeParen => "Field type: Paren"
    case PathType(_) => ""
    case TypePtr => "Field type: Ptr"
    case TypeReference => "Field type: Reference"
    case TypeSlice => "Field type: Slice"
    case TypeTraitObject => "Field type: TraitObject"
    case TypeTuple => "Field type: Tuple"
    case TypeVerbatim => "Field type: Verbatim"
  }

  /** The message a rejected generic argument stops with. */
  function ArgumentMessage(a: GenericArgument): string {
    match a
    case LifetimeArg => "Lifetime argument"
    case TypeArg(_) => ""
    case ConstArg => "Constant argument"
    case AssocTypeArg => "Associative argument"
    case AssocConstArg => "Associative argument"
    case ConstraintArg => "Constraint argument"
  }

  const NoArgumentsMessage := "No arguments found"
  const MultipleArgumentsMessage := "Multiple arguments are not supported yet"

  /** `get_field_type`: a path type is translated, any other type is rejected; the result
      is never `None`. */
  function GetFieldType(t: RustType): Fallible<Option<FieldType>>
    decreases t, 1
  {
    if t.PathType? then
      match FindFieldType(t.path)
      case Panic(m) => Panic(m)
      case Built(ft) => Built(Some(ft))
    else Panic(TypeMessage(t))
  }

  /** `Path::get_ident`: a path of one plain segment is that segment's name. */
  function GetIdent(p: TypePath): (r: Option<string>)
    ensures r.Some? <==> !p.leadingColon && |p.segments| == 1 && p.segments[0].arguments.NoArguments?
  {
    if !p.leadingColon && |p.segments| == 1 && p.segments[0].arguments.NoArguments? then Some(p.segments[0].ident)
    else None
  }

  /** `find_field_type`: a plain name (or the printed self type of a qualified path, which
      takes precedence) has no bounds; anything else is a wrapper type. */
  function FindFieldType(p: TypePath): Fallible<FieldType>
    decreases p, 2
  {
    var name := if p.qself.Some? then p.qself else GetIdent(p);
    if name.Some? then Built(FieldType(name.value, None, None))
    else GenerateFieldType(p)
  }

  /** `generate_field_type`: only the first segment is read. Its arguments are translated
      before its name is checked: `Option` bounds the inner type to 0..1, `Vec` to 0.. . */
  function GenerateFieldType(p: TypePath): Fallible<FieldType>
    decreases p, 1
  {
    if p.segments == [] then Panic("No type found")
    else
      var segment := p.segments[0];
      match GetArguments(segment)
      case Panic(m) => Panic(m)
      case Built(ft) =>
        if segment.ident == "Option" then Built(ft.(minOccurrences := Some(0), maxOccurrences := Some(1)))
        else if segment.ident == "Vec" then Built(ft.(minOccurrences := Some(0), maxOccurrences := None))
        else Panic("Unknown type: " + segment.ident)
  }

  /** `get_arguments`: only angle-bracketed arguments are supported. */
  function GetArguments(segment: PathSegment): Fallible<FieldType>
    decreases segment, 0
  {
    match segment.arguments
    case NoArguments => Panic("No path arguments")
    case Parenthesized => Panic("Parenthesized path arguments")
    case AngleBracketed(_) => SortArgsFrom(segment.arguments, 0, None)
  }

  /** The loop of `sort_args` from argument `i` on, with `output` found so far. */
  function SortArgsFrom(a: PathArguments, i: nat, output: Option<FieldType>): Fallible<FieldType>
    requires a.AngleBracketed? && i <= |a.args|
    decreases a, |a.args| - i
  {
    if i == |a.args| then
      if output.None? then Panic(NoArgumentsMessage) else Built(output.value)
    else
      var arg := a.args[i];
      if !arg.TypeArg? then Panic(ArgumentMessage(arg))
      else
        match GetFieldType(arg.ty)
        case Panic(m) => Panic(m)
        case Built(result) =>
          if result.Some? && output.Some? then Panic(MultipleArgumentsMessage)
          else SortArgsFrom(a, i + 1, if result.Some? then result else output)
  }

  /** `sort_args`. */
  method SortArgs(a: PathArguments) returns (r: Fallible<FieldType>)
    requires a.AngleBracketed?
    ensures r == SortArgsFrom(a, 0, None)
  {
    var output: Option<FieldType> := None;
    for i := 0 to |a.args|
      invariant SortArgsFrom(a, 0, None) == SortArgsFrom(a, i, output)
    {
      var arg := a.args[i];
      if !arg.TypeArg? {
        return Panic(ArgumentMessage(arg));
      }
      var result := GetFieldType(arg.ty);
      if result.Panic? {
        return Panic(result.message);
      }
      if result.value.Some? {
        if output.Some? {
          return Panic(MultipleArgumentsMessage);
        }
        output := result.value;
      }
    }
    if output.None? {
      return Panic(NoArgumentsMessage);
    }
    return Built(output.value);
  }

  /** `get_field`: unnamed fields are rejected; the field keeps its name, its translated
      type and its attributes. */
  function GetField(f: Field): Fallible<FieldInfo> {
    if f.ident.None? then Panic("Unnamed fields are not supported!")
    else
      match GetFieldType(f.ty)
      case Panic(m) => Panic(m)
      case Built(ft) =>
        if ft.None? then Panic("called `Option::unwrap()` on a `None` value")
        else Built(FieldInfo(f.ident.value, ft.value, f.attrs))
  }

  // ----- Equality ---------------------------------------------------------------------------

  /** `PartialEq for FieldType`: name, then both bounds. */
  method FieldTypeEq(a: FieldType, b: FieldType) returns (r: bool)
    ensures r <==> a == b
  {
    if a.name != b.name {
      return false;
    }
    if a.minOccurrences != b.minOccurrences {
      return false;
    }
    if a.maxOccurrences != b.maxOccurrences {
      return false;
    }
    return true;
  }

  /** Element-wise comparison of two string lists, lengths first. */
  method StringsEq(a: seq<string>, b: seq<string>) returns (r: bool)
    ensures r <==> a == b
  {
    if |a| != |b| {
      return false;
    }
    for i := 0 to |a|
      invariant a[..i] == b[..i]
    {
      if a[i] != b[i] {
        return false;
      }
    }
    assert a == a[..|a|] && b == b[..|b|];
    return true;
  }

  /** `PartialEq for FieldInfo`: name, type, then the attributes element by element. */
  method FieldInfoEq(a: FieldInfo, b: FieldInfo) returns (r: bool)
    ensures r <==> a == b
  {
    if a.name != b.name {
      return false;
    }
    var sameType := FieldTypeEq(a.fieldType, b.fieldType);
    if !sameType {
      return false;
    }
    r := StringsEq(a.attributes, b.attributes);
  }

  /** `PartialEq for StructInfo`: name, the attributes, then the fields element by element
      with `FieldInfo`'s equality. It is plain structural equality. */
  method StructInfoEq(a: StructInfo, b: StructInfo) returns (r: bool)
    ensures r <==> a == b
  {
    if a.name != b.name {
      return false;
    }
    var sameAttrs := StringsEq(a.attrs, b.attrs);
    if !sameAttrs {
      return false;
    }
    if |a.fields| != |b.fields| {
      return false;
    }
    for i := 0 to |a.fields|
      invariant a.fields[..i] == b.fields[..i]
    {
      var same := FieldInfoEq(a.fields[i], b.fields[i]);
      if !same {
        return false;
      }
    }
    assert a.fields == a.fields[..|a.fields|] && b.fields == b.fields[..|b.fields|];
    return true;
  }

  // ----- What the field translation promises ---------------------------------------------

  /** A plain type name, such as `String`. */
  function Plain(name: string): RustType {
    PathType(TypePath(None, false, [PathSegment(name, NoArguments)]))
  }

  /** A wrapper applied to one type, such as `Option<T>`. */
  function Wrapped(wrapper: string, t: RustType): RustType {
    PathType(TypePath(None, false, [PathSegment(wrapper, AngleBracketed([TypeArg(t)]))]))
  }

  /** `get_field_type` either rejects the type or yields a field type, never nothing. */
  lemma GetFieldTypeNeverNone(t: RustType)
    ensures GetFieldType(t).Built? ==> GetFieldType(t).value.Some?
    ensures GetFieldType(t).Built? <==> t.PathType? && FindFieldType(t.path).Built?
  {
  }

  /** `get_field` panics exactly for an unnamed field or a field type `get_field_type`
      rejects, with that message; otherwise it keeps the field's name and attributes with
      the translated type, and its `unwrap` of the type never panics. */
  lemma GetFieldSpec(f: Field)
    ensures GetField(f).Panic? <==> f.ident.None? || GetFieldType(f.ty).Panic?
    ensures f.ident.None? ==> GetField(f) == Panic("Unnamed fields are not supported!")
    ensures f.ident.Some? && GetFieldType(f.ty).Panic? ==> GetField(f) == Panic(GetFieldType(f.ty).message)
    ensures GetField(f).Built? ==>
      GetField(f).value.name == f.ident.value && GetField(f).value.attributes == f.attrs &&
      GetFieldType(f.ty) == Built(Some(GetField(f).value.fieldType))
  {
    GetFieldTypeNeverNone(f.ty);
  }

  /** `find_field_type`: a type with a printed self type, or a plain one-segment name, is
      that name with no occurrence bounds, and the self type wins over the name; any other
      path goes to `generate_field_type`, whose result always has a minimum of 0. So a
      translated type has no bounds exactly when it was a plain name. */
  lemma FindFieldTypeSpec(p: TypePath)
    ensures p.qself.Some? ==> FindFieldType(p) == Built(FieldType(p.qself.value, None, None))
    ensures p.qself.None? && GetIdent(p).Some? ==> FindFieldType(p) == Built(FieldType(p.segments[0].ident, None, None))
    ensures p.qself.None? && GetIdent(p).None? ==> FindFieldType(p) == GenerateFieldType(p)
    ensures FindFieldType(p).Built? ==>
      (FindFieldType(p).value.minOccurrences.None? <==> p.qself.Some? || GetIdent(p).Some?)
    ensures FindFieldType(p).Built? && FindFieldType(p).value.minOccurrences.Some? ==>
      FindFieldType(p).value.minOccurrences == Some(0)
  {
  }

  /** A plain name has no occurrence bounds. */
  lemma PlainHasNoBounds(name: string)
    ensures GetFieldType(Plain(name)) == Built(Some(FieldType(name, None, None)))
  {
  }

  /** `Option<T>` bounds `T` to 0..1 and `Vec<T>` to 0.. with no maximum, keeping `T`'s name;
      any other wrapper of a translatable type is rejected with its name, and a wrapper
      of an untranslatable type stops with the inner type's message. */
  lemma WrapperBounds(wrapper: string, t: RustType)
    ensures GetFieldType(t).Panic? ==> GetFieldType(Wrapped(wrapper, t)) == GetFieldType(t)
    ensures GetFieldType(t).Built? ==>
      var inner := GetFieldType(t).value.value;
      GetFieldType(Wrapped(wrapper, t)) ==
        if wrapper == "Option" then Built(Some(FieldType(inner.name, Some(0), Some(1))))
        else if wrapper == "Vec" then Built(Some(FieldType(inner.name, Some(0), None)))
        else Panic("Unknown type: " + wrapper)
  {
    var a := AngleBracketed([TypeArg(t)]);
    var p := Wrapped(wrapper, t).path;
    GetFieldTypeNeverNone(t);
    assert GetIdent(p) == None;
    assert FindFieldType(p) == GenerateFieldType(p);
    assert GetArguments(p.segments[0]) == SortArgsFrom(a, 0, None);
    if GetFieldType(t).Built? {
      assert SortArgsFrom(a, 0, None) == SortArgsFrom(a, 1, GetFieldType(t).value);
      assert SortArgsFrom(a, 1, GetFieldType(t).value) == Built(GetFieldType(t).value.value);
    } else {
      assert SortArgsFrom(a, 0, None) == Panic(GetFieldType(t).message);
    }
  }

  /** `sort_args` succeeds exactly when there is one argument and it is a translatable type,
      and then yields that type; no argument at all, or two translatable types, stop it. */
  lemma SortArgsSpec(a: PathArguments)
    requires a.AngleBracketed?
    ensures SortArgsFrom(a, 0, None).Built? <==>
      |a.args| == 1 && a.args[0].TypeArg? && GetFieldType(a.args[0].ty).Built?
    ensures SortArgsFrom(a, 0, None).Built? ==> SortArgsFrom(a, 0, None).value == GetFieldType(a.args[0].ty).value.value
    ensures a.args == [] ==> SortArgsFrom(a, 0, None) == Panic(NoArgumentsMessage)
    ensures (|a.args| >= 2 && a.args[0].TypeArg? && a.args[1].TypeArg? &&
      GetFieldType(a.args[0].ty).Built? && GetFieldType(a.args[1].ty).Built?) ==>
      SortArgsFrom(a, 0, None) == Panic(MultipleArgumentsMessage)
  {
    if |a.args| >= 1 && a.args[0].TypeArg? {
      GetFieldTypeNeverNone(a.args[0].ty);
      if |a.args| >= 2 && a.args[1].TypeArg? {
        GetFieldTypeNeverNone(a.args[1].ty);
      }
    }
  }
}
