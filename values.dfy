/** Leaf value dispatch of generate.rs: `generate_type`, `generate_regex` and `generate`.
    The values themselves come from the `fake` and `rand_regex` crates; they are the
    uninterpreted functions of a `Faker`, so the model says whether a value is produced
    and from which generator, not what it is. */
module Values {
  import opened Wrappers

  /** The Rust types `generate_type` asks `fake` for. */
  datatype FakeKind = FakeBool | FakeF32 | FakeF64 | FakeI32 | FakeU32 | FakeString

  /** Value synthesis. `compileError` is what `rand_regex::Regex::compile` reports for a
      pattern it rejects (its error as `Debug` prints it), `None` for one it accepts.
      `sample` is a function of the pattern alone because `generate_regex` seeds its
      generator with a fixed seed. */
  datatype Faker = Faker(fake: FakeKind -> string, compileError: string -> Option<string>, sample: string -> string)

  /** The panic message of `Result::unwrap` on an error, before the error itself. */
  const UnwrapErrMessage := "called `Result::unwrap()` on an `Err` value: "

  /** The XSD built-in type names `generate_type` recognises. */
  const BuiltinTypeNames: set<string> :=
    {"boolean", "decimal", "double", "integer", "positiveInteger", "string"}

  /** `generate_type`. */
  function GenerateType(f: Faker, typeName: string): (r: Option<string>)
    ensures r.Some? <==> typeName in BuiltinTypeNames
    ensures typeName == "string" ==> r == Some(f.fake(FakeString))
    ensures typeName == "boolean" ==> r == Some(f.fake(FakeBool))
  {
    match typeName
    case "boolean" => Some(f.fake(FakeBool))
    case "decimal" => Some(f.fake(FakeF32))
    case "double" => Some(f.fake(FakeF64))
    case "integer" => Some(f.fake(FakeI32))
    case "positiveInteger" => Some(f.fake(FakeU32))
    case "string" => Some(f.fake(FakeString))
    case _ => None
  }

  /** ASCII case folding. Rust's `to_lowercase` is Unicode-aware, but no character outside
      ASCII lower-cases to one of the letters of "string", so the comparison in
      `generate_regex` has the same outcome. */
  function LowerChar(c: char): char {
    if 'A' <= c <= 'Z' then (c as int + 32) as char else c
  }

  /** Lower-casing `s` gives "string" exactly when `s` spells "string" in any mix of ASCII
      cases. */
  function ToLower(s: string): (r: string)
    ensures |r| == |s|
    ensures r == "string" <==> |s| == 6 && forall i :: 0 <= i < 6 ==> s[i] == "string"[i] || s[i] == "STRING"[i]
  {
    seq(|s|, i requires 0 <= i < |s| => LowerChar(s[i]))
  }

  /** `generate_regex`: only a type whose lower-cased name is "string" gets a sample, and
      only then is the pattern compiled; `unwrap` panics on a pattern `rand_regex` rejects.
      The generator yields a sample on every draw, so the branch for an empty sample list
      never returns `None`. */
  function GenerateRegex(f: Faker, typeName: string, pattern: string): (r: Fallible<Option<string>>)
    ensures r.Panic? <==> ToLower(typeName) == "string" && f.compileError(pattern).Some?
    ensures r.Panic? ==> r.message == UnwrapErrMessage + f.compileError(pattern).value
    ensures r.Built? ==> (r.value.Some? <==> ToLower(typeName) == "string")
    ensures r.Built? && r.value.Some? ==> r.value.value == f.sample(pattern)
  {
    if ToLower(typeName) != "string" then Built(None)
    else
      match f.compileError(pattern)
      case Some(e) => Panic(UnwrapErrMessage + e)
      case None => Built(Some(f.sample(pattern)))
  }

  /** `generate`: one entry is a type name, two are a type name and a pattern. Only a
      pattern can panic. */
  function Generate(f: Faker, typeNames: seq<string>): (r: Fallible<Option<string>>)
    ensures r.Panic? <==>
      |typeNames| == 2 && ToLower(typeNames[0]) == "string" && f.compileError(typeNames[1]).Some?
    ensures r.Built? && r.value.Some? <==>
      (|typeNames| == 1 && typeNames[0] in BuiltinTypeNames) ||
      (|typeNames| == 2 && ToLower(typeNames[0]) == "string" && f.compileError(typeNames[1]).None?)
    ensures |typeNames| == 1 ==> r == Built(GenerateType(f, typeNames[0]))
    ensures |typeNames| == 2 && r.Built? && r.value.Some? ==> r.value.value == f.sample(typeNames[1])
  {
    if |typeNames| == 1 then Built(GenerateType(f, typeNames[0]))
    else if |typeNames| == 2 then GenerateRegex(f, typeNames[0], typeNames[|typeNames| - 1])
    else Built(None)
  }

  /** The fixed seed makes a regex sample a function of the pattern: any spelling of
      "string" gives the same outcome, a sample or the same panic, and "String" is
      accepted. A type other than "string" never compiles its pattern, so even a pattern
      `rand_regex` rejects gives no panic there. */
  lemma RegexSampleIsDeterministic(f: Faker, a: string, b: string, pattern: string)
    requires ToLower(a) == "string" && ToLower(b) == "string"
    ensures GenerateRegex(f, a, pattern) == GenerateRegex(f, b, pattern)
    ensures f.compileError(pattern).None? ==> GenerateRegex(f, a, pattern) == Built(Some(f.sample(pattern)))
    ensures GenerateRegex(f, "String", pattern) == GenerateRegex(f, a, pattern)
    ensures GenerateRegex(f, "integer", pattern) == Built(None)
  {
    assert ToLower("String") == "string";
    assert ToLower("integer")[0] == 'i';
  }
}
