/** xsd2xml.py: choosing the schema format and the parser. The root of the parsed file
    decides first; the file extension is the fallback. Parsing the file is outside the
    model: its outcome is a parameter, `None` when lxml could not parse it. */
module SchemaFormat {
  import opened Wrappers
  import opened RngNode

  /** What the format test reads of the parsed file: the root's tag and the namespaces of
      its namespace map. */
  datatype RootInfo = RootInfo(tag: string, namespaces: seq<string>)

  /** The parser classes `_create_parser` instantiates. */
  datatype ParserKind = XsdParser | RelaxNgParser | RelaxNgCompactParser

  /** The methods `SchemaParser` declares abstract. */
  const AbstractMethods: set<string> :=
    {"parse_schema", "validate_schema", "find_root_element", "generate_element", "check_circular_references"}

  /** The methods each parser class defines in its own body. `XSDParser` is a stub that
      defines only its constructor. */
  function DefinedMethods(k: ParserKind): set<string> {
    match k
    case XsdParser => {"__init__"}
    case RelaxNgParser =>
      {"__init__", "parse_schema", "_extract_patterns", "validate_schema", "find_root_element",
       "generate_element", "_generate_content", "_generate_data_for_type",
       "check_circular_references", "_has_circular_reference_rng"}
    case RelaxNgCompactParser =>
      {"__init__", "parse_schema", "validate_schema", "find_root_element", "generate_element",
       "check_circular_references"}
  }

  function ClassName(k: ParserKind): string {
    match k
    case XsdParser => "XSDParser"
    case RelaxNgParser => "RelaxNGParser"
    case RelaxNgCompactParser => "RelaxNGCompactParser"
  }

  /** The start of the `TypeError` Python raises for a class with abstract methods left. */
  function AbstractClassMessage(k: ParserKind): string {
    "Can't instantiate abstract class " + ClassName(k)
  }

  /** Calling a parser class: an `ABC` subclass that leaves an abstract method undefined
      cannot be instantiated. */
  function Instantiate(k: ParserKind): PyResult<ParserKind> {
    if AbstractMethods <= DefinedMethods(k) then Returned(k)
    else Raised(TypeError(AbstractClassMessage(k)))
  }

  const Formats: set<string> := {"xsd", "relaxng", "relaxng_compact"}

  /** The format the root of the document announces, if any. */
  function RootFormat(root: RootInfo): Option<string> {
    if HasLocalName(root.tag, "schema") && XsdNamespace in root.namespaces then Some("xsd")
    else if HasLocalName(root.tag, "grammar") && RngNamespace in root.namespaces then Some("relaxng")
    else if EndsWith(root.tag, "}element") && RngNamespace in root.namespaces then Some("relaxng")
    else None
  }

  /** The format the file extension announces, if any. */
  function ExtensionFormat(path: string): Option<string> {
    if EndsWith(path, ".xsd") then Some("xsd")
    else if EndsWith(path, ".rng") then Some("relaxng")
    else if EndsWith(path, ".rnc") then Some("relaxng_compact")
    else None
  }

  /** `_detect_schema_format`. */
  function DetectSchemaFormat(path: string, root: Option<RootInfo>): PyResult<string> {
    if root.Some? && RootFormat(root.value).Some? then Returned(RootFormat(root.value).value)
    else if ExtensionFormat(path).Some? then Returned(ExtensionFormat(path).value)
    else Raised(ValueError("Could not detect schema format for " + path))
  }

  /** `_create_parser`. */
  function CreateParser(format: string): PyResult<ParserKind> {
    if format == "xsd" then Instantiate(XsdParser)
    else if format == "relaxng" then Instantiate(RelaxNgParser)
    else if format == "relaxng_compact" then Instantiate(RelaxNgCompactParser)
    else Raised(ValueError("Unsupported schema format: " + format))
  }

  /** The format handling of `XMLGenerator.__init__`: "auto" is detected, anything else
      is taken as given. */
  function ChooseParser(path: string, format: string, root: Option<RootInfo>): PyResult<ParserKind> {
    if format == "auto" then
      match DetectSchemaFormat(path, root)
      case Raised(e) => Raised(e)
      case Returned(f) => CreateParser(f)
    else CreateParser(format)
  }

  /** The root decides before the extension: a file whose root announces a format gets it
      whatever its name; otherwise the extension decides, and without either the detection
      raises. */
  lemma DetectSchemaFormatSpec(path: string, root: Option<RootInfo>)
    ensures root.Some? && RootFormat(root.value).Some? ==> DetectSchemaFormat(path, root) == Returned(RootFormat(root.value).value)
    ensures (root.None? || RootFormat(root.value).None?) ==>
      DetectSchemaFormat(path, root) ==
        if ExtensionFormat(path).Some? then Returned(ExtensionFormat(path).value)
        else Raised(ValueError("Could not detect schema format for " + path))
    ensures DetectSchemaFormat(path, root).Returned? ==> DetectSchemaFormat(path, root).value in Formats
  {
    if root.Some? && RootFormat(root.value).Some? {
      assert RootFormat(root.value).value in {"xsd", "relaxng"};
    } else if ExtensionFormat(path).Some? {
      assert ExtensionFormat(path).value in Formats;
    }
  }

  /** An XML Schema root wins over a `.rng` name. */
  lemma RootBeatsExtension()
    ensures DetectSchemaFormat("a.rng", Some(RootInfo("{" + XsdNamespace + "}schema", [XsdNamespace]))) == Returned("xsd")
  {
    var t := "{" + XsdNamespace + "}schema";
    assert t[|t| - |"}schema"|..] == "}schema";
    assert HasLocalName(t, "schema");
    assert XsdNamespace in [XsdNamespace];
    assert RootFormat(RootInfo(t, [XsdNamespace])) == Some("xsd");
  }

  /** A parser class can be called exactly when it defines every abstract method; what
      it returns is an instance of that class. */
  lemma InstantiateSpec(k: ParserKind)
    ensures Instantiate(k).Returned? <==> forall m :: m in AbstractMethods ==> m in DefinedMethods(k)
    ensures Instantiate(k).Returned? ==> Instantiate(k).value == k
    ensures Instantiate(k).Raised? ==> Instantiate(k).error == TypeError(AbstractClassMessage(k))
    ensures Instantiate(k).Raised? <==> k == XsdParser
  {
    if k == XsdParser {
      assert "parse_schema" in AbstractMethods && "parse_schema" !in DefinedMethods(k);
    }
  }

  /** `_create_parser` builds a parser for the two RELAX NG formats; for "xsd" it calls the
      stub `XSDParser`, whose abstract methods make the call raise a `TypeError`; any other
      name is rejected. With "auto", the choice raises when detection raises and when it
      detects an XML Schema. */
  lemma ChooseParserSpec(path: string, format: string, root: Option<RootInfo>)
    ensures CreateParser(format).Returned? <==> format == "relaxng" || format == "relaxng_compact"
    ensures format == "xsd" ==> CreateParser(format) == Raised(TypeError("Can't instantiate abstract class XSDParser"))
    ensures format !in Formats ==> CreateParser(format) == Raised(ValueError("Unsupported schema format: " + format))
    ensures format == "relaxng" ==> CreateParser(format) == Returned(RelaxNgParser)
    ensures format == "relaxng_compact" ==> CreateParser(format) == Returned(RelaxNgCompactParser)
    ensures format != "auto" ==> ChooseParser(path, format, root) == CreateParser(format)
    ensures format == "auto" ==>
      (ChooseParser(path, format, root).Raised? <==>
        DetectSchemaFormat(path, root).Raised? || DetectSchemaFormat(path, root) == Returned("xsd"))
    ensures format == "auto" && DetectSchemaFormat(path, root).Raised? ==>
      ChooseParser(path, format, root) == Raised(ValueError("Could not detect schema format for " + path))
    ensures format == "auto" && DetectSchemaFormat(path, root) == Returned("xsd") ==>
      ChooseParser(path, format, root) == Raised(TypeError("Can't instantiate abstract class XSDParser"))
  {
    DetectSchemaFormatSpec(path, root);
    InstantiateSpec(XsdParser);
    InstantiateSpec(RelaxNgParser);
    InstantiateSpec(RelaxNgCompactParser);
  }
}
