/** The lxml view of a RELAX NG schema shared by xsd2xml.py and rng2xsd.py, and the
    exceptions those scripts raise. */
module RngNode {
  import opened Wrappers

  /** An lxml element: its tag in Clark notation (`{namespace}local`, or a bare local name
      when it has no namespace), its attributes, its text and its children in document
      order. */
  datatype Node = Node(tag: string, attributes: map<string, string>, text: Option<string>, children: seq<Node>)

  const RngNamespace := "http://relaxng.org/ns/structure/1.0"
  const XsdNamespace := "http://www.w3.org/2001/XMLSchema"

  /** A Python exception a modelled operation raises. */
  datatype PyError =
    | ValueError(message: string)
    | CircularReferenceError(message: string)
    | TypeError(message: string)
    | NameError(message: string)

  /** The message of the `NameError` for a reference to `CircularReferenceError`. */
  const UndefinedCircularMessage := "name 'CircularReferenceError' is not defined"

  /** An outcome as xsd2xml.py writes its raises of `CircularReferenceError`: the script
      neither defines nor imports that class, so looking the name up raises a `NameError`
      before the intended exception is built. Nothing between a raise and its caller
      catches exceptions, so every other outcome is unchanged. */
  function AsWritten<T>(r: PyResult<T>): PyResult<T> {
    if r.Raised? && r.error.CircularReferenceError? then Raised(NameError(UndefinedCircularMessage)) else r
  }

  /** What a Python call does: return a value or raise. */
  datatype PyResult<+T> = Returned(value: T) | Raised(error: PyError)

  /** `str.endswith`. */
  predicate EndsWith(s: string, suffix: string) {
    |suffix| <= |s| && s[|s| - |suffix|..] == suffix
  }

  /** The tag test of xsd2xml.py: `tag.endswith('}' + local) or tag == local`, true in any
      namespace and in none. */
  predicate HasLocalName(tag: string, local: string) {
    EndsWith(tag, "}" + local) || tag == local
  }

  /** A tag in the RELAX NG namespace. */
  function Rng(local: string): string {
    "{" + RngNamespace + "}" + local
  }

  /** A tag in the XML Schema namespace. */
  function Xs(local: string): string {
    "{" + XsdNamespace + "}" + local
  }

  /** `element.get(key)`. */
  function Get(n: Node, key: string): Option<string> {
    if key in n.attributes then Some(n.attributes[key]) else None
  }

  /** `element.get(key, default)`. */
  function GetOr(n: Node, key: string, default: string): string {
    if key in n.attributes then n.attributes[key] else default
  }

  /** The tag test accepts a tag in the RELAX NG namespace and a bare one. */
  lemma HasLocalNameForms(local: string)
    ensures HasLocalName(Rng(local), local) && HasLocalName(local, local)
  {
    var t := Rng(local);
    assert t[|t| - |"}" + local|..] == "}" + local;
  }
}
