# xsd2xml core, modelled in Dafny

This project models the parts of the xsd2xml repository that turn a schema into a sample
XML document. The RELAX NG cycle search is a class holding its `visited` set and `path` list, which its methods update in place. Everything else is modelled as values: datatypes, functions and methods over them, with their properties proved as lemmas.
Randomness, files and the XML/schema libraries are left out. There are four components.

- **The `xml_generator` crate (Rust): XSD-driven generation.**
  - `fetch_types.rs` and `fetch_elements.rs` translate a parsed XSD (`xsd_ast.dfy`, only the variants the code uses) into generator records: `ElementGenerator`, `TypeGenerator`, `GroupInfo`, `AttributeInfo` and `AttributeGenerator` (`records.dfy`).
  - `find_root.rs` picks the one top-level element that no other element references or lists as a child (`find_root.dfy`, `find_root_properties.dfy`, `collect.dfy`).
  - `element_generator.rs`, `type_generator.rs`, `generate.rs` and `attribute_generator.rs` emit the element tree (`emit.dfy`, `emit_methods.dfy`, `emit_properties.dfy`, `attributes.dfy`).
  - Leaf values come from `values.dfy`. An `XMLElement` is a datatype with a name, attributes, texts and children (`xml_element.dfy`).
- **The root crate `src/lib.rs` (Rust): the older struct-based generator.** It reduces `Option<T>`/`Vec<T>` field types to occurrence bounds (`struct_fields.dfy`). It finds the root struct (`struct_root.dfy`) and emits one element per struct (`struct_emit.dfy`).
- **`xsd2xml.py` (Python): the RELAX NG generator.**
  - Schema-format detection and parser choice (`schema_format.dfy`).
  - The depth-guarded recursive generator with its repetition counts (`rng_generate.dfy`, `rng_generate_properties.dfy`).
  - The on-path depth-first cycle search over named patterns, modelled as a class holding `visited` and `path` (`cycle_search.dfy`).
  - The choice of the document's root name (`rng_root.dfy`).
  - The lxml nodes it walks are the `Node` datatype of `rng_node.dfy`.
- **`rng2xsd.py` (Python): the RELAX NG to XSD tree converter.** This covers the data type map, the attribute/element pattern predicates, simple versus complex content, attribute typing and `minOccurs`/`maxOccurs` annotation (`rng_convert.dfy`, `rng_convert_properties.dfy`).

Where the source loops and updates variables, the model is a `method` with a loop (`for` or `while`, as the source's loop reads). Each such method is proved equal to a recursive specification function, and the properties are proved about that function. Panics, `unimplemented!` and Python exceptions become explicit outcomes:
- `Fallible` (built or panic) for the Rust panics;
- `PyResult` (returned or raised) for Python exceptions;
- `Outcome` and `Converted` for generation that can also run out of fuel.

Code and documentation disagree in a few places. The model follows the code, except where one of the two members is marked as the as-written half of a finding:
- `find_root.rs` reports "No independent elements found". The crate's tests expect "No independent structs found". The model uses the code's message.
- `xsd2xml.py` raises `CircularReferenceError` without defining or importing it, so as written each of its two raises is a `NameError`. `GenerateElementAsWritten` and `CheckFromAsWritten` model that behaviour, and "## Findings" records both raises. The rest of the model uses the intended circular-reference error, whose message is the path joined with " -> ".
- In `xsd2xml.py`, a `ref` to a known pattern hands the `define` element itself to `generate_element`. That function handles no `define`, so the reference emits nothing. A `start` root pattern likewise emits nothing. The model states this behaviour as it is written.
- `type_generator.rs:39` passes one type name where `generate` (`generate.rs:63`) expects a list. It is modelled as `generate([entry])`.

## Model

| member | source | states |
|---|---|---|
| Records.NewElementGenerator | xml_generator/src/element_generator.rs:16-25 | a new element generator has no name, contents, type information or reference, min 1 and no max |
| Records.NewTypeGenerator | xml_generator/src/type_generator.rs:79-89 | a new type generator has an empty name and no type information, elements, groups or attributes, min 1 and no max |
| Records.NewGroupInfo | xml_generator/src/group.rs:10-16 | a new group has no elements, min 0 and no max |
| Records.NewAttributeGenerator | xml_generator/src/attribute_generator.rs:55-61 | a new attribute generator has empty name and type name and is required |
| Records.GetName | xml_generator/src/element_generator.rs:27-39 | succeeds exactly when a name or a reference is present, the name winning; otherwise the "no name or reference" data types format error |
| Records.ElementEqReflexive | xml_generator/src/element_generator.rs:84-108 | element equality (name, type information and contents, ignoring reference and bounds) is reflexive |
| Records.TypeEqReflexive | xml_generator/src/type_generator.rs:92-121 | type-generator equality over all seven fields is reflexive |
| Records.GroupEqReflexive | xml_generator/src/group.rs:19-34 | group equality (elements, min, max) is reflexive |
| Records.ElementEqSymmetric | xml_generator/src/element_generator.rs:84-108 | element equality is symmetric |
| Records.TypeEqSymmetric | xml_generator/src/type_generator.rs:92-121 | type-generator equality is symmetric |
| Records.GroupEqSymmetric | xml_generator/src/group.rs:19-34 | group equality is symmetric |
| Records.ElementEqTransitive | xml_generator/src/element_generator.rs:84-108 | element equality is transitive |
| Records.TypeEqTransitive | xml_generator/src/type_generator.rs:92-121 | type-generator equality is transitive |
| Records.GroupEqTransitive | xml_generator/src/group.rs:19-34 | group equality is transitive |
| Values.GenerateType | xml_generator/src/generate.rs:31-41 | a value is produced exactly for the six recognised built-in type names; "string" asks for a fake String and "boolean" for a fake bool |
| Values.ToLower | xml_generator/src/generate.rs:44 | lower-casing a type name gives "string" exactly when the name spells "string" in any mix of ASCII cases |
| Values.GenerateRegex | xml_generator/src/generate.rs:43-60 | a non-"string" type gives nothing; a "string" type panics with the `unwrap` message exactly when the pattern does not compile, and otherwise gives the pattern's sample |
| Values.Generate | xml_generator/src/generate.rs:63-76 | one entry never panics and gives the value of that built-in type; two entries whose first lower-cases to "string" panic exactly when the pattern does not compile, and otherwise give its sample; anything else gives nothing |
| Values.RegexSampleIsDeterministic | xml_generator/src/generate.rs:43-60 | with the fixed seed every spelling of "string" gives the same outcome; a pattern that compiles gives its sample, and "integer" gives nothing |
| Records.ElementEqIgnoresReferenceAndBounds | xml_generator/src/element_generator.rs:84-108 | changing an element's reference or occurrence bounds keeps it equal to itself, and equal elements agree on name and type information |
| EmitMethods.GenerateElement | xml_generator/src/element_generator.rs:41-82 | the element-generation loop computes exactly the specification of element generation (whose properties are the EmitProperties lemmas) |
| EmitMethods.GenerateFromType | xml_generator/src/type_generator.rs:20-77 | the type-information, element and group loops compute exactly the specification of type generation |
| EmitMethods.GenerateReferenceOf | xml_generator/src/generate.rs:10-25 | the reference search loop computes exactly the specification of reference generation |
| EmitMethods.GenerateTypeOutputOf | xml_generator/src/generate.rs:78-103 | the built-in-then-data-type loop computes exactly the specification of type output |
| EmitProperties.AppendAllSpec | xml_generator/src/type_generator.rs:48-70 | appending members succeeds iff every member generates; then the element gains the members' elements as children in order with texts untouched; a failure is the first failing member's |
| EmitProperties.AppendAllConcat | xml_generator/src/type_generator.rs:48-70 | appending `a + b` is appending `a` and then `b` to the result, failures and fuel exhaustion propagating |
| EmitProperties.ExtendsTransitive | xml_generator/src/type_generator.rs:48-70 | extending by one member list and then another extends by their concatenation |
| EmitProperties.ElementsFromAppendsAll | xml_generator/src/type_generator.rs:48-57 | the element loop from index i is appending the remaining elements |
| EmitProperties.GroupsFromAppendsAll | xml_generator/src/type_generator.rs:59-70 | the nested group loops from group g, member k are appending the remaining group members in order |
| EmitProperties.TypeInfoFromTexts | xml_generator/src/type_generator.rs:26-46 | the type-information loop appends one text per recognised entry, or fails at the first entry with the "elements" or "groups" message when the type also has those |
| EmitProperties.TypeGenerateAppendsMembers | xml_generator/src/type_generator.rs:20-77 | a type with type information and members is rejected with the matching message; otherwise generation is the texts followed by appending all elements then all group members |
| EmitProperties.TypeGenerateShape | xml_generator/src/type_generator.rs:20-77 | type generation succeeds iff the type information is allowed and every member generates; the result has each member once, in order, plus the recognised texts |
| EmitProperties.TypeGenerateDependsOnMembersOnly | xml_generator/src/type_generator.rs:20-77 | two types with the same type information and the same members (grouped however, with any bounds or attributes) generate the same output |
| EmitProperties.ContentsFromShape | xml_generator/src/element_generator.rs:75-77 | the contents loop adds every content's members as children in order and its recognised texts |
| EmitProperties.ElementGenerateContents | xml_generator/src/element_generator.rs:61-80 | a named, untyped, non-reference element becomes one element of that name, without attributes, holding its contents' members and texts |
| EmitProperties.ElementGenerateRejects | xml_generator/src/element_generator.rs:46-69 | the four rejected shapes (reference with type, reference with contents, no name, type with contents) fail with their own messages |
| EmitProperties.ContentsFromIgnoresBounds | xml_generator/src/element_generator.rs:75-77 | the contents loop does not depend on the element's occurrence bounds |
| EmitProperties.ElementGenerateIgnoresBounds | xml_generator/src/element_generator.rs:41-82 | an element's min and max never change what is generated for it |
| EmitProperties.ReferenceFromSkips | xml_generator/src/generate.rs:15-20 | the reference loop passes over named elements of other names |
| EmitProperties.GenerateReferenceFirstMatch | xml_generator/src/generate.rs:10-25 | the first element named like the reference is generated; a nameless element before it fails with its name error; with no match, "Reference not found" |
| EmitProperties.DataTypeFromSkips | xml_generator/src/generate.rs:93-97 | the data-type loop passes over data types of other names |
| EmitProperties.GenerateTypeOutputFirstMatch | xml_generator/src/generate.rs:78-103 | a built-in type adds its value as text; otherwise the first data type of that name is generated into the element, and with none the "Cannot find data type" error names the type |
| EmitProperties.DataTypeFromKeepsName | xml_generator/src/generate.rs:93-97 | generating a data type into an element keeps the element's name |
| EmitProperties.ElementGenerateName | xml_generator/src/element_generator.rs:41-82 | a generated element is named after the referenced element for a reference and after its own name otherwise |
| EmitProperties.ReferenceFromName | xml_generator/src/generate.rs:10-25 | an element produced for a reference carries the reference as its name |
| EmitProperties.ElementGenerateNoAttributes | xml_generator/src/type_generator.rs:72-74 | no element anywhere in a generated tree carries an attribute: attributes are only printed, never emitted |
| EmitProperties.ContentsFromNoAttributes | xml_generator/src/element_generator.rs:75-77 | the contents loop adds no attribute anywhere |
| EmitProperties.TypeGenerateNoAttributes | xml_generator/src/type_generator.rs:72-74 | type generation adds no attribute anywhere |
| EmitProperties.ElementsFromNoAttributes | xml_generator/src/type_generator.rs:48-57 | the element loop adds no attribute anywhere |
| EmitProperties.GroupsFromNoAttributes | xml_generator/src/type_generator.rs:59-70 | the group loops add no attribute anywhere |
| EmitProperties.ReferenceFromNoAttributes | xml_generator/src/generate.rs:15-20 | the reference loop yields elements without attributes |
| EmitProperties.DataTypeFromNoAttributes | xml_generator/src/generate.rs:93-97 | the data-type loop adds no attribute anywhere |
| EmitProperties.AddChildNoAttributes | xml_generator/src/type_generator.rs:51 | adding an attribute-free child to an attribute-free element keeps the tree attribute-free |
| Emit.ElementGenerate | xml_generator/src/element_generator.rs:41-82 | `ElementGenerator::generate`; `EmitMethods.GenerateElement` computes it and `ElementGenerateContents`, `ElementGenerateRejects` and `ElementGenerateName` state it |
| Emit.TypeGenerate | xml_generator/src/type_generator.rs:20-77 | `TypeGenerator::generate`; `EmitMethods.GenerateFromType` computes it and `TypeGenerateAppendsMembers` and `TypeGenerateShape` state it |
| Emit.GenerateReference | xml_generator/src/generate.rs:10-25 | `generate_reference`; `GenerateReferenceFirstMatch` states it |
| Emit.GenerateTypeOutput | xml_generator/src/generate.rs:78-103 | `generate_type_output`; `GenerateTypeOutputFirstMatch` states it |
| Attributes.AttributeFromType | xml_generator/src/attribute_generator.rs:7-46 | an attribute value comes from a data type exactly when it has no elements, groups or attributes and type information that gives a value; each failing check gives its own error in the order of the source, and a pattern that does not compile panics with the message of `generate` |
| Attributes.AttributeGenerate | xml_generator/src/attribute_generator.rs:63-91 | an empty name or type name is rejected with its message; a prohibited attribute leaves the element as it is; a built-in type adds one attribute valued by that type |
| Attributes.GenerateAttribute | xml_generator/src/attribute_generator.rs:63-101 | the method, with its data-type loop, computes exactly the attribute specification |
| Attributes.TypePairs | xml_generator/src/attribute_generator.rs:93-97 | one attribute per matching data type, each carrying the declaration's name |
| Attributes.AllAttributeTypesOkCons | xml_generator/src/attribute_generator.rs:93-97 | the matching types all give values when the first does and the rest do |
| Attributes.MatchingUnfold | xml_generator/src/attribute_generator.rs:93-97 | the matching types from position i are the i-th type if its name matches, followed by the matching types after it |
| Attributes.MatchingFromOk | xml_generator/src/attribute_generator.rs:93-99 | the data-type loop succeeds iff every type with the attribute's type name can give a value, and then adds one attribute per such type, in order |
| Attributes.MatchingFromErr | xml_generator/src/attribute_generator.rs:93-97 | a failing data-type loop ends with the error or the panic of the first matching type that cannot give a value |
| Attributes.AttributeGenerateFromDataTypes | xml_generator/src/attribute_generator.rs:63-101 | a user-typed attribute is added once per data type of that name (none when none matches), and fails iff one of those types cannot give a value, with the first such error |
| Attributes.AttributeGenerateOnlyAddsAttributes | xml_generator/src/attribute_generator.rs:63-101 | attribute generation keeps the element's name, texts, children and earlier attributes, and every attribute it adds has the declaration's name |
| Attributes.AttributeGeneratorEqIsEquality | xml_generator/src/attribute_generator.rs:103-118 | attribute-generator equality (name, type name, use) coincides with equality of the values |
| FindRoot.NamesSpec | xml_generator/src/find_root.rs:7-16 | collecting member names succeeds iff every member has a name or a reference, and then holds each member's name at its position; otherwise the "no name" error |
| FindRoot.GroupMembersAppend | xml_generator/src/find_root.rs:12-17 | the members of a concatenation of groups are the members of each, in order |
| FindRoot.GroupMemberIndex | xml_generator/src/find_root.rs:12-17 | member k of group g sits after the type's own elements and the earlier groups' members |
| FindRoot.GetContentList | xml_generator/src/find_root.rs:5-20 | the two pushing loops compute the names of the type's elements followed by its group members (see FindRoot.NamesSpec) |
| FindRoot.FieldStructFrom | xml_generator/src/find_root.rs:22-35 | the result is the first position from i whose element is named `field` (references do not count), and none exactly when no such element exists |
| FindRoot.GetFieldStruct | xml_generator/src/find_root.rs:22-35 | the early-return loop finds the same first element named `field` |
| FindRoot.IndependentFrom | xml_generator/src/find_root.rs:76-81 | the independent list only ever holds elements of the input |
| FindRoot.ScanFrom | xml_generator/src/find_root.rs:101-105 | the scan returns the first element from i contained in the independent list, or none when no element is |
| FindRoot.ScanFor | xml_generator/src/find_root.rs:101-105 | the early-return loop returns the first element contained in the independent list, as `FindRoot.ScanFrom` specifies |
| FindRoot.FindRootElement | xml_generator/src/find_root.rs:37-44 | an empty element list is rejected with "No elements found"; the final scan always finds an element, so `unreachable!()` is never reached |
| FindRoot.CollectFields | xml_generator/src/find_root.rs:46-66 | the first loop computes exactly the `all_fields` specification (see FindRootProperties.FieldsSpec) |
| FindRoot.CollectContentFields | xml_generator/src/find_root.rs:60-65 | the content loop appends each content's member names in order, and stops at the first content whose names cannot be collected |
| FindRoot.CollectDependents | xml_generator/src/find_root.rs:68-74 | the field loop pushes, for each field name in order, the first element of that name when there is one |
| FindRoot.CollectIndependents | xml_generator/src/find_root.rs:76-81 | the element loop keeps, in order, exactly the elements not contained in the dependents |
| FindRoot.FindRootElementOf | xml_generator/src/find_root.rs:37-108 | the four loops and early-return scan compute exactly the root-finding specification |
| FindRootProperties.NamesAppend | xml_generator/src/find_root.rs:5-20 | names of `a + b` succeed iff those of both do, and are the concatenation |
| FindRootProperties.NamesMembership | xml_generator/src/find_root.rs:5-20 | the collected names are exactly the names the members go by |
| FindRootProperties.ContentFieldsFromNames | xml_generator/src/find_root.rs:60-65 | the contents loop appends the names of all remaining contents' members, or fails with the first name error |
| FindRootProperties.FieldsStep | xml_generator/src/find_root.rs:48-66 | one element's turn adds its reference and its content member names, or fails when a content member is nameless |
| FindRootProperties.FieldsFromSpec | xml_generator/src/find_root.rs:48-66 | from element i the loop succeeds iff the remaining contents are all named, and then collects exactly the accumulated fields plus the fields of the remaining elements |
| FindRootProperties.FieldsSpec | xml_generator/src/find_root.rs:46-66 | `all_fields` is collected iff every content member is named and holds exactly the references and content member names of all elements; otherwise the "no name" error |
| FindRootProperties.DependentsFromContains | xml_generator/src/find_root.rs:68-74 | an element is contained in the dependents from field k iff it was already or some later field leads to an equal element |
| FindRootProperties.DependentsSpec | xml_generator/src/find_root.rs:68-74 | an element is contained (by element equality) in `dependent_elements` iff it equals the first element named after some field |
| FindRootProperties.IndependentFromFilter | xml_generator/src/find_root.rs:76-81 | the independent loop appends, in order, the elements not contained in the dependents |
| FindRootProperties.IndependentsShape | xml_generator/src/find_root.rs:76-81 | no independents iff every element is contained in the dependents; exactly one iff exactly one element is not |
| FindRootProperties.IndependentsEmpty | xml_generator/src/find_root.rs:76-81 | the independent list is empty iff every element is contained in the dependents |
| FindRootProperties.IndependentsUnique | xml_generator/src/find_root.rs:76-81 | when exactly one element, at k, is not contained in the dependents, the independent list is that element alone |
| FindRootProperties.IndependentsSingle | xml_generator/src/find_root.rs:76-81 | an independent list of one element means exactly one element is not contained in the dependents |
| FindRootProperties.AllContained | xml_generator/src/find_root.rs:46-81 | when every content is named and every element is some field's structure, field collection succeeds and the dependents contain every element |
| FindRootProperties.IndependentsHoldsOne | xml_generator/src/find_root.rs:76-81 | an uncontained element makes the independents non-empty |
| FindRootProperties.IndependentsHoldsTwo | xml_generator/src/find_root.rs:76-81 | two uncontained elements make at least two independents |
| FindRootProperties.ScanFindsUniqueFree | xml_generator/src/find_root.rs:101-105 | with one uncontained element the final scan finds that element itself |
| FindRootProperties.ContainsIsDependent | xml_generator/src/find_root.rs:68-78 | containment in `dependent_elements` is dependence, for every element |
| FindRootProperties.FindRootUnfold | xml_generator/src/find_root.rs:83-105 | no independents gives "No independent elements found", more than one gives "Multiple independent (root) elements found!", one gives the scanned element |
| FindRootProperties.NoFreeElement | xml_generator/src/find_root.rs:83-87 | when every element is contained in the dependents, there is no root |
| FindRootProperties.OneFreeElement | xml_generator/src/find_root.rs:89-105 | when exactly element k is uncontained, it is the root |
| FindRootProperties.TwoFreeElements | xml_generator/src/find_root.rs:89-99 | two uncontained elements make the root ambiguous |
| FindRootProperties.RootIsFree | xml_generator/src/find_root.rs:37-108 | a found root is the single element outside `dependent_elements` |
| FindRootProperties.DependentsOf | xml_generator/src/find_root.rs:46-74 | with all content members named, fields are collected and `dependent_elements` holds, up to element equality, exactly the dependent elements |
| FindRootProperties.RootNeedsNamedContents | xml_generator/src/find_root.rs:61 | a nameless content member makes root finding fail with the "no name" error |
| FindRootProperties.RootNeedsIndependent | xml_generator/src/find_root.rs:83-87 | when every element is dependent, "No independent elements found" |
| FindRootProperties.RootNotAmbiguous | xml_generator/src/find_root.rs:89-99 | two independent elements give "Multiple independent (root) elements found!" |
| FindRootProperties.RootIsUnique | xml_generator/src/find_root.rs:37-108 | when element k is the only independent one, it is the root |
| FindRootProperties.RootOnlyWhenUnique | xml_generator/src/find_root.rs:37-108 | a root is found only when all content members are named, and it is then the unique independent element |
| FindRootProperties.TypeInfoDoesNotAffectFields | xml_generator/src/find_root.rs:53-58 | `all_types` is never read: elements' type names change neither the fields nor which elements are referenced |
| FindRootProperties.FieldsEqual | xml_generator/src/find_root.rs:48-66 | the fields loop gives the same result for element lists that differ only in type names |
| Collect.CollectFromSpec | xml_generator/src/fetch_types.rs:63-66 | the translate-and-push loop from i completes iff every remaining item translates, and then pushes every translation in order after what was pushed; a panic is that of the first item that panics |
| Collect.CollectAllSpec | xml_generator/src/fetch_types.rs:92-95 | collecting all items completes iff every item translates, and then holds the translations in order; its panic is the first item's |
| Collect.CollectSomeFromSpec | xml_generator/src/fetch_types.rs:377-382 | pushing only present results is collecting all results and keeping the present ones, in order |
| Collect.CollectFromShift | xml_generator/src/fetch_types.rs:63-66 | after a first item that translated, the loop is the rest with that result pushed first |
| Collect.CollectFromOffset | xml_generator/src/fetch_types.rs:63-66 | starting from `pre + acc` puts `pre` in front of what starting from `acc` gives |
| Collect.CollectFromDrop | xml_generator/src/fetch_types.rs:63-66 | starting the loop at i is the loop over the items from i |
| Collect.CollectFromDropAt | xml_generator/src/fetch_types.rs:63-66 | starting at i + j is starting at j on the items from i |
| Collect.CollectAllAppend | xml_generator/src/fetch_types.rs:376-383 | collecting over `a + b` is collecting over `a` and then over `b`, a panic in `a` stopping both |
| Collect.SomesAppend | xml_generator/src/fetch_types.rs:379-381 | the present values of `a + b` are those of `a` followed by those of `b` |
| Collect.SomesOfFilter | xml_generator/src/fetch_types.rs:360-369 | when a translation is present exactly for the items a predicate keeps, the present results are the kept items' translations, in order |
| FetchTypes.MaxOf | xml_generator/src/fetch_types.rs:171-174 | an unbounded `max_occurs` becomes no maximum and a bounded one keeps its bound |
| FetchTypes.GetRestriction | xml_generator/src/fetch_types.rs:57-69 | the facet-pushing loop computes exactly the restriction translation (see FetchProperties.RestrictionOfSpec) |
| FetchTypes.GetContentRestriction | xml_generator/src/fetch_types.rs:71-78 | computes exactly the simple-content translation: a restriction is translated, annotations, lists and unions panic |
| FetchTypes.GetSimpleType | xml_generator/src/fetch_types.rs:80-111 | the two loops compute exactly the simple-type translation (see FetchProperties.SimpleTypeOfSpec) |
| FetchTypes.GetElementType | xml_generator/src/fetch_types.rs:143-214 | the checks and the nested-type loop compute exactly the element translation (see FetchProperties.ElementTypeOfSpec) |
| FetchTypes.GetElementContents | xml_generator/src/fetch_types.rs:208-211 | the nested-type loop translates each nested type in order onto the element's header, and stops at the first that fails |
| FetchTypes.GetElementContent | xml_generator/src/fetch_types.rs:131-141 | computes exactly the nested-type translation: simple and complex types are translated, the rest panics with its own message |
| FetchTypes.GetComplexType | xml_generator/src/fetch_types.rs:335-372 | the checks and the item loop compute exactly the complex-type translation (see FetchProperties.ComplexTypeOfSpec) |
| FetchTypes.GetComplexGroup | xml_generator/src/fetch_types.rs:254-269 | computes exactly the particle translation: particles become groups, attributes nothing, the rest panics |
| FetchTypes.GetGroup | xml_generator/src/fetch_types.rs:228-252 | the checks and the item loop compute exactly the group translation (see FetchProperties.GroupOfSpec) |
| FetchTypes.GetGroupContent | xml_generator/src/fetch_types.rs:216-226 | computes exactly the group-item translation: element declarations are translated, everything else panics |
| FetchTypes.FetchTypeOf | xml_generator/src/fetch_types.rs:113-129 | computes exactly the top-level item translation: types are translated, elements skipped, the rest panics |
| FetchTypes.FetchTypesOf | xml_generator/src/fetch_types.rs:374-386 | the two nested loops compute exactly the specification of `fetch_types` (see FetchProperties.FetchTypesSpec) |
| FetchElements.FetchElementOf | xml_generator/src/fetch_elements.rs:6-22 | computes exactly the top-level item translation: elements are translated, types skipped, the rest panics |
| FetchElements.FetchElementsOf | xml_generator/src/fetch_elements.rs:24-36 | the two nested loops compute exactly the specification of `fetch_elements` (see FetchProperties.FetchElementsSpec) |
| FetchProperties.RestrictionContentAccepts | xml_generator/src/fetch_types.rs:18-55 | a restriction item is accepted iff it is a facet that is neither an assertion, fixed nor annotated, and then gives the facet's value |
| FetchProperties.RestrictionOfSpec | xml_generator/src/fetch_types.rs:57-69 | a restriction translates iff every item is a plain facet, and then keeps the base's local name (empty without a base) and every facet value in order |
| FetchProperties.FixedFacetPanics | xml_generator/src/fetch_types.rs:19-21 | the first fixed facet, after accepted items, stops the translation with "Fixed facet type" |
| FetchProperties.RestrictionTextsAppend | xml_generator/src/fetch_types.rs:103-108 | the type information of `a + b` restrictions is that of `a` followed by that of `b` |
| FetchProperties.RestrictionTextsSingle | xml_generator/src/fetch_types.rs:103-108 | one restriction contributes its base name followed by its facets |
| FetchProperties.SimpleTypeOfSpec | xml_generator/src/fetch_types.rs:80-111 | a nameless or empty-named simple type panics with "Empty type"; a translated one keeps its name, has no members or attributes, and has type information "string" without restrictions or the restrictions' base names each followed by their facets |
| FetchProperties.ElementContentsCollect | xml_generator/src/fetch_types.rs:208-211 | the nested-type loop is the translate-and-push loop onto the element's contents |
| FetchProperties.ElementTypeOfSpec | xml_generator/src/fetch_types.rs:143-214 | a name with a reference panics; an element translates iff it has no unsupported feature and every nested type translates, and then keeps name, the local names of reference and type, min, max (unbounded as none) and the nested types in order |
| FetchProperties.GroupContentsCollect | xml_generator/src/fetch_types.rs:246-249 | the group item loop is the translate-and-push loop onto the group's elements |
| FetchProperties.GroupOfSpec | xml_generator/src/fetch_types.rs:228-252 | named groups and group references panic with their messages; a group translates iff it is neither and every item is a translatable element declaration, and then keeps min, max and every element in order |
| FetchProperties.ItemsPartition | xml_generator/src/fetch_types.rs:360-369 | every complex-type item goes to exactly one of the groups and the attributes |
| FetchProperties.ComplexContentsSplit | xml_generator/src/fetch_types.rs:360-369 | the complex-type item loop from i appends the translated particles to the groups and the translated attributes to the attributes, in order, or stops with the first panic |
| FetchProperties.ComplexTypeOfSpec | xml_generator/src/fetch_types.rs:335-372 | an unsupported feature panics with its own message; otherwise each item goes to groups or attributes, never both, the first other item panics, and the type keeps its name with no type information or direct elements |
| FetchProperties.FetchTypesFromAll | xml_generator/src/fetch_types.rs:374-386 | the schema loop from schema s is collecting every remaining top-level item and keeping the present results |
| FetchProperties.FetchTypeAccepts | xml_generator/src/fetch_types.rs:113-129 | a top-level item is accepted iff it is a type or element declaration and, for a type, translates; a type is kept translated, an element is skipped |
| FetchProperties.FetchTypesSpec | xml_generator/src/fetch_types.rs:374-386 | `fetch_types` succeeds iff every top-level item is a type or element declaration and every type translates; the result is the translations of all type declarations in document order; a panic is that of the first item in document order that is not accepted |
| FetchProperties.FetchElementsFromAll | xml_generator/src/fetch_elements.rs:24-36 | the schema loop from schema s is collecting every remaining top-level item and keeping the present results |
| FetchProperties.FetchElementAccepts | xml_generator/src/fetch_elements.rs:6-22 | a top-level item is accepted iff it is a type or element declaration and, for an element, translates; an element is kept translated, a type is skipped |
| FetchProperties.FetchElementsSpec | xml_generator/src/fetch_elements.rs:24-36 | `fetch_elements` succeeds iff every top-level item is a type or element declaration and every element translates; the result has one record per element declaration, in document order; a panic is that of the first item in document order that is not accepted |
| FetchProperties.UnsupportedItemsPanic | xml_generator/src/fetch_elements.rs:6-22 | an item that is neither a type nor an element stops both `fetch_type` and `fetch_element` with the same message, "Top-level group not supported" for a group |
| FetchProperties.AttributeOfSpec | xml_generator/src/fetch_types.rs:271-316 | an attribute declaration panics exactly when it has a default, fixed value, form, target namespace, inheritable flag, annotation or inline simple type, naming the first of them in that order; otherwise it keeps its name (empty when absent), the local names of its reference and type, and its use |
| FetchProperties.ComplexAttributeOfSpec | xml_generator/src/fetch_types.rs:318-333 | the attribute pass over a complex type gives nothing for a particle, the attribute's translation (or its panic) for an attribute, and the item's own panic for anything else |
| FetchTypes.FetchTypes | xml_generator/src/fetch_types.rs:374-386 | `fetch_types`; `FetchTypesOf` computes it and `FetchTypesSpec` states it |
| FetchTypes.RestrictionOf | xml_generator/src/fetch_types.rs:57-69 | `get_restriction`; `GetRestriction` computes it and `RestrictionOfSpec` states it |
| FetchTypes.SimpleTypeOf | xml_generator/src/fetch_types.rs:80-111 | `get_simple_type`; `GetSimpleType` computes it and `SimpleTypeOfSpec` states it |
| FetchTypes.ElementTypeOf | xml_generator/src/fetch_types.rs:143-214 | `get_element_type`; `GetElementType` computes it and `ElementTypeOfSpec` states it |
| FetchTypes.ComplexTypeOf | xml_generator/src/fetch_types.rs:335-372 | `get_complex_type`; `GetComplexType` computes it and `ComplexTypeOfSpec` states it |
| FetchTypes.GroupOf | xml_generator/src/fetch_types.rs:228-252 | `get_group`; `GetGroup` computes it and `GroupOfSpec` states it |
| FetchTypes.AttributeOf | xml_generator/src/fetch_types.rs:271-316 | `get_attribute`; `AttributeOfSpec` states it |
| FetchTypes.ComplexAttributeOf | xml_generator/src/fetch_types.rs:318-333 | `get_complex_attributes`; `ComplexAttributeOfSpec` states it |
| FetchElements.FetchElements | xml_generator/src/fetch_elements.rs:24-36 | `fetch_elements`; `FetchElementsOf` computes it and `FetchElementsSpec` states it |
| XmlElement.New | xml_generator/src/element_generator.rs:62 | `XMLElement::new`: a named element with no attributes, texts or children |
| XmlElement.AddText | xml_generator/src/type_generator.rs:41 | `add_text`: the text goes after the texts already held; `TypeInfoFromTexts` states the texts a type adds |
| XmlElement.AddChild | xml_generator/src/type_generator.rs:51 | `add_child`: the child goes after the existing children; `AddChildNoAttributes` states that it adds no attribute |
| XmlElement.AddAttribute | xml_generator/src/attribute_generator.rs:39 | `add_attribute`: the pair goes after the existing attributes; `AttributeGenerateOnlyAddsAttributes` states what it changes |
| StructFields.GetIdent | src/lib.rs:145-148 | a path has an identifier iff it is a single plain segment without leading `::` |
| StructFields.SortArgs | src/lib.rs:82-110 | the argument loop computes exactly the `sort_args` specification (see StructFields.SortArgsSpec) |
| StructFields.SortArgsSpec | src/lib.rs:82-110 | `sort_args` succeeds iff there is exactly one argument and it is a translatable type, and then yields it; no argument stops with "No arguments found", two translatable types with "Multiple arguments are not supported yet" |
| StructFields.GetFieldType | src/lib.rs:166-191 | `get_field_type`; `GetFieldTypeNeverNone`, `PlainHasNoBounds` and `WrapperBounds` state it |
| StructFields.FindFieldType | src/lib.rs:142-164 | `find_field_type`; `FindFieldTypeSpec` states it |
| StructFields.FindFieldTypeSpec | src/lib.rs:142-164 | a printed self type, else a plain name, is taken with no bounds, the self type winning; any other path goes to `generate_field_type`, so a type has no bounds exactly when it was a plain name and otherwise has a minimum of 0 |
| StructFields.GetField | src/lib.rs:309-328 | `get_field`; `GetFieldSpec` states it |
| StructFields.GetFieldSpec | src/lib.rs:309-328 | a field panics exactly when it is unnamed or its type panics, each with its own message; otherwise it keeps the field's name and attributes and carries its type |
| StructFields.GetArguments | src/lib.rs:112-118 | `get_arguments`: only angle-bracketed arguments are accepted; `WrapperBounds` states the result through `generate_field_type` |
| StructFields.GenerateFieldType | src/lib.rs:120-140 | `generate_field_type`; `WrapperBounds` states the bounds `Option` and `Vec` give |
| StructFields.GetFieldTypeNeverNone | src/lib.rs:166-185 | `get_field_type` either rejects the type or yields a field type, never none; it succeeds iff the type is a path whose field type is found |
| StructFields.PlainHasNoBounds | src/lib.rs:142-164 | a plain type name gives a field type of that name without occurrence bounds |
| StructFields.WrapperBounds | src/lib.rs:120-140 | `Option<T>` bounds T's name to 0..1 and `Vec<T>` to 0.. without maximum; another wrapper is rejected with "Unknown type"; an untranslatable T stops with T's message first |
| StructFields.FieldTypeEq | src/lib.rs:64-80 | field-type equality (name, then both bounds) holds iff the values are equal |
| StructFields.StringsEq | src/lib.rs:266-274 | the length check and element-wise loop hold iff the string lists are equal |
| StructFields.FieldInfoEq | src/lib.rs:256-278 | field equality (name, type, attributes element by element) holds iff the values are equal |
| StructFields.StructInfoEq | src/lib.rs:280-307 | struct equality (name, attributes, fields element by element) holds iff the values are equal |
| StructRoot.FirstNamed | src/lib.rs:401-409 | a found struct carries the looked-up name and is one of the structs searched |
| StructRoot.GetFieldStruct | src/lib.rs:401-409 | the early-return loop finds the first struct of the given name |
| StructRoot.ScanFrom | src/lib.rs:444-448 | the final scan returns a position within the structs |
| StructRoot.FindRootOf | src/lib.rs:411-451 | the five loops compute exactly the root specification (see StructRoot.FindRootSpec) |
| StructRoot.AllFieldsFromMembers | src/lib.rs:412-419 | a name is in `all_fields` from field f of struct s iff it was already or some remaining field's type has it |
| StructRoot.AllFieldsMembers | src/lib.rs:412-419 | `all_fields` holds exactly the field type names of all structs |
| StructRoot.DepsFromMembers | src/lib.rs:420-426 | a struct is in `dep_structs` from field k iff it was already or it is the first struct named after some later field |
| StructRoot.DepsAreDependent | src/lib.rs:412-426 | `dep_structs` holds exactly the structs that are the first of their name and named by some field's type |
| StructRoot.IndependentFromMembers | src/lib.rs:428-434 | a struct is independent iff it is one of the structs and not in `dep_structs` |
| StructRoot.ScanFromFirst | src/lib.rs:444-448 | the scan finds the first struct from i that is independent, or none when none is |
| StructRoot.FindRootSpec | src/lib.rs:411-451 | `find_root` panics with "No root structs found!" iff every struct is dependent; otherwise it returns the first struct that is not, however many there are |
| StructRoot.UniqueNamesDependent | src/lib.rs:411-426 | with unique struct names, a struct is dependent iff some field's type carries its name |
| StructRoot.FirstNamedAt | src/lib.rs:401-409 | with unique struct names, looking up a struct's own name finds that struct |
| StructRoot.FirstNamedNone | src/lib.rs:486-493 | the search for a struct by name finds nothing exactly when no struct has that name |
| StructRoot.FindRoot | src/lib.rs:411-451 | `find_root`; `FindRootOf` computes it and `FindRootSpec` states that it is the first struct that is not dependent, however many there are, and "No root structs found!" when every struct is |
| StructEmit.GetString | src/lib.rs:457-478 | a fake value is given exactly for the seventeen primitive type names, and it is the fake value of that type |
| StructEmit.GenerateElementOf | src/lib.rs:510-526 | the field loop computes exactly the element specification (see StructEmit.GenerateElementSpec) |
| StructEmit.GetChildSpec | src/lib.rs:480-508 | a primitive field yields a child named after the field holding one fake value; a field naming no struct yields nothing; a field naming a struct yields the element of the first struct of that name |
| StructEmit.GenerateElementHeader | src/lib.rs:515-516 | the element is named after the struct and has no attribute and no text |
| StructEmit.FieldsFromChildren | src/lib.rs:518-523 | the field loop keeps the element's name, attributes, texts and earlier children, and appends one child per kept field, named after it |
| StructEmit.GenerateElementSpec | src/lib.rs:510-526 | a generated element is named after the struct, has no attribute or text, and holds one child per kept field in field order, each named after the field or the struct its type names |
| StructEmit.GenerateElement | src/lib.rs:510-526 | `generate_element` of the struct crate; `GenerateElementOf` computes it and `GenerateElementSpec` states its children |
| StructEmit.GetChild | src/lib.rs:495-508 | `get_child`; `GetChildSpec` states it |
| StructEmit.GetElement | src/lib.rs:480-493 | `get_element`; `GetElementSpec` states it |
| StructEmit.GetElementSpec | src/lib.rs:480-493 | a field whose type names no struct gives nothing; one that names a struct gives an element named after that struct, with no attributes and no text, unless the fuel bound is reached |
| RngNode.HasLocalNameForms | xsd2xml.py:276 | the tag test accepts a construct both in the RELAX NG namespace and without a namespace |
| SchemaFormat.DetectSchemaFormatSpec | xsd2xml.py:56-88 | a root announcing XML Schema or RELAX NG decides the format whatever the file is called; otherwise the extension `.xsd`, `.rng` or `.rnc` decides; without either, "Could not detect schema format for" the path is raised; a detected format is one of the three |
| SchemaFormat.RootBeatsExtension | xsd2xml.py:62-65 | an XML Schema root wins over a `.rng` file name |
| SchemaFormat.ChooseParserSpec | xsd2xml.py:42-54 | "relaxng" and "relaxng_compact" get their parsers; "xsd" raises the abstract-class `TypeError`; any other name raises "Unsupported schema format"; with "auto", the choice raises exactly when detection raises (with its message) or detects "xsd" (with the `TypeError`) |
| SchemaFormat.DetectSchemaFormat | xsd2xml.py:56-88 | `_detect_schema_format`; `DetectSchemaFormatSpec` and `RootBeatsExtension` state it |
| SchemaFormat.CreateParser | xsd2xml.py:90-99 | `_create_parser`: it calls the parser class of the format, which for the stub `XSDParser` raises; `ChooseParserSpec` states each case |
| SchemaFormat.ChooseParser | xsd2xml.py:42-54 | the format handling of `XMLGenerator.__init__`, which therefore raises for every XML Schema; `ChooseParserSpec` states it |
| SchemaFormat.InstantiateSpec | xsd2xml.py:10-35 | a parser class can be called exactly when it defines all five abstract methods of `SchemaParser`, giving an instance of itself; `XSDParser`, which defines only `__init__` (xsd2xml.py:127-137), is the one that raises the `TypeError` |
| RngGenerate.DecimalStringSpec | xsd2xml.py:342 | `str(n)` is a string of digits without a leading zero that parses back to n |
| RngGenerate.DataForTypeSpec | xsd2xml.py:337-347 | "int" gives the decimal string of an integer from 1 to 1000, "string" a Faker text, "date" a Faker date, any other type a Faker word; each uses one draw |
| RngGenerate.Generate | xsd2xml.py:245-322 | the method with its loops computes exactly the generation specification (whose properties are the RngGenerateProperties lemmas) |
| RngGenerate.GenerateRepeat | xsd2xml.py:305-307 | the repetition loops compute exactly `count` rounds over all children |
| RngGenerate.GenerateChildren | xsd2xml.py:286-287 | the child loop computes exactly the generation of every child in order |
| RngGenerate.GenerateContent | xsd2xml.py:324-335 | the content loop computes exactly its specification: text and data set the element's text, anything else is generated into the element |
| RngGenerate.GenerateElement | xsd2xml.py:245-322 | `generate_element` with the intended depth-limit error; `Generate` is proved to compute it and `RngGenerateProperties` states its properties |
| RngGenerate.GenerateElementAsWritten | xsd2xml.py:245-322 | `generate_element` as written: the depth-limit raise is a `NameError`; `DepthLimitAsWritten` states the difference |
| RngGenerate.ContentFrom | xsd2xml.py:324-335 | the loop of `_generate_content`; `GenerateContent` computes it and `ContentKeepsTag` states that it keeps the element's tag |
| RngGenerate.DataForType | xsd2xml.py:337-347 | the value for a data type; `DataForTypeSpec` states it for each type |
| RngGenerateProperties.ExtendsTransitive | xsd2xml.py:245-322 | appending children twice is appending children |
| RngGenerateProperties.GenerateExtends | xsd2xml.py:245-322 | `generate_element` only appends children under the parent; its tag, text and existing children stay as they were |
| RngGenerateProperties.RepeatExtends | xsd2xml.py:302-314 | the repetition rounds only append children under the parent |
| RngGenerateProperties.ChildrenExtends | xsd2xml.py:284-300 | the child loop only appends children under the parent |
| RngGenerateProperties.ContentKeepsTag | xsd2xml.py:324-335 | content generation keeps the element's tag |
| RngGenerateProperties.ElementAppendsOne | xsd2xml.py:276-282 | an element pattern appends exactly one child, named by its `name` attribute or "element" |
| RngGenerateProperties.ChildrenAppendElements | xsd2xml.py:286-287 | a child loop over element patterns from child i appends one child per remaining pattern |
| RngGenerateProperties.RepeatAppendsElements | xsd2xml.py:305-307 | `count` rounds over element patterns append `count` times their number of children |
| RngGenerateProperties.GroupAppendsAll | xsd2xml.py:284-287 | a group of element patterns appends one child per pattern |
| RngGenerateProperties.ChoiceAppendsOne | xsd2xml.py:289-294 | a non-empty choice of element patterns appends exactly one child, named after the randomly chosen pattern |
| RngGenerateProperties.OptionalAllOrNothing | xsd2xml.py:296-300 | an optional group of element patterns appends all of them or none, by one random coin |
| RngGenerateProperties.ZeroOrMoreRounds | xsd2xml.py:302-307 | zeroOrMore appends its element patterns 0 to 3 times over |
| RngGenerateProperties.OneOrMoreRounds | xsd2xml.py:309-314 | oneOrMore appends its element patterns 1 to 3 times over |
| RngGenerateProperties.RefSpec | xsd2xml.py:316-320 | a ref to a known pattern generates that pattern one level deeper; an unknown or missing name appends nothing and draws nothing; a ref to a pattern of no handled construct (such as a `define`) appends nothing |
| RngGenerateProperties.SuffixClash | xsd2xml.py:276 | a string ending in one suffix does not end in another that differs at the same distance from the end |
| RngGenerateProperties.DefineIsNotHandled | xsd2xml.py:276-320 | a `define` element, namespaced or not, is none of the handled constructs |
| RngGenerateProperties.DefineIsNot | xsd2xml.py:276-320 | a local name that differs from "define" at some distance from the end is not matched by a `define` tag |
| RngGenerateProperties.NestedGroups | xsd2xml.py:284-287 | each level of group nesting costs one level of depth |
| RngGenerateProperties.NestStep | xsd2xml.py:284-287 | generating a group around a single pattern is generating that pattern one level deeper |
| RngGenerateProperties.DepthLimit | xsd2xml.py:247-248 | an element pattern under ten groups is generated; under eleven the call raises the "Maximum recursion depth exceeded" error |
| RngGenerateProperties.DepthLimitAsWritten | xsd2xml.py:245-248 | as written, ten nested levels still generate as intended, while eleven raise the `NameError` for the undefined class instead of the depth-limit error |
| CycleSearch.RefName | xsd2xml.py:371-373 | a child's reference is followed only when it names a known pattern |
| CycleSearch.Search | xsd2xml.py:360-379 | a search that finds nothing leaves the shared visited set and path list as it found them |
| CycleSearch.SearchRefs | xsd2xml.py:370-376 | the child loop, when it finds nothing, leaves the visited set and path list as it found them |
| CycleSearch.CardStep | xsd2xml.py:366 | visiting a new name leaves fewer names to visit, so the search terminates |
| CycleSearch.SearchState.constructor | xsd2xml.py:352-353 | the shared state starts with an empty visited set and an empty path |
| CycleSearch.HasCircularReference | xsd2xml.py:360-379 | the in-place search returns the answer of the search specification and leaves the shared set and list in its final state |
| CycleSearch.SearchChildren | xsd2xml.py:370-376 | the in-place child loop returns the answer of its specification and leaves the shared set and list in its final state |
| CycleSearch.CheckCircularReferences | xsd2xml.py:349-358 | the pattern loop computes exactly the specification of `check_circular_references` (see CycleSearch.CheckSpec) |
| CycleSearch.WalkCons | xsd2xml.py:366-375 | a walk from a new name is that name followed by a walk from a pattern it refers to |
| CycleSearch.WalkTail | xsd2xml.py:366-375 | a walk from an unvisited name continues at a pattern it refers to |
| CycleSearch.SearchSound | xsd2xml.py:360-379 | when the search answers True, the path it leaves is the entry path followed by a walk from the pattern |
| CycleSearch.FoundPathSplits | xsd2xml.py:366-375 | a walk found from a referenced pattern, after the pattern's own name, is a walk from the pattern |
| CycleSearch.SearchRefsSound | xsd2xml.py:370-376 | when the child loop answers True, the path extends the entry path by a walk from some referenced pattern |
| CycleSearch.SearchComplete | xsd2xml.py:360-379 | whenever a walk from the pattern exists, the search answers True |
| CycleSearch.SearchRefsComplete | xsd2xml.py:370-376 | a walk from a referenced pattern at or after child i makes the child loop answer True |
| CycleSearch.SearchSpec | xsd2xml.py:360-379 | the search answers True iff a walk ending in an already visited or repeated name exists, then leaves such a walk on the path; answering False restores the state |
| CycleSearch.CheckSpec | xsd2xml.py:349-358 | `check_circular_references` raises iff some pattern has such a walk from a fresh search, and the message joins a chain of references whose last name repeats an earlier one |
| CycleSearch.CheckFrom | xsd2xml.py:349-358 | the intended check from the i-th named pattern on; `CheckSpec` states it |
| CycleSearch.CheckFromAsWritten | xsd2xml.py:349-358 | the check as written: a cycle raises a `NameError`; `CheckAsWrittenLosesPath` states the difference |
| CycleSearch.CheckAsWrittenLosesPath | xsd2xml.py:349-358 | as written the check raises exactly when the intended one does, but with the `NameError` for the undefined class, so the cycle path is lost |
| RngRoot.FirstMatch | xsd2xml.py:240-241 | a found node is one of the nodes searched and passes the tag test |
| RngRoot.FirstMatchAppend | xsd2xml.py:235-241 | the first match in `a + b` is the one in `a`, or else the one in `b` |
| RngRoot.FirstInIsFirstMatch | xsd2xml.py:235-241 | the descendant search returns the first matching node in document order |
| RngRoot.FirstMatchSpec | xsd2xml.py:240-241 | there is no match iff no node passes the test; a match passes it and every node before it fails it |
| RngRoot.DefaultNamespaceMissesRoot | xsd2xml.py:227-243 | as written, a schema with the RELAX NG namespace as default namespace gets the root name "root"; the intended search finds "doc" |
| RngRoot.FindRootElementSpec | xsd2xml.py:217-243 | root finding raises "No root pattern found in schema" iff the root pattern has no children; otherwise it gives the name of the first element pattern below it in document order, "root" when it has none or no pattern exists |
| RngRoot.PrefixedSchemasAgree | xsd2xml.py:233-236 | when the RELAX NG namespace has a prefix and no un-namespaced `element` appears, the code as written and the intended search agree |
| RngRoot.FirstMatchSame | xsd2xml.py:235-241 | two tag tests that agree on every node find the same first match |
| RngRoot.GenerateDocumentSpec | xsd2xml.py:101-112 | the caller's root name is used as given; otherwise the name the as-written root search finds with the schema's namespace map: its error is raised, an empty name raises "No suitable root element found in schema", and the document's root has that name and no text; as written no circular-reference error escapes, since the depth limit raises a `NameError` |
| RngRoot.FindRootElementAsWritten | xsd2xml.py:217-243 | `find_root_element` as written: a root pattern without children raises, a prefixed RELAX NG namespace is searched as `prefix:element`, and without a prefix only un-namespaced `element`s match, with "root" when none does; `DefaultNamespaceMissesRoot` and `PrefixedSchemasAgree` state what it finds |
| RngRoot.FindRootElement | xsd2xml.py:217-243 | the intended root search: the first element pattern below the root pattern; `FindRootElementSpec` states that it is the first match and `PrefixedSchemasAgree` that both searches agree on a prefixed schema |
| RngRoot.ChooseRootName | xsd2xml.py:101-112 | the caller's name, else the found one, an empty one raising the no-root error; `GenerateDocumentSpec` states its cases |
| RngRoot.BuildDocument | xsd2xml.py:108-112 | a root element of the chosen name filled by `generate_element` as written; `GenerateDocumentSpec` states its name and text |
| RngRoot.BuildDocumentIntended | xsd2xml.py:108-112 | the same root filled by the intended `generate_element`; `PrefixedDocumentsAgree` relates the two |
| RngRoot.GenerateDocument | xsd2xml.py:101-112 | the document `generate_xml` builds, with the as-written root search and the as-written `generate_element`; `GenerateDocumentSpec` states it |
| RngRoot.GenerateDocumentIntended | xsd2xml.py:101-112 | the same document with the intended root search and the intended depth-limit error; `DefaultNamespaceDocument` and `PrefixedDocumentsAgree` compare the two |
| RngRoot.DefaultNamespaceDocument | xsd2xml.py:101-112 | for a schema whose RELAX NG namespace is the default one, the as-written pipeline names its root "root" while the intended one names it after the first element pattern, "doc" |
| RngRoot.PrefixedDocumentsAgree | xsd2xml.py:101-112 | for a schema that gives the RELAX NG namespace a prefix, the as-written document is the intended one with only the depth-limit error turned into the `NameError` |
| RngConvert.FindChild | rng2xsd.py:184-186 | a found child is a direct child carrying the tag (see RngConvertProperties.FindChildSpec for first and none) |
| RngConvert.FindFrom | rng2xsd.py:184-186 | a found node is one of the nodes searched and carries the tag |
| RngConvert.Select | rng2xsd.py:150-152 | every selected pattern passes the test and there are no more of them than patterns |
| RngConvert.CollectNamedPatterns | rng2xsd.py:60-64 | the define loop computes exactly the named-pattern dictionary (see RngConvertProperties.NamedPatternsSpec) |
| RngConvert.ConvertChildren | rng2xsd.py:227-249 | the child loop of the occurrence wrappers computes exactly the list conversion with its annotation |
| RngConvert.ConvertComplexChildren | rng2xsd.py:167-172 | the complex-content child loop computes exactly its specification (see RngConvertProperties.ComplexFromSpec) |
| RngConvertProperties.RngDiffers | rng2xsd.py:81-107 | RELAX NG tags whose local names differ at some position are different tags |
| RngConvertProperties.ConvertDataTypeSpec | rng2xsd.py:275-297 | the eighteen listed data type names map to their `xs:` forms, anything else to "xs:string" |
| RngConvertProperties.DataTypeEntries1 | rng2xsd.py:278-283 | the first six entries of the type map |
| RngConvertProperties.DataTypeEntries2 | rng2xsd.py:284-289 | the middle six entries of the type map |
| RngConvertProperties.DataTypeEntries3 | rng2xsd.py:290-295 | the last six entries of the type map |
| RngConvertProperties.AttributePatternSpec | rng2xsd.py:299-303 | a pattern is an attribute pattern iff an attribute is reached from it through optional and group patterns only |
| RngConvertProperties.ReachesAttribute | rng2xsd.py:299-303 | reaching an attribute through optional and group patterns makes an attribute pattern |
| RngConvertProperties.ElementPatternSpec | rng2xsd.py:305-311 | a pattern is an element pattern iff an element is reached from it through optional, choice, group, zeroOrMore and oneOrMore patterns only |
| RngConvertProperties.ReachesElement | rng2xsd.py:305-311 | reaching an element through those containers makes an element pattern |
| RngConvertProperties.FindChildSpec | rng2xsd.py:184-186 | `find` gives the first direct child with the tag, and None iff there is none |
| RngConvertProperties.FindFromSpec | rng2xsd.py:184-186 | the search from position i gives the first node with the tag, and None iff there is none |
| RngConvertProperties.ConvertFromSuffix | rng2xsd.py:110-111 | converting from position i is converting the remaining patterns from their start |
| RngConvertProperties.ConvertFromCons | rng2xsd.py:110-111 | converting a list is converting its first pattern, stopping on an exception or exhausted fuel, then the rest after its annotated nodes |
| RngConvertProperties.SelectCons | rng2xsd.py:150-152 | selecting from position i keeps the i-th pattern exactly when it passes the test |
| RngConvertProperties.AttributesFromSpec | rng2xsd.py:150-152 | the simple-content loop converts exactly the attribute patterns, in order |
| RngConvertProperties.TopLevelFromSpec | rng2xsd.py:74-77 | a grammar without `start` converts exactly its top-level patterns other than defines, in order |
| RngConvertProperties.ComplexFromSpec | rng2xsd.py:167-172 | with a sequence, the attribute patterns go to the complex type and the other non-text patterns to the sequence, each in order; without one, everything but text goes to the complex type, in order |
| RngConvertProperties.SequenceFromSpec | rng2xsd.py:167-172 | with a sequence, the loop from child i converts exactly the remaining attribute patterns onto the complex type and the other non-text patterns into the sequence, in order |
| RngConvertProperties.FlatFromSpec | rng2xsd.py:167-172 | without a sequence, the loop from child i leaves the content untouched and converts every remaining non-text pattern onto the complex type, in order |
| RngConvertProperties.ConvertElementSpec | rng2xsd.py:113-174 | element conversion fails where naming fails (a name choice whose first `name` has no text); otherwise a text-only or empty element always converts, and a simple or complex one fails exactly when converting its children fails, with that error; a converted element is an `xs:element` named as the pattern says, with no attribute but name and type |
| RngConvertProperties.NamelessAttributeFailsElement | rng2xsd.py:113-181 | a named element whose attribute child has no `name` is named, yet its conversion raises the attribute's `TypeError` |
| RngConvertProperties.StringElementSpec | rng2xsd.py:137-142 | an element pattern without children, or with text alone, becomes an element of type "xs:string" with no content |
| RngConvertProperties.SimpleContentElementSpec | rng2xsd.py:143-152 | an element pattern with text and attributes but no elements gets simple content extending "xs:string" with its attribute patterns converted in order |
| RngConvertProperties.ComplexContentElementSpec | rng2xsd.py:153-172 | any other element pattern gets one complex type, mixed iff there are text and elements; with elements or several children, a sequence of the non-text patterns followed by the attribute patterns; otherwise every converted pattern directly |
| RngConvertProperties.ComplexContentHeader | rng2xsd.py:153-158 | any pattern of complex shape (children that are neither text alone nor text with attributes and no elements) becomes an untyped element with one complex type, mixed iff it has both text and elements |
| RngConvertProperties.ComplexContentChildren | rng2xsd.py:160-172 | the complex type holds a sequence of the converted content patterns iff there are elements or several children, and the converted attribute patterns |
| RngConvertProperties.StringElementNamed | rng2xsd.py:113-142 | a text-only element pattern becomes an `xs:element` whose name is the pattern's own, present iff the pattern has one |
| RngConvertProperties.SimpleElementNamed | rng2xsd.py:113-152 | a simple-content element pattern becomes an `xs:element` whose name is the pattern's own, present iff the pattern has one |
| RngConvertProperties.ComplexElementNamed | rng2xsd.py:113-172 | any other element pattern becomes an `xs:element` whose name is the pattern's own, present iff the pattern has one |
| RngConvertProperties.AnnotateSpec | rng2xsd.py:227-249 | optional sets minOccurs "0" only where it is absent; zeroOrMore sets "0"/"unbounded" and oneOrMore "1"/"unbounded"; nothing else about the node changes |
| RngConvertProperties.ConvertFromDone | rng2xsd.py:110-111 | a list converts only when each of its patterns does |
| RngConvertProperties.CreatedAreAnnotated | rng2xsd.py:227-249 | where every child returns the node it created, each of those nodes is annotated, in order, after what was appended before |
| RngConvertProperties.UncreatedAreNotAnnotated | rng2xsd.py:227-249 | where no child returns a node, the occurrence wrapper changes nothing |
| RngConvertProperties.ConvertPatternReturns | rng2xsd.py:79-111 | a conversion returns a node iff the pattern is an element, attribute, choice, group or interleave, and that node is the matching `xs:element`, `xs:attribute`, `xs:choice` or `xs:sequence` |
| RngConvertProperties.RepeatedElements | rng2xsd.py:227-249 | element patterns under optional, zeroOrMore or oneOrMore each become one `xs:element` with minOccurs "0" and no maxOccurs, "0" and "unbounded", or "1" and "unbounded" |
| RngConvertProperties.EnumerationsSpec | rng2xsd.py:201-203 | the enumeration facets are the `value` texts in order; a `value` without text raises the lxml TypeError |
| RngConvertProperties.ConvertAttributeSpec | rng2xsd.py:176-208 | a nameless attribute raises; otherwise the `xs:attribute` carries the name and its type comes from `data` first, then a fixed `value` typed "xs:string" (raising without text), and "xs:string" without `data`, `value` or `choice` |
| RngConvertProperties.EnumeratedAttributeSpec | rng2xsd.py:195-203 | a `choice` child (without `data` or `value`) makes a restriction of "xs:string" enumerating its `value` children's texts in order, raising iff one has no text |
| RngConvertProperties.ConvertRefSpec | rng2xsd.py:210-216 | a ref to an undefined name produces nothing; a ref to a define converts that define's children in its place and returns no node |
| RngConvertProperties.ConvertGrammarSpec | rng2xsd.py:66-77 | the grammar converts the children of its first `start` child when there is one, else every top-level pattern that is not a define, in order |
| RngConvertProperties.NamedFromSpec | rng2xsd.py:62-64 | from position i a name is a key iff it was or a later define has it, and then holds the last such define |
| RngConvertProperties.NamedPatternsSpec | rng2xsd.py:60-64 | the named patterns are keyed by the names of the defines anywhere below the root, each holding the last define of that name in document order |
| RngConvert.ConvertPattern | rng2xsd.py:79-111 | `_convert_pattern` by tag; `ConvertPatternReturns` and the `*PatternReturns`, `CreatedAreAnnotated` and `UncreatedAreNotAnnotated` lemmas state its cases |
| RngConvert.ConvertElement | rng2xsd.py:113-174 | `_convert_element`; `ConvertElementSpec` and the `*ElementSpec` lemmas state the three forms of its result |
| RngConvert.ConvertAttribute | rng2xsd.py:176-208 | `_convert_attribute`; `ConvertAttributeSpec` and `EnumeratedAttributeSpec` state its type choice |
| RngConvert.ConvertDataType | rng2xsd.py:275-297 | `_convert_data_type`; `ConvertDataTypeSpec` and `DataTypeEntries1`-`3` state its table |
| RngConvert.ConvertGrammar | rng2xsd.py:66-77 | `_convert_grammar`; `ConvertGrammarSpec` states which children are converted |
| RngConvert.IsAttributePattern | rng2xsd.py:299-303 | `_is_attribute_pattern`; `AttributePatternSpec` states it as reachability of an attribute |
| RngConvert.IsElementPattern | rng2xsd.py:305-313 | `_is_element_pattern`; `ElementPatternSpec` states it as reachability of an element |
| RngConvert.Annotate | rng2xsd.py:227-249 | the occurrence attributes of the three repetition converters; `AnnotateSpec` states them |

## Left out

- Reading and parsing schema files, and the XSD parser crate itself. The parsed XSD is an input datatype holding only the variants the code handles.
- Serialising, indenting and writing the output document: `XMLElement` rendering, `generate_xml` serialisation at xsd2xml.py:113-123, and lxml `tostring`.
- `xml_builder` insertion errors. Adding a text, an attribute or a child is infallible in the model, so the `XMLBuilderError` paths are not modelled.
- `println!` diagnostics in the Rust crates.
- Random values:
  - Rust `fake` values are uninterpreted functions (the `Faker` record and `fake` in the struct generator).
  - The fixed-seed regex generator of `generate.rs` is an uninterpreted function of the pattern. Whether `Regex::compile` accepts a pattern, and the error it reports when it does not, is another; the panic that `unwrap` turns that error into is modelled.
  - Python `random` draws and Faker words are a source indexed by a draw counter.
- Unbounded reference chasing:
  - `generate.rs` reference and data-type chasing, `src/lib.rs` struct-typed fields and `rng2xsd.py` ref inlining have no cycle guard.
  - Each is bounded by a `fuel` parameter, and running out of fuel is an explicit outcome.
  - A cyclic schema, which diverges or overflows the stack in the source, is not modelled beyond that bound.
- Aliasing and in-place mutation of lxml and builder trees. Trees are values, and an append returns the new parent; the order of children is kept.
- `rng2xsd.py` `convert` (16-58), `convert_relaxng_to_xsd`, `create_schema_validator` and the `__main__` block: file I/O, XSD serialisation and lxml schema validation.
- `rng2xsd.py` creates the XSD element before it raises for a missing name. The model raises without it, which makes no difference because the error propagates.
- `xsd2xml.py` `_extract_patterns` (162-205): the model takes its results, the patterns map and the root pattern, as parameters.
- `xsd2xml.py` `parse_schema`/`validate_schema` and the RELAX NG compact parser stub: they are lxml calls or empty placeholders. The only part of the XSD parser stub that is modelled is that it cannot be instantiated.
- `RelaxNGParser.validate_schema` (xsd2xml.py:207-215) hands the already-parsed tree to `etree.parse`, which lxml documents as taking a file name, URL or file object. It may therefore raise a `TypeError` before the cycle check runs. The model does not include this call, so it does not decide the question.
- lxml comments and processing instructions among a pattern's children are not modelled. Every child is an element node.
- In `rng2xsd.py`, lxml raises a `TypeError` when an attribute value is `None`: a missing `name`, or a `value` without text. The model gives that error the constant message "Argument must be bytes or unicode, got 'NoneType'".
- Values.ToLower: ASCII case folding only. Rust's `to_lowercase` is Unicode-aware and can change a string's length ('İ' lowers to two characters). No non-ASCII character lowers to a letter of "string", so the one comparison that uses it has the same outcome.
- The `TypeError` message for the abstract `XSDParser` is modelled only up to the class name. The list of missing methods that follows it, and its wording, depend on the Python version.
- `attribute.rs` is not part of this model. `AttributeInfo` is reconstructed from the fields `fetch_types.rs:271-316` sets, with field-wise equality.

## Findings

| source | as written | input that shows it | evidently intended | confidence | as-written member | corrected member |
|---|---|---|---|---|---|---|
| xsd2xml.py:227-243 | with the RELAX NG namespace as the default namespace there is no prefix, so the un-prefixed XPath `.//element` matches only un-namespaced elements and the root name falls back to "root" | `<start><element name="doc"/></start>` with namespace map [(None, RELAX NG namespace)] | the root is named after the first element pattern, "doc" | not executed | RngRoot.FindRootElementAsWritten (shown by RngRoot.DefaultNamespaceMissesRoot) | RngRoot.FindRootElement (proved by RngRoot.FindRootElementSpec) |
| xsd2xml.py:247-248 | the depth limit raises `CircularReferenceError`, a name the module neither defines nor imports, so Python raises `NameError: name 'CircularReferenceError' is not defined` | `generate_element` on an element pattern nested in eleven `group`s | a circular-reference error with the message "Maximum recursion depth exceeded" | not executed | RngGenerate.GenerateElementAsWritten (shown by RngGenerateProperties.DepthLimitAsWritten) | RngGenerate.GenerateElement (proved by RngGenerateProperties.DepthLimit) |
| xsd2xml.py:355-358 | a detected cycle raises the undefined `CircularReferenceError`, so the check raises a `NameError` and the cycle path is lost | the patterns `<define name="a"><ref name="a"/></define>` | a circular-reference error "Circular reference detected: a -> a" | not executed | CycleSearch.CheckFromAsWritten (shown by CycleSearch.CheckAsWrittenLosesPath) | CycleSearch.CheckFrom (proved by CycleSearch.CheckSpec) |
