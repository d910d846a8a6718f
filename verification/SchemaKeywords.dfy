/** What the constraint analyser reads directly off one schema object. */
module SchemaKeywords {
  import opened Text
  import opened JsonDocument
  import opened JsonPointer

  datatype Kind = Url | Path | Command

  function TypeNames(elems: seq<Json>): seq<string> {
    if elems == [] then []
    else if elems[0].String? && elems[0].text != "" then [elems[0].text] + TypeNames(elems[1..])
    else TypeNames(elems[1..])
  }

  /** declaredTypes: no declaration is an empty list. */
  function DeclaredTypes(obj: Keywords): seq<string> {
    match Get(obj, "type")
    case String(t) => if t == "" then [] else [t]
    case Array(elems) => TypeNames(elems)
    case _ => []
  }

  predicate ScalarType(t: string) { t in ["null", "boolean", "number", "integer"] }

  /** acceptsStringLikeValue: some declared type is string, array, object or unknown. */
  predicate AcceptsStringLike(types: seq<string>) {
    exists t | t in types :: !ScalarType(t)
  }

  /** declaresArrayOnly. */
  predicate DeclaresArrayOnly(obj: Keywords) {
    var types := DeclaredTypes(obj);
    "array" in types && forall t | t in types :: t == "array" || ScalarType(t)
  }

  /** declaresObjectOnly. */
  predicate DeclaresObjectOnly(obj: Keywords) {
    var types := DeclaredTypes(obj);
    "object" in types && forall t | t in types :: t == "object" || t == "null"
  }

  /** declaresNonObjectOnly. */
  predicate DeclaresNonObjectOnly(doc: Document, branch: Schema) {
    branch.Node? &&
    var types := DeclaredTypes(KeywordsOf(doc, branch.id));
    types != [] && "object" !in types
  }

  predicate ObjectBranchExcluded(doc: Document, parent: Keywords, branch: Schema) {
    DeclaresObjectOnly(parent) && DeclaresNonObjectOnly(doc, branch)
  }

  /** branchExcludedByArrayParent. */
  predicate ExcludedByArrayParent(doc: Document, branch: Schema) {
    branch.Node? &&
    var types := DeclaredTypes(KeywordsOf(doc, branch.id));
    types != [] && forall t | t in types :: t == "string" || t == "object" || ScalarType(t)
  }

  predicate HasItems(obj: Keywords) { "items" in obj || "prefixItems" in obj }

  /** arrayConstraintAppliesCtx. */
  predicate ArrayConstraintApplies(obj: Keywords, arrayCtx: bool) {
    var types := DeclaredTypes(obj);
    && HasItems(obj)
    && (if arrayCtx then types == [] || "array" in types else DeclaresArrayOnly(obj))
  }

  /** The list under prefixItems; a value that is no list is ignored. */
  function PrefixItems(obj: Keywords): seq<Json> {
    var prefix := Get(obj, "prefixItems");
    if prefix.Array? then prefix.elems else []
  }

  /** The subschemas that between them govern every position of an array, or None when some
      position is left open. */
  function ElementSchemas(obj: Keywords): Option<seq<Json>> {
    match Get(obj, "items")
    case Null => None
    case Array(elems) =>
      if "additionalItems" in obj then Some(PrefixItems(obj) + elems + [obj["additionalItems"]]) else None
    case items => Some(PrefixItems(obj) + [items])
  }

  /** The gate of arrayElementsViable: only array-only nodes with item keywords, and a prefixItems
      that is a list if present, are judged by their item schemas. */
  predicate ElementsGated(obj: Keywords) {
    && DeclaresArrayOnly(obj)
    && HasItems(obj)
    && ("prefixItems" in obj ==> obj["prefixItems"].Array?)
  }

  function RefTarget(doc: Document, obj: Keywords): Schema {
    var ref := Get(obj, "$ref");
    if ref.String? then Resolve(doc, ref.text) else Invalid
  }

  const URL_KEYWORDS := [
    "scheme", "schemes", "host", "hostname", "hosts",
    "allowedHosts", "allowed_hosts", "allowedSchemes", "allowed_schemes",
    "x-allowed-hosts", "x-allowed-schemes", "x-scheme", "x-host"]

  const PATH_KEYWORDS := [
    "root", "roots", "basePath", "base_path", "allowedRoots", "allowed_roots",
    "x-root", "x-allowed-roots", "sandboxRoot", "sandbox_root"]

  predicate HasEnumOrConst(obj: Keywords) {
    "const" in obj || (Get(obj, "enum").Array? && Get(obj, "enum").elems != [])
  }

  /** direct: the node itself carries a constraint of this kind. */
  predicate Direct(obj: Keywords, kind: Kind) {
    || HasEnumOrConst(obj)
    || (kind.Url? && exists k | k in URL_KEYWORDS :: k in obj)
    || (kind.Path? && exists k | k in PATH_KEYWORDS :: k in obj)
  }

  function PropertySchemas(doc: Document, obj: Keywords): Keywords { AsObject(doc, Get(obj, "properties")) }

  function PatternSchemas(doc: Document, obj: Keywords): Keywords { AsObject(doc, Get(obj, "patternProperties")) }

  predicate PropertyDeclared(doc: Document, obj: Keywords, name: string) { name in PropertySchemas(doc, obj) }

  predicate PatternMatches(doc: Document, obj: Keywords, name: string) {
    exists p | p in PatternSchemas(doc, obj) :: doc.matches(p, name)
  }

  function RequiredNames(obj: Keywords): seq<string> {
    var required := Get(obj, "required");
    if required.Array? then TypeNames(required.elems) else []
  }

  function SelectDependents(deps: Keywords, names: seq<string>, required: seq<string>): (s: seq<Schema>)
    requires forall k | k in names :: k in deps
    ensures Invalid !in s
    ensures forall b | b in s :: exists k | k in deps :: k in required && AsSchema(deps[k]) == b
  {
    if names == [] then []
    else
      var rest := SelectDependents(deps, names[1..], required);
      var head := AsSchema(deps[names[0]]);
      if names[0] in required && !head.Invalid? then [head] + rest else rest
  }

  /** requiredDependentSchemas: dependent schemas whose trigger is required, so always applied. */
  function RequiredDependents(doc: Document, obj: Keywords): (s: seq<Schema>)
    ensures Invalid !in s
  {
    var deps := AsObject(doc, Get(obj, "dependentSchemas"));
    SelectDependents(deps, Sorted(deps.Keys), RequiredNames(obj))
  }
}
