/** Decoded JSON schema documents. encoding/json builds one map per object, and the
    program tells objects apart by the address of that map; here an object is an index
    into the document's heap of maps. */
module JsonDocument {
  import opened Text

  /** Undeclared(o, name) is the object the program builds for a required name that object o
      does not declare, when several patterns match it or nothing governs it. */
  datatype ObjectId = At(index: nat) | Undeclared(owner: nat, name: string)

  datatype Json =
    | Null
    | Bool(flag: bool)
    | Number(number: real)
    | String(text: string)
    | Array(elems: seq<Json>)
    | Object(id: nat)

  type Keywords = map<string, Json>

  /** A schema node: an object, true, false, or something that is no schema at all. */
  datatype Schema = Invalid | Always | Never | Node(id: ObjectId)

  /** matches is patternMatchesName: does the regular expression match the property name? */
  datatype Document = Document(heap: seq<Keywords>, matches: (string, string) -> bool)

  const ROOT: ObjectId := At(0)

  function HeapObject(doc: Document, i: nat): Keywords {
    if i < |doc.heap| then doc.heap[i] else map[]
  }

  /** obj[key]: a missing keyword reads as null. */
  function Get(obj: Keywords, key: string): Json {
    if key in obj then obj[key] else Null
  }

  function AsSchema(v: Json): Schema {
    match v
    case Object(id) => Node(At(id))
    case Bool(flag) => if flag then Always else Never
    case _ => Invalid
  }

  /** asObject: the map behind an object value, empty for anything else. */
  function AsObject(doc: Document, v: Json): Keywords {
    if v.Object? then HeapObject(doc, v.id) else map[]
  }

  /** The entries of a list keyword that are schemas, in order. */
  function Schemas(elems: seq<Json>): (s: seq<Schema>)
    ensures Invalid !in s
  {
    if elems == [] then []
    else
      var head := AsSchema(elems[0]);
      if head.Invalid? then Schemas(elems[1..]) else [head] + Schemas(elems[1..])
  }

  function Branches(obj: Keywords, key: string): (s: seq<Schema>)
    ensures Invalid !in s
  {
    var v := Get(obj, key);
    if v.Array? then Schemas(v.elems) else []
  }

  /** The schemas of the patterns that match name, in ascending order of pattern. */
  function MatchedSchemas(doc: Document, patterns: Keywords, names: seq<string>, name: string): (vs: seq<Json>)
    requires forall p | p in names :: p in patterns
    ensures forall v | v in vs :: !AsSchema(v).Invalid?
  {
    if names == [] then []
    else
      var rest := MatchedSchemas(doc, patterns, names[1..], name);
      if doc.matches(names[0], name) && !AsSchema(patterns[names[0]]).Invalid?
      then [patterns[names[0]]] + rest else rest
  }

  lemma {:induction false} MatchedExactly(doc: Document, patterns: Keywords, names: seq<string>, name: string, v: Json)
    requires forall p | p in names :: p in patterns
    ensures v in MatchedSchemas(doc, patterns, names, name) <==>
            !AsSchema(v).Invalid? && exists p | p in names :: doc.matches(p, name) && patterns[p] == v
  {
    if names != [] {
      MatchedExactly(doc, patterns, names[1..], name, v);
    }
  }

  function UndeclaredCandidates(doc: Document, obj: Keywords, name: string): seq<Json> {
    var patterns := AsObject(doc, Get(obj, "patternProperties"));
    MatchedSchemas(doc, patterns, Sorted(patterns.Keys), name)
  }

  /** schemaForUndeclaredProperty. */
  function UndeclaredSchema(doc: Document, owner: nat, name: string): (s: Schema)
    ensures !s.Invalid?
  {
    var obj := HeapObject(doc, owner);
    var matched := UndeclaredCandidates(doc, obj, name);
    var extra := AsSchema(Get(obj, "additionalProperties"));
    if |matched| == 1 then AsSchema(matched[0])
    else if matched == [] && !extra.Invalid? then extra
    else Node(Undeclared(owner, name))
  }

  /** The map a node's object holds. */
  function KeywordsOf(doc: Document, id: ObjectId): Keywords {
    match id
    case At(i) => HeapObject(doc, i)
    case Undeclared(owner, name) =>
      var matched := UndeclaredCandidates(doc, HeapObject(doc, owner), name);
      if |matched| >= 2 then map["allOf" := Array(matched)] else map[]
  }
}
