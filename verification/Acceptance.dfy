/** What JSON Schema says a schema accepts, and what it means for an accepted value to be
    constrained. Acceptance is any relation that meets the necessary condition of every
    keyword; this pins nothing down for cyclic references, so results hold however those are read. */
module Acceptance {
  import opened Text
  import opened JsonDocument
  import opened JsonPointer
  import opened SchemaKeywords

  datatype Value =
    | VNull
    | VBool(flag: bool)
    | VNumber(number: real)
    | VString(text: string)
    | VArray(elems: seq<Value>)
    | VObject(fields: map<string, Value>)

  type Relation = (Schema, Value) -> bool

  /** Section 6.1.1 of the Validation vocabulary. A name outside the seven matches nothing. */
  predicate HasType(v: Value, t: string) {
    match v
    case VNull => t == "null"
    case VBool(_) => t == "boolean"
    case VNumber(x) => t == "number" || (t == "integer" && x.Floor as real == x)
    case VString(_) => t == "string"
    case VArray(_) => t == "array"
    case VObject(_) => t == "object"
  }

  // ---- What one keyword says, read off the object as it stands ----

  /** The type keyword names t, alone or in a list. */
  predicate NamesType(obj: Keywords, t: string) {
    && t != "" && "type" in obj
    && (obj["type"] == String(t) || (obj["type"].Array? && String(t) in obj["type"].elems))
  }

  /** The list under key has the schema b among its entries. */
  predicate Lists(obj: Keywords, key: string, b: Schema) {
    && key in obj && obj[key].Array?
    && match b
       case Always => Bool(true) in obj[key].elems
       case Never => Bool(false) in obj[key].elems
       case Node(At(i)) => Object(i) in obj[key].elems
       case _ => false
  }

  /** The map under key holds v under name. */
  predicate Holds(doc: Document, obj: Keywords, key: string, name: string, v: Json) {
    && key in obj && obj[key].Object? && obj[key].id < |doc.heap|
    && var members := doc.heap[obj[key].id];
       name in members && members[name] == v
  }

  /** The reference keyword leads to the schema t. */
  predicate RefersTo(doc: Document, obj: Keywords, t: Schema) {
    "$ref" in obj && obj["$ref"].String? && !t.Invalid? && Resolve(doc, obj["$ref"].text) == t
  }

  /** Some property keyword other than additionalProperties speaks about the name. */
  ghost predicate Mentions(doc: Document, obj: Keywords, name: string) {
    || (exists v :: Holds(doc, obj, "properties", name, v))
    || (exists p, v :: Holds(doc, obj, "patternProperties", p, v) && doc.matches(p, name))
  }

  // ---- Acceptance ----

  /** A value where a schema is expected constrains x if it is a boolean or an object. */
  ghost predicate AcceptsIfSchema(accepts: Relation, v: Json, x: Value) {
    match v
    case Bool(flag) => accepts(if flag then Always else Never, x)
    case Object(i) => accepts(Node(At(i)), x)
    case _ => true
  }

  /** Sections 10.3.1.1 and 10.3.1.2 of the 2020-12 Core, with the older list form of items. */
  ghost predicate AdmitsElement(accepts: Relation, obj: Keywords, i: nat, x: Value) {
    var prefix := if "prefixItems" in obj && obj["prefixItems"].Array? then obj["prefixItems"].elems else [];
    && (i < |prefix| ==> AcceptsIfSchema(accepts, prefix[i], x))
    && ("items" in obj ==>
          match obj["items"]
          case Array(list) =>
            && (i < |list| ==> AcceptsIfSchema(accepts, list[i], x))
            && (i >= |list| && "additionalItems" in obj ==> AcceptsIfSchema(accepts, obj["additionalItems"], x))
          case items => i >= |prefix| ==> AcceptsIfSchema(accepts, items, x))
  }

  /** Section 10.3.2 of the Core: properties, patternProperties and additionalProperties. */
  ghost predicate AdmitsField(doc: Document, accepts: Relation, obj: Keywords, name: string, x: Value) {
    && (forall v | Holds(doc, obj, "properties", name, v) :: AcceptsIfSchema(accepts, v, x))
    && (forall p, v | Holds(doc, obj, "patternProperties", p, v) && doc.matches(p, name) ::
          AcceptsIfSchema(accepts, v, x))
    && (!Mentions(doc, obj, name) && "additionalProperties" in obj ==>
          AcceptsIfSchema(accepts, obj["additionalProperties"], x))
  }

  ghost predicate AdmitsObject(doc: Document, accepts: Relation, obj: Keywords, v: Value)
    requires v.VObject?
  {
    && (forall name | name in v.fields :: AdmitsField(doc, accepts, obj, name, v.fields[name]))
    && ("required" in obj && obj["required"].Array? ==>
          forall name | String(name) in obj["required"].elems :: name in v.fields)
    && (forall name, s | name in v.fields && Holds(doc, obj, "dependentSchemas", name, s) ::
          AcceptsIfSchema(accepts, s, v))
  }

  /** The necessary conditions for a schema to accept a value. */
  ghost predicate Admits(doc: Document, accepts: Relation, s: Schema, v: Value) {
    match s
    case Always => true
    case Never => false
    case Invalid => false
    case Node(id) =>
      var obj := KeywordsOf(doc, id);
      && ((exists t :: NamesType(obj, t)) ==> exists t :: NamesType(obj, t) && HasType(v, t))
      && (forall b | Lists(obj, "allOf", b) :: accepts(b, v))
      && ((exists b :: Lists(obj, "anyOf", b)) ==> exists b :: Lists(obj, "anyOf", b) && accepts(b, v))
      && ((exists b :: Lists(obj, "oneOf", b)) ==> exists b :: Lists(obj, "oneOf", b) && accepts(b, v))
      && (forall t | RefersTo(doc, obj, t) :: accepts(t, v))
      && (v.VArray? ==> forall i | 0 <= i < |v.elems| :: AdmitsElement(accepts, obj, i, v.elems[i]))
      && (v.VObject? ==> AdmitsObject(doc, accepts, obj, v))
  }

  ghost predicate IsAcceptance(doc: Document, accepts: Relation) {
    forall s, v {:trigger Admits(doc, accepts, s, v)} :: accepts(s, v) ==> Admits(doc, accepts, s, v)
  }

  /** Can the value carry a string, and so a URL, path or command? Objects may carry anything. */
  ghost predicate Carries(v: Value) {
    match v
    case VString(_) => true
    case VObject(_) => true
    case VArray(elems) => exists i | 0 <= i < |elems| :: Carries(elems[i])
    case _ => false
  }

  ghost predicate ArrayOrInert(v: Value) { v.VArray? || !Carries(v) }

  ghost predicate DirectlyCovered(doc: Document, accepts: Relation, kind: Kind, v: Value) {
    exists id :: Direct(KeywordsOf(doc, id), kind) && accepts(Node(id), v)
  }

  /** Every string the value carries is inside a part that some directly constrained schema accepts. */
  ghost predicate Covered(doc: Document, accepts: Relation, kind: Kind, v: Value) {
    || !Carries(v)
    || DirectlyCovered(doc, accepts, kind, v)
    || (v.VArray? && forall i | 0 <= i < |v.elems| :: Covered(doc, accepts, kind, v.elems[i]))
  }

  // ---- Values inside values ----

  predicate ElementOf(x: Value, a: Value) { a.VArray? && x in a.elems }

  predicate FieldOf(x: Value, o: Value) { o.VObject? && exists name | name in o.fields :: o.fields[name] == x }

  /** Is x the value y, or somewhere inside it? */
  least predicate Inside[nat](x: Value, y: Value) {
    x == y || exists z :: (ElementOf(x, z) || FieldOf(x, z)) && Inside(z, y)
  }

  ghost predicate IsInside(x: Value, y: Value) { Inside(x, y) }

  least lemma {:induction false} InsideInside[nat](x: Value, y: Value, z: Value)
    requires Inside(x, y) && IsInside(y, z)
    ensures IsInside(x, z)
  {
    if x != y {
      var x' :| (ElementOf(x, x') || FieldOf(x, x')) && Inside#[_k - 1](x', y);
      InsideInside(x', y, z);
    }
  }

  /** Inside the document v, x is covered or is inside a value that some directly constrained schema accepts. */
  ghost predicate ShelteredIn(doc: Document, accepts: Relation, kind: Kind, v: Value, x: Value) {
    || Covered(doc, accepts, kind, x)
    || exists w :: IsInside(x, w) && IsInside(w, v) && DirectlyCovered(doc, accepts, kind, w)
  }

  /** What covers a value shelters everything inside it. */
  least lemma {:induction false} ShelteredInside[nat](doc: Document, accepts: Relation, kind: Kind, x: Value, y: Value)
    requires Inside(x, y) && Covered(doc, accepts, kind, y)
    ensures ShelteredIn(doc, accepts, kind, y, x)
  {
    if x != y {
      var z :| (ElementOf(x, z) || FieldOf(x, z)) && Inside#[_k - 1](z, y);
      ShelteredInside(doc, accepts, kind, z, y);
      PartSheltered(doc, accepts, kind, y, z, x);
    }
  }

  lemma PartSheltered(doc: Document, accepts: Relation, kind: Kind, v: Value, z: Value, x: Value)
    requires ElementOf(x, z) || FieldOf(x, z)
    requires ShelteredIn(doc, accepts, kind, v, z) && IsInside(z, v)
    ensures ShelteredIn(doc, accepts, kind, v, x)
  {
    if DirectlyCovered(doc, accepts, kind, z) {
      assert IsInside(z, z) && IsInside(x, z);
    } else if !Covered(doc, accepts, kind, z) {
      var w :| IsInside(z, w) && IsInside(w, v) && DirectlyCovered(doc, accepts, kind, w);
      assert IsInside(x, w);
    }
  }

  // ---- Places inside a document ----

  /** A value inside a document: the object that holds it (where it is a property), and the arrays around it,
      outermost first, where a schema speaks about it through the array it is an element of. */
  datatype Place = Place(value: Value, owner: Value, arrays: seq<Value>)

  /** The outermost array around the value, or the value itself. */
  function Top(p: Place): Value { if p.arrays == [] then p.value else p.arrays[0] }

  /** Each array is an element of the one before it, and the value of the last. */
  ghost predicate Chained(p: Place) {
    && (forall i | 0 <= i < |p.arrays| - 1 :: ElementOf(p.arrays[i + 1], p.arrays[i]))
    && (p.arrays != [] ==> ElementOf(p.value, p.arrays[|p.arrays| - 1]))
  }

  /** The value is covered, or sits in an array that some directly constrained schema accepts. */
  ghost predicate Sheltered(doc: Document, accepts: Relation, kind: Kind, p: Place) {
    Covered(doc, accepts, kind, p.value) || exists a | a in p.arrays :: DirectlyCovered(doc, accepts, kind, a)
  }

  function Inner(p: Place): Place
    requires p.arrays != []
  {
    p.(arrays := p.arrays[1..])
  }

  lemma InnerChained(p: Place)
    requires Chained(p) && p.arrays != []
    ensures Chained(Inner(p)) && ElementOf(Top(Inner(p)), p.arrays[0])
  {
    var q := Inner(p);
    forall i | 0 <= i < |q.arrays| - 1 ensures ElementOf(q.arrays[i + 1], q.arrays[i]) {
      assert ElementOf(p.arrays[i + 2], p.arrays[i + 1]);
    }
    if q.arrays != [] {
      assert ElementOf(p.arrays[0 + 1], p.arrays[0]);
    }
  }

  lemma {:induction false} NothingCarriedWithin(p: Place)
    requires Chained(p) && !Carries(Top(p))
    ensures !Carries(p.value)
    decreases |p.arrays|
  {
    if p.arrays != [] {
      InnerChained(p);
      NothingCarriedWithin(Inner(p));
    }
  }

  /** What covers the outermost array shelters every place inside it. */
  lemma {:induction false} ShelteredWithin(doc: Document, accepts: Relation, kind: Kind, p: Place)
    requires Chained(p) && Covered(doc, accepts, kind, Top(p))
    ensures Sheltered(doc, accepts, kind, p)
    decreases |p.arrays|
  {
    if p.arrays != [] {
      if !Carries(p.arrays[0]) {
        NothingCarriedWithin(p);
      } else if !DirectlyCovered(doc, accepts, kind, p.arrays[0]) {
        InnerChained(p);
        ShelteredWithin(doc, accepts, kind, Inner(p));
      }
    }
  }
}
