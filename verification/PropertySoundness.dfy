/** Soundness at the level at which questions are asked: the value of one property of an object. */
module PropertySoundness {
  import opened Text
  import opened JsonDocument
  import opened SchemaKeywords
  import opened Acceptance
  import opened ConstraintSearch
  import opened ConstraintSoundness
  import opened KeywordReaders

  ghost predicate HasProperty(v: Value, name: string) { v.VObject? && name in v.fields }

  ghost predicate PropertyCovered(doc: Document, accepts: Relation, kind: Kind, v: Value, name: string) {
    HasProperty(v, name) ==> Covered(doc, accepts, kind, v.fields[name])
  }

  lemma AcceptedField(doc: Document, accepts: Relation, id: ObjectId, v: Value, name: string)
    requires IsAcceptance(doc, accepts) && accepts(Node(id), v) && HasProperty(v, name)
    ensures AdmitsField(doc, accepts, KeywordsOf(doc, id), name, v.fields[name])
  {
    AcceptedIsAdmitted(doc, accepts, Node(id), v);
  }

  lemma AcceptedDependents(doc: Document, accepts: Relation, id: ObjectId, v: Value)
    requires IsAcceptance(doc, accepts) && accepts(Node(id), v) && v.VObject?
    ensures AllAccept(accepts, RequiredDependents(doc, KeywordsOf(doc, id)), v)
  {
    AcceptedIsAdmitted(doc, accepts, Node(id), v);
    forall b | b in RequiredDependents(doc, KeywordsOf(doc, id)) ensures accepts(b, v) {
      DependentAccepts(doc, accepts, KeywordsOf(doc, id), v, b);
    }
  }

  lemma DependentAccepts(doc: Document, accepts: Relation, obj: Keywords, v: Value, b: Schema)
    requires v.VObject? && AdmitsObject(doc, accepts, obj, v) && b in RequiredDependents(doc, obj)
    ensures accepts(b, v)
  {
    DependentsExactly(doc, obj, b);
    var name, s :| name in RequiredNames(obj) && Holds(doc, obj, "dependentSchemas", name, s) && AsSchema(s) == b;
    RequiredExactly(obj, name);
    assert AcceptsIfSchema(accepts, s, v);
  }

  lemma NothingIsAcceptedByNever(doc: Document, accepts: Relation, v: Value)
    requires IsAcceptance(doc, accepts)
    ensures !accepts(Never, v)
  {
    if accepts(Never, v) {
      AcceptedIsAdmitted(doc, accepts, Never, v);
    }
  }

  // ---- Forbidden properties ----

  least lemma {:induction false} ForbiddenInduction[nat](doc: Document, s: Schema, name: string, accepts: Relation,
                                                         v: Value)
    requires Forbidden(doc, s, name)
    requires IsAcceptance(doc, accepts)
    ensures accepts(s, v) ==> !HasProperty(v, name)
  {
    if accepts(s, v) && HasProperty(v, name) {
      OnlyNodesAndAlwaysAccept(doc, accepts, s, v);
      AcceptedParts(doc, accepts, s.id, v);
      AcceptedField(doc, accepts, s.id, v, name);
      NothingIsAcceptedByNever(doc, accepts, v.fields[name]);
      var obj := KeywordsOf(doc, s.id);
      if ForbiddenSome#[_k - 1](doc, Branches(obj, "allOf"), name) {
        ForbiddenSomeInduction(doc, Branches(obj, "allOf"), name, accepts, v);
      } else if !RefTarget(doc, obj).Invalid? && Forbidden#[_k - 1](doc, RefTarget(doc, obj), name) {
        ForbiddenInduction(doc, RefTarget(doc, obj), name, accepts, v);
      }
    }
  }

  least lemma {:induction false} ForbiddenSomeInduction[nat](doc: Document, branches: seq<Schema>, name: string,
                                                             accepts: Relation, v: Value)
    requires ForbiddenSome(doc, branches, name)
    requires IsAcceptance(doc, accepts)
    ensures AllAccept(accepts, branches, v) ==> !HasProperty(v, name)
  {
    var b :| b in branches && Forbidden#[_k - 1](doc, b, name);
    ForbiddenInduction(doc, b, name, accepts, v);
  }

  /** No object accepted by a schema judged to forbid a property has that property. */
  lemma ForbiddenSound(doc: Document, s: Schema, name: string, accepts: Relation, v: Value)
    requires Forbidden(doc, s, name) && IsAcceptance(doc, accepts) && accepts(s, v)
    ensures !HasProperty(v, name)
  {
    ForbiddenInduction(doc, s, name, accepts, v);
  }

  /** A disjunct the analyser skips contributes no object that has the property. */
  lemma ClosedBranchSound(doc: Document, id: ObjectId, b: Schema, name: string, accepts: Relation, v: Value)
    requires Closed(doc, KeywordsOf(doc, id), b, name)
    requires IsAcceptance(doc, accepts) && accepts(Node(id), v) && accepts(b, v)
    ensures !HasProperty(v, name)
  {
    if Forbidden(doc, b, name) {
      ForbiddenSound(doc, b, name, accepts, v);
    } else {
      AcceptedType(doc, accepts, b.id, v);
    }
  }

  // ---- Constrained properties ----

  lemma DirectPropertySound(doc: Document, id: ObjectId, name: string, kind: Kind, vacuous: bool, accepts: Relation,
                            v: Value)
    requires DirectPropertyFinds(doc, KeywordsOf(doc, id), name, kind, vacuous)
    requires IsAcceptance(doc, accepts) && accepts(Node(id), v)
    ensures PropertyCovered(doc, accepts, kind, v, name)
  {
    if HasProperty(v, name) {
      AcceptedField(doc, accepts, id, v, name);
      var obj := KeywordsOf(doc, id);
      var child :| Governs(doc, obj, name, child) && Finds(doc, AsSchema(child), kind, false, vacuous);
      assert !AsSchema(child).Invalid?;
      GovernedField(doc, accepts, obj, name, v.fields[name], child);
      SearchSound(doc, AsSchema(child), kind, false, vacuous, accepts, v.fields[name]);
    }
  }

  lemma GovernedField(doc: Document, accepts: Relation, obj: Keywords, name: string, x: Value, child: Json)
    requires AdmitsField(doc, accepts, obj, name, x) && Governs(doc, obj, name, child)
    ensures AcceptsIfSchema(accepts, child, x)
  {
    MentionsExactly(doc, obj, name);
    if Holds(doc, obj, "properties", name, child) {
    } else if p :| Holds(doc, obj, "patternProperties", p, child) && doc.matches(p, name) {
    }
  }

  least lemma {:induction false} PropertyInduction[nat](doc: Document, s: Schema, name: string, kind: Kind,
                                                        vacuous: bool, accepts: Relation, v: Value)
    requires PropertyFinds(doc, s, name, kind, vacuous)
    requires IsAcceptance(doc, accepts)
    ensures accepts(s, v) ==> PropertyCovered(doc, accepts, kind, v, name)
  {
    if accepts(s, v) && HasProperty(v, name) {
      OnlyNodesAndAlwaysAccept(doc, accepts, s, v);
      AcceptedParts(doc, accepts, s.id, v);
      AcceptedDependents(doc, accepts, s.id, v);
      var obj := KeywordsOf(doc, s.id);
      if DirectPropertyFinds(doc, obj, name, kind, vacuous) {
        DirectPropertySound(doc, s.id, name, kind, vacuous, accepts, v);
      } else if !RefTarget(doc, obj).Invalid? && PropertyFinds#[_k - 1](doc, RefTarget(doc, obj), name, kind, vacuous) {
        PropertyInduction(doc, RefTarget(doc, obj), name, kind, vacuous, accepts, v);
      } else if PropertyFindsSome#[_k - 1](doc, Branches(obj, "allOf"), name, kind, vacuous) {
        PropertySomeInduction(doc, Branches(obj, "allOf"), name, kind, vacuous, accepts, v);
      } else if PropertyFindsSome#[_k - 1](doc, RequiredDependents(doc, obj), name, kind, vacuous) {
        PropertySomeInduction(doc, RequiredDependents(doc, obj), name, kind, vacuous, accepts, v);
      } else if PropertyFindsEvery#[_k - 1](doc, obj, Branches(obj, "anyOf"), name, kind, vacuous) {
        PropertyEveryInduction(doc, obj, Branches(obj, "anyOf"), name, kind, vacuous, accepts, v, s.id);
      } else {
        PropertyEveryInduction(doc, obj, Branches(obj, "oneOf"), name, kind, vacuous, accepts, v, s.id);
      }
    }
  }

  least lemma {:induction false} PropertySomeInduction[nat](doc: Document, branches: seq<Schema>, name: string,
                                                            kind: Kind, vacuous: bool, accepts: Relation, v: Value)
    requires PropertyFindsSome(doc, branches, name, kind, vacuous)
    requires IsAcceptance(doc, accepts)
    ensures AllAccept(accepts, branches, v) ==> PropertyCovered(doc, accepts, kind, v, name)
  {
    var b :| b in branches && PropertyFinds#[_k - 1](doc, b, name, kind, vacuous);
    PropertyInduction(doc, b, name, kind, vacuous, accepts, v);
  }

  least lemma {:induction false} PropertyEveryInduction[nat](doc: Document, obj: Keywords, branches: seq<Schema>,
                                                             name: string, kind: Kind, vacuous: bool,
                                                             accepts: Relation, v: Value, id: ObjectId)
    requires PropertyFindsEvery(doc, obj, branches, name, kind, vacuous)
    requires IsAcceptance(doc, accepts)
    ensures branches != []
    ensures obj == KeywordsOf(doc, id) && accepts(Node(id), v) && SomeAccepts(accepts, branches, v) ==>
            PropertyCovered(doc, accepts, kind, v, name)
  {
    if obj == KeywordsOf(doc, id) && accepts(Node(id), v) && SomeAccepts(accepts, branches, v) {
      var b :| b in branches && accepts(b, v);
      if Closed(doc, obj, b, name) {
        ClosedBranchSound(doc, id, b, name, accepts, v);
      } else {
        PropertyInduction(doc, b, name, kind, vacuous, accepts, v);
      }
    }
  }

  /** In every object a schema accepts, a property found constrained has a covered value. */
  lemma PropertySound(doc: Document, s: Schema, name: string, kind: Kind, vacuous: bool, accepts: Relation, v: Value)
    requires PropertyFinds(doc, s, name, kind, vacuous) && IsAcceptance(doc, accepts) && accepts(s, v)
    ensures PropertyCovered(doc, accepts, kind, v, name)
  {
    PropertyInduction(doc, s, name, kind, vacuous, accepts, v);
  }

  /** The question about a property, answered of an object the instance schema accepts. */
  ghost predicate AsProperty(accepts: Relation, instance: Schema, name: string, p: Place) {
    !instance.Invalid? && name != "" ==>
      p.arrays == [] && accepts(instance, p.owner) && HasProperty(p.owner, name) && p.owner.fields[name] == p.value
  }

  /** The question asked for every cue. When the answer is "constrained", the value at any place that the node
      accepts is sheltered, provided the origin accepts that value, or the outermost of the arrays around it, and
      the value is the property asked about of an object the instance schema accepts, if there is one. */
  lemma ConstrainedSound(doc: Document, node: Schema, origin: Schema, instance: Schema, name: string, kind: Kind,
                         accepts: Relation, p: Place)
    requires ConstrainedAtMost(doc, node, origin, instance, name, kind)
    requires IsAcceptance(doc, accepts) && accepts(node, p.value)
    requires Chained(p) && accepts(origin, Top(p)) && AsProperty(accepts, instance, name, p)
    ensures Sheltered(doc, accepts, kind, p)
  {
    if ConstrainedItself(doc, node, origin, kind) {
      ConstrainedItselfSound(doc, node, origin, kind, accepts, p);
    } else if Forbidden(doc, instance, name) {
      ForbiddenSound(doc, instance, name, accepts, p.owner);
    } else {
      PropertySound(doc, instance, name, kind, true, accepts, p.owner);
    }
  }

  /** The part of that which does not ask the instance schema anything. */
  lemma ConstrainedItselfSound(doc: Document, node: Schema, origin: Schema, kind: Kind, accepts: Relation, p: Place)
    requires ConstrainedItself(doc, node, origin, kind)
    requires IsAcceptance(doc, accepts) && accepts(node, p.value) && Chained(p) && accepts(origin, Top(p))
    ensures Sheltered(doc, accepts, kind, p)
  {
    if Barren(doc, origin) {
      BarrenSound(doc, origin, accepts, Top(p));
      NothingCarriedWithin(p);
    } else if Barren(doc, node) {
      BarrenSound(doc, node, accepts, p.value);
    } else {
      SearchSound(doc, origin, kind, false, true, accepts, Top(p));
      ShelteredWithin(doc, accepts, kind, p);
    }
  }
}
