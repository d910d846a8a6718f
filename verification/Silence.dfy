/** What it means that a review raises no hypothesis. For a frame reported under its own name and reached by named
    properties only, silence is a guarantee about every value the frame stands for. Two kinds of frames have the wrong
    schema asked about their name: a branch of a composition, reported under the name of the property it belongs to,
    the property's own schema; and a property below one with an empty name, the schema of an object further out. For
    these this file says exactly when the answer is about the frame's own values. */
module Silence {
  import opened Text
  import opened JsonDocument
  import opened SchemaKeywords
  import opened SchemaWalk
  import opened SchemaWalkers
  import opened SchemaReview
  import opened FramePlaces
  import opened Acceptance
  import opened ConstraintSearch
  import opened ConstraintSoundness
  import opened PropertySoundness

  lemma {:induction false} ReportMember(entries: seq<Entry>, e: Entry, r: Report)
    requires e in entries && r in ReportsOf(e)
    ensures r in Reports(entries)
  {
    var last := entries[|entries| - 1];
    assert entries == entries[..|entries| - 1] + [last];
    if e in entries[..|entries| - 1] {
      ReportMember(entries[..|entries| - 1], e, r);
    }
  }

  /** The report of a frame under its own name. */
  function OwnReport(f: Frame): Report { Report(f.loc, f.propName, f.node, Constraint(f), f.instance) }

  /** The report of a branch under the name of the property it belongs to. */
  function BranchReport(f: Frame): Report { Report(f.cueLoc, f.cueName, f.node, Constraint(f), f.instance) }

  /** The review of the whole schema settled every question and raised no hypothesis on this one. */
  ghost predicate Silent(doc: Document, loc: string, cue: Cue, hypotheses: set<(Kind, string)>, e: Entry, r: Report,
                         kind: Kind) {
    && AllSettled(doc, cue, hypotheses, Reports(Entered(FullWalk(doc, loc))))
    && e in Entered(FullWalk(doc, loc)) && r in ReportsOf(e)
    && Cued(doc, cue, kind, r) && (kind, r.loc) !in hypotheses
  }

  lemma SilentAnswer(doc: Document, loc: string, cue: Cue, hypotheses: set<(Kind, string)>, e: Entry, r: Report,
                     kind: Kind)
    requires Silent(doc, loc, cue, hypotheses, e, r, kind)
    ensures ReportConstrained(doc, r, kind)
  {
    ReportMember(Entered(FullWalk(doc, loc)), e, r);
    assert Settled(doc, cue, hypotheses, r, kind);
  }

  // ---- Frames reported under their own name ----

  /** Silence about such a frame: every value it stands for, in any document the root accepts, is covered or sits in
      an array that is. */
  lemma OwnSilenceIsSound(doc: Document, loc: string, cue: Cue, hypotheses: set<(Kind, string)>, e: Entry, kind: Kind,
                          accepts: Relation, v: Value, p: Place)
    requires Silent(doc, loc, cue, hypotheses, e, OwnReport(e.frame), kind)
    requires IsAcceptance(doc, accepts) && accepts(Node(ROOT), v)
    requires Stands(doc, accepts, loc, v, true, e, p) && Taken(accepts, e, p)
    ensures Sheltered(doc, accepts, kind, p)
    ensures p.arrays == [] ==> Covered(doc, accepts, kind, p.value)
  {
    var f := e.frame;
    SilentAnswer(doc, loc, cue, hypotheses, e, OwnReport(f), kind);
    FrameInvariant(doc, accepts, loc, v, e, p);
    ConstraintHolds(accepts, e, p);
    if f.propName == "" {
      assert AsProperty(accepts, f.instance, f.propName, p);
    }
    ConstrainedSound(doc, f.node, Constraint(f), f.instance, f.propName, kind, accepts, p);
  }

  /** Silence about a property, declared or only required and whatever its name: in every object the walk's parent
      frame stands for and accepts, its value is covered. */
  lemma PropertySilenceIsSound(doc: Document, loc: string, cue: Cue, hypotheses: set<(Kind, string)>, c: Entry,
                               kind: Kind, accepts: Relation, v: Value, e: Entry, id: ObjectId, p: Place)
    requires Silent(doc, loc, cue, hypotheses, c, OwnReport(c.frame), kind)
    requires IsAcceptance(doc, accepts) && StandInsAccept(doc, accepts) && accepts(Node(ROOT), v)
    requires e.frame.node == Node(id) && Stands(doc, accepts, loc, v, true, e, p) && Taken(accepts, e, p)
    requires var obj, name := KeywordsOf(doc, id), c.frame.propName;
             && (c in EnterDeclared(doc, e.frame, obj)
                 || c in EnterUndeclared(doc, e.frame, id, RequiredOnly(doc, obj)))
             && HasProperty(p.value, name) && PatternsAreSchemas(doc, obj, name)
    ensures Covered(doc, accepts, kind, p.value.fields[c.frame.propName])
  {
    if c.frame.propName == "" {
      NamedStands(doc, accepts, loc, v, e, p);
      PropertySilenceAnywhere(doc, loc, cue, hypotheses, c, kind, accepts, v, e, id, p);
    } else {
      var q := Place(p.value.fields[c.frame.propName], p.value, []);
      assert ToProperty(doc, e, id, KeywordsOf(doc, id), p, c, q);
      PropertyTaken(doc, accepts, e, id, p, c, q);
      assert StepTo(doc, true, e, id, p, c, q);
      StandsOn(doc, accepts, loc, v, true, e, id, p, c, q);
      OwnSilenceIsSound(doc, loc, cue, hypotheses, c, kind, accepts, v, q);
    }
  }

  /** The question about an item schema, answered of every array its origin accepts: some directly constrained schema
      accepts the array, or every element the item schema accepts is covered. */
  lemma ItemAnswerIsSound(doc: Document, node: Schema, origin: Schema, kind: Kind, accepts: Relation, a: Value)
    requires ConstrainedAtMost(doc, node, origin, Invalid, "items", kind)
    requires IsAcceptance(doc, accepts) && accepts(origin, a) && a.VArray?
    ensures DirectlyCovered(doc, accepts, kind, a)
         || forall x | x in a.elems && accepts(node, x) :: Covered(doc, accepts, kind, x)
  {
    forall x | x in a.elems && accepts(node, x)
      ensures Covered(doc, accepts, kind, x) || DirectlyCovered(doc, accepts, kind, a)
    {
      var p := Place(x, x, [a]);
      ConstrainedSound(doc, node, origin, Invalid, "items", kind, accepts, p);
    }
  }

  /** Silence about an item schema: the same of every array its parent frame stands for and accepts. */
  lemma ItemSilenceIsSound(doc: Document, loc: string, cue: Cue, hypotheses: set<(Kind, string)>, c: Entry,
                           kind: Kind, accepts: Relation, v: Value, e: Entry, id: ObjectId, p: Place)
    requires Silent(doc, loc, cue, hypotheses, c, OwnReport(c.frame), kind)
    requires IsAcceptance(doc, accepts) && accepts(Node(ROOT), v) && p.value.VArray? && p.arrays == []
    requires e.frame.node == Node(id) && Stands(doc, accepts, loc, v, true, e, p) && Taken(accepts, e, p)
    requires c in EnterItems(e.frame, KeywordsOf(doc, id))
    ensures DirectlyCovered(doc, accepts, kind, p.value)
         || forall x | x in p.value.elems && accepts(c.frame.node, x) :: Covered(doc, accepts, kind, x)
  {
    ElementEntry(e.frame, KeywordsOf(doc, id), c);
    SilentAnswer(doc, loc, cue, hypotheses, c, OwnReport(c.frame), kind);
    FrameInvariant(doc, accepts, loc, v, e, p);
    ConstraintHolds(accepts, e, p);
    ItemAnswerIsSound(doc, c.frame.node, Constraint(e.frame), kind, accepts, p.value);
  }

  // ---- Frames whose name the wrong schema is asked about ----

  /** The instance is asked, and can be found to forbid or constrain the name, maybe only where a guard cut in. */
  ghost predicate MaybeMisled(doc: Document, instance: Schema, name: string, kind: Kind) {
    && AsksInstance(doc, instance, name)
    && (Forbidden(doc, instance, name) || PropertyFinds(doc, instance, name, kind, true))
  }

  /** The answer does not come from asking the instance, or need not. */
  ghost predicate AnsweredItself(doc: Document, r: Report, kind: Kind) {
    !MaybeMisled(doc, r.instance, r.propName, kind) || ConstrainedItself(doc, r.node, r.origin, kind)
  }

  /** Silence about any report of any frame, whatever names and branches lead to it, that is not due to its instance:
      every value the frame stands for, in any document the root accepts, is covered, or inside a value of the document
      that some directly constrained schema accepts. */
  lemma SilenceAnywhere(doc: Document, loc: string, cue: Cue, hypotheses: set<(Kind, string)>, e: Entry, r: Report,
                        kind: Kind, accepts: Relation, v: Value, p: Place)
    requires Silent(doc, loc, cue, hypotheses, e, r, kind) && AnsweredItself(doc, r, kind)
    requires IsAcceptance(doc, accepts) && accepts(Node(ROOT), v)
    requires StandsAnyhow(doc, accepts, loc, v, e, p) && Taken(accepts, e, p)
    ensures ShelteredIn(doc, accepts, kind, v, p.value)
    ensures e.frame.origin.Invalid? ==> Covered(doc, accepts, kind, p.value)
  {
    SilentAnswer(doc, loc, cue, hypotheses, e, r, kind);
    LooseInvariant(doc, accepts, loc, v, false, e, p);
    LooseSchemas(accepts, v, e, p);
    if !Barren(doc, e.frame.node) {
      var y :| (if e.frame.origin.Invalid? then y == p.value else true)
               && IsInside(p.value, y) && IsInside(y, v) && accepts(Constraint(e.frame), y);
      OriginCovers(doc, Constraint(e.frame), kind, accepts, y);
      ShelteredInside(doc, accepts, kind, p.value, y);
      ShelteredFurther(doc, accepts, kind, p.value, y, v);
    } else {
      BarrenSound(doc, e.frame.node, accepts, p.value);
    }
  }

  lemma OriginCovers(doc: Document, origin: Schema, kind: Kind, accepts: Relation, y: Value)
    requires Barren(doc, origin) || Finds(doc, origin, kind, false, true)
    requires IsAcceptance(doc, accepts) && accepts(origin, y)
    ensures Covered(doc, accepts, kind, y)
  {
    if Barren(doc, origin) {
      BarrenSound(doc, origin, accepts, y);
    } else {
      SearchSound(doc, origin, kind, false, true, accepts, y);
    }
  }

  lemma ShelteredFurther(doc: Document, accepts: Relation, kind: Kind, x: Value, y: Value, v: Value)
    requires ShelteredIn(doc, accepts, kind, y, x) && IsInside(y, v)
    ensures ShelteredIn(doc, accepts, kind, v, x)
  {
    if !Covered(doc, accepts, kind, x) {
      var w :| IsInside(x, w) && IsInside(w, y) && DirectlyCovered(doc, accepts, kind, w);
      InsideInside(w, y, v);
    }
  }

  /** So silence about a property below a property without a name, and about that one itself. */
  lemma PropertySilenceAnywhere(doc: Document, loc: string, cue: Cue, hypotheses: set<(Kind, string)>, c: Entry,
                                kind: Kind, accepts: Relation, v: Value, e: Entry, id: ObjectId, p: Place)
    requires Silent(doc, loc, cue, hypotheses, c, OwnReport(c.frame), kind)
    requires AnsweredItself(doc, OwnReport(c.frame), kind)
    requires IsAcceptance(doc, accepts) && StandInsAccept(doc, accepts) && accepts(Node(ROOT), v)
    requires e.frame.node == Node(id) && StandsAnyhow(doc, accepts, loc, v, e, p) && Taken(accepts, e, p)
    requires var obj, name := KeywordsOf(doc, id), c.frame.propName;
             && (c in EnterDeclared(doc, e.frame, obj)
                 || c in EnterUndeclared(doc, e.frame, id, RequiredOnly(doc, obj)))
             && HasProperty(p.value, name) && PatternsAreSchemas(doc, obj, name)
    ensures Covered(doc, accepts, kind, p.value.fields[c.frame.propName])
  {
    var q := Place(p.value.fields[c.frame.propName], p.value, []);
    assert ToProperty(doc, e, id, KeywordsOf(doc, id), p, c, q);
    PropertyTaken(doc, accepts, e, id, p, c, q);
    PropertyEntry(doc, e.frame, id, KeywordsOf(doc, id), c);
    assert StepTo(doc, false, e, id, p, c, q);
    StandsOn(doc, accepts, loc, v, false, e, id, p, c, q);
    SilenceAnywhere(doc, loc, cue, hypotheses, c, OwnReport(c.frame), kind, accepts, v, q);
  }

  /** The same with no guard cutting in: asked about a name that does not stand for one of its own properties here, the
      instance says "constrained". For a branch of a property it is that property's schema, for a property below one
      without a name the schema of an object further out. */
  ghost predicate Misled(doc: Document, instance: Schema, name: string, kind: Kind) {
    && !instance.Invalid? && name != "" && (Forbidden(doc, instance, name) || Applies(doc, instance, name))
    && (Forbidden(doc, instance, name) || PropertyFinds(doc, instance, name, kind, false))
  }

  /** Silence about a branch is sound if its instance is not misled by the name, or if the branch or its origin is
      constrained without asking it. */
  lemma BranchSilenceIsSound(doc: Document, loc: string, cue: Cue, hypotheses: set<(Kind, string)>, e: Entry,
                             kind: Kind, accepts: Relation, v: Value, p: Place)
    requires Silent(doc, loc, cue, hypotheses, e, BranchReport(e.frame), kind)
    requires IsAcceptance(doc, accepts) && accepts(Node(ROOT), v)
    requires Stands(doc, accepts, loc, v, true, e, p) && Taken(accepts, e, p)
    requires AnsweredItself(doc, BranchReport(e.frame), kind)
    ensures Sheltered(doc, accepts, kind, p)
  {
    var f := e.frame;
    SilentAnswer(doc, loc, cue, hypotheses, e, BranchReport(f), kind);
    FrameInvariant(doc, accepts, loc, v, e, p);
    ConstraintHolds(accepts, e, p);
    ConstrainedItselfSound(doc, f.node, Constraint(f), kind, accepts, p);
  }

  /** Where every report with a cue has an instance that itself forbids its name, the review raises nothing, whatever
      its guards do. */
  lemma SurelyNoHypothesis(doc: Document, cue: Cue, hypotheses: set<(Kind, string)>, visits: seq<Report>,
                           guarded: set<Question>, kind: Kind, loc: string)
    requires Grounded(doc, cue, hypotheses, visits, guarded)
    requires forall r | r in visits && r.loc == loc && Cued(doc, cue, kind, r) ::
               SurelySilent(doc, r.instance, r.propName)
    ensures (kind, loc) !in hypotheses
  {
    forall r | r in visits ensures !RaisedBy(doc, cue, (kind, loc), r, guarded) {
    }
  }

  /** The condition is exact. What is not constrained by itself is passed over in silence if and only if its instance
      is misled by the name. */
  lemma AnswerExactly(doc: Document, node: Schema, origin: Schema, instance: Schema, name: string, kind: Kind)
    requires !ConstrainedItself(doc, node, origin, kind)
    ensures Constrained(doc, node, origin, instance, name, kind) <==> Misled(doc, instance, name, kind)
  {
    if Finds(doc, origin, kind, false, false) {
      FindsMonotone(doc, origin, kind, false, false, false, true);
    }
  }

  /** So the answers about the branches of a property say something about the branches themselves, whatever these are,
      if and only if the property's schema is not misled by its name, or the branches' common origin is constrained. */
  lemma BranchAnswersExactly(doc: Document, origin: Schema, instance: Schema, name: string, kind: Kind)
    ensures (forall node ::
               Constrained(doc, node, origin, instance, name, kind) ==> ConstrainedItself(doc, node, origin, kind))
       <==> !Misled(doc, instance, name, kind) || ConstrainedItself(doc, Always, origin, kind)
  {
    if !ConstrainedItself(doc, Always, origin, kind) {
      AnswerExactly(doc, Always, origin, instance, name, kind);
      forall node | Constrained(doc, node, origin, instance, name, kind) && !ConstrainedItself(doc, node, origin, kind)
        ensures Misled(doc, instance, name, kind)
      {
        AnswerExactly(doc, node, origin, instance, name, kind);
      }
    }
  }

  /** Below a property without a name the instance is that of the property itself: the schema of the object around it,
      or of one still further out. */
  lemma NamelessKeepsInstance(doc: Document, d: Entry, owner: ObjectId, e: Entry, id: ObjectId, c: Entry)
    requires d.frame.node == Node(owner) && e.frame.node == Node(id) && e.frame.propName == ""
    requires e in EnterDeclared(doc, d.frame, KeywordsOf(doc, owner))
          || e in EnterUndeclared(doc, d.frame, owner, RequiredOnly(doc, KeywordsOf(doc, owner)))
    requires c in EnterDeclared(doc, e.frame, KeywordsOf(doc, id))
          || c in EnterUndeclared(doc, e.frame, id, RequiredOnly(doc, KeywordsOf(doc, id)))
    ensures OwnReport(c.frame)
         == Report(c.frame.loc, c.frame.propName, c.frame.node, c.frame.node, Nested(d.frame))
  {
    PropertyEntry(doc, d.frame, owner, KeywordsOf(doc, owner), e);
    PropertyEntry(doc, e.frame, id, KeywordsOf(doc, id), c);
  }

  /** The answers about the properties of one name below a property without a name say something about these properties
      themselves, whatever their schemas, if and only if the schema of the object around is not misled by the name. */
  lemma NamelessAnswersExactly(doc: Document, around: Schema, name: string, kind: Kind)
    ensures (forall node ::
               Constrained(doc, node, node, around, name, kind) ==> ConstrainedItself(doc, node, node, kind))
       <==> !Misled(doc, around, name, kind)
  {
    AnswerExactly(doc, Always, Always, around, name, kind);
    forall node | Constrained(doc, node, node, around, name, kind) && !ConstrainedItself(doc, node, node, kind)
      ensures Misled(doc, around, name, kind)
    {
      AnswerExactly(doc, node, node, around, name, kind);
    }
  }
}
