/** A second schema with a silent, unconstrained string: below a property whose name is the empty string. The walk
    takes the empty name for no name, keeps the enclosing object for an instance, and asks that object about a
    property of the inner one. */
module SilentNameless {
  import opened Text
  import opened JsonDocument
  import opened SchemaKeywords
  import opened SchemaWalk
  import opened SchemaGraph
  import opened SchemaWalkers
  import opened SchemaReview
  import opened FramePlaces
  import opened Silence
  import opened SilentBranch
  import opened Acceptance
  import opened ConstraintSearch
  import opened PropertySoundness

  /** {"properties": {"": {"properties": {"url": {"format": "uri"}}}}, "additionalProperties": false} */
  const NAMELESS := Document(
    [map["properties" := Object(1), "additionalProperties" := Bool(false)],
     map["" := Object(2)],
     map["properties" := Object(3)],
     map["url" := Object(4)],
     map["format" := String("uri")]],
    (pattern, name) => false)

  const OUTER: Entry := PropertyEntryOf(NAMELESS, RootEntry(LOC), KeywordsOf(NAMELESS, ROOT), "")

  const INNER: Entry := PropertyEntryOf(NAMELESS, OUTER, KeywordsOf(NAMELESS, At(2)), "url")

  const HOLDER: Value := VObject(map["url" := TEXT])
  const WHOLE: Value := VObject(map["" := HOLDER])

  function NamelessAccepts(): Relation {
    (s, v) => (s == Node(At(0)) && v == WHOLE) || (s == Node(At(2)) && v == HOLDER) || (s == Node(At(4)) && v == TEXT)
  }

  lemma FrameNodes()
    ensures OUTER.frame.node == Node(At(2)) && OUTER.frame.instance == Node(ROOT) && OUTER.frame.propName == ""
    ensures INNER.frame.node == Node(At(4)) && INNER.frame.instance == Node(ROOT) && INNER.frame.propName == "url"
              && INNER.visit
    ensures Constraint(INNER.frame) == Node(At(4))
  {
    assert PropertySchemas(NAMELESS, KeywordsOf(NAMELESS, ROOT)) == NAMELESS.heap[1];
    assert PropertySchemas(NAMELESS, KeywordsOf(NAMELESS, At(2))) == NAMELESS.heap[3];
  }

  lemma InnerIsReported()
    ensures INNER in Entered(FullWalk(NAMELESS, LOC))
  {
    FrameNodes();
    assert PropertySchemas(NAMELESS, KeywordsOf(NAMELESS, ROOT)) == NAMELESS.heap[1];
    assert PropertySchemas(NAMELESS, KeywordsOf(NAMELESS, At(2))) == NAMELESS.heap[3];
    DeclaredIsEntered(NAMELESS, RootEntry(LOC), ROOT, "");
    DeclaredIsEntered(NAMELESS, OUTER, At(2), "url");
    GraphDescribes(NAMELESS);
    ChildrenOf(NAMELESS, GraphOf(NAMELESS), RootEntry(LOC));
    ChildrenOf(NAMELESS, GraphOf(NAMELESS), OUTER);
    InnerIsWalked(GraphOf(NAMELESS), RootEntry(LOC), OUTER, INNER);
    EnteredMember(FullWalk(NAMELESS, LOC), INNER);
  }

  lemma InnerIsWalked(g: Graph, root: Entry, outer: Entry, inner: Entry)
    requires Sound(g) && root.frame.node == Node(ROOT) && outer in g.children(root) && inner in g.children(outer)
    requires outer.frame.node == Node(At(2)) && inner.frame.node == Node(At(4))
    ensures Attempt(inner, true) in Walk(g, root, {}, {})
  {
    WalkStartsAt(g, inner, At(4), {ROOT} + {At(2)}, {});
    WalkGoesOn(g, outer, At(2), inner, {ROOT}, {}, Attempt(inner, true));
    assert {} + {ROOT} == {ROOT};
    WalkGoesOn(g, root, ROOT, outer, {}, {}, Attempt(inner, true));
  }

  lemma NamelessAdmits(i: nat, v: Value)
    requires NamelessAccepts()(Node(At(i)), v)
    ensures Admits(NAMELESS, NamelessAccepts(), Node(At(i)), v)
  {
    var obj := KeywordsOf(NAMELESS, At(i));
    assert obj == NAMELESS.heap[i];
    if v.VObject? {
      NamelessFields(i, v);
    }
    NodeAdmits(NAMELESS, NamelessAccepts(), At(i), obj, v);
  }

  lemma NamelessFields(i: nat, v: Value)
    requires (i == 0 && v == WHOLE) || (i == 2 && v == HOLDER)
    ensures AdmitsObject(NAMELESS, NamelessAccepts(), KeywordsOf(NAMELESS, At(i)), v)
  {
    var obj := KeywordsOf(NAMELESS, At(i));
    assert obj == NAMELESS.heap[i];
    forall name | name in v.fields ensures AdmitsField(NAMELESS, NamelessAccepts(), obj, name, v.fields[name]) {
      assert name == if i == 0 then "" else "url";
      assert forall v | Holds(NAMELESS, obj, "properties", name, v) :: v == NAMELESS.heap[i + 1][name];
      assert Holds(NAMELESS, obj, "properties", name, NAMELESS.heap[i + 1][name]);
    }
  }

  lemma NamelessIsAcceptance()
    ensures IsAcceptance(NAMELESS, NamelessAccepts())
  {
    forall s, v | NamelessAccepts()(s, v) ensures Admits(NAMELESS, NamelessAccepts(), s, v) {
      NamelessAdmits(s.id.index, v);
    }
  }

  lemma NotCovered()
    ensures !Covered(NAMELESS, NamelessAccepts(), Url, TEXT)
  {
    var obj := KeywordsOf(NAMELESS, At(4));
    assert obj == NAMELESS.heap[4];
    assert !HasEnumOrConst(obj);
    assert forall k | k in URL_KEYWORDS :: k !in obj;
  }

  lemma RootForbidsUrl()
    ensures Forbidden(NAMELESS, Node(ROOT), "url")
  {
    var obj := KeywordsOf(NAMELESS, ROOT);
    assert PropertySchemas(NAMELESS, obj) == NAMELESS.heap[1] && PatternSchemas(NAMELESS, obj) == map[];
  }

  /** The place of the text: the property url of the property without a name. */
  const DEEP := Place(TEXT, HOLDER, [])

  lemma InnerStandsForText()
    ensures StandsAnyhow(NAMELESS, NamelessAccepts(), LOC, WHOLE, INNER, DEEP)
  {
    var accepts, root := NamelessAccepts(), RootEntry(LOC);
    var whole, holder := Place(WHOLE, WHOLE, []), Place(HOLDER, WHOLE, []);
    FrameNodes();
    assert Stands(NAMELESS, accepts, LOC, WHOLE, false, root, whole) && Taken(accepts, root, whole);
    StepToDeclared(root, ROOT, "", whole, OUTER, holder);
    StandsOn(NAMELESS, accepts, LOC, WHOLE, false, root, ROOT, whole, OUTER, holder);
    StepToDeclared(OUTER, At(2), "url", holder, INNER, DEEP);
    StandsOn(NAMELESS, accepts, LOC, WHOLE, false, OUTER, At(2), holder, INNER, DEEP);
  }

  lemma StepToDeclared(e: Entry, id: ObjectId, name: string, p: Place, c: Entry, q: Place)
    requires e.frame.node == Node(id) && c == PropertyEntryOf(NAMELESS, e, KeywordsOf(NAMELESS, id), name)
    requires PropertyDeclared(NAMELESS, KeywordsOf(NAMELESS, id), name) && c.frame.node.Node?
    requires HasProperty(p.value, name) && q == Place(p.value.fields[name], p.value, [])
    ensures StepTo(NAMELESS, false, e, id, p, c, q)
  {
    DeclaredEntry(NAMELESS, e, KeywordsOf(NAMELESS, id), name);
    assert ToProperty(NAMELESS, e, id, KeywordsOf(NAMELESS, id), p, c, q);
  }

  /** The frame of url is reported under its own name with a cue and taken to be constrained; yet the schema accepts a
      document with a text there that is covered by nothing. */
  lemma SilenceBelowNamelessProperty()
    ensures var r := OwnReport(INNER.frame);
            && INNER in Entered(FullWalk(NAMELESS, LOC)) && r in ReportsOf(INNER) && Cued(NAMELESS, FormatCue(), Url, r)
            && Constrained(NAMELESS, r.node, r.origin, r.instance, r.propName, Url)
            && Settled(NAMELESS, FormatCue(), {}, r, Url)
    ensures var accepts := NamelessAccepts();
            && IsAcceptance(NAMELESS, accepts) && accepts(Node(ROOT), WHOLE)
            && StandsAnyhow(NAMELESS, accepts, LOC, WHOLE, INNER, DEEP) && Taken(accepts, INNER, DEEP)
            && !Covered(NAMELESS, accepts, Url, DEEP.value)
  {
    FrameNodes();
    InnerIsReported();
    RootForbidsUrl();
    NamelessIsAcceptance();
    NotCovered();
    InnerStandsForText();
    var keywords := NodeKeywords(NAMELESS, Node(At(4)));
    assert keywords == NAMELESS.heap[4] && Get(keywords, "format") == String("uri");
    assert AsksInstance(NAMELESS, Node(ROOT), "url");
  }
}
