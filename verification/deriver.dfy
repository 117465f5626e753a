/**
 * The body of `deriveMarkingsFromSparqlQuery`: the query is rewritten, handed to the parser,
 * and every triple pattern of the parsed query is classified into markings appended to the
 * document. A triple whose predicate is not a URI node stops the walk with an exception after
 * its subject annotation was appended; markings appended before that stay in the document.
 */
module Deriver {
  import opened Wrappers
  import opened Markings
  import opened TextLiterals

  // ---------------------------------------------------------------------------------------
  // One triple pattern
  // ---------------------------------------------------------------------------------------

  /** `predicate.equals(RDF.type)`, read as intended: the predicate is the `rdf:type` URI. */
  predicate IsRdfType(p: Predicate) {
    p == Node(Uri(RdfType))
  }

  /**
   * The triple can be visited without an exception: a property path has no predicate node
   * (the comparison with `rdf:type` fails), and any node other than a URI has no URI to read.
   */
  predicate Classifiable(t: TriplePattern) {
    t.pred.Node? && t.pred.term.Uri?
  }

  /** An `rdf:type` triple whose subject is a projection variable and whose object is a URI. */
  predicate NamesAnswerItemType(t: TriplePattern, proj: set<string>) {
    IsRdfType(t.pred) && t.subject.Variable? && t.subject.name in proj && t.obj.Uri?
  }

  /** The subject reference of the relation: the subject annotation if there is one. */
  function SubjectRef(t: TriplePattern): Option<string> {
    if t.subject.Uri? then Some(t.subject.uri) else None
  }

  /** The markings appended before the predicate is looked at. */
  function SubjectMarkings(t: TriplePattern): seq<Marking> {
    if t.subject.Uri? then [EntityAnnotation(t.subject.uri)] else []
  }

  /** The object reference computed in either branch (an annotation, possibly not appended). */
  function ObjectRef(t: TriplePattern, proj: set<string>): RelationObject {
    if NamesAnswerItemType(t, proj) then ItemTypeRef(t.obj.uri)
    else if t.obj.Uri? then EntityRef(t.obj.uri)
    else NoObject
  }

  /** The relation marking appended last for a classifiable triple. */
  function RelationOf(t: TriplePattern, proj: set<string>): Marking
    requires Classifiable(t)
  {
    Relation(SubjectRef(t), t.pred.term.uri,
             if t.obj.Literal? then LiteralValue(t.obj.value) else ObjectRef(t, proj))
  }

  /** What visiting triples appended, and whether the visit ended without an exception. */
  datatype Visit = Visit(markings: seq<Marking>, completed: bool)

  /** The markings one triple appends, in the order they are appended. */
  function VisitTriple(t: TriplePattern, proj: set<string>): Visit {
    if !Classifiable(t) then Visit(SubjectMarkings(t), false)
    else if IsRdfType(t.pred) then Visit(TypeBranch(t, proj), true)
    else Visit(PropertyBranch(t, proj), true)
  }

  /** A classified `rdf:type` triple: no property annotation, the object only as item type. */
  function TypeBranch(t: TriplePattern, proj: set<string>): seq<Marking>
    requires Classifiable(t)
  {
    SubjectMarkings(t) + ItemTypeMarkings(t, proj) + [RelationOf(t, proj)]
  }

  /** The answer item type appended in the `rdf:type` branch, if any. */
  function ItemTypeMarkings(t: TriplePattern, proj: set<string>): seq<Marking> {
    if NamesAnswerItemType(t, proj) then [AnswerItemType(t.obj.uri)] else []
  }

  /** A classified triple with any other predicate. */
  function PropertyBranch(t: TriplePattern, proj: set<string>): seq<Marking>
    requires Classifiable(t)
  {
    SubjectMarkings(t) + [PropertyAnnotation(t.pred.term.uri)] + ObjectMarkings(t) + [RelationOf(t, proj)]
  }

  /** The object annotation appended in the property branch, if any. */
  function ObjectMarkings(t: TriplePattern): seq<Marking> {
    if t.obj.Uri? then [EntityAnnotation(t.obj.uri)] else []
  }

  // ---------------------------------------------------------------------------------------
  // A sequence of triple patterns
  // ---------------------------------------------------------------------------------------

  /** How many triples, from the first on, are visited before one throws. */
  function Walked(ts: seq<TriplePattern>): (w: nat)
    ensures w <= |ts|
    ensures forall i :: 0 <= i < w ==> Classifiable(ts[i])
    ensures w < |ts| ==> !Classifiable(ts[w])
  {
    if ts == [] || !Classifiable(ts[0]) then 0
    else
      var w := 1 + Walked(ts[1..]);
      assert forall i :: 1 <= i < w ==> ts[i] == ts[1..][i - 1];
      w
  }

  /** The markings of the triples visited one after the other. */
  function VisitAll(ts: seq<TriplePattern>, proj: set<string>): seq<Marking> {
    if ts == [] then []
    else VisitAll(ts[..|ts| - 1], proj) + VisitTriple(ts[|ts| - 1], proj).markings
  }

  /**
   * The walk over the triples: every triple up to the first that throws is visited in full;
   * that one contributes its subject annotation only and ends the walk.
   */
  function Derive(ts: seq<TriplePattern>, proj: set<string>): Visit {
    var w := Walked(ts);
    Visit(VisitAll(ts[..w], proj) + (if w < |ts| then VisitTriple(ts[w], proj).markings else []),
          w == |ts|)
  }

  /** The projection variables, as the set the source builds from the result variables. */
  function Projection(q: ParsedQuery): set<string> {
    Elements(q.resultVars)
  }

  /** The whole derivation: `None` when the rewritten query does not parse. */
  function Derivation(query: string, parse: string -> Option<ParsedQuery>): Option<Visit> {
    match parse(Rewritten(query))
    case None => None
    case Some(q) => Some(Derive(q.triples, Projection(q)))
  }

  /** The markings the derivation leaves in the document, whether or not it throws. */
  function DerivedMarkings(query: string, parse: string -> Option<ParsedQuery>): seq<Marking> {
    match Derivation(query, parse)
    case None => []
    case Some(v) => v.markings
  }

  /** The derivation returns normally. */
  predicate DerivationSucceeds(query: string, parse: string -> Option<ParsedQuery>) {
    Derivation(query, parse).Some? && Derivation(query, parse).value.completed
  }

  // ---------------------------------------------------------------------------------------
  // The derivation as the source performs it
  // ---------------------------------------------------------------------------------------

  /**
   * `deriveMarkingsFromSparqlQuery`: rewrite, parse, walk. The result is `false` where the
   * source throws: the parser rejects the query, or a triple cannot be classified.
   */
  method DeriveMarkingsFromSparqlQuery(document: Document, query: string,
                                       parse: string -> Option<ParsedQuery>)
    returns (ok: bool)
    modifies document
    ensures document.markings == old(document.markings) + DerivedMarkings(query, parse)
    ensures ok == DerivationSucceeds(query, parse)
  {
    var rewritten := RewriteTextLiterals(query);
    var sparqlQuery := parse(rewritten);
    if sparqlQuery.None? {
      return false;
    }
    var projectionVariables := Elements(sparqlQuery.value.resultVars);
    ok := VisitTriples(document, projectionVariables, sparqlQuery.value.triples);
  }

  /** The `visit(ElementPathBlock)` loop over the triples, appending markings as it goes. */
  method VisitTriples(document: Document, projectionVariables: set<string>,
                      triples: seq<TriplePattern>)
    returns (completed: bool)
    modifies document
    ensures document.markings == old(document.markings) + Derive(triples, projectionVariables).markings
    ensures completed == Derive(triples, projectionVariables).completed
  {
    ghost var start := document.markings;
    var i := 0;
    while i < |triples|
      invariant i <= Walked(triples)
      invariant document.markings == start + VisitAll(triples[..i], projectionVariables)
    {
      ghost var before := document.markings;
      var classified := AddTripleMarkings(document, projectionVariables, triples[i]);
      if !classified {
        WalkThrows(triples, i, projectionVariables, start, before);
        return false;
      }
      VisitStep(triples, i, projectionVariables, start, before);
      i := i + 1;
    }
    WalkCompletes(triples, i, projectionVariables);
    return true;
  }

  /** Visiting one more triple extends the markings of the prefix by that triple's markings. */
  lemma VisitStep(ts: seq<TriplePattern>, i: nat, proj: set<string>, start: seq<Marking>, before: seq<Marking>)
    requires i < |ts| && before == start + VisitAll(ts[..i], proj)
    ensures before + VisitTriple(ts[i], proj).markings == start + VisitAll(ts[..i + 1], proj)
  {
    VisitAllSnoc(ts, i, proj);
    Associative(start, VisitAll(ts[..i], proj), VisitTriple(ts[i], proj).markings);
  }

  /** A triple that cannot be classified ends the walk with its markings as the last ones. */
  lemma WalkThrows(ts: seq<TriplePattern>, i: nat, proj: set<string>, start: seq<Marking>, before: seq<Marking>)
    requires i < |ts| && !Classifiable(ts[i]) && i <= Walked(ts)
    requires before == start + VisitAll(ts[..i], proj)
    ensures before + VisitTriple(ts[i], proj).markings == start + Derive(ts, proj).markings
    ensures !Derive(ts, proj).completed
  {
    Associative(start, VisitAll(ts[..i], proj), VisitTriple(ts[i], proj).markings);
  }

  /** A walk over triples that are all classifiable visits every one and completes. */
  lemma WalkCompletes(ts: seq<TriplePattern>, i: nat, proj: set<string>)
    requires i == |ts| && i <= Walked(ts)
    ensures Derive(ts, proj) == Visit(VisitAll(ts[..i], proj), true)
  {
  }

  /**
   * The body of that loop for one triple. The result is `false` where the source throws:
   * a property path fails the comparison with `rdf:type`, any other node fails `getURI()`.
   */
  method AddTripleMarkings(document: Document, projectionVariables: set<string>,
                           triple: TriplePattern)
    returns (classified: bool)
    modifies document
    ensures document.markings == old(document.markings) + VisitTriple(triple, projectionVariables).markings
    ensures classified == Classifiable(triple)
  {
    var subject, pred, obj := triple.subject, triple.pred, triple.obj;
    var sAnnotation: Option<string>;
    if subject.Uri? {
      sAnnotation := Some(subject.uri);
      document.AddMarking(EntityAnnotation(subject.uri));
    } else {
      sAnnotation := None;
    }
    if !(pred.Node? && pred.term.Uri?) {
      return false;
    }
    var oAnnotation: RelationObject;
    var pAnnotation: string;
    if pred == Node(Uri(RdfType)) {
      oAnnotation := NoObject;
      if subject.Variable? && subject.name in projectionVariables && obj.Uri? {
        oAnnotation := ItemTypeRef(obj.uri);
        document.AddMarking(AnswerItemType(obj.uri));
      }
      if oAnnotation == NoObject && obj.Uri? {
        oAnnotation := EntityRef(obj.uri);
      }
      pAnnotation := RdfType;
    } else {
      pAnnotation := pred.term.uri;
      document.AddMarking(PropertyAnnotation(pAnnotation));
      if obj.Uri? {
        oAnnotation := EntityRef(obj.uri);
        document.AddMarking(EntityAnnotation(obj.uri));
      } else {
        oAnnotation := NoObject;
      }
    }
    if obj.Literal? {
      document.AddMarking(Relation(sAnnotation, pAnnotation, LiteralValue(obj.value)));
    } else {
      document.AddMarking(Relation(sAnnotation, pAnnotation, oAnnotation));
    }
    return true;
  }

  lemma VisitAllSnoc(ts: seq<TriplePattern>, i: nat, proj: set<string>)
    requires i < |ts|
    ensures VisitAll(ts[..i + 1], proj) == VisitAll(ts[..i], proj) + VisitTriple(ts[i], proj).markings
  {
    assert ts[..i + 1][..i] == ts[..i];
  }

  /** The walk stops at the first triple that cannot be classified. */
  lemma {:induction false} WalkStopsAt(ts: seq<TriplePattern>, i: nat)
    requires i <= |ts|
    requires forall j :: 0 <= j < i ==> Classifiable(ts[j])
    requires i < |ts| ==> !Classifiable(ts[i])
    ensures Walked(ts) == i
  {
    if i > 0 {
      assert forall j :: 0 <= j < i - 1 ==> ts[1..][j] == ts[j + 1];
      WalkStopsAt(ts[1..], i - 1);
    }
  }

  // ---------------------------------------------------------------------------------------
  // What one triple appends
  // ---------------------------------------------------------------------------------------

  lemma CountSingle(m: Marking, k: Kind)
    ensures Count([m], k) == if KindOf(m) == k then 1 else 0
  {
    assert [m][..0] == [];
  }

  /**
   * How many markings of each kind one triple appends: one entity annotation for a URI
   * subject, and for a classified triple exactly one relation, a property annotation unless
   * the predicate is `rdf:type`, an entity annotation for a URI object unless the predicate is
   * `rdf:type`, an answer item type only for a projected variable typed by a URI. Never an
   * answer type or an answer set.
   */
  lemma TripleCounts(t: TriplePattern, proj: set<string>)
    ensures var ms := VisitTriple(t, proj).markings;
      && Count(ms, RelationKind) == (if Classifiable(t) then 1 else 0)
      && Count(ms, PropertyKind) == (if Classifiable(t) && !IsRdfType(t.pred) then 1 else 0)
      && Count(ms, ItemTypeKind) == (if NamesAnswerItemType(t, proj) then 1 else 0)
      && Count(ms, EntityKind)
         == (if t.subject.Uri? then 1 else 0)
            + (if Classifiable(t) && !IsRdfType(t.pred) && t.obj.Uri? then 1 else 0)
      && Count(ms, AnswerTypeKind) == 0 && Count(ms, AnswerSetKind) == 0
  {
    TripleCountsAt(t, proj, RelationKind);
    TripleCountsAt(t, proj, PropertyKind);
    TripleCountsAt(t, proj, ItemTypeKind);
    TripleCountsAt(t, proj, EntityKind);
    TripleCountsAt(t, proj, AnswerTypeKind);
    TripleCountsAt(t, proj, AnswerSetKind);
  }

  lemma TripleCountsAt(t: TriplePattern, proj: set<string>, k: Kind)
    ensures Count(VisitTriple(t, proj).markings, k)
            == (if t.subject.Uri? && k == EntityKind then 1 else 0)
               + (if !Classifiable(t) then 0
                  else (if k == RelationKind then 1 else 0)
                       + (if IsRdfType(t.pred) then (if NamesAnswerItemType(t, proj) && k == ItemTypeKind then 1 else 0)
                          else (if k == PropertyKind then 1 else 0) + (if t.obj.Uri? && k == EntityKind then 1 else 0)))
  {
    SubjectCount(t, k);
    if Classifiable(t) {
      if IsRdfType(t.pred) {
        TypeBranchCount(t, proj, k);
        ItemTypeCount(t, proj, k);
      } else {
        PropertyBranchCount(t, proj, k);
        ObjectCount(t, k);
      }
    }
  }

  lemma SubjectCount(t: TriplePattern, k: Kind)
    ensures Count(SubjectMarkings(t), k) == if t.subject.Uri? && k == EntityKind then 1 else 0
  {
    CountOptional(SubjectMarkings(t), k);
  }

  lemma ItemTypeCount(t: TriplePattern, proj: set<string>, k: Kind)
    ensures Count(ItemTypeMarkings(t, proj), k) == if NamesAnswerItemType(t, proj) && k == ItemTypeKind then 1 else 0
  {
    CountOptional(ItemTypeMarkings(t, proj), k);
  }

  lemma ObjectCount(t: TriplePattern, k: Kind)
    ensures Count(ObjectMarkings(t), k) == if t.obj.Uri? && k == EntityKind then 1 else 0
  {
    CountOptional(ObjectMarkings(t), k);
  }

  lemma TypeBranchCount(t: TriplePattern, proj: set<string>, k: Kind)
    requires Classifiable(t)
    ensures Count(TypeBranch(t, proj), k)
            == Count(SubjectMarkings(t), k) + Count(ItemTypeMarkings(t, proj), k) + (if k == RelationKind then 1 else 0)
  {
    CountSingle(RelationOf(t, proj), k);
    CountSum3(SubjectMarkings(t), ItemTypeMarkings(t, proj), [RelationOf(t, proj)], k);
  }

  lemma PropertyBranchCount(t: TriplePattern, proj: set<string>, k: Kind)
    requires Classifiable(t)
    ensures Count(PropertyBranch(t, proj), k)
            == Count(SubjectMarkings(t), k) + (if k == PropertyKind then 1 else 0) + Count(ObjectMarkings(t), k)
               + (if k == RelationKind then 1 else 0)
  {
    CountSingle(RelationOf(t, proj), k);
    CountSingle(PropertyAnnotation(t.pred.term.uri), k);
    CountSum4(SubjectMarkings(t), [PropertyAnnotation(t.pred.term.uri)], ObjectMarkings(t),
              [RelationOf(t, proj)], k);
  }

  lemma CountSum3(a: seq<Marking>, b: seq<Marking>, c: seq<Marking>, k: Kind)
    ensures Count(a + b + c, k) == Count(a, k) + Count(b, k) + Count(c, k)
  {
    CountAppend(a, b, k);
    CountAppend(a + b, c, k);
  }

  lemma CountSum4(a: seq<Marking>, b: seq<Marking>, c: seq<Marking>, d: seq<Marking>, k: Kind)
    ensures Count(a + b + c + d, k) == Count(a, k) + Count(b, k) + Count(c, k) + Count(d, k)
  {
    CountSum3(a, b, c, k);
    CountAppend(a + b + c, d, k);
  }

  lemma CountOptional(ms: seq<Marking>, k: Kind)
    requires |ms| <= 1
    ensures Count(ms, k) == if |ms| == 1 && KindOf(ms[0]) == k then 1 else 0
  {
    if |ms| == 1 {
      assert ms == [ms[0]];
      CountSingle(ms[0], k);
    }
  }

  /** The relation appended for a classified triple, part by part. */
  lemma RelationParts(t: TriplePattern, proj: set<string>)
    requires Classifiable(t)
    ensures var r := RelationOf(t, proj);
      && (r.subject.Some? <==> t.subject.Uri?)
      && (t.subject.Uri? ==> r.subject.value == t.subject.uri)
      && (IsRdfType(t.pred) ==> r.property == RdfType)
      && r.property == t.pred.term.uri
      && (t.obj.Literal? ==> r.obj == LiteralValue(t.obj.value))
      && (NamesAnswerItemType(t, proj) ==> r.obj == ItemTypeRef(t.obj.uri))
      && (t.obj.Uri? && !NamesAnswerItemType(t, proj) ==> r.obj == EntityRef(t.obj.uri))
      && (t.obj.Variable? || t.obj.Blank? ==> r.obj == NoObject)
  {
  }

  /** Which entity annotations one triple appends. */
  lemma TripleEntities(t: TriplePattern, proj: set<string>, u: string)
    ensures EntityAnnotation(u) in VisitTriple(t, proj).markings
            <==> t.subject == Uri(u) || (Classifiable(t) && !IsRdfType(t.pred) && t.obj == Uri(u))
  {
  }

  /** Which property annotations one triple appends: never `rdf:type`. */
  lemma TripleProperties(t: TriplePattern, proj: set<string>, u: string)
    ensures PropertyAnnotation(u) in VisitTriple(t, proj).markings
            <==> Classifiable(t) && !IsRdfType(t.pred) && t.pred == Node(Uri(u))
  {
  }

  /** Which answer item types one triple appends. */
  lemma TripleItemTypes(t: TriplePattern, proj: set<string>, u: string)
    ensures AnswerItemType(u) in VisitTriple(t, proj).markings
            <==> NamesAnswerItemType(t, proj) && t.obj == Uri(u)
  {
  }

  /**
   * The `rdf:type` asymmetry: the class named by an `rdf:type` triple is referenced by the
   * relation but never appended as an entity annotation, and appended as an answer item type
   * only when the subject is a projection variable.
   */
  lemma TypeObjectWithheld(t: TriplePattern, proj: set<string>, c: string)
    requires IsRdfType(t.pred) && t.obj == Uri(c) && t.subject != Uri(c)
    ensures EntityAnnotation(c) !in VisitTriple(t, proj).markings
    ensures RelationOf(t, proj).obj == (if NamesAnswerItemType(t, proj) then ItemTypeRef(c) else EntityRef(c))
    ensures AnswerItemType(c) in VisitTriple(t, proj).markings
            <==> t.subject.Variable? && t.subject.name in proj
  {
    TripleEntities(t, proj, c);
    TripleItemTypes(t, proj, c);
  }

  /** The relation markings of one triple: its relation if classified, none otherwise. */
  lemma TripleRelations(t: TriplePattern, proj: set<string>)
    ensures Relations(VisitTriple(t, proj).markings)
            == if Classifiable(t) then [RelationOf(t, proj)] else []
  {
    var ms := VisitTriple(t, proj).markings;
    TripleCounts(t, proj);
    if Classifiable(t) {
      var front := ms[..|ms| - 1];
      assert ms == front + [RelationOf(t, proj)];
      CountAppend(front, [RelationOf(t, proj)], RelationKind);
      CountSingle(RelationOf(t, proj), RelationKind);
      assert |Relations(front)| == 0;
    }
  }

  // ---------------------------------------------------------------------------------------
  // What the walk appends
  // ---------------------------------------------------------------------------------------

  /**
   * Each triple visited in full appends exactly one relation, in the order of the triples;
   * the triple that throws appends none.
   */
  lemma DerivedRelations(ts: seq<TriplePattern>, proj: set<string>)
    ensures var rs := Relations(Derive(ts, proj).markings);
      |rs| == Walked(ts) && forall i :: 0 <= i < Walked(ts) ==> rs[i] == RelationOf(ts[i], proj)
  {
    var w := Walked(ts);
    RelationsInOrder(ts, w, proj);
    RelationsOfTriplesAt(ts[..w], proj);
    var rest := if w < |ts| then VisitTriple(ts[w], proj).markings else [];
    RelationsAppend(VisitAll(ts[..w], proj), rest);
    if w < |ts| {
      TripleRelations(ts[w], proj);
    }
  }

  lemma {:induction false} RelationsInOrder(ts: seq<TriplePattern>, n: nat, proj: set<string>)
    requires n <= |ts|
    requires forall i :: 0 <= i < n ==> Classifiable(ts[i])
    ensures Relations(VisitAll(ts[..n], proj)) == RelationsOfTriples(ts[..n], proj)
  {
    if n > 0 {
      RelationsInOrder(ts, n - 1, proj);
      RelationsStep(ts, n - 1, proj);
      RelationsOfTriplesSnoc(ts, n - 1, proj);
    }
  }

  lemma RelationsOfTriplesSnoc(ts: seq<TriplePattern>, n: nat, proj: set<string>)
    requires n < |ts|
    requires forall i :: 0 <= i <= n ==> Classifiable(ts[i])
    ensures RelationsOfTriples(ts[..n + 1], proj) == RelationsOfTriples(ts[..n], proj) + [RelationOf(ts[n], proj)]
  {
    assert ts[..n + 1][..n] == ts[..n];
  }

  /** The relations of classified triples, in their order. */
  function RelationsOfTriples(ts: seq<TriplePattern>, proj: set<string>): seq<Marking>
    requires forall i :: 0 <= i < |ts| ==> Classifiable(ts[i])
  {
    if ts == [] then []
    else RelationsOfTriples(ts[..|ts| - 1], proj) + [RelationOf(ts[|ts| - 1], proj)]
  }

  lemma {:induction false} RelationsOfTriplesAt(ts: seq<TriplePattern>, proj: set<string>)
    requires forall i :: 0 <= i < |ts| ==> Classifiable(ts[i])
    ensures var rs := RelationsOfTriples(ts, proj);
      |rs| == |ts| && forall i :: 0 <= i < |ts| ==> rs[i] == RelationOf(ts[i], proj)
  {
    if ts != [] {
      var front := ts[..|ts| - 1];
      RelationsOfTriplesAt(front, proj);
      assert forall i :: 0 <= i < |front| ==> front[i] == ts[i];
    }
  }

  lemma RelationsStep(ts: seq<TriplePattern>, n: nat, proj: set<string>)
    requires n < |ts| && Classifiable(ts[n])
    ensures Relations(VisitAll(ts[..n + 1], proj)) == Relations(VisitAll(ts[..n], proj)) + [RelationOf(ts[n], proj)]
  {
    VisitAllSnoc(ts, n, proj);
    RelationsAppend(VisitAll(ts[..n], proj), VisitTriple(ts[n], proj).markings);
    TripleRelations(ts[n], proj);
  }

  /** A marking is appended by the walk exactly when some triple the walk reached appends it. */
  lemma DerivedMembership(ts: seq<TriplePattern>, proj: set<string>, m: Marking)
    ensures m in Derive(ts, proj).markings
            <==> exists i :: 0 <= i < |ts| && i <= Walked(ts) && m in VisitTriple(ts[i], proj).markings
  {
    var w := Walked(ts);
    VisitAllMembership(ts, w, proj, m);
  }

  lemma {:induction false} VisitAllMembership(ts: seq<TriplePattern>, n: nat, proj: set<string>, m: Marking)
    requires n <= |ts|
    ensures m in VisitAll(ts[..n], proj)
            <==> exists i :: 0 <= i < n && m in VisitTriple(ts[i], proj).markings
  {
    if n > 0 {
      var last := VisitTriple(ts[n - 1], proj).markings;
      VisitAllMembership(ts, n - 1, proj, m);
      VisitAllSnoc(ts, n - 1, proj);
      assert m in VisitAll(ts[..n], proj) <==> m in VisitAll(ts[..n - 1], proj) || m in last;
      if m in last {
        assert 0 <= n - 1 < n && m in VisitTriple(ts[n - 1], proj).markings;
      } else {
        assert forall i :: 0 <= i < n && m in VisitTriple(ts[i], proj).markings ==> i < n - 1;
      }
    }
  }

  /** The walk completes exactly when every triple can be classified. */
  lemma CompletesIffClassifiable(ts: seq<TriplePattern>, proj: set<string>)
    ensures Derive(ts, proj).completed <==> forall i :: 0 <= i < |ts| ==> Classifiable(ts[i])
  {
  }

  /** Answer item types come only from `rdf:type` triples on a projection variable. */
  lemma DerivedItemTypes(ts: seq<TriplePattern>, proj: set<string>, u: string)
    ensures AnswerItemType(u) in Derive(ts, proj).markings
            <==> exists i :: 0 <= i < Walked(ts) && NamesAnswerItemType(ts[i], proj) && ts[i].obj == Uri(u)
  {
    DerivedMembership(ts, proj, AnswerItemType(u));
    forall i | 0 <= i < |ts| {
      TripleItemTypes(ts[i], proj, u);
    }
  }

  /** Property annotations come only from non-`rdf:type` predicates; `rdf:type` never is one. */
  lemma DerivedProperties(ts: seq<TriplePattern>, proj: set<string>, u: string)
    ensures PropertyAnnotation(u) in Derive(ts, proj).markings
            <==> exists i :: 0 <= i < Walked(ts) && ts[i].pred == Node(Uri(u)) && u != RdfType
  {
    DerivedMembership(ts, proj, PropertyAnnotation(u));
    forall i | 0 <= i < |ts| {
      TripleProperties(ts[i], proj, u);
    }
  }

  /**
   * Entity annotations come from URI subjects of the triples reached (the one that throws
   * included) and from URI objects of non-`rdf:type` triples visited in full.
   */
  lemma DerivedEntities(ts: seq<TriplePattern>, proj: set<string>, u: string)
    ensures EntityAnnotation(u) in Derive(ts, proj).markings
            <==> exists i :: 0 <= i < |ts| && i <= Walked(ts)
                   && (ts[i].subject == Uri(u)
                       || (i < Walked(ts) && !IsRdfType(ts[i].pred) && ts[i].obj == Uri(u)))
  {
    DerivedMembership(ts, proj, EntityAnnotation(u));
    forall i | 0 <= i < |ts| {
      TripleEntities(ts[i], proj, u);
    }
  }

  /** The derivation never appends an answer type or an answer set. */
  lemma DerivedKinds(ts: seq<TriplePattern>, proj: set<string>)
    ensures forall m :: m in Derive(ts, proj).markings ==> !m.AnswerType? && !m.AnswerSet?
  {
    forall m | m in Derive(ts, proj).markings ensures !m.AnswerType? && !m.AnswerSet? {
      DerivedMembership(ts, proj, m);
      var i :| 0 <= i < |ts| && i <= Walked(ts) && m in VisitTriple(ts[i], proj).markings;
      TripleKinds(ts[i], proj, m);
    }
  }

  lemma TripleKinds(t: TriplePattern, proj: set<string>, m: Marking)
    ensures m in VisitTriple(t, proj).markings ==> !m.AnswerType? && !m.AnswerSet?
  {
  }

  /** A query the parser rejects leaves nothing in the document and makes the derivation fail. */
  lemma ParseFailureLeavesNothing(query: string, parse: string -> Option<ParsedQuery>)
    requires parse(Rewritten(query)).None?
    ensures DerivedMarkings(query, parse) == []
    ensures !DerivationSucceeds(query, parse)
  {
  }

  /** The derivation succeeds exactly when the query parses and every triple is classifiable. */
  lemma SucceedsIff(query: string, parse: string -> Option<ParsedQuery>)
    ensures DerivationSucceeds(query, parse)
            <==> parse(Rewritten(query)).Some?
                 && forall t :: t in parse(Rewritten(query)).value.triples ==> Classifiable(t)
  {
    if parse(Rewritten(query)).Some? {
      var q := parse(Rewritten(query)).value;
      CompletesIffClassifiable(q.triples, Projection(q));
    }
  }

  // ---------------------------------------------------------------------------------------
  // The `rdf:type` test as written
  // ---------------------------------------------------------------------------------------

  /**
   * One triple as line 195 is written. `predicate` is a parser node, while `RDF.type` is a
   * vocabulary resource, not a node, and a node is equal only to another node. So the
   * `rdf:type` branch is never taken and every classifiable triple takes the property branch.
   */
  function VisitTripleAsWritten(t: TriplePattern): Visit {
    if !Classifiable(t) then Visit(SubjectMarkings(t), false)
    else
      var obj := if t.obj.Literal? then LiteralValue(t.obj.value)
                 else if t.obj.Uri? then EntityRef(t.obj.uri)
                 else NoObject;
      Visit(SubjectMarkings(t) + [PropertyAnnotation(t.pred.term.uri)] + ObjectMarkings(t)
            + [Relation(SubjectRef(t), t.pred.term.uri, obj)], true)
  }

  /** Off `rdf:type`, the test as written and as intended visit a triple alike. */
  lemma AsWrittenAgreesOffType(t: TriplePattern, proj: set<string>)
    ensures !IsRdfType(t.pred) ==> VisitTripleAsWritten(t) == VisitTriple(t, proj)
  {
  }

  /**
   * On `rdf:type`, the test as written annotates `rdf:type` as a property and the URI object as
   * an entity, and never yields an answer item type; the intended walk does none of these.
   */
  lemma AsWrittenTypeAsProperty(t: TriplePattern, proj: set<string>)
    ensures IsRdfType(t.pred) ==> PropertyAnnotation(RdfType) in VisitTripleAsWritten(t).markings
    ensures IsRdfType(t.pred) ==> PropertyAnnotation(RdfType) !in VisitTriple(t, proj).markings
    ensures IsRdfType(t.pred) && t.obj.Uri? && t.subject != Uri(t.obj.uri)
            ==> EntityAnnotation(t.obj.uri) in VisitTripleAsWritten(t).markings
                && EntityAnnotation(t.obj.uri) !in VisitTriple(t, proj).markings
    ensures forall c :: AnswerItemType(c) !in VisitTripleAsWritten(t).markings
  {
    if IsRdfType(t.pred) && t.obj.Uri? && t.subject != Uri(t.obj.uri) {
      TypeObjectWithheld(t, proj, t.obj.uri);
    }
  }
}
