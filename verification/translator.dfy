/**
 * The translation of a benchmark question into a question document: the markings derived
 * from its formal query (best effort), an answer-type marking when its answer-type label names
 * one of the answer categories, and finally the set of gold answers.
 */
module Translator {
  import opened Wrappers
  import opened Strings
  import opened Markings
  import opened TextLiterals
  import opened Deriver

  /** What the translation reads of a generic question. `text` is its English question string. */
  datatype Question = Question(
    text: string,
    sparqlQuery: Option<string>,
    pseudoSparqlQuery: Option<string>,
    answerType: Option<string>,
    goldenAnswers: set<string>)

  /** One language version of a QALD question: its language code and its question string. */
  datatype QaldQuestion = QaldQuestion(language: string, text: string)

  /** What the translation reads of a QALD question entry; the answers in their string form. */
  datatype QaldEntry = QaldEntry(
    questions: seq<QaldQuestion>,
    sparql: Option<string>,
    pseudo: Option<string>,
    answertype: Option<string>,
    answers: seq<string>)

  // ---------------------------------------------------------------------------------------
  // What the translation appends
  // ---------------------------------------------------------------------------------------

  /** The query handed to the derivation: the SPARQL text if there is one, else the pseudo one. */
  function SelectQuery(sparql: Option<string>, pseudo: Option<string>): Option<string> {
    if sparql.Some? then sparql else pseudo
  }

  /** The name of an answer category, as `valueOf` spells it. */
  function Name(t: AnswerTypes): string {
    match t
    case Resource => "RESOURCE"
    case String => "STRING"
    case Number => "NUMBER"
    case Date => "DATE"
    case Boolean => "BOOLEAN"
  }

  /** `AnswerTypes.valueOf`: the category with exactly this name; `None` where it throws. */
  function ValueOf(s: string): Option<AnswerTypes> {
    if s == "RESOURCE" then Some(Resource)
    else if s == "STRING" then Some(String)
    else if s == "NUMBER" then Some(Number)
    else if s == "DATE" then Some(Date)
    else if s == "BOOLEAN" then Some(Boolean)
    else None
  }

  /** The label upper-cased, with the known misspelling of the resource category corrected. */
  function NormaliseLabel(answerLabel: string): string {
    ReplaceAll(Upper(answerLabel), "RESOUCE", "RESOURCE")
  }

  /** The category an answer-type label names, if any; an absent label names none. */
  function AnswerTypeOf(answerLabel: Option<string>): Option<AnswerTypes> {
    match answerLabel
    case None => None
    case Some(l) => ValueOf(NormaliseLabel(l))
  }

  /** The answer-type marking a label yields: one, or none when the label matches no category. */
  function AnswerTypeMarkings(answerLabel: Option<string>): seq<Marking> {
    match AnswerTypeOf(answerLabel)
    case None => []
    case Some(t) => [AnswerType(t)]
  }

  /** The markings derived from the selected query, exceptions swallowed; none without a query. */
  function QueryMarkings(query: Option<string>, parse: string -> Option<ParsedQuery>): seq<Marking> {
    match query
    case None => []
    case Some(q) => DerivedMarkings(q, parse)
  }

  /** Every marking a translated document carries, in the order they are appended. */
  function TranslationMarkings(sparql: Option<string>, pseudo: Option<string>, answerLabel: Option<string>,
                               answers: set<string>, parse: string -> Option<ParsedQuery>): seq<Marking>
  {
    QueryMarkings(SelectQuery(sparql, pseudo), parse) + AnswerTypeMarkings(answerLabel) + [AnswerSet(answers)]
  }

  /** The document text of a QALD entry as the source builds it: the first question's language code. */
  function QaldTextAsWritten(entry: QaldEntry): string
    requires |entry.questions| > 0
  {
    entry.questions[0].language
  }

  /** The document text of a QALD entry: the first question's question string. */
  function QaldText(entry: QaldEntry): string
    requires |entry.questions| > 0
  {
    entry.questions[0].text
  }

  // ---------------------------------------------------------------------------------------
  // The translation as the source performs it
  // ---------------------------------------------------------------------------------------

  /** `translateQuestion(IQuestion, String)`. */
  method TranslateQuestion(question: Question, questionUri: string, parse: string -> Option<ParsedQuery>)
    returns (document: Document)
    ensures fresh(document)
    ensures document.text == question.text && document.uri == questionUri
    ensures document.markings
            == TranslationMarkings(question.sparqlQuery, question.pseudoSparqlQuery, question.answerType,
                                   question.goldenAnswers, parse)
  {
    document := new Document(question.text, questionUri);
    AddQueryMarkings(document, question.sparqlQuery, question.pseudoSparqlQuery, parse);
    assert document.markings == QueryMarkings(SelectQuery(question.sparqlQuery, question.pseudoSparqlQuery), parse);
    AddAnswerType(document, question.answerType);
    document.AddMarking(AnswerSet(question.goldenAnswers));
  }

  /**
   * `translateQuestion(QaldQuestionEntry, String)`, with the document text taken from the first
   * question's string (see `QaldText`). The source reads the first question unconditionally,
   * so an entry must hold one.
   */
  method TranslateQaldEntry(entry: QaldEntry, questionUri: string, parse: string -> Option<ParsedQuery>)
    returns (document: Document)
    requires |entry.questions| > 0
    ensures fresh(document)
    ensures document.text == QaldText(entry) && document.uri == questionUri
    ensures document.markings
            == TranslationMarkings(entry.sparql, entry.pseudo, entry.answertype,
                                   Elements(entry.answers), parse)
  {
    document := new Document(QaldText(entry), questionUri);
    AddQueryMarkings(document, entry.sparql, entry.pseudo, parse);
    ghost var derived := document.markings;
    AddAnswerType(document, entry.answertype);
    var answers := CollectAnswers(entry.answers);
    document.AddMarking(AnswerSet(answers));
    assert derived == QueryMarkings(SelectQuery(entry.sparql, entry.pseudo), parse);
  }

  /** The derivation from the SPARQL text, or from the pseudo text when there is none. */
  method AddQueryMarkings(document: Document, sparql: Option<string>, pseudo: Option<string>,
                          parse: string -> Option<ParsedQuery>)
    modifies document
    ensures document.markings == old(document.markings) + QueryMarkings(SelectQuery(sparql, pseudo), parse)
  {
    if sparql.Some? {
      var ok := DeriveMarkingsFromSparqlQuery(document, sparql.value, parse);
    } else if pseudo.Some? {
      var ok := DeriveMarkingsFromSparqlQuery(document, pseudo.value, parse);
    }
  }

  /** Upper-case the label, correct the misspelling, append the category it names if any. */
  method AddAnswerType(document: Document, answerLabel: Option<string>)
    modifies document
    ensures document.markings == old(document.markings) + AnswerTypeMarkings(answerLabel)
  {
    if answerLabel.Some? {
      var answerTypeLabel := Upper(answerLabel.value);
      answerTypeLabel := ReplaceAll(answerTypeLabel, "RESOUCE", "RESOURCE");
      var answerType := ValueOf(answerTypeLabel);
      if answerType.Some? {
        document.AddMarking(AnswerType(answerType.value));
      }
    }
  }

  /** The loop that gathers the answers of a QALD entry into a hash set. */
  method CollectAnswers(xs: seq<string>) returns (answers: set<string>)
    ensures answers == Elements(xs)
  {
    answers := {};
    var i := 0;
    while i < |xs|
      invariant 0 <= i <= |xs|
      invariant answers == Elements(xs[..i])
    {
      assert xs[..i + 1][..i] == xs[..i];
      answers := answers + {xs[i]};
      i := i + 1;
    }
    assert xs[..i] == xs;
  }

  // ---------------------------------------------------------------------------------------
  // The answer-type label
  // ---------------------------------------------------------------------------------------

  /** `valueOf` and the names are inverse: each name yields its category, and only its name does. */
  lemma ValueOfName(t: AnswerTypes, s: string)
    ensures ValueOf(Name(t)) == Some(t)
    ensures ValueOf(s) == Some(t) ==> s == Name(t)
  {
  }

  /** No category name contains the misspelling. */
  lemma NameHasNoMisspelling(t: AnswerTypes)
    ensures forall k :: !OccursAt(Name(t), "RESOUCE", k)
  {
    var n := Name(t);
    forall k: nat ensures !OccursAt(n, "RESOUCE", k) {
      if k + 7 <= |n| {
        assert k + 7 == 7 || k + 7 == 8;
        if t == Resource && k == 0 {
          assert n[5] == 'R';
          assert n[..7][5] == 'R';
        } else {
          assert n[k] != 'R';
          assert n[k..k + 7][0] != 'R';
        }
      }
    }
  }

  /** The label is read without regard to case: any spelling of a name yields its category. */
  lemma LabelCaseInsensitive(l: string, t: AnswerTypes)
    requires Upper(l) == Name(t)
    ensures AnswerTypeOf(Some(l)) == Some(t)
  {
    NameHasNoMisspelling(t);
  }

  /** The known misspelling, in any case, yields the resource category. */
  lemma MisspellingCorrected(l: string)
    requires Upper(l) == "RESOUCE"
    ensures AnswerTypeOf(Some(l)) == Some(Resource)
  {
    assert Upper(l)[..7] == "RESOUCE";
    assert Upper(l)[7..] == [];
    assert NormaliseLabel(l) == "RESOURCE" + ReplaceAll([], "RESOUCE", "RESOURCE");
  }

  /** Without the misspelling, a label yields a category exactly when it spells that name. */
  lemma LabelIff(l: string, t: AnswerTypes)
    requires !Contains(Upper(l), "RESOUCE")
    ensures AnswerTypeOf(Some(l)) == Some(t) <==> Upper(l) == Name(t)
  {
    assert NormaliseLabel(l) == Upper(l);
    ValueOfName(t, Upper(l));
  }

  // ---------------------------------------------------------------------------------------
  // The translated document
  // ---------------------------------------------------------------------------------------

  /** The derived markings come first, in order; the answer set comes last. */
  lemma TranslationLayout(sparql: Option<string>, pseudo: Option<string>, answerLabel: Option<string>,
                          answers: set<string>, parse: string -> Option<ParsedQuery>)
    ensures var ms := TranslationMarkings(sparql, pseudo, answerLabel, answers, parse);
      var qs := QueryMarkings(SelectQuery(sparql, pseudo), parse);
      && |qs| < |ms|
      && ms[..|qs|] == qs
      && ms[|ms| - 1] == AnswerSet(answers)
  {
    var qs := QueryMarkings(SelectQuery(sparql, pseudo), parse);
    var ms := TranslationMarkings(sparql, pseudo, answerLabel, answers, parse);
    assert ms == qs + (AnswerTypeMarkings(answerLabel) + [AnswerSet(answers)]);
  }

  /** The derivation never appends an answer type or an answer set. */
  lemma QueryKinds(query: Option<string>, parse: string -> Option<ParsedQuery>, k: Kind)
    requires k == AnswerTypeKind || k == AnswerSetKind
    ensures Count(QueryMarkings(query, parse), k) == 0
  {
    var ms := QueryMarkings(query, parse);
    if query.Some? && parse(Rewritten(query.value)).Some? {
      var q := parse(Rewritten(query.value)).value;
      DerivedKinds(q.triples, Projection(q));
    }
    NoKindNoCount(ms, k);
  }

  lemma {:induction false} NoKindNoCount(ms: seq<Marking>, k: Kind)
    requires forall m :: m in ms ==> KindOf(m) != k
    ensures Count(ms, k) == 0
  {
    if ms != [] {
      assert ms[|ms| - 1] in ms;
      NoKindNoCount(ms[..|ms| - 1], k);
    }
  }

  /** Exactly one answer set, and at most one answer type: one exactly when the label names one. */
  lemma TranslationCounts(sparql: Option<string>, pseudo: Option<string>, answerLabel: Option<string>,
                          answers: set<string>, parse: string -> Option<ParsedQuery>)
    ensures var ms := TranslationMarkings(sparql, pseudo, answerLabel, answers, parse);
      && Count(ms, AnswerSetKind) == 1
      && Count(ms, AnswerTypeKind) == (if AnswerTypeOf(answerLabel).Some? then 1 else 0)
  {
    TranslationCountAt(sparql, pseudo, answerLabel, answers, parse, AnswerSetKind);
    TranslationCountAt(sparql, pseudo, answerLabel, answers, parse, AnswerTypeKind);
    AnswerTypeMarkingsCount(answerLabel, AnswerSetKind);
    AnswerTypeMarkingsCount(answerLabel, AnswerTypeKind);
  }

  lemma TranslationCountAt(sparql: Option<string>, pseudo: Option<string>, answerLabel: Option<string>,
                           answers: set<string>, parse: string -> Option<ParsedQuery>, k: Kind)
    requires k == AnswerTypeKind || k == AnswerSetKind
    ensures Count(TranslationMarkings(sparql, pseudo, answerLabel, answers, parse), k)
            == Count(AnswerTypeMarkings(answerLabel), k) + (if k == AnswerSetKind then 1 else 0)
  {
    var qs := QueryMarkings(SelectQuery(sparql, pseudo), parse);
    var ts := AnswerTypeMarkings(answerLabel);
    QueryKinds(SelectQuery(sparql, pseudo), parse, k);
    CountSum3(qs, ts, [AnswerSet(answers)], k);
    CountSingle(AnswerSet(answers), k);
  }

  /** The label yields one answer-type marking when it names a category, none otherwise. */
  lemma AnswerTypeMarkingsCount(answerLabel: Option<string>, k: Kind)
    ensures Count(AnswerTypeMarkings(answerLabel), k)
            == (if AnswerTypeOf(answerLabel).Some? && k == AnswerTypeKind then 1 else 0)
  {
    if AnswerTypeOf(answerLabel).Some? {
      CountSingle(AnswerType(AnswerTypeOf(answerLabel).value), k);
    }
  }

  /** The document holds an answer-type marking for a category exactly when the label names it. */
  lemma AnswerTypeIff(sparql: Option<string>, pseudo: Option<string>, answerLabel: Option<string>,
                      answers: set<string>, parse: string -> Option<ParsedQuery>, t: AnswerTypes)
    ensures AnswerType(t) in TranslationMarkings(sparql, pseudo, answerLabel, answers, parse)
            <==> AnswerTypeOf(answerLabel) == Some(t)
  {
    var query := SelectQuery(sparql, pseudo);
    if query.Some? && parse(Rewritten(query.value)).Some? {
      var q := parse(Rewritten(query.value)).value;
      DerivedKinds(q.triples, Projection(q));
    }
  }

  /**
   * A SPARQL text shadows the pseudo text: when the SPARQL text is present the pseudo text
   * is never read, even when the SPARQL text yields nothing.
   */
  lemma SparqlShadowsPseudo(s: string, p1: Option<string>, p2: Option<string>, answerLabel: Option<string>,
                            answers: set<string>, parse: string -> Option<ParsedQuery>)
    ensures TranslationMarkings(Some(s), p1, answerLabel, answers, parse)
            == TranslationMarkings(Some(s), p2, answerLabel, answers, parse)
  {
  }

  /** Without a SPARQL text, the pseudo text is derived from as if it were one. */
  lemma PseudoStandsIn(p: string, answerLabel: Option<string>, answers: set<string>,
                       parse: string -> Option<ParsedQuery>)
    ensures TranslationMarkings(None, Some(p), answerLabel, answers, parse)
            == TranslationMarkings(Some(p), None, answerLabel, answers, parse)
  {
  }

  /**
   * A question without a query, or whose selected query does not parse, still gets its
   * answer-type marking and its answer set, and nothing else.
   */
  lemma NoQueryNoDerivation(sparql: Option<string>, pseudo: Option<string>, answerLabel: Option<string>,
                            answers: set<string>, parse: string -> Option<ParsedQuery>)
    requires SelectQuery(sparql, pseudo).None? || parse(Rewritten(SelectQuery(sparql, pseudo).value)).None?
    ensures TranslationMarkings(sparql, pseudo, answerLabel, answers, parse)
            == AnswerTypeMarkings(answerLabel) + [AnswerSet(answers)]
  {
  }

  /**
   * As written, the QALD translation takes the document text from the language code: an
   * English entry yields the text "en" rather than its question string.
   */
  lemma QaldTextIsLanguageCode()
    ensures var entry := QaldEntry([QaldQuestion("en", "Who was born in Berlin?")], None, None, None, []);
      QaldTextAsWritten(entry) == "en" && QaldTextAsWritten(entry) != QaldText(entry)
  {
  }

  // ---------------------------------------------------------------------------------------
  // A worked question
  // ---------------------------------------------------------------------------------------

  const PersonClass: string := "http://dbpedia.org/ontology/Person"
  const BirthPlace: string := "http://dbpedia.org/ontology/birthPlace"
  const Berlin: string := "http://dbpedia.org/resource/Berlin"
  const Einstein: string := "http://dbpedia.org/resource/Albert_Einstein"

  /**
   * `SELECT ?x WHERE { ?x rdf:type dbo:Person . ?x dbo:birthPlace dbr:Berlin . }` as the
   * parser hands it over, prefixes expanded.
   */
  function BornInBerlin(): ParsedQuery {
    ParsedQuery(["x"], [TriplePattern(Variable("x"), Node(Uri(RdfType)), Uri(PersonClass)),
                        TriplePattern(Variable("x"), Node(Uri(BirthPlace)), Uri(Berlin))])
  }

  /** The markings derived from the people-born-in-Berlin query. */
  function BornInBerlinMarkings(): seq<Marking> {
    [AnswerItemType(PersonClass), Relation(None, RdfType, ItemTypeRef(PersonClass)),
     PropertyAnnotation(BirthPlace), EntityAnnotation(Berlin), Relation(None, BirthPlace, EntityRef(Berlin))]
  }

  lemma BornInBerlinDerivation(query: string, parse: string -> Option<ParsedQuery>)
    requires parse(Rewritten(query)) == Some(BornInBerlin())
    ensures DerivedMarkings(query, parse) == BornInBerlinMarkings()
  {
    assert Projection(BornInBerlin()) == {"x"};
    BornInBerlinWalk();
  }

  /** Both triples are visited, the `rdf:type` one first. */
  lemma BornInBerlinWalk()
    ensures Derive(BornInBerlin().triples, {"x"}).markings == BornInBerlinMarkings()
  {
    var ts := BornInBerlin().triples;
    BornInBerlinTypeAsWritten();
    BornInBerlinPlace();
    assert Walked(ts) == 2 by {
      assert Walked(ts[1..][1..]) == 0;
    }
    assert ts[..2] == ts;
    assert ts[..1] == [ts[0]];
    assert VisitAll(ts, {"x"}) == VisitTriple(ts[0], {"x"}).markings + VisitTriple(ts[1], {"x"}).markings by {
      assert VisitAll([ts[0]], {"x"}) == VisitTriple(ts[0], {"x"}).markings;
    }
  }

  /** The birth-place triple takes the property branch. */
  lemma BornInBerlinPlace()
    ensures VisitTriple(BornInBerlin().triples[1], {"x"}).markings
            == [PropertyAnnotation(BirthPlace), EntityAnnotation(Berlin), Relation(None, BirthPlace, EntityRef(Berlin))]
  {
    assert |BirthPlace| != |RdfType|;
  }

  /** The derived markings counted by kind. */
  lemma BornInBerlinMarkingsCount(k: Kind)
    ensures Count(BornInBerlinMarkings(), k)
            == match k
               case RelationKind => 2
               case ItemTypeKind => 1
               case PropertyKind => 1
               case EntityKind => 1
               case _ => 0
  {
    var ms := BornInBerlinMarkings();
    assert ms == [ms[0]] + [ms[1]] + [ms[2], ms[3], ms[4]];
    assert [ms[2], ms[3], ms[4]] == [ms[2]] + [ms[3]] + [ms[4]];
    CountSum3([ms[0]], [ms[1]], [ms[2], ms[3], ms[4]], k);
    CountSum3([ms[2]], [ms[3]], [ms[4]], k);
    CountSingle(ms[0], k);
    CountSingle(ms[1], k);
    CountSingle(ms[2], k);
    CountSingle(ms[3], k);
    CountSingle(ms[4], k);
  }

  /** The label "Resouce" names the resource category. */
  lemma ResouceLabel()
    ensures AnswerTypeOf(Some("Resouce")) == Some(Resource)
  {
    assert Upper("Resouce") == "RESOUCE";
    MisspellingCorrected("Resouce");
  }

  /**
   * The question "who was born in Berlin", labelled "Resouce" and answered by Albert Einstein,
   * translates to the derived markings, the resource answer type and, last, the answer set
   * holding exactly the one answer.
   */
  lemma BornInBerlinTranslation(query: string, parse: string -> Option<ParsedQuery>)
    requires parse(Rewritten(query)) == Some(BornInBerlin())
    ensures TranslationMarkings(Some(query), None, Some("Resouce"), {Einstein}, parse)
            == BornInBerlinMarkings() + [AnswerType(Resource), AnswerSet({Einstein})]
  {
    BornInBerlinDerivation(query, parse);
    ResouceLabel();
    assert AnswerTypeMarkings(Some("Resouce")) == [AnswerType(Resource)];
    assert QueryMarkings(SelectQuery(Some(query), None), parse) == BornInBerlinMarkings();
  }

  /**
   * Counted by kind: one answer item type, one property, one entity, two relations, one answer
   * type and one answer set.
   */
  lemma BornInBerlinCounts(query: string, parse: string -> Option<ParsedQuery>)
    requires parse(Rewritten(query)) == Some(BornInBerlin())
    ensures var ms := TranslationMarkings(Some(query), None, Some("Resouce"), {Einstein}, parse);
      && Count(ms, ItemTypeKind) == 1 && Count(ms, PropertyKind) == 1 && Count(ms, EntityKind) == 1
      && Count(ms, RelationKind) == 2 && Count(ms, AnswerTypeKind) == 1 && Count(ms, AnswerSetKind) == 1
  {
    BornInBerlinTranslation(query, parse);
    ResouceLabel();
    TranslationCounts(Some(query), None, Some("Resouce"), {Einstein}, parse);
    BornInBerlinTail(ItemTypeKind);
    BornInBerlinMarkingsCount(ItemTypeKind);
    BornInBerlinTail(PropertyKind);
    BornInBerlinMarkingsCount(PropertyKind);
    BornInBerlinTail(EntityKind);
    BornInBerlinMarkingsCount(EntityKind);
    BornInBerlinTail(RelationKind);
    BornInBerlinMarkingsCount(RelationKind);
  }

  lemma BornInBerlinTail(k: Kind)
    requires k != AnswerTypeKind && k != AnswerSetKind
    ensures Count(BornInBerlinMarkings() + [AnswerType(Resource), AnswerSet({Einstein})], k)
            == Count(BornInBerlinMarkings(), k)
  {
    var tail := [AnswerType(Resource), AnswerSet({Einstein})];
    CountAppend(BornInBerlinMarkings(), tail, k);
    assert tail[..1] == [AnswerType(Resource)];
    CountSingle(AnswerType(Resource), k);
  }

  /**
   * As line 195 is written, the query's `rdf:type` triple gives a property annotation for
   * `rdf:type` and an entity annotation for the class, where the intended walk gives the
   * answer item type.
   */
  lemma BornInBerlinTypeAsWritten()
    ensures VisitTripleAsWritten(BornInBerlin().triples[0]).markings
            == [PropertyAnnotation(RdfType), EntityAnnotation(PersonClass), Relation(None, RdfType, EntityRef(PersonClass))]
    ensures VisitTriple(BornInBerlin().triples[0], {"x"}).markings
            == [AnswerItemType(PersonClass), Relation(None, RdfType, ItemTypeRef(PersonClass))]
  {
  }
}
