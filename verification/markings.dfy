/**
 * The data the derivation reads and writes: query terms and triple patterns as the SPARQL
 * parser hands them over, the markings a question document carries, and the document itself,
 * whose marking list only ever grows.
 */
module Markings {
  import opened Wrappers

  /** The URI of `rdf:type`, the one predicate the deriver treats specially. */
  const RdfType: string := "http://www.w3.org/1999/02/22-rdf-syntax-ns#type"

  /** A term of a triple pattern, classified as the parser's node model classifies it. */
  datatype Term = Uri(uri: string) | Variable(name: string) | Literal(value: string) | Blank(id: string)

  /** The predicate position holds a plain term, or a property path, for which it holds no node. */
  datatype Predicate = Node(term: Term) | Path

  datatype TriplePattern = TriplePattern(subject: Term, pred: Predicate, obj: Term)

  /** What the derivation needs of a parsed query: its result variables and its triple patterns. */
  datatype ParsedQuery = ParsedQuery(resultVars: seq<string>, triples: seq<TriplePattern>)

  /** The closed enumeration of answer categories. */
  datatype AnswerTypes = Resource | String | Number | Date | Boolean

  /** The object a relation refers to. */
  datatype RelationObject =
    | NoObject
    | EntityRef(uri: string)
    | ItemTypeRef(uri: string)
    | LiteralValue(value: string)

  datatype Marking =
    | EntityAnnotation(uri: string)
    | PropertyAnnotation(uri: string)
    | AnswerItemType(uri: string)
    | Relation(subject: Option<string>, property: string, obj: RelationObject)
    | AnswerType(answerType: AnswerTypes)
    | AnswerSet(answers: set<string>)

  /** The kind of a marking, one per marking class. */
  datatype Kind = EntityKind | PropertyKind | ItemTypeKind | RelationKind | AnswerTypeKind | AnswerSetKind

  function KindOf(m: Marking): Kind {
    match m
    case EntityAnnotation(_) => EntityKind
    case PropertyAnnotation(_) => PropertyKind
    case AnswerItemType(_) => ItemTypeKind
    case Relation(_, _, _) => RelationKind
    case AnswerType(_) => AnswerTypeKind
    case AnswerSet(_) => AnswerSetKind
  }

  /** How many markings of kind `k` a marking list holds. */
  function Count(ms: seq<Marking>, k: Kind): (c: nat)
    ensures c <= |ms|
  {
    if ms == [] then 0
    else Count(ms[..|ms| - 1], k) + (if KindOf(ms[|ms| - 1]) == k then 1 else 0)
  }

  /** The relation markings of a list, in order. */
  function Relations(ms: seq<Marking>): (rs: seq<Marking>)
    ensures |rs| == Count(ms, RelationKind)
    ensures forall i :: 0 <= i < |rs| ==> rs[i].Relation?
  {
    if ms == [] then []
    else Relations(ms[..|ms| - 1]) + (if ms[|ms| - 1].Relation? then [ms[|ms| - 1]] else [])
  }

  /** Counting splits over concatenation. */
  lemma {:induction false} CountAppend(a: seq<Marking>, b: seq<Marking>, k: Kind)
    ensures Count(a + b, k) == Count(a, k) + Count(b, k)
    decreases |b|
  {
    if b != [] {
      assert (a + b)[..|a + b| - 1] == a + b[..|b| - 1];
      CountAppend(a, b[..|b| - 1], k);
    } else {
      assert a + b == a;
    }
  }

  /** Filtering the relations splits over concatenation. */
  lemma {:induction false} RelationsAppend(a: seq<Marking>, b: seq<Marking>)
    ensures Relations(a + b) == Relations(a) + Relations(b)
    decreases |b|
  {
    if b != [] {
      assert (a + b)[..|a + b| - 1] == a + b[..|b| - 1];
      RelationsAppend(a, b[..|b| - 1]);
    } else {
      assert a + b == a;
    }
  }

  /** The set of the elements of a list, as a hash set built from it holds them. */
  function Elements<T>(xs: seq<T>): set<T> {
    if xs == [] then {} else Elements(xs[..|xs| - 1]) + {xs[|xs| - 1]}
  }

  /** The set holds exactly the listed elements, duplicates merged, so it is never larger than the list. */
  lemma {:induction false} ElementsExactly<T>(xs: seq<T>)
    ensures forall a :: a in Elements(xs) <==> a in xs
    ensures |Elements(xs)| <= |xs|
  {
    if xs != [] {
      var init := xs[..|xs| - 1];
      ElementsExactly(init);
      assert xs == init + [xs[|xs| - 1]];
    }
  }

  /** A question document: its text, its URI and the markings appended to it so far. */
  class Document {
    const text: string
    const uri: string
    var markings: seq<Marking>

    constructor (text: string, uri: string)
      ensures this.text == text && this.uri == uri
      ensures markings == []
    {
      this.text := text;
      this.uri := uri;
      markings := [];
    }

    /** `addMarking`: appends, never removes, reorders or merges. */
    method AddMarking(m: Marking)
      modifies this
      ensures markings == old(markings) + [m]
    {
      markings := markings + [m];
    }
  }
}
