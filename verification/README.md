# QA question translation, modelled in Dafny

This project models `QAUtils`, the part of the GERBIL QA benchmark code that turns a question
from a question-answering benchmark into a question document. A document is a question text
and a URI plus a list of markings. The markings are:

- entity annotations, property annotations and answer item types;
- relations (subject, property, object);
- an answer type;
- the set of gold answers.

Translation has three stages:

1. **Text-literal rewrite** (`text_literals.dfy`, module `TextLiterals`). If the query text
   contains `text:"`, every full-text literal `text:"<content>"` after the first
   case-insensitive `where {` becomes a fresh variable `?textN`. For each one, the triple
   ` ?textN <http://okbqa.org/text#query> "<content>" .` is inserted right after `where {`.
   The regular expression `text:"([^"]*)"` is modelled with its leftmost, non-overlapping
   `find()` semantics. The Java matcher starts at offset 0 of the string that begins at
   `where {`, while the copy position starts at 7; the model proves that no match can start
   inside the `where {` token.
2. **Derivation** (`deriver.dfy`, module `Deriver`). The rewritten query is parsed, and each
   triple pattern of the query is visited in order, appending markings:
   - a URI subject gives an entity annotation;
   - an `rdf:type` triple on a projected variable gives an answer item type (the test for
     `rdf:type` is modelled as intended; see Findings);
   - any other predicate gives a property annotation, plus an entity annotation for a URI
     object;
   - every visited triple gives exactly one relation.

   A predicate that is not a URI node makes the source throw. This happens after that triple's
   subject annotation has been appended, so the walk stops there and earlier markings stay.
3. **Translation** (`translator.dfy`, module `Translator`):
   - the SPARQL text is preferred over the pseudo-SPARQL text;
   - derivation is best effort, and any exception is swallowed;
   - the answer-type label is upper-cased, its known misspelling `RESOUCE` is corrected, and
     it is matched against the closed enumeration of answer categories;
   - the answer set is appended last, exactly once.

`markings.dfy` (module `Markings`) holds the terms, triple patterns and markings, and the
`Document` class, whose marking list only grows. `strings.dfy` (module `Strings`) holds the
Java string operations the code relies on, over ASCII. `wrappers.dfy` holds `Option`.

The imperative operations are methods, each proved equal to a
specification function:

| method | specification function |
|---|---|
| `RewriteTextLiterals` | `Rewritten` |
| `DeriveMarkingsFromSparqlQuery` | `DerivedMarkings` |
| `TranslateQuestion` | `TranslationMarkings` |

The lemmas state what those functions promise.

The SPARQL parser is a parameter `parse: string -> Option<ParsedQuery>`; `None` stands for a
parse exception. The parser's element walker is modelled as the sequence of the query's triple
patterns.

## Model

| member | source | states |
|---|---|---|
| Strings.IndexOf | src/main/java/org/aksw/gerbil/qa/QAUtils.java:129 | the result is the first occurrence at or after the start; `None` exactly when there is none |
| Strings.Upper | src/main/java/org/aksw/gerbil/qa/QAUtils.java:64 | upper-casing keeps the length and folds each character on its own |
| Strings.Lower | src/main/java/org/aksw/gerbil/qa/QAUtils.java:129 | lower-casing keeps the length and folds each character on its own |
| Strings.ReplaceAll | src/main/java/org/aksw/gerbil/qa/QAUtils.java:65 | a string in which the pattern does not occur comes back unchanged |
| Strings.Digits | src/main/java/org/aksw/gerbil/qa/QAUtils.java:145 | the decimal form of a counter is non-empty, all digits, and one digit exactly below 10 |
| Strings.DigitsValue | src/main/java/org/aksw/gerbil/qa/QAUtils.java:145 | the digits appended for a counter read back as that counter |
| Strings.DigitsInjective | src/main/java/org/aksw/gerbil/qa/QAUtils.java:145 | different counters have different decimal forms |
| TextLiterals.ClosingQuote | src/main/java/org/aksw/gerbil/qa/QAUtils.java:138 | `[^"]*"` ends at the first quote at or after the start; none if there is no quote |
| TextLiterals.MatchEnd | src/main/java/org/aksw/gerbil/qa/QAUtils.java:138 | a match at `p` exists exactly when a complete literal starts there; its end is just past the first closing quote |
| TextLiterals.FindFrom | src/main/java/org/aksw/gerbil/qa/QAUtils.java:141 | `find()` returns the leftmost match at or after the start; no literal starts before it; `None` only when no literal starts anywhere after the start |
| TextLiterals.RewriteTextLiterals | src/main/java/org/aksw/gerbil/qa/QAUtils.java:126-164 | the rewriting method computes `Rewritten` (left unchanged without `text:"` or without `where {`) |
| TextLiterals.ReplaceLiterals | src/main/java/org/aksw/gerbil/qa/QAUtils.java:134-150 | the `while (matcher.find())` loop yields the rest with every match replaced by `?textN`, and the captured contents in order |
| TextLiterals.ReplaceMatch | src/main/java/org/aksw/gerbil/qa/QAUtils.java:142-147 | one turn of that loop handles exactly the match found: it appends the text between the copy position and the match, then `?textN` with N the number of contents collected so far; it collects that match's content and moves the copy position to the match's end; what is built plus what remains to scan is unchanged |
| TextLiterals.ReplaceLoopEnd | src/main/java/org/aksw/gerbil/qa/QAUtils.java:149 | once `find()` fails, appending the tail completes the rewrite and the contents |
| TextLiterals.FindSkipsWhereToken | src/main/java/org/aksw/gerbil/qa/QAUtils.java:135-141 | a matcher started at 0 finds the same first match as one started past `where {`, so the copy position 7 is never overtaken |
| TextLiterals.FindFromSkips | src/main/java/org/aksw/gerbil/qa/QAUtils.java:141 | the search may skip positions where no literal starts |
| TextLiterals.PiecewiseSpec | src/main/java/org/aksw/gerbil/qa/QAUtils.java:141-149 | the contents and the rewritten rest agree with the cut of the text into verbatim gaps and literals |
| TextLiterals.ScanLossless | src/main/java/org/aksw/gerbil/qa/QAUtils.java:141-149 | the gaps and literals put back together give the original text: nothing is lost or reordered |
| TextLiterals.RewriteCharacterised | src/main/java/org/aksw/gerbil/qa/QAUtils.java:126-164 | the rewrite is the prefix, the inserted triples for the contents in order, and the same tail with each literal replaced by its variable; no complete literal is left in that tail |
| TextLiterals.RewriteGuards | src/main/java/org/aksw/gerbil/qa/QAUtils.java:128-133 | without `text:"`, or without a case-insensitive `where {`, the query is left unchanged |
| TextLiterals.RewriteIdentity | src/main/java/org/aksw/gerbil/qa/QAUtils.java:128-133 | a query without a complete text literal is not changed |
| TextLiterals.NoLiteralLeft | src/main/java/org/aksw/gerbil/qa/QAUtils.java:141-149 | the replaced rest holds no complete `text:"…"` literal |
| TextLiterals.CapturesQuoteFree | src/main/java/org/aksw/gerbil/qa/QAUtils.java:138 | no captured content contains a quote, so each inserted `"<content>"` is one string token |
| TextLiterals.FreshVariablesDistinct | src/main/java/org/aksw/gerbil/qa/QAUtils.java:144-145 | the variables `?textN` for different N are different |
| TextLiterals.FreshVariableShape | src/main/java/org/aksw/gerbil/qa/QAUtils.java:144-145 | a fresh variable is `?text` followed by decimal digits only |
| TextLiterals.VariableSplice | src/main/java/org/aksw/gerbil/qa/QAUtils.java:143-145 | writing a variable between a gap free of `text:"` and a literal-free rest creates no new literal |
| TextLiterals.GapHasNoTextOpen | src/main/java/org/aksw/gerbil/qa/QAUtils.java:141-143 | the text copied before a match holds no `text:"` |
| TextLiterals.TailHasNoLiteral | src/main/java/org/aksw/gerbil/qa/QAUtils.java:149 | the tail copied after the last match holds no complete literal |
| TextLiterals.LiteralShift | src/main/java/org/aksw/gerbil/qa/QAUtils.java:135 | a literal starts at `k` in a suffix exactly when it starts at the shifted position in the whole text |
| Markings.Document.AddMarking | src/main/java/org/aksw/gerbil/qa/QAUtils.java:190 | `addMarking` appends one marking and changes nothing else |
| Deriver.DeriveMarkingsFromSparqlQuery | src/main/java/org/aksw/gerbil/qa/QAUtils.java:125-231 | rewrite, parse, walk: exactly `DerivedMarkings` is appended; the result is true exactly when nothing throws |
| Deriver.VisitTriples | src/main/java/org/aksw/gerbil/qa/QAUtils.java:177-228 | the loop appends the markings of every triple up to and including the first that throws, and stops there |
| Deriver.AddTripleMarkings | src/main/java/org/aksw/gerbil/qa/QAUtils.java:184-226 | one triple appends exactly its specified markings; it throws exactly when its predicate is not a URI node |
| Deriver.Walked | src/main/java/org/aksw/gerbil/qa/QAUtils.java:183-211 | the walk visits the longest prefix of classifiable triples |
| Deriver.WalkThrows | src/main/java/org/aksw/gerbil/qa/QAUtils.java:188-211 | a triple that cannot be classified ends the walk unsuccessfully, its subject annotation kept as the last markings |
| Deriver.WalkStopsAt | src/main/java/org/aksw/gerbil/qa/QAUtils.java:183-211 | the walk stops at the first triple that cannot be classified |
| Deriver.TripleCounts | src/main/java/org/aksw/gerbil/qa/QAUtils.java:188-226 | per triple: one entity for a URI subject; one relation if classifiable; a property and an object entity only off `rdf:type`; an answer item type only for a typed projected variable; never an answer type or set |
| Deriver.TripleCountsAt | src/main/java/org/aksw/gerbil/qa/QAUtils.java:188-226 | the count of one kind appended by one triple |
| Deriver.RelationParts | src/main/java/org/aksw/gerbil/qa/QAUtils.java:221-226 | a relation's subject is the subject URI if any; its property is the predicate URI; its object is the literal value, the answer item type, the object entity, or none |
| Deriver.TripleEntities | src/main/java/org/aksw/gerbil/qa/QAUtils.java:188-215 | an entity annotation comes from a URI subject, or from a URI object off `rdf:type` |
| Deriver.TripleProperties | src/main/java/org/aksw/gerbil/qa/QAUtils.java:209-212 | a property annotation comes exactly from a classifiable non-`rdf:type` predicate |
| Deriver.TripleItemTypes | src/main/java/org/aksw/gerbil/qa/QAUtils.java:195-202 | an answer item type comes exactly from `rdf:type` on a projected variable with a URI object |
| Deriver.TypeObjectWithheld | src/main/java/org/aksw/gerbil/qa/QAUtils.java:203-207 | the URI object of an `rdf:type` triple is referred to by the relation but never appended as an entity annotation |
| Deriver.TripleRelations | src/main/java/org/aksw/gerbil/qa/QAUtils.java:220-226 | a classifiable triple appends exactly its one relation, and a triple that throws appends none |
| Deriver.DerivedRelations | src/main/java/org/aksw/gerbil/qa/QAUtils.java:183-226 | one relation per visited triple, the i-th relation being that of the i-th triple |
| Deriver.RelationsInOrder | src/main/java/org/aksw/gerbil/qa/QAUtils.java:183-226 | the relations of the first n triples are their relations in triple order |
| Deriver.RelationsOfTriplesAt | src/main/java/org/aksw/gerbil/qa/QAUtils.java:221-226 | the reference list of relations has the i-th triple's relation at i |
| Deriver.DerivedMembership | src/main/java/org/aksw/gerbil/qa/QAUtils.java:183-226 | a marking is derived exactly when some triple reached by the walk appends it |
| Deriver.VisitAllMembership | src/main/java/org/aksw/gerbil/qa/QAUtils.java:183-226 | a marking is in the markings of a prefix exactly when one of its triples appends it |
| Deriver.CompletesIffClassifiable | src/main/java/org/aksw/gerbil/qa/QAUtils.java:183-211 | the walk completes exactly when every triple is classifiable |
| Deriver.DerivedItemTypes | src/main/java/org/aksw/gerbil/qa/QAUtils.java:195-202 | answer item types come exactly from visited `rdf:type` triples on projected variables |
| Deriver.DerivedProperties | src/main/java/org/aksw/gerbil/qa/QAUtils.java:209-212 | property annotations come exactly from visited predicates other than `rdf:type` |
| Deriver.DerivedEntities | src/main/java/org/aksw/gerbil/qa/QAUtils.java:188-215 | entity annotations come exactly from URI subjects reached and URI objects of visited non-`rdf:type` triples |
| Deriver.DerivedKinds | src/main/java/org/aksw/gerbil/qa/QAUtils.java:183-226 | the derivation never appends an answer type or an answer set |
| Deriver.TripleKinds | src/main/java/org/aksw/gerbil/qa/QAUtils.java:188-226 | one triple never appends an answer type or an answer set |
| Deriver.ParseFailureLeavesNothing | src/main/java/org/aksw/gerbil/qa/QAUtils.java:166-174 | a query the parser rejects appends nothing and fails |
| Deriver.SucceedsIff | src/main/java/org/aksw/gerbil/qa/QAUtils.java:166-230 | the derivation succeeds exactly when the query parses and every triple is classifiable |
| Translator.TranslateQuestion | src/main/java/org/aksw/gerbil/qa/QAUtils.java:44-76 | a fresh document with the question text and URI, holding exactly `TranslationMarkings` |
| Translator.TranslateQaldEntry | src/main/java/org/aksw/gerbil/qa/QAUtils.java:78-114 | the same for a QALD entry, its answers collected into a set; the document text is the first question's string (see Findings) |
| Translator.AddQueryMarkings | src/main/java/org/aksw/gerbil/qa/QAUtils.java:49-59 | derives from the SPARQL text if present, else from the pseudo text, swallowing failure |
| Translator.AddAnswerType | src/main/java/org/aksw/gerbil/qa/QAUtils.java:62-72 | appends the answer type the label names, if any, and nothing else |
| Translator.CollectAnswers | src/main/java/org/aksw/gerbil/qa/QAUtils.java:108-111 | the loop builds the set of the listed answers, `Elements` of the list |
| Markings.ElementsExactly | src/main/java/org/aksw/gerbil/qa/QAUtils.java:108-111 | a set built from a list holds exactly the listed elements and is never larger than the list |
| Translator.ValueOfName | src/main/java/org/aksw/gerbil/qa/QAUtils.java:66 | `valueOf` of a category's name is that category, and only that name yields it |
| Translator.NameHasNoMisspelling | src/main/java/org/aksw/gerbil/qa/QAUtils.java:65 | no category name contains `RESOUCE`, so the correction leaves names alone |
| Translator.LabelCaseInsensitive | src/main/java/org/aksw/gerbil/qa/QAUtils.java:64-67 | a label that upper-cases to a name yields that category |
| Translator.MisspellingCorrected | src/main/java/org/aksw/gerbil/qa/QAUtils.java:64-67 | a label that upper-cases to `RESOUCE` yields the resource category |
| Translator.LabelIff | src/main/java/org/aksw/gerbil/qa/QAUtils.java:62-72 | without the misspelling, a label yields a category exactly when it upper-cases to its name |
| Translator.TranslationLayout | src/main/java/org/aksw/gerbil/qa/QAUtils.java:44-76 | the derived markings come first, in order, and the answer set comes last |
| Translator.TranslationCounts | src/main/java/org/aksw/gerbil/qa/QAUtils.java:60-75 | exactly one answer set; one answer type when the label names a category, none otherwise |
| Translator.QueryKinds | src/main/java/org/aksw/gerbil/qa/QAUtils.java:49-59 | the query stage appends no answer type and no answer set |
| Translator.AnswerTypeIff | src/main/java/org/aksw/gerbil/qa/QAUtils.java:62-72 | the document holds `AnswerType(t)` exactly when the label names `t` |
| Translator.SparqlShadowsPseudo | src/main/java/org/aksw/gerbil/qa/QAUtils.java:49-54 | with a SPARQL text present, the pseudo text is never read, even when derivation fails |
| Translator.PseudoStandsIn | src/main/java/org/aksw/gerbil/qa/QAUtils.java:54-58 | without a SPARQL text, the pseudo text is used as if it were one |
| Translator.NoQueryNoDerivation | src/main/java/org/aksw/gerbil/qa/QAUtils.java:49-75 | with no query, or one that does not parse, only the answer type and the answer set are appended |
| Translator.QaldTextIsLanguageCode | src/main/java/org/aksw/gerbil/qa/QAUtils.java:79 | as written, an English entry's document text is `en`, not its question string |
| Translator.ResouceLabel | src/main/java/org/aksw/gerbil/qa/QAUtils.java:64-67 | the label `Resouce` yields the resource category |
| Translator.BornInBerlinDerivation | src/main/java/org/aksw/gerbil/qa/QAUtils.java:176-229 | the people-born-in-Berlin query derives its answer item type, relation, property, entity and relation, in that order |
| Translator.BornInBerlinMarkingsCount | src/main/java/org/aksw/gerbil/qa/QAUtils.java:176-229 | those markings are two relations and one each of answer item type, property and entity |
| Translator.BornInBerlinTranslation | src/main/java/org/aksw/gerbil/qa/QAUtils.java:44-76 | that question, labelled `Resouce` and answered by Albert Einstein, translates to those markings, then `AnswerType(RESOURCE)`, then the one-answer set |
| Translator.BornInBerlinCounts | src/main/java/org/aksw/gerbil/qa/QAUtils.java:44-76 | counted by kind: one answer item type, property, entity, answer type and answer set each, and two relations |
| Deriver.AsWrittenAgreesOffType | src/main/java/org/aksw/gerbil/qa/QAUtils.java:195 | with the `rdf:type` test as written, a triple with any other predicate is visited exactly as intended |
| Deriver.AsWrittenTypeAsProperty | src/main/java/org/aksw/gerbil/qa/QAUtils.java:195-215 | with the test as written, an `rdf:type` triple is annotated as a property with its class as an entity and never gives an answer item type; the intended walk does neither |
| Translator.BornInBerlinTypeAsWritten | src/main/java/org/aksw/gerbil/qa/QAUtils.java:195-215 | as written, the example's `rdf:type` triple gives property, entity and relation to an entity; as intended, answer item type and relation to the item type |

## Left out

- **Unicode.** `toUpperCase` and `toLowerCase` are modelled over ASCII letters only. Locale-
  and Unicode-specific case mappings are not modelled.
- **The SPARQL parser.** `QueryFactory.create` is a parameter. Its exception is an opaque
  `None`, and the parser's prefix expansion and syntax are not modelled.
- **The element walker.**
  - `ElementWalker.walk` is modelled as one pass over the query's triple patterns in order.
  - The order of several basic graph patterns, nested groups, `OPTIONAL` and `UNION` is not
    modelled.
  - An exception in one block ends the walk: triples in later blocks are never reached.
  - The model keeps the markings of the triples before the throwing one, plus that triple's
    subject annotation.
- **Literal values.** `getLiteralValue().toString()` is taken as the literal's lexical text.
  Datatype conversion, and its exceptions for ill-typed literals, are not modelled.
- **Logging.**
  - The log output and the rethrow at lines 169-173 are modelled as the parse failure.
  - The debugging `println` for `dbo:architecturalStyle` (lines 130-132) prints only and is
    left out.
- **Accessors.**
  - The getters of the question classes are replaced by record fields.
  - The `en` entry of the language map is taken as the question's `text`.
  - `EJAnswers.toString` is taken as the given answer strings.
  - `DocumentImpl` is reduced to text, URI and markings.
- **AnswerTypes.** The enumeration's source is not part of this model. It is modelled by the
  five names `RESOURCE`, `STRING`, `NUMBER`, `DATE` and `BOOLEAN`.
- Strings.ReplaceAll: only the case with a non-empty pattern is modelled; that is the only case
  the source uses. Its contract states only that a string without the pattern comes back
  unchanged. The replacement itself is fixed by its definition, and
  `Translator.MisspellingCorrected` proves it for the one pattern the source replaces.
- Strings.Upper, Strings.Lower: fold ASCII letters only (see Unicode above).
- **Translator.TranslateQaldEntry:** requires at least one question. The source reads the first
  question unconditionally and would throw otherwise, before appending anything.
- **No text literal left anywhere.** A stronger claim would be that no `text:"` at all remains
  after the rewrite. That is false in general:
  - an unterminated `text:"` stays;
  - a literal before `where {` stays;
  - a captured content ending in `text:` puts a new `text:"` inside the inserted triples.

  The model proves instead that no complete `text:"…"` literal remains after the inserted
  triples (`TextLiterals.RewriteCharacterised`, `TextLiterals.NoLiteralLeft`).
- **Object identity.** For an `rdf:type` triple, the source writes the relation's property from
  one shared `Property` object. The model keeps markings as values, with the same URI string,
  so it does not tell that shared object apart from a new one.

## Findings

| source | as written | input that shows it | evidently intended | confidence | as-written member | corrected member |
|---|---|---|---|---|---|---|
| src/main/java/org/aksw/gerbil/qa/QAUtils.java:79 | the QALD document's text is `getQuestion().get(0).getLanguage()`, the first question's language code | an entry whose first question is (`en`, "Who was born in Berlin?") gets the text `en` | the first question's string, as the generic overload at line 45 uses the question text | likely; not executed | Translator.QaldTextAsWritten, Translator.QaldTextIsLanguageCode | Translator.QaldText, Translator.TranslateQaldEntry |
| src/main/java/org/aksw/gerbil/qa/QAUtils.java:195 | `predicate.equals(RDF.type)` compares the parser's predicate node with the vocabulary resource `RDF.type`, which is not a node; a URI node equals only another node, so the test is false for every triple (the parser library is not part of this model) | `SELECT ?x WHERE { ?x rdf:type dbo:Person }` gives `Property(rdf:type)`, `Annotation(dbo:Person)` and a relation to that annotation, and no `AnswerItemType` | the test is true for the `rdf:type` predicate, as the comment at line 194 and the branch body say, giving `AnswerItemType(dbo:Person)` and a relation to it | likely; not executed | Deriver.VisitTripleAsWritten, Deriver.AsWrittenTypeAsProperty, Translator.BornInBerlinTypeAsWritten | Deriver.VisitTriple, Deriver.TypeObjectWithheld, Deriver.TripleItemTypes |
