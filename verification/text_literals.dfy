/**
 * The lexical pre-pass of `deriveMarkingsFromSparqlQuery`: full-text-search literals written
 * `text:"<content>"` after the first case-insensitive `where {` are replaced by fresh variables
 * `?text0`, `?text1`, ..., and for each of them a triple
 * ` ?textN <http://okbqa.org/text#query> "<content>" .` is inserted right after `where {`.
 */
module TextLiterals {
  import opened Wrappers
  import opened Strings

  const WhereToken: string := "where {"
  const TextOpen: string := "text:\""
  const TextVariable: string := "?text"
  const TextQueryPredicate: string := "<http://okbqa.org/text#query>"

  // ---------------------------------------------------------------------------------------
  // The regular expression text:"([^"]*)" and its leftmost, non-overlapping matches
  // ---------------------------------------------------------------------------------------

  /** A complete text literal starts at `p`: the opening `text:"` and a later closing quote. */
  predicate LiteralAt(r: string, p: nat) {
    OccursAt(r, TextOpen, p) && exists q :: p + 6 <= q < |r| && r[q] == '"'
  }

  /** No complete text literal starts anywhere in `g`. */
  ghost predicate NoLiteral(g: string) {
    forall k :: !LiteralAt(g, k)
  }

  /** `text:"` does not occur in `g` at all. */
  ghost predicate NoTextOpen(g: string) {
    forall k :: !OccursAt(g, TextOpen, k)
  }

  /** The part `[^"]*"` of the pattern: the first quote at or after `i`. */
  function ClosingQuote(r: string, i: nat): (q: Option<nat>)
    decreases |r| - i
    ensures q.Some? ==> i <= q.value < |r| && r[q.value] == '"'
    ensures q.Some? ==> forall k :: i <= k < q.value ==> r[k] != '"'
    ensures q.None? ==> forall k :: i <= k < |r| ==> r[k] != '"'
  {
    if i >= |r| then None
    else if r[i] == '"' then Some(i)
    else ClosingQuote(r, i + 1)
  }

  /** If the pattern matches at `p`, the index just past the match. */
  function MatchEnd(r: string, p: nat): (e: Option<nat>)
    ensures e.Some? ==> OccursAt(r, TextOpen, p) && p + 7 <= e.value <= |r| && r[e.value - 1] == '"'
    ensures e.Some? ==> forall k :: p + 6 <= k < e.value - 1 ==> r[k] != '"'
    ensures e.Some? <==> LiteralAt(r, p)
  {
    if !OccursAt(r, TextOpen, p) then None
    else match ClosingQuote(r, p + 6)
      case None => None
      case Some(q) => Some(q + 1)
  }

  datatype Match = Match(start: nat, end: nat)

  /** `matcher.find()` with the search starting at `i`: the leftmost match at or after `i`. */
  function FindFrom(r: string, i: nat): (m: Option<Match>)
    decreases |r| - i
    ensures m.Some? ==> i <= m.value.start && MatchEnd(r, m.value.start) == Some(m.value.end)
    ensures m.Some? ==> forall k :: i <= k < m.value.start ==> !LiteralAt(r, k)
    ensures m.None? ==> forall k :: i <= k ==> !LiteralAt(r, k)
  {
    if i >= |r| then None
    else match MatchEnd(r, i)
      case Some(e) => Some(Match(i, e))
      case None => FindFrom(r, i + 1)
  }

  // ---------------------------------------------------------------------------------------
  // The string cut into the text between matches and the matched literals
  // ---------------------------------------------------------------------------------------

  datatype Piece = Verbatim(text: string) | TextLiteral(content: string)

  /** `r[from..]` cut at the matches that `find()` reports one after the other. */
  function ScanPieces(r: string, from: nat): (ps: seq<Piece>)
    requires from <= |r|
    decreases |r| - from
  {
    match FindFrom(r, from)
    case None => [Verbatim(r[from..])]
    case Some(m) =>
      [Verbatim(r[from..m.start]), TextLiteral(r[m.start + 6..m.end - 1])] + ScanPieces(r, m.end)
  }

  /** The pieces written back as they stood in the query. */
  function Render(ps: seq<Piece>): string {
    if ps == [] then []
    else
      match ps[0]
      case Verbatim(t) => t + Render(ps[1..])
      case TextLiteral(c) => TextOpen + c + "\"" + Render(ps[1..])
  }

  /** The pieces with the literals numbered from `n` on replaced by `?textN`. */
  function Replace(ps: seq<Piece>, n: nat): string {
    if ps == [] then []
    else
      match ps[0]
      case Verbatim(t) => t + Replace(ps[1..], n)
      case TextLiteral(_) => TextVariable + Digits(n) + Replace(ps[1..], n + 1)
  }

  /** The captured contents of the literals, in order. */
  function Contents(ps: seq<Piece>): seq<string> {
    if ps == [] then []
    else
      match ps[0]
      case Verbatim(_) => Contents(ps[1..])
      case TextLiteral(c) => [c] + Contents(ps[1..])
  }

  /** The triple inserted for the `i`-th literal. */
  function InsertedTriple(i: nat, content: string): string {
    " " + TextVariable + Digits(i) + " " + TextQueryPredicate + " \"" + content + "\" ."
  }

  /** The triples inserted for all literals, numbered from 0. */
  function InsertedTriples(cs: seq<string>): string {
    if cs == [] then []
    else InsertedTriples(cs[..|cs| - 1]) + InsertedTriple(|cs| - 1, cs[|cs| - 1])
  }

  /** The query after the text-literal rewrite. */
  function Rewritten(query: string): string {
    if !Contains(query, TextOpen) then query
    else
      match IndexOf(Lower(query), WhereToken, 0)
      case None => query
      case Some(w) =>
        var remaining := query[w..];
        query[..w + 7] + InsertedTriples(Captures(remaining, 7)) + ReplacedFrom(remaining, 7, 0)
  }

  // ---------------------------------------------------------------------------------------
  // The rewrite as the source performs it
  // ---------------------------------------------------------------------------------------

  /**
   * The rewrite block of `deriveMarkingsFromSparqlQuery`: nothing changes unless the query
   * contains `text:"` and a case-insensitive `where {`; then the literals after the token are
   * replaced (first loop) and their triples inserted after the token (second loop).
   */
  method RewriteTextLiterals(query: string) returns (result: string)
    ensures result == Rewritten(query)
  {
    result := query;
    if !Contains(query, TextOpen) {
      return;
    }
    var wherePos := IndexOf(Lower(query), WhereToken, 0);
    if wherePos.None? {
      return;
    }
    var w := wherePos.value;
    FindSkipsWhereToken(query, w);
    var rest, strings := ReplaceLiterals(query[w..]);
    var builder := query[..w + 7];
    for i := 0 to |strings|
      invariant builder == query[..w + 7] + InsertedTriples(strings[..i])
    {
      InsertedTriplesSnoc(strings, i);
      Associative(query[..w + 7], InsertedTriples(strings[..i]), InsertedTriple(i, strings[i]));
      builder := builder + InsertedTriple(i, strings[i]);
    }
    assert strings[..|strings|] == strings;
    result := builder + rest;
    RewrittenAfterWhere(query, w);
  }

  /**
   * The `while (matcher.find())` loop over the query from `where {` on: copies the text between
   * matches, writes `?textN` for the N-th match and collects its content.
   */
  method ReplaceLiterals(remaining: string) returns (rest: string, strings: seq<string>)
    requires |remaining| >= 7 && FindFrom(remaining, 0) == FindFrom(remaining, 7)
    ensures rest == ReplacedFrom(remaining, 7, 0)
    ensures strings == Captures(remaining, 7)
  {
    ghost var replaced := ReplacedFrom(remaining, 7, 0);
    ghost var captured := Captures(remaining, 7);
    var builder: string := [];
    strings := [];
    var endPos: nat := 7;
    var found := FindFrom(remaining, 0);
    while found.Some?
      invariant 7 <= endPos <= |remaining|
      invariant found == FindFrom(remaining, endPos)
      invariant builder + ReplacedFrom(remaining, endPos, |strings|) == replaced
      invariant strings + Captures(remaining, endPos) == captured
      decreases |remaining| - endPos
    {
      builder, strings, endPos := ReplaceMatch(remaining, endPos, found.value, builder, strings, replaced, captured);
      found := FindFrom(remaining, endPos);
    }
    ReplaceLoopEnd(remaining, endPos, builder, strings, replaced, captured);
    rest := builder + remaining[endPos..];
  }

  /**
   * One turn of the matcher loop: copy the text up to the match, write `?textN` for it, collect
   * its content and move past it. What is built plus what is still to scan stays the same.
   */
  method ReplaceMatch(remaining: string, endPos: nat, m: Match, builder: string, strings: seq<string>,
                      ghost replaced: string, ghost captured: seq<string>)
    returns (builder': string, strings': seq<string>, endPos': nat)
    requires endPos <= |remaining| && FindFrom(remaining, endPos) == Some(m)
    requires builder + ReplacedFrom(remaining, endPos, |strings|) == replaced
    requires strings + Captures(remaining, endPos) == captured
    ensures endPos < endPos' <= |remaining|
    ensures endPos' == m.end
    ensures builder' == builder + (remaining[endPos..m.start] + TextVariable + Digits(|strings|))
    ensures strings' == strings + [remaining[m.start + 6..m.end - 1]]
    ensures builder' + ReplacedFrom(remaining, endPos', |strings'|) == replaced
    ensures strings' + Captures(remaining, endPos') == captured
  {
    var startPos := m.start;
    MatchStep(remaining, endPos, m, |strings|);
    var content := remaining[startPos + 6..m.end - 1];
    AppendShift(builder, ReplacedFrom(remaining, endPos, |strings|),
                remaining[endPos..startPos] + TextVariable + Digits(|strings|),
                ReplacedFrom(remaining, m.end, |strings| + 1), replaced);
    AppendShift(strings, Captures(remaining, endPos), [content], Captures(remaining, m.end), captured);
    builder' := builder + (remaining[endPos..startPos] + TextVariable + Digits(|strings|));
    strings' := strings + [content];
    endPos' := m.end;
  }

  /** When the matcher finds nothing more, the tail is copied and the captures are complete. */
  lemma ReplaceLoopEnd(r: string, endPos: nat, builder: string, strings: seq<string>,
                       replaced: string, captured: seq<string>)
    requires endPos <= |r| && FindFrom(r, endPos).None?
    requires builder + ReplacedFrom(r, endPos, |strings|) == replaced
    requires strings + Captures(r, endPos) == captured
    ensures builder + r[endPos..] == replaced
    ensures strings == captured
  {
    NoMoreMatches(r, endPos, |strings|);
    assert strings + [] == strings;
  }

  lemma RewrittenAfterWhere(query: string, w: nat)
    requires Contains(query, TextOpen) && IndexOf(Lower(query), WhereToken, 0) == Some(w)
    ensures w + 7 <= |query|
    ensures var remaining := query[w..];
      Rewritten(query)
      == query[..w + 7] + InsertedTriples(Captures(remaining, 7)) + ReplacedFrom(remaining, 7, 0)
  {
  }

  /** Moving one piece from the part still to scan to the part already built keeps the whole. */
  lemma Associative<T>(a: seq<T>, b: seq<T>, c: seq<T>)
    ensures (a + b) + c == a + (b + c)
  {
  }

  lemma AppendShift<T>(done: seq<T>, todo: seq<T>, step: seq<T>, later: seq<T>, all: seq<T>)
    requires done + todo == all && todo == step + later
    ensures (done + step) + later == all
  {
    assert (done + step) + later == done + (step + later);
  }

  /** The contents the matcher captures from `from` on. */
  function Captures(r: string, from: nat): seq<string>
    requires from <= |r|
    decreases |r| - from
  {
    match FindFrom(r, from)
    case None => []
    case Some(m) => [r[m.start + 6..m.end - 1]] + Captures(r, m.end)
  }

  /** `r[from..]` with the matches, numbered from `n`, replaced by `?textN`. */
  function ReplacedFrom(r: string, from: nat, n: nat): string
    requires from <= |r|
    decreases |r| - from
  {
    match FindFrom(r, from)
    case None => r[from..]
    case Some(m) => r[from..m.start] + TextVariable + Digits(n) + ReplacedFrom(r, m.end, n + 1)
  }

  /** One match found: its content is captured and it is replaced by the variable numbered `n`. */
  lemma MatchStep(r: string, from: nat, m: Match, n: nat)
    requires from <= |r| && FindFrom(r, from) == Some(m)
    ensures from <= m.start && m.start + 7 <= m.end <= |r|
    ensures Captures(r, from) == [r[m.start + 6..m.end - 1]] + Captures(r, m.end)
    ensures ReplacedFrom(r, from, n)
            == (r[from..m.start] + TextVariable + Digits(n)) + ReplacedFrom(r, m.end, n + 1)
  {
    MatchBounds(r, from, m);
    CapturesStep(r, from, m);
  }

  /** A match found from `from` on lies within the text, past `from`, and is at least `text:""` long. */
  lemma MatchBounds(r: string, from: nat, m: Match)
    requires FindFrom(r, from) == Some(m)
    ensures from <= m.start && m.start + 7 <= m.end <= |r|
  {
  }

  lemma CapturesStep(r: string, from: nat, m: Match)
    requires from <= m.start && m.start + 7 <= m.end <= |r| && FindFrom(r, from) == Some(m)
    ensures Captures(r, from) == [r[m.start + 6..m.end - 1]] + Captures(r, m.end)
  {
  }

  /** No match left: nothing more is captured and the rest is copied as it is. */
  lemma NoMoreMatches(r: string, from: nat, n: nat)
    requires from <= |r| && FindFrom(r, from).None?
    ensures Captures(r, from) == []
    ensures ReplacedFrom(r, from, n) == r[from..]
  {
  }

  /** The direct definitions agree with the pieces. */
  lemma {:induction false} PiecewiseSpec(r: string, from: nat, n: nat)
    requires from <= |r|
    ensures Captures(r, from) == Contents(ScanPieces(r, from))
    ensures ReplacedFrom(r, from, n) == Replace(ScanPieces(r, from), n)
    decreases |r| - from
  {
    match FindFrom(r, from)
    case None =>
      assert ScanPieces(r, from) == [Verbatim(r[from..])];
    case Some(m) =>
      ScanStep(r, from, m, n);
      PiecewiseSpec(r, m.end, n + 1);
  }

  lemma ScanStep(r: string, from: nat, m: Match, n: nat)
    requires from <= |r| && FindFrom(r, from) == Some(m)
    ensures from <= m.start && m.start + 7 <= m.end <= |r|
    ensures Replace(ScanPieces(r, from), n)
            == r[from..m.start] + TextVariable + Digits(n) + Replace(ScanPieces(r, m.end), n + 1)
    ensures Contents(ScanPieces(r, from)) == [r[m.start + 6..m.end - 1]] + Contents(ScanPieces(r, m.end))
  {
    ScanUnfold(r, from, m);
    ReplaceStep(r[from..m.start], r[m.start + 6..m.end - 1], ScanPieces(r, m.end), n);
    ContentsStep(r[from..m.start], r[m.start + 6..m.end - 1], ScanPieces(r, m.end));
  }

  lemma ScanUnfold(r: string, from: nat, m: Match)
    requires from <= |r| && FindFrom(r, from) == Some(m)
    ensures from <= m.start && m.start + 7 <= m.end <= |r|
    ensures ScanPieces(r, from)
            == [Verbatim(r[from..m.start]), TextLiteral(r[m.start + 6..m.end - 1])] + ScanPieces(r, m.end)
  {
    MatchBounds(r, from, m);
  }

  lemma InsertedTriplesSnoc(cs: seq<string>, i: nat)
    requires i < |cs|
    ensures InsertedTriples(cs[..i + 1]) == InsertedTriples(cs[..i]) + InsertedTriple(i, cs[i])
  {
    assert cs[..i + 1][..i] == cs[..i];
  }

  lemma ReplaceStep(gap: string, content: string, ps: seq<Piece>, n: nat)
    ensures Replace([Verbatim(gap), TextLiteral(content)] + ps, n)
            == gap + TextVariable + Digits(n) + Replace(ps, n + 1)
  {
    var all := [Verbatim(gap), TextLiteral(content)] + ps;
    var tail := [TextLiteral(content)] + ps;
    assert all[0] == Verbatim(gap) && all[1..] == tail;
    assert tail[0] == TextLiteral(content) && tail[1..] == ps;
    var v := TextVariable + Digits(n);
    assert Replace(tail, n) == v + Replace(ps, n + 1);
    assert Replace(all, n) == gap + Replace(tail, n);
    Associative(gap, v, Replace(ps, n + 1));
    Associative(gap, TextVariable, Digits(n));
  }

  lemma ContentsStep(gap: string, content: string, ps: seq<Piece>)
    ensures Contents([Verbatim(gap), TextLiteral(content)] + ps) == [content] + Contents(ps)
  {
    var all := [Verbatim(gap), TextLiteral(content)] + ps;
    assert all[1..] == [TextLiteral(content)] + ps;
    assert all[1..][1..] == ps;
  }

  lemma RenderStep(gap: string, content: string, ps: seq<Piece>)
    ensures Render([Verbatim(gap), TextLiteral(content)] + ps)
            == gap + TextOpen + content + "\"" + Render(ps)
  {
    var all := [Verbatim(gap), TextLiteral(content)] + ps;
    assert all[1..] == [TextLiteral(content)] + ps;
    assert all[1..][1..] == ps;
  }

  /**
   * The matcher searches the remaining string from its start while the copied text starts
   * after `where {`: no match can begin inside that token, since none of its letters is a `t`.
   */
  lemma FindSkipsWhereToken(query: string, w: nat)
    requires OccursAt(Lower(query), WhereToken, w)
    ensures |query[w..]| >= 7
    ensures FindFrom(query[w..], 0) == FindFrom(query[w..], 7)
  {
    var r := query[w..];
    var token := Lower(query)[w..w + 7];
    assert token == WhereToken;
    WhereTokenHasNoT();
    forall k | 0 <= k < 7 ensures !LiteralAt(r, k) {
      assert token[k] == LowerChar(r[k]);
      LiteralStartsWithT(r, k);
    }
    FindFromSkips(r, 0, 7);
  }

  lemma WhereTokenHasNoT()
    ensures forall k :: 0 <= k < |WhereToken| ==> WhereToken[k] != 't'
  {
    assert WhereToken == ['w', 'h', 'e', 'r', 'e', ' ', '{'];
  }

  /** Every complete text literal begins with the letter `t`. */
  lemma LiteralStartsWithT(r: string, k: nat)
    ensures LiteralAt(r, k) ==> r[k] == 't'
  {
    if LiteralAt(r, k) {
      assert r[k] == r[k..k + 6][0];
    }
  }

  lemma {:induction false} FindFromSkips(r: string, i: nat, j: nat)
    requires i <= j
    requires forall k :: i <= k < j ==> !LiteralAt(r, k)
    ensures j <= |r| ==> FindFrom(r, i) == FindFrom(r, j)
    decreases j - i
  {
    if i < j && j <= |r| {
      FindFromSkips(r, i + 1, j);
    }
  }

  // ---------------------------------------------------------------------------------------
  // What the rewrite guarantees
  // ---------------------------------------------------------------------------------------

  /** A literal is recognised the same way inside a suffix and in the whole string. */
  lemma LiteralShift(a: string, b: string, k: nat)
    ensures LiteralAt(a + b, |a| + k) <==> LiteralAt(b, k)
  {
    var s := a + b;
    if k + 6 <= |b| {
      assert s[|a| + k..|a| + k + 6] == b[k..k + 6];
    }
    if LiteralAt(s, |a| + k) {
      var q :| |a| + k + 6 <= q < |s| && s[q] == '"';
      assert b[q - |a|] == '"';
    }
    if LiteralAt(b, k) {
      var q :| k + 6 <= q < |b| && b[q] == '"';
      assert s[|a| + q] == '"';
    }
  }

  /** A query without `text:"`, or without a case-insensitive `where {`, is left unchanged. */
  lemma RewriteGuards(query: string)
    ensures !Contains(query, TextOpen) ==> Rewritten(query) == query
    ensures !Contains(Lower(query), WhereToken) ==> Rewritten(query) == query
  {
  }

  /** A query without any complete text literal is passed to the parser unchanged. */
  lemma RewriteIdentity(query: string)
    ensures NoLiteral(query) ==> Rewritten(query) == query
  {
    if NoLiteral(query) && Contains(query, TextOpen) {
      match IndexOf(Lower(query), WhereToken, 0)
      case None =>
      case Some(w) =>
        RewrittenAfterWhere(query, w);
        var remaining := query[w..];
        forall k: nat | 7 <= k ensures !LiteralAt(remaining, k) {
          assert query == query[..w] + remaining;
          LiteralShift(query[..w], remaining, k);
        }
        NoMoreMatches(remaining, 7, 0);
        assert query[..w + 7] + remaining[7..] == query;
    }
  }

  /** Cutting into pieces loses nothing: the pieces render back to the scanned text. */
  lemma {:induction false} ScanLossless(r: string, from: nat)
    requires from <= |r|
    ensures Render(ScanPieces(r, from)) == r[from..]
    decreases |r| - from
  {
    match FindFrom(r, from)
    case None =>
      var ps := ScanPieces(r, from);
      assert ps == [Verbatim(r[from..])];
      assert ps[1..] == [];
    case Some(m) =>
      ScanUnfold(r, from, m);
      ScanLossless(r, m.end);
      LosslessStep(r, from, m.start, m.end, ScanPieces(r, from), ScanPieces(r, m.end));
  }

  /** One match of the scan: the gap and the literal render back to the text up to the match's end. */
  lemma LosslessStep(r: string, from: nat, start: nat, end: nat, ps: seq<Piece>, rest: seq<Piece>)
    requires from <= start && start + 7 <= end <= |r|
    requires OccursAt(r, TextOpen, start) && r[end - 1] == '"'
    requires ps == [Verbatim(r[from..start]), TextLiteral(r[start + 6..end - 1])] + rest
    requires Render(rest) == r[end..]
    ensures Render(ps) == r[from..]
  {
    RenderStep(r[from..start], r[start + 6..end - 1], rest);
    SliceSplit(r, from, start, end);
  }

  /** A matched text with the text before it is a slice made of the gap, the literal and the rest. */
  lemma SliceSplit(r: string, from: nat, start: nat, end: nat)
    requires from <= start && start + 7 <= end <= |r|
    requires OccursAt(r, TextOpen, start) && r[end - 1] == '"'
    ensures r[from..] == r[from..start] + TextOpen + r[start + 6..end - 1] + "\"" + r[end..]
  {
    var tail := r[start..];
    assert tail[..6] == TextOpen;
    assert tail[end - 1 - start] == '"';
    assert tail == tail[..6] + tail[6..end - 1 - start] + [tail[end - 1 - start]] + tail[end - start..];
    assert r[from..] == r[from..start] + tail;
  }

  /** A `text:"` lying wholly inside the text before a match would itself have matched. */
  lemma GapOpenIsLiteral(r: string, from: nat, start: nat, k: nat)
    requires from <= start && OccursAt(r, TextOpen, start)
    ensures OccursAt(r[from..start], TextOpen, k) ==> from + k < start && LiteralAt(r, from + k)
  {
    if OccursAt(r[from..start], TextOpen, k) {
      var gap := r[from..start];
      assert forall i :: k <= i < k + 6 ==> gap[i] == r[from + i];
      assert r[from + k..from + k + 6] == r[from..start][k..k + 6];
      assert r[start + 5] == r[start..start + 6][5];
    }
  }

  /** The text that the rewrite copies between two matches holds no `text:"` at all. */
  lemma GapHasNoTextOpen(r: string, from: nat, m: Match)
    requires from <= |r| && FindFrom(r, from) == Some(m)
    ensures from <= m.start
    ensures NoTextOpen(r[from..m.start])
  {
    forall k: nat ensures !OccursAt(r[from..m.start], TextOpen, k) {
      GapOpenIsLiteral(r, from, m.start, k);
    }
  }

  /** The text copied after the last match holds no complete literal. */
  lemma TailHasNoLiteral(r: string, from: nat)
    requires from <= |r| && FindFrom(r, from).None?
    ensures NoLiteral(r[from..])
  {
    forall k: nat ensures !LiteralAt(r[from..], k) {
      assert r == r[..from] + r[from..];
      LiteralShift(r[..from], r[from..], k);
    }
  }

  /** The fresh variable `?textN`: `?text` followed by at least one decimal digit. */
  lemma FreshVariableShape(n: nat)
    ensures var v := TextVariable + Digits(n);
      |v| >= 6 && v[0] == '?' && v[1..5] == "text" && forall i :: 5 <= i < |v| ==> '0' <= v[i] <= '9'
  {
    var v := TextVariable + Digits(n);
    forall i | 5 <= i < |v| ensures '0' <= v[i] <= '9' {
      assert v[i] == Digits(n)[i - 5];
    }
  }

  /**
   * Splicing a fresh variable between a text free of `text:"` and a text free of complete
   * literals creates no complete literal: `text:"` contains no `?` and no digit.
   */
  lemma VariableSplice(g: string, n: nat, y: string)
    requires NoTextOpen(g) && NoLiteral(y)
    ensures NoLiteral(g + (TextVariable + Digits(n)) + y)
  {
    var v := TextVariable + Digits(n);
    var s := g + v + y;
    FreshVariableShape(n);
    forall k: nat ensures !LiteralAt(s, k) {
      if k + 6 <= |s| {
        if k + 6 <= |g| {
          assert s[k..k + 6] == g[k..k + 6] && !OccursAt(g, TextOpen, k);
        } else if k < |g| + |v| {
          NoOpenAcrossVariable(g, v, y, k);
        } else {
          LiteralShift(g + v, y, k - |g| - |v|);
        }
      }
    }
  }

  /** No `text:"` starts at the end of the text before a fresh variable or inside the variable. */
  lemma NoOpenAcrossVariable(g: string, v: string, y: string, k: nat)
    requires |v| >= 6 && v[0] == '?' && v[1..5] == "text"
    requires forall i :: 5 <= i < |v| ==> '0' <= v[i] <= '9'
    requires |g| < k + 6 && k < |g| + |v|
    ensures !OccursAt(g + v + y, TextOpen, k)
  {
    var s := g + v + y;
    if k + 6 <= |s| {
      var window := s[k..k + 6];
      assert TextOpen == ['t', 'e', 'x', 't', ':', '"'];
      if k < |g| {
        assert window[|g| - k] == v[0] == '?';
        assert window[|g| - k] != TextOpen[|g| - k];
      } else {
        var j := k - |g|;
        assert v[2] == 'e' && v[3] == 'x' by { assert v[2] == v[1..5][1] && v[3] == v[1..5][2]; }
        if j == 1 || j == 4 {
          assert window[5 - j] == v[5];
          assert window[5 - j] != TextOpen[5 - j];
        } else {
          assert window[0] == v[j];
          assert window[0] != TextOpen[0];
        }
      }
    }
  }

  /** After the rewrite, no complete text literal is left in the rewritten part of the query. */
  lemma {:induction false} NoLiteralLeft(r: string, from: nat, n: nat)
    requires from <= |r|
    ensures NoLiteral(ReplacedFrom(r, from, n))
    decreases |r| - from
  {
    match FindFrom(r, from)
    case None =>
      TailHasNoLiteral(r, from);
    case Some(m) =>
      MatchStep(r, from, m, n);
      GapHasNoTextOpen(r, from, m);
      NoLiteralLeft(r, m.end, n + 1);
      VariableSplice(r[from..m.start], n, ReplacedFrom(r, m.end, n + 1));
      Associative(r[from..m.start], TextVariable, Digits(n));
  }

  /** The captured contents never hold a quote: the group is `[^"]*`. */
  lemma {:induction false} CapturesQuoteFree(r: string, from: nat)
    requires from <= |r|
    ensures forall i, j :: 0 <= i < |Captures(r, from)| && 0 <= j < |Captures(r, from)[i]|
              ==> Captures(r, from)[i][j] != '"'
    decreases |r| - from
  {
    match FindFrom(r, from)
    case None =>
    case Some(m) =>
      CapturesQuoteFree(r, m.end);
      var c := r[m.start + 6..m.end - 1];
      assert forall j :: 0 <= j < |c| ==> c[j] == r[m.start + 6 + j];
  }

  /** The fresh variables `?text0`, `?text1`, ... are pairwise different. */
  lemma FreshVariablesDistinct(i: nat, j: nat)
    ensures TextVariable + Digits(i) == TextVariable + Digits(j) ==> i == j
  {
    if TextVariable + Digits(i) == TextVariable + Digits(j) {
      assert Digits(i) == (TextVariable + Digits(i))[5..];
      assert Digits(j) == (TextVariable + Digits(j))[5..];
      DigitsInjective(i, j);
    }
  }

  /**
   * The rewrite as a whole: when it applies, the query is kept up to and including `where {`,
   * one triple per literal after it is inserted there, and the rest is the piecewise text
   * with every literal replaced by its variable, free of complete literals.
   */
  lemma RewriteCharacterised(query: string, w: nat)
    requires Contains(query, TextOpen) && IndexOf(Lower(query), WhereToken, 0) == Some(w)
    ensures w + 7 <= |query|
    ensures var ps := ScanPieces(query[w..], 7);
      && Render(ps) == query[w + 7..]
      && Rewritten(query) == query[..w + 7] + InsertedTriples(Contents(ps)) + Replace(ps, 0)
      && NoLiteral(Replace(ps, 0))
  {
    RewrittenAfterWhere(query, w);
    var remaining := query[w..];
    ScanLossless(remaining, 7);
    assert remaining[7..] == query[w + 7..];
    PiecewiseSpec(remaining, 7, 0);
    NoLiteralLeft(remaining, 7, 0);
  }
}
