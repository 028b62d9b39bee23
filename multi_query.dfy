/**
 * The shared multi-query engine: a PromQL query string is split on `;` into
 * labelled sub-queries A, B, ..., Z, AA, AB, ...; a `;` inside a single-quoted,
 * double-quoted or backtick-quoted literal is not a split point.
 *
 * `Split` is the specification of the splitter. The shared `SplitMultiQueries`
 * is proved equal to it here; the editor and server copies are proved equal
 * to it in their own modules.
 */
module MultiQuery {
  import opened Wrappers
  import opened Strings

  /** One labelled sub-query. */
  datatype ParsedQuery = ParsedQuery(queryLabel: string, query: string)

  const MultiQueryLanguages: seq<string> := ["PROMQL"]
  const Delimiter: string := ";"

  /** Only PromQL accepts several `;`-separated queries. */
  function SupportsMultiQuery(language: string): (supported: bool)
    ensures supported <==> language == "PROMQL"
  {
    language in MultiQueryLanguages
  }

  // ---------------------------------------------------------------------------
  // Labels

  /**
   * `String.fromCharCode`: the UTF-16 code unit `code mod 2^16`. Dafny characters
   * are Unicode scalar values, so a lone surrogate code unit is rendered as U+FFFD.
   */
  function FromCharCode(code: nat): char
  {
    var unit := code % 0x1_0000;
    if 0xD800 <= unit < 0xE000 then '\U{FFFD}' else unit as char
  }

  predicate IsUpperLetter(c: char) { 'A' <= c <= 'Z' }

  /** The label of the query at `index`: A..Z, then AA, AB, ..., ZZ. */
  function QueryLabel(index: nat): (l: string)
    ensures |l| == (if index < 26 then 1 else 2)
    ensures index < 26 + 26 * 26 ==> forall i :: 0 <= i < |l| ==> IsUpperLetter(l[i])
  {
    if index < 26 then [FromCharCode(65 + index)]
    else [FromCharCode(65 + (index - 26) / 26), FromCharCode(65 + (index - 26) % 26)]
  }

  /** Reads a one- or two-letter label back as the index it was generated from. */
  function LabelIndex(l: string): int
    requires 1 <= |l| <= 2
  {
    if |l| == 1 then l[0] as int - 65
    else 26 + 26 * (l[0] as int - 65) + (l[1] as int - 65)
  }

  /** `LabelIndex` inverts `QueryLabel` on the 702 labels A..ZZ. */
  lemma LabelIndexOfQueryLabel(index: nat)
    requires index < 26 + 26 * 26
    ensures LabelIndex(QueryLabel(index)) == index
  {
    if index >= 26 {
      var q, r := (index - 26) / 26, (index - 26) % 26;
      assert index - 26 == 26 * q + r;
    }
  }

  /**
   * How many queries get pairwise distinct labels: from here on the first code
   * unit of a two-letter label is a UTF-16 surrogate.
   */
  const DistinctLabelCount: nat := 26 + 26 * (0xD800 - 65)

  /** Distinct indices below `DistinctLabelCount` get distinct labels. */
  lemma QueryLabelInjective(i: nat, j: nat)
    requires i < DistinctLabelCount && j < DistinctLabelCount
    requires i != j
    ensures QueryLabel(i) != QueryLabel(j)
  {
    if i >= 26 && j >= 26 {
      TwoLetterLabel(i);
      TwoLetterLabel(j);
      DivModDiffer(i - 26, j - 26, 26);
    } else if i < 26 && j < 26 {
      assert QueryLabel(i)[0] == (65 + i) as char;
      assert QueryLabel(j)[0] == (65 + j) as char;
    }
  }

  /** Below `DistinctLabelCount` no code unit of a label is a surrogate. */
  lemma TwoLetterLabel(i: nat)
    requires 26 <= i < DistinctLabelCount
    ensures QueryLabel(i) == [(65 + (i - 26) / 26) as char, (65 + (i - 26) % 26) as char]
  {
    assert (i - 26) / 26 < 0xD800 - 65;
  }

  lemma DivModDiffer(a: nat, b: nat, d: nat)
    requires d > 0 && a != b
    ensures a / d != b / d || a % d != b % d
  {
    assert a == d * (a / d) + a % d && b == d * (b / d) + b % d;
  }

  lemma QueryLabelExamples()
    ensures QueryLabel(0) == "A" && QueryLabel(25) == "Z"
    ensures QueryLabel(26) == "AA" && QueryLabel(27) == "AB" && QueryLabel(51) == "AZ"
  {
  }

  // ---------------------------------------------------------------------------
  // The string-literal scanner

  /** The three quote flags of the scanner. */
  datatype QuoteState = QuoteState(inSingle: bool, inDouble: bool, inBacktick: bool)
  {
    predicate Inside() { inSingle || inDouble || inBacktick }
    predicate AtMostOneOpen() {
      (inSingle ==> !inDouble && !inBacktick) && (inDouble ==> !inBacktick)
    }
  }

  const Outside := QuoteState(false, false, false)

  /** An unescaped character: a quote toggles its flag only while the other two are off. */
  function Toggle(st: QuoteState, c: char): QuoteState
  {
    if c == '\'' && !st.inDouble && !st.inBacktick then st.(inSingle := !st.inSingle)
    else if c == '"' && !st.inSingle && !st.inBacktick then st.(inDouble := !st.inDouble)
    else if c == '`' && !st.inSingle && !st.inDouble then st.(inBacktick := !st.inBacktick)
    else st
  }

  /**
   * The flags after scanning `text[..n]`. A character whose predecessor is a
   * backslash is skipped, whatever precedes that backslash.
   */
  function ScanState(text: string, n: nat): QuoteState
    requires n <= |text|
  {
    if n == 0 then Outside
    else
      var st := ScanState(text, n - 1);
      if n - 1 > 0 && text[n - 2] == '\\' then st else Toggle(st, text[n - 1])
  }

  /** An offset clamped to [0, |text|]: the scanner stops at the end and does nothing below 0. */
  function ClampOffset(text: string, position: int): nat
  {
    if position <= 0 then 0 else Min(position, |text|)
  }

  predicate InsideString(text: string, position: int) {
    ScanState(text, ClampOffset(text, position)).Inside()
  }

  /** At every step of the scan at most one kind of quote is open. */
  lemma {:induction false} AtMostOneQuoteOpen(text: string, n: nat)
    requires n <= |text|
    ensures ScanState(text, n).AtMostOneOpen()
  {
    if n > 0 {
      AtMostOneQuoteOpen(text, n - 1);
    }
  }

  /** A character right after a backslash never changes any flag. */
  lemma EscapedCharacterKeepsState(text: string, i: nat)
    requires 0 < i < |text| && text[i - 1] == '\\'
    ensures ScanState(text, i + 1) == ScanState(text, i)
  {
  }

  /** `isInsideString("a;'b;c';d", 5)` holds and `isInsideString("a;'b;c';d", 1)` does not. */
  lemma InsideStringExamples()
    ensures InsideString("a;'b;c';d", 5)
    ensures !InsideString("a;'b;c';d", 1)
  {
    var t := "a;'b;c';d";
    assert ScanState(t, 3) == QuoteState(true, false, false);
    assert ScanState(t, 5) == QuoteState(true, false, false);
  }

  /** `isInsideString`: scans `text[0..position)` toggling the three flags. */
  method IsInsideString(text: string, position: int) returns (inside: bool)
    ensures inside == InsideString(text, position)
  {
    var inSingleQuote, inDoubleQuote, inBacktick := false, false, false;
    var i := 0;
    while i < position
      invariant 0 <= i
      invariant i <= Max(position, 0)
      invariant QuoteState(inSingleQuote, inDoubleQuote, inBacktick) == ScanState(text, Min(i, |text|))
    {
      // Past the end of the text the character is undefined and matches no quote.
      if i < |text| {
        var c := text[i];
        if i > 0 && text[i - 1] == '\\' {
          // escaped character: `continue`
        } else if c == '\'' && !inDoubleQuote && !inBacktick {
          inSingleQuote := !inSingleQuote;
        } else if c == '"' && !inSingleQuote && !inBacktick {
          inDoubleQuote := !inDoubleQuote;
        } else if c == '`' && !inSingleQuote && !inDoubleQuote {
          inBacktick := !inBacktick;
        }
      }
      i := i + 1;
    }
    inside := inSingleQuote || inDoubleQuote || inBacktick;
  }

  // ---------------------------------------------------------------------------
  // Delimiters

  predicate IsDelimiterAt(text: string, i: nat, delimiter: string) {
    i < |text| && [text[i]] == delimiter && !InsideString(text, i)
  }

  /** The unquoted delimiter positions below `n`, in increasing order. */
  function DelimitersBelow(text: string, delimiter: string, n: nat): (ps: seq<nat>)
    requires n <= |text|
    ensures |ps| <= n
  {
    if n == 0 then []
    else DelimitersBelow(text, delimiter, n - 1) + (if IsDelimiterAt(text, n - 1, delimiter) then [n - 1] else [])
  }

  /** The positions found lie below `n` and strictly increase. */
  lemma {:induction false} DelimitersBelowSorted(text: string, delimiter: string, n: nat)
    requires n <= |text|
    ensures forall k :: 0 <= k < |DelimitersBelow(text, delimiter, n)| ==> DelimitersBelow(text, delimiter, n)[k] < n
    ensures ValidCuts(text, DelimitersBelow(text, delimiter, n))
  {
    if n > 0 {
      DelimitersBelowSorted(text, delimiter, n - 1);
    }
  }

  /** The positions found are exactly the unquoted delimiters below `n`. */
  lemma {:induction false} DelimitersBelowExact(text: string, delimiter: string, n: nat)
    requires n <= |text|
    ensures forall k :: 0 <= k < |DelimitersBelow(text, delimiter, n)| ==> IsDelimiterAt(text, DelimitersBelow(text, delimiter, n)[k], delimiter)
    ensures forall i :: 0 <= i < n && IsDelimiterAt(text, i, delimiter) ==> i in DelimitersBelow(text, delimiter, n)
  {
    if n > 0 {
      DelimitersBelowExact(text, delimiter, n - 1);
    }
  }

  function DelimiterPositions(text: string, delimiter: string): seq<nat>
  {
    DelimitersBelow(text, delimiter, |text|)
  }

  /** `findDelimiterPositions`: every unquoted occurrence of `delimiter`, left to right. */
  method FindDelimiterPositions(text: string, delimiter: string) returns (positions: seq<nat>)
    ensures positions == DelimiterPositions(text, delimiter)
    ensures forall j, k :: 0 <= j < k < |positions| ==> positions[j] < positions[k]
  {
    positions := [];
    var i := 0;
    while i < |text|
      invariant 0 <= i <= |text|
      invariant positions == DelimitersBelow(text, delimiter, i)
    {
      if [text[i]] == delimiter {
        var inside := IsInsideString(text, i);
        if !inside {
          positions := positions + [i];
        }
      }
      i := i + 1;
    }
    DelimitersBelowSorted(text, delimiter, |text|);
  }

  // ---------------------------------------------------------------------------
  // The splitter specification

  /** Increasing cut positions inside the text (a delimiter, or the end of the text). */
  ghost predicate ValidCuts(text: string, cuts: seq<nat>) {
    && (forall k :: 0 <= k < |cuts| ==> cuts[k] <= |text|)
    && (forall j, k :: 0 <= j < k < |cuts| ==> cuts[j] < cuts[k])
  }

  /** Where the piece ending at cut `k` starts: just after the previous cut. */
  function PieceStart(cuts: seq<nat>, k: nat): nat
    requires k <= |cuts|
  {
    if k == 0 then 0 else cuts[k - 1] + 1
  }

  /** Where the piece after the last cut starts. */
  function StartAfter(cuts: seq<nat>): nat {
    PieceStart(cuts, |cuts|)
  }

  /** The raw text between consecutive cuts, delimiters excluded. */
  function Pieces(text: string, cuts: seq<nat>): (ps: seq<string>)
    requires ValidCuts(text, cuts)
    ensures |ps| == |cuts|
  {
    seq(|cuts|, k requires 0 <= k < |cuts| => Piece(text, cuts, k))
  }

  function Piece(text: string, cuts: seq<nat>, k: nat): string
    requires ValidCuts(text, cuts) && k < |cuts|
  {
    assert k > 0 ==> cuts[k - 1] < cuts[k];
    text[PieceStart(cuts, k)..cuts[k]]
  }

  /** The cut positions of the splitter: every unquoted `;`, then the end of the text. */
  function Cuts(text: string): (cuts: seq<nat>)
    ensures ValidCuts(text, cuts)
    ensures |cuts| == |DelimiterPositions(text, Delimiter)| + 1
  {
    DelimitersBelowSorted(text, Delimiter, |text|);
    PiecesSnoc(text, DelimiterPositions(text, Delimiter), |text|);
    DelimiterPositions(text, Delimiter) + [|text|]
  }

  /** The trimmed pieces that are not empty, in order. */
  function NonEmptyTrimmed(pieces: seq<string>): (qs: seq<string>)
    ensures |qs| <= |pieces|
  {
    if pieces == [] then []
    else
      var init := NonEmptyTrimmed(pieces[..|pieces| - 1]);
      var t := Trim(pieces[|pieces| - 1]);
      if t == [] then init else init + [t]
  }

  /** Every kept piece is non-empty and already trimmed. */
  lemma {:induction false} NonEmptyTrimmedTrimmed(pieces: seq<string>)
    ensures forall k :: 0 <= k < |NonEmptyTrimmed(pieces)| ==>
      NonEmptyTrimmed(pieces)[k] != [] && Trim(NonEmptyTrimmed(pieces)[k]) == NonEmptyTrimmed(pieces)[k]
  {
    if pieces != [] {
      NonEmptyTrimmedTrimmed(pieces[..|pieces| - 1]);
      TrimIdempotent(pieces[|pieces| - 1]);
    }
  }

  /** Labels are handed out by position among the emitted queries. */
  function Labelled(qs: seq<string>): (r: seq<ParsedQuery>)
    ensures |r| == |qs|
  {
    seq(|qs|, k requires 0 <= k < |qs| => ParsedQuery(QueryLabel(k), qs[k]))
  }

  /**
   * The splitter: the trimmed, non-empty text between unquoted `;`s, labelled
   * A, B, ... in order; blank input gives no queries.
   */
  function Split(text: string): seq<ParsedQuery>
  {
    if Trim(text) == [] then [] else Labelled(NonEmptyTrimmed(Pieces(text, Cuts(text))))
  }

  /**
   * Blank text gives no query; there is at most one query per unquoted `;` plus
   * one; the queries are labelled A, B, ... in order and are trimmed and non-empty.
   */
  lemma SplitShape(text: string)
    ensures Blank(text) ==> Split(text) == []
    ensures |Split(text)| <= |DelimiterPositions(text, Delimiter)| + 1
    ensures forall k :: 0 <= k < |Split(text)| ==> Split(text)[k].queryLabel == QueryLabel(k)
    ensures forall k :: 0 <= k < |Split(text)| ==> Split(text)[k].query != [] && Trim(Split(text)[k].query) == Split(text)[k].query
  {
    TrimBlank(text);
    if Trim(text) != [] {
      NonEmptyTrimmedTrimmed(Pieces(text, Cuts(text)));
    }
  }

  /** The splitter hands out pairwise different labels. */
  lemma SplitLabelsDistinct(text: string)
    requires |Split(text)| <= DistinctLabelCount
    ensures forall i, j :: 0 <= i < j < |Split(text)| ==> Split(text)[i].queryLabel != Split(text)[j].queryLabel
  {
    var qs := Split(text);
    SplitShape(text);
    forall i, j | 0 <= i < j < |qs| ensures qs[i].queryLabel != qs[j].queryLabel {
      QueryLabelInjective(i, j);
    }
  }

  /** With no unquoted `;`, a non-blank text is one query "A": the trimmed text. */
  lemma SplitWithoutDelimiters(text: string)
    requires DelimiterPositions(text, Delimiter) == []
    requires !Blank(text)
    ensures Split(text) == [ParsedQuery("A", Trim(text))]
  {
    TrimBlank(text);
    var cuts := Cuts(text);
    assert cuts == [|text|];
    assert Piece(text, cuts, 0) == text;
    assert Pieces(text, cuts) == [text];
    assert NonEmptyTrimmed([text]) == [Trim(text)];
  }

  /** Blank input splits into blank pieces only, so the early return changes nothing. */
  lemma {:induction false} BlankPiecesGiveNothing(pieces: seq<string>)
    requires forall k :: 0 <= k < |pieces| ==> Blank(pieces[k])
    ensures NonEmptyTrimmed(pieces) == []
  {
    if pieces != [] {
      TrimBlank(pieces[|pieces| - 1]);
      BlankPiecesGiveNothing(pieces[..|pieces| - 1]);
    }
  }

  // ---------------------------------------------------------------------------
  // Growing the cut list by one cut, as the loops do

  lemma PiecesSnoc(text: string, cuts: seq<nat>, c: nat)
    requires ValidCuts(text, cuts) && StartAfter(cuts) <= c <= |text|
    ensures ValidCuts(text, cuts + [c])
    ensures Pieces(text, cuts + [c]) == Pieces(text, cuts) + [text[StartAfter(cuts)..c]]
  {
    var cs := cuts + [c];
    assert forall k :: 0 <= k < |cuts| ==> cs[k] == cuts[k];
    assert ValidCuts(text, cs) by {
      forall j, k | 0 <= j < k < |cs| ensures cs[j] < cs[k] {
        if k == |cuts| {
          assert cuts[j] <= cuts[|cuts| - 1];
        }
      }
    }
  }

  lemma NonEmptyTrimmedSnoc(pieces: seq<string>, p: string)
    ensures NonEmptyTrimmed(pieces + [p])
         == NonEmptyTrimmed(pieces) + (if Trim(p) == [] then [] else [Trim(p)])
  {
    assert (pieces + [p])[..|pieces|] == pieces;
  }

  lemma LabelledSnoc(qs: seq<string>, q: string)
    ensures Labelled(qs + [q]) == Labelled(qs) + [ParsedQuery(QueryLabel(|qs|), q)]
  {
  }

  /** One more cut adds at most one query, labelled by the number emitted so far. */
  lemma SplitStep(text: string, cuts: seq<nat>, c: nat)
    requires ValidCuts(text, cuts) && StartAfter(cuts) <= c <= |text|
    ensures ValidCuts(text, cuts + [c])
    ensures
      var seg := Trim(text[StartAfter(cuts)..c]);
      var before := NonEmptyTrimmed(Pieces(text, cuts));
      && NonEmptyTrimmed(Pieces(text, cuts + [c])) == before + (if seg == [] then [] else [seg])
      && Labelled(NonEmptyTrimmed(Pieces(text, cuts + [c])))
         == Labelled(before) + (if seg == [] then [] else [ParsedQuery(QueryLabel(|before|), seg)])
  {
    PiecesSnoc(text, cuts, c);
    var seg := Trim(text[StartAfter(cuts)..c]);
    NonEmptyTrimmedSnoc(Pieces(text, cuts), text[StartAfter(cuts)..c]);
    if seg != [] {
      LabelledSnoc(NonEmptyTrimmed(Pieces(text, cuts)), seg);
    }
  }

  /** The cuts the splitter has made before position `i`: the unquoted `;`s, then the end once past it. */
  function CutsBelow(text: string, i: nat): seq<nat>
    requires i <= |text| + 1
  {
    if i <= |text| then DelimitersBelow(text, Delimiter, i) else Cuts(text)
  }

  lemma CutsBelowStep(text: string, i: nat)
    requires i <= |text|
    ensures CutsBelow(text, i + 1)
         == CutsBelow(text, i) + (if i == |text| || IsDelimiterAt(text, i, Delimiter) then [i] else [])
  {
    if i < |text| {
      DelimitersBelowStep(text, Delimiter, i);
    }
  }

  lemma DelimitersBelowStep(text: string, delimiter: string, i: nat)
    requires i < |text|
    ensures DelimitersBelow(text, delimiter, i + 1)
         == DelimitersBelow(text, delimiter, i) + (if IsDelimiterAt(text, i, delimiter) then [i] else [])
  {
  }

  /** The test in `splitMultiQueries`'s loop: the end of the text, or an unquoted `;`. */
  method IsCutAt(queryString: string, i: nat) returns (isCut: bool)
    requires i <= |queryString|
    ensures isCut <==> i == |queryString| || IsDelimiterAt(queryString, i, Delimiter)
  {
    isCut := i == |queryString|;
    if !isCut && [queryString[i]] == Delimiter {
      var inside := IsInsideString(queryString, i);
      isCut := !inside;
    }
  }

  /**
   * `splitMultiQueries`: walks every position up to and including the end of the
   * text and closes a segment at each unquoted `;` and at the end.
   */
  method SplitMultiQueries(queryString: string) returns (queries: seq<ParsedQuery>)
    ensures queries == Split(queryString)
  {
    if Trim(queryString) == [] {
      return [];
    }
    queries := [];
    var currentStart := 0;
    var queryIndex := 0;
    ghost var cuts: seq<nat> := [];
    var i := 0;
    SplitStart(queryString);
    while i <= |queryString|
      invariant i <= |queryString| + 1
      invariant SplitState(queryString, i, cuts, currentStart, queries, queryIndex)
    {
      cuts, currentStart, queries, queryIndex := SplitAt(queryString, i, cuts, currentStart, queries, queryIndex);
      i := i + 1;
    }
    SplitFinished(queryString, i, cuts, currentStart, queries, queryIndex);
  }

  lemma SplitStart(text: string)
    ensures SplitState(text, 0, [], 0, [], 0)
  {
    assert Pieces(text, []) == [];
  }

  lemma SplitFinished(text: string, i: nat, cuts: seq<nat>, currentStart: nat, queries: seq<ParsedQuery>, queryIndex: nat)
    requires Trim(text) != [] && i == |text| + 1
    requires SplitState(text, i, cuts, currentStart, queries, queryIndex)
    ensures queries == Split(text)
  {
  }

  /** What the splitter's variables hold before position `i`. */
  ghost predicate SplitState(text: string, i: nat, cuts: seq<nat>, currentStart: nat, queries: seq<ParsedQuery>, queryIndex: nat)
    requires i <= |text| + 1
  {
    && cuts == CutsBelow(text, i)
    && ValidCuts(text, cuts)
    && currentStart == StartAfter(cuts) <= i
    && queryIndex == |queries|
    && queries == Labelled(NonEmptyTrimmed(Pieces(text, cuts)))
  }

  /** One turn of the splitter's loop: at the end of the text or an unquoted `;`, close the segment. */
  method SplitAt(queryString: string, i: nat, ghost cuts: seq<nat>, currentStart: nat, queries: seq<ParsedQuery>, queryIndex: nat)
    returns (ghost cuts': seq<nat>, currentStart': nat, queries': seq<ParsedQuery>, queryIndex': nat)
    requires i <= |queryString| && SplitState(queryString, i, cuts, currentStart, queries, queryIndex)
    ensures SplitState(queryString, i + 1, cuts', currentStart', queries', queryIndex')
  {
    cuts', currentStart', queries', queryIndex' := cuts, currentStart, queries, queryIndex;
    var isCut := IsCutAt(queryString, i);
    CutsBelowStep(queryString, i);
    if isCut {
      queries', queryIndex' := CloseSegment(queryString, cuts, currentStart, i, queries, queryIndex);
      currentStart' := i + 1;
      cuts' := cuts + [i];
    }
  }

  /** A cut at `i`: the trimmed text since the last cut, when not empty, becomes the next query. */
  method CloseSegment(queryString: string, ghost cuts: seq<nat>, currentStart: nat, i: nat,
                      queries: seq<ParsedQuery>, queryIndex: nat)
    returns (queries': seq<ParsedQuery>, queryIndex': nat)
    requires ValidCuts(queryString, cuts) && currentStart == StartAfter(cuts) <= i <= |queryString|
    requires queryIndex == |queries| && queries == Labelled(NonEmptyTrimmed(Pieces(queryString, cuts)))
    ensures ValidCuts(queryString, cuts + [i])
    ensures queryIndex' == |queries'| && queries' == Labelled(NonEmptyTrimmed(Pieces(queryString, cuts + [i])))
  {
    SplitStep(queryString, cuts, i);
    queries', queryIndex' := queries, queryIndex;
    var segment := Trim(queryString[currentStart..i]);
    if segment != [] {
      queries' := queries' + [ParsedQuery(QueryLabel(queryIndex'), segment)];
      queryIndex' := queryIndex' + 1;
    }
  }
}
