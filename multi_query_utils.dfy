/**
 * The editor copy of the multi-query engine. Its label generator, string-literal
 * scanner and delimiter finder are textually the shared ones and are taken from
 * `MultiQuery`. On top of them it gives every segment its character offsets and
 * line numbers, maps an editor cursor onto a segment, converts offsets to
 * 1-based line/column pairs and encodes `label:query` cache keys.
 */
module MultiQueryUtils {
  import opened Wrappers
  import opened Strings
  import opened MultiQuery

  /** A labelled segment with its (trimmed) offsets and 0-based line numbers. */
  datatype Segment = Segment(
    queryLabel: string,
    query: string,
    startLine: nat,
    endLine: nat,
    startOffset: nat,
    endOffset: nat)

  // ---------------------------------------------------------------------------
  // Line numbers

  /** The number of line feeds in `text[..n]`. */
  function NewlinesBefore(text: string, n: nat): (count: nat)
    requires n <= |text|
    ensures count <= n
  {
    if n == 0 then 0
    else NewlinesBefore(text, n - 1) + (if text[n - 1] == '\n' then 1 else 0)
  }

  /** The 0-based line of `offset`: the line feeds strictly before it. */
  function LineOf(text: string, offset: int): nat
  {
    NewlinesBefore(text, ClampOffset(text, offset))
  }

  /** `getLineNumber`: counts line feeds below `offset` and below the end of the text. */
  method GetLineNumber(text: string, offset: int) returns (lineNumber: nat)
    ensures lineNumber == LineOf(text, offset)
    ensures lineNumber <= ClampOffset(text, offset)
  {
    lineNumber := 0;
    var i := 0;
    while i < offset && i < |text|
      invariant 0 <= i <= ClampOffset(text, offset)
      invariant lineNumber == NewlinesBefore(text, i)
    {
      if text[i] == '\n' {
        lineNumber := lineNumber + 1;
      }
      i := i + 1;
    }
  }

  // ---------------------------------------------------------------------------
  // The splitter with positions

  /** The segment for the piece `text[s..e)`, with its whitespace skipped at both ends. */
  function SegmentOf(text: string, s: nat, e: nat, index: nat): Segment
    requires s <= e <= |text|
  {
    var a := SkipForward(text, s, e);
    var b := SkipBackward(text, a, e);
    Segment(QueryLabel(index), Trim(text[s..e]), LineOf(text, a), LineOf(text, b), a, b)
  }

  /** The segment of a non-blank piece sits on its trimmed text, inside the piece. */
  lemma SegmentOfPlaced(text: string, s: nat, e: nat, index: nat)
    requires s <= e <= |text| && Trim(text[s..e]) != []
    ensures var seg := SegmentOf(text, s, e, index);
      && s <= seg.startOffset < seg.endOffset <= e
      && WellPlaced(text, seg) && seg.queryLabel == QueryLabel(index)
      && (forall i :: s <= i < seg.startOffset ==> IsSpace(text[i]))
      && (forall i :: seg.endOffset <= i < e ==> IsSpace(text[i]))
  {
    TrimSlice(text, s, e);
  }

  /** Segments whose offsets increase and never overlap, each a non-empty range. */
  predicate Ordered(segs: seq<Segment>) {
    && (forall k :: 0 <= k < |segs| ==> segs[k].startOffset < segs[k].endOffset)
    && (forall j, k :: 0 <= j < k < |segs| ==> segs[j].endOffset < segs[k].startOffset)
  }

  /** What every emitted segment promises about the text it came from. */
  predicate WellPlaced(text: string, seg: Segment) {
    && seg.startOffset < seg.endOffset <= |text|
    && text[seg.startOffset..seg.endOffset] == seg.query
    && seg.startLine == LineOf(text, seg.startOffset)
    && seg.endLine == LineOf(text, seg.endOffset)
  }

  /**
   * `segs` are ordered, each sits on its trimmed text with the right line numbers,
   * they are labelled A, B, ... in order, and all of them end before `bound`.
   */
  ghost predicate Laid(text: string, segs: seq<Segment>, bound: nat) {
    && Ordered(segs)
    && (forall k :: 0 <= k < |segs| ==> WellPlaced(text, segs[k]))
    && (forall k :: 0 <= k < |segs| ==> segs[k].queryLabel == QueryLabel(k))
    && (forall k :: 0 <= k < |segs| ==> segs[k].endOffset < bound)
  }

  lemma LaidSnoc(text: string, segs: seq<Segment>, bound: nat, seg: Segment, bound': nat)
    requires Laid(text, segs, bound)
    requires WellPlaced(text, seg) && seg.queryLabel == QueryLabel(|segs|)
    requires bound <= seg.startOffset && seg.endOffset < bound'
    ensures Laid(text, segs + [seg], bound')
  {
    var r := segs + [seg];
    assert forall k :: 0 <= k < |segs| ==> r[k] == segs[k];
    assert Ordered(r) by {
      forall j, k | 0 <= j < k < |r| ensures r[j].endOffset < r[k].startOffset {
        if k == |segs| {
          assert segs[j].endOffset < bound;
        }
      }
    }
  }

  lemma LaidWeaken(text: string, segs: seq<Segment>, bound: nat, bound': nat)
    requires Laid(text, segs, bound) && bound <= bound'
    ensures Laid(text, segs, bound')
  {
  }

  /** The last cut splits off a prefix of cuts that is valid on its own. */
  lemma CutsLast(text: string, cuts: seq<nat>)
    requires ValidCuts(text, cuts) && cuts != []
    ensures cuts[..|cuts| - 1] + [cuts[|cuts| - 1]] == cuts
    ensures ValidCuts(text, cuts[..|cuts| - 1])
    ensures StartAfter(cuts[..|cuts| - 1]) <= cuts[|cuts| - 1] <= |text|
  {
    if |cuts| > 1 {
      assert cuts[|cuts| - 2] < cuts[|cuts| - 1];
    }
  }

  /** The segments of the non-blank pieces between `cuts`, labelled in order. */
  function Positioned(text: string, cuts: seq<nat>): seq<Segment>
    requires ValidCuts(text, cuts)
  {
    if cuts == [] then []
    else
      var prefix := cuts[..|cuts| - 1];
      CutsLast(text, cuts);
      var s, e := StartAfter(prefix), cuts[|cuts| - 1];
      var init := Positioned(text, prefix);
      if Trim(text[s..e]) == [] then init else init + [SegmentOf(text, s, e, |init|)]
  }

  /** The positioned segments are ordered, sit on their text and are labelled in order. */
  lemma {:induction false} PositionedLaid(text: string, cuts: seq<nat>)
    requires ValidCuts(text, cuts)
    ensures Laid(text, Positioned(text, cuts), StartAfter(cuts))
  {
    if cuts != [] {
      var prefix := cuts[..|cuts| - 1];
      CutsLast(text, cuts);
      var s, e := StartAfter(prefix), cuts[|cuts| - 1];
      var init := Positioned(text, prefix);
      PositionedLaid(text, prefix);
      if Trim(text[s..e]) == [] {
        LaidWeaken(text, init, s, e + 1);
      } else {
        SegmentOfPlaced(text, s, e, |init|);
        LaidSnoc(text, init, s, SegmentOf(text, s, e, |init|), e + 1);
      }
    }
  }

  function Project(segs: seq<Segment>): (r: seq<ParsedQuery>)
    ensures |r| == |segs|
    ensures forall k :: 0 <= k < |r| ==> r[k] == ParsedQuery(segs[k].queryLabel, segs[k].query)
  {
    seq(|segs|, k requires 0 <= k < |segs| => ParsedQuery(segs[k].queryLabel, segs[k].query))
  }

  /**
   * `splitPromQLQueries` of the editor. With no unquoted `;` the single segment
   * keeps the untrimmed offsets 0 and |text|; otherwise every segment is trimmed.
   */
  function SplitWithPositions(text: string): seq<Segment>
  {
    if Trim(text) == [] then []
    else if DelimiterPositions(text, Delimiter) == [] then
      [Segment("A", Trim(text), 0, LineOf(text, |text|), 0, |text|)]
    else Positioned(text, Cuts(text))
  }

  /**
   * Blank text has no segment; without an unquoted `;` the one segment "A" spans
   * the whole untrimmed text; otherwise the segments are ordered, trimmed,
   * labelled in order and carry the line numbers of their offsets.
   */
  lemma SplitWithPositionsShape(text: string)
    ensures Blank(text) ==> SplitWithPositions(text) == []
    ensures !Blank(text) && DelimiterPositions(text, Delimiter) == [] ==>
      SplitWithPositions(text) == [Segment("A", Trim(text), 0, LineOf(text, |text|), 0, |text|)]
    ensures DelimiterPositions(text, Delimiter) != [] ==> Laid(text, SplitWithPositions(text), |text| + 1)
  {
    TrimBlank(text);
    if !Blank(text) && DelimiterPositions(text, Delimiter) != [] {
      PositionedLaid(text, Cuts(text));
    }
  }

  /** Whatever the path, the segments returned never overlap and come in text order. */
  lemma SplitWithPositionsOrdered(text: string)
    ensures Ordered(SplitWithPositions(text))
  {
    SplitWithPositionsShape(text);
  }

  lemma {:induction false} PositionedProjects(text: string, cuts: seq<nat>)
    requires ValidCuts(text, cuts)
    ensures Project(Positioned(text, cuts)) == Labelled(NonEmptyTrimmed(Pieces(text, cuts)))
  {
    if cuts != [] {
      var prefix := cuts[..|cuts| - 1];
      var c := cuts[|cuts| - 1];
      CutsLast(text, cuts);
      PositionedProjects(text, prefix);
      SplitStep(text, prefix, c);
    }
  }

  /** Dropping the offsets and lines gives exactly the shared splitter's result. */
  lemma SplitWithPositionsProjects(text: string)
    ensures Project(SplitWithPositions(text)) == Split(text)
  {
    if Trim(text) == [] {
    } else if DelimiterPositions(text, Delimiter) == [] {
      TrimBlank(text);
      SplitWithoutDelimiters(text);
    } else {
      PositionedProjects(text, Cuts(text));
    }
  }

  lemma ValidCutsPrefix(text: string, cuts: seq<nat>, p: nat)
    requires ValidCuts(text, cuts) && p <= |cuts|
    ensures ValidCuts(text, cuts[..p])
  {
  }

  lemma PositionedSnoc(text: string, cuts: seq<nat>, c: nat)
    requires ValidCuts(text, cuts + [c])
    ensures ValidCuts(text, cuts) && StartAfter(cuts) <= c <= |text|
    ensures
      var s, init := StartAfter(cuts), Positioned(text, cuts);
      Positioned(text, cuts + [c])
      == init + (if Trim(text[s..c]) == [] then [] else [SegmentOf(text, s, c, |init|)])
  {
    CutsLast(text, cuts + [c]);
    assert (cuts + [c])[..|cuts|] == cuts;
  }

  /**
   * The two whitespace-skipping loops of `splitPromQLQueries`: from the start of
   * `text[s..e)` forwards past whitespace, then from its end
   * backwards down to the last non-whitespace character.
   */
  method SkipWhitespace(text: string, s: nat, e: nat) returns (actualStart: nat, actualEnd: nat)
    requires s <= e <= |text|
    ensures actualStart == SkipForward(text, s, e)
    ensures actualEnd == SkipBackward(text, actualStart, e)
  {
    actualStart := s;
    while actualStart < e && IsSpace(text[actualStart])
      invariant s <= actualStart <= e
      invariant SkipForward(text, actualStart, e) == SkipForward(text, s, e)
      decreases e - actualStart
    {
      actualStart := actualStart + 1;
    }
    actualEnd := e;
    while actualEnd > actualStart && IsSpace(text[actualEnd - 1])
      invariant actualStart <= actualEnd <= e
      invariant SkipBackward(text, actualStart, actualEnd) == SkipBackward(text, actualStart, e)
    {
      actualEnd := actualEnd - 1;
    }
  }

  /**
   * The body of `splitPromQLQueries`'s loop for a non-blank piece: skip the
   * whitespace at both ends and count the lines of the two trimmed offsets.
   */
  method PlaceSegment(text: string, s: nat, e: nat, index: nat) returns (seg: Segment)
    requires s <= e <= |text|
    ensures seg == SegmentOf(text, s, e, index)
  {
    var actualStart, actualEnd := SkipWhitespace(text, s, e);
    var startLine := GetLineNumber(text, actualStart);
    var endLine := GetLineNumber(text, actualEnd);
    seg := Segment(QueryLabel(index), Trim(text[s..e]), startLine, endLine, actualStart, actualEnd);
  }

  /** `splitPromQLQueries` of the editor, loop for loop. */
  method SplitPromQLQueries(queryString: string) returns (queries: seq<Segment>)
    ensures queries == SplitWithPositions(queryString)
  {
    if Trim(queryString) == [] {
      return [];
    }
    var delimiterPositions := FindDelimiterPositions(queryString, Delimiter);
    if |delimiterPositions| == 0 {
      // The text is not blank, so the trimmed text is never empty here.
      var trimmed := Trim(queryString);
      var endLine := GetLineNumber(queryString, |queryString|);
      return [Segment("A", trimmed, 0, endLine, 0, |queryString|)];
    }
    var allPositions := delimiterPositions + [|queryString|];
    assert allPositions == Cuts(queryString);
    queries := PositionSegments(queryString, allPositions);
  }

  /**
   * The loop of `splitPromQLQueries` over every cut: each non-blank piece becomes
   * a segment labelled by the number of segments emitted before it.
   */
  method PositionSegments(queryString: string, allPositions: seq<nat>) returns (queries: seq<Segment>)
    requires ValidCuts(queryString, allPositions)
    ensures queries == Positioned(queryString, allPositions)
  {
    queries := [];
    var currentIndex := 0;
    var p := 0;
    while p < |allPositions|
      invariant 0 <= p <= |allPositions|
      invariant ValidCuts(queryString, allPositions[..p])
      invariant currentIndex == StartAfter(allPositions[..p])
      invariant queries == Positioned(queryString, allPositions[..p])
    {
      var delimPos := allPositions[p];
      assert allPositions[..p + 1] == allPositions[..p] + [delimPos];
      ValidCutsPrefix(queryString, allPositions, p + 1);
      queries := PositionPiece(queryString, allPositions[..p], delimPos, queries, currentIndex);
      currentIndex := delimPos + 1;
      p := p + 1;
    }
    assert allPositions[..p] == allPositions;
  }

  /** One turn of `splitPromQLQueries`'s loop: the piece from `currentIndex` to the cut `delimPos`. */
  method PositionPiece(queryString: string, ghost cuts: seq<nat>, delimPos: nat, queries: seq<Segment>, currentIndex: nat)
    returns (queries': seq<Segment>)
    requires ValidCuts(queryString, cuts) && ValidCuts(queryString, cuts + [delimPos])
    requires currentIndex == StartAfter(cuts) && queries == Positioned(queryString, cuts)
    ensures queries' == Positioned(queryString, cuts + [delimPos])
  {
    PositionedSnoc(queryString, cuts, delimPos);
    var segment := queryString[currentIndex..delimPos];
    var trimmedSegment := Trim(segment);
    queries' := queries;
    if trimmedSegment != [] {
      var seg := PlaceSegment(queryString, currentIndex, delimPos, |queries|);
      queries' := queries + [seg];
    }
  }

  // ---------------------------------------------------------------------------
  // Cursor lookup

  /** The tests `findQueryAtPosition` applies to a segment, one loop each. */
  datatype Probe = Contains | EndsAt | InGapBefore | EndsNotBefore

  /** Segment `k` passes `probe` for `cursor`; `InGapBefore` looks at segment `k + 1` too. */
  predicate Hits(segs: seq<Segment>, cursor: int, probe: Probe, k: nat)
    requires k < |segs|
  {
    match probe
    case Contains => segs[k].startOffset <= cursor < segs[k].endOffset
    case EndsAt => cursor == segs[k].endOffset
    case InGapBefore => k + 1 < |segs| && segs[k].endOffset <= cursor < segs[k + 1].startOffset
    case EndsNotBefore => cursor <= segs[k].endOffset
  }

  /** The first index at or after `from` whose segment passes `probe`, if any. */
  function FirstHit(segs: seq<Segment>, cursor: int, probe: Probe, from: nat): (r: Option<nat>)
    requires from <= |segs|
    ensures r.Some? ==> from <= r.value < |segs| && Hits(segs, cursor, probe, r.value)
    ensures r.Some? ==> forall k :: from <= k < r.value ==> !Hits(segs, cursor, probe, k)
    ensures r.None? ==> forall k :: from <= k < |segs| ==> !Hits(segs, cursor, probe, k)
    decreases |segs| - from
  {
    if from == |segs| then None
    else if Hits(segs, cursor, probe, from) then Some(from)
    else FirstHit(segs, cursor, probe, from + 1)
  }

  /**
   * `findQueryAtPosition`'s choice among `segs`, in its priority order: a segment
   * containing the cursor, one ending at it, the last one when the cursor is past
   * it, the next one when the cursor is in a gap, else the first one.
   */
  function QueryAt(segs: seq<Segment>, cursor: int): (r: Option<Segment>)
    ensures r.None? <==> segs == []
    ensures r.Some? ==> r.value in segs
  {
    if segs == [] then None
    else
      match FirstHit(segs, cursor, Contains, 0)
      case Some(k) => Some(segs[k])
      case None =>
        match FirstHit(segs, cursor, EndsAt, 0)
        case Some(k) => Some(segs[k])
        case None =>
          if cursor >= segs[|segs| - 1].endOffset then Some(segs[|segs| - 1])
          else
            match FirstHit(segs, cursor, InGapBefore, 0)
            case Some(k) => Some(segs[k + 1])
            case None => Some(segs[0])
  }

  /** The first segment that does not end before the cursor; the last one if they all do. */
  function FirstNotBefore(segs: seq<Segment>, cursor: int): (r: Segment)
    requires segs != []
  {
    match FirstHit(segs, cursor, EndsNotBefore, 0)
    case Some(k) => segs[k]
    case None => segs[|segs| - 1]
  }

  /** On ordered segments a segment that holds or ends at the cursor is the first not before it. */
  lemma OrderedFirstReaching(segs: seq<Segment>, cursor: int, i: nat, j: nat)
    requires Ordered(segs) && i < |segs| && j < |segs|
    requires FirstHit(segs, cursor, EndsNotBefore, 0) == Some(i)
    requires segs[j].startOffset <= cursor <= segs[j].endOffset
    ensures j == i
  {
    assert Hits(segs, cursor, EndsNotBefore, j);
    assert segs[j].startOffset <= segs[i].endOffset;
  }

  /** Before the first segment not ending before it, no segment holds or ends at the cursor. */
  lemma OrderedGapMisses(segs: seq<Segment>, cursor: int, i: nat)
    requires Ordered(segs) && i < |segs|
    requires FirstHit(segs, cursor, EndsNotBefore, 0) == Some(i)
    requires cursor < segs[i].startOffset
    ensures FirstHit(segs, cursor, Contains, 0).None? && FirstHit(segs, cursor, EndsAt, 0).None?
    ensures cursor < segs[|segs| - 1].endOffset
  {
    forall k | 0 <= k < |segs|
      ensures !Hits(segs, cursor, Contains, k) && !Hits(segs, cursor, EndsAt, k)
    {
      if k < i {
        assert !Hits(segs, cursor, EndsNotBefore, k);
      } else if k > i {
        assert segs[i].endOffset < segs[k].startOffset;
      }
    }
    FirstHitNone(segs, cursor, Contains, 0);
    FirstHitNone(segs, cursor, EndsAt, 0);
    if i < |segs| - 1 {
      assert segs[i].endOffset < segs[|segs| - 1].startOffset;
    }
  }

  /** Before the first segment not ending before it, the cursor is in the gap just left of it. */
  lemma OrderedGapFound(segs: seq<Segment>, cursor: int, i: nat)
    requires Ordered(segs) && i < |segs|
    requires FirstHit(segs, cursor, EndsNotBefore, 0) == Some(i)
    requires cursor < segs[i].startOffset
    ensures FirstHit(segs, cursor, InGapBefore, 0) == if i == 0 then None else Some(i - 1)
  {
    forall k | 0 <= k < |segs| && k != i - 1
      ensures !Hits(segs, cursor, InGapBefore, k)
    {
      if k < i - 1 {
        assert !Hits(segs, cursor, EndsNotBefore, k + 1);
        assert segs[k + 1].startOffset < segs[k + 1].endOffset;
      } else if k >= i && k + 1 < |segs| {
        assert segs[i].endOffset < segs[k + 1].startOffset;
      }
    }
    if i > 0 {
      assert !Hits(segs, cursor, EndsNotBefore, i - 1);
      FirstHitIs(segs, cursor, InGapBefore, 0, i - 1);
    } else {
      FirstHitNone(segs, cursor, InGapBefore, 0);
    }
  }

  /** The first index passing `probe` is `k` when `k` passes and nothing before it does. */
  lemma {:induction false} FirstHitIs(segs: seq<Segment>, cursor: int, probe: Probe, from: nat, k: nat)
    requires from <= k < |segs| && Hits(segs, cursor, probe, k)
    requires forall j :: from <= j < k ==> !Hits(segs, cursor, probe, j)
    ensures FirstHit(segs, cursor, probe, from) == Some(k)
    decreases k - from
  {
    if from < k {
      FirstHitIs(segs, cursor, probe, from + 1, k);
    }
  }

  /** Nothing is found when no index passes `probe`. */
  lemma {:induction false} FirstHitNone(segs: seq<Segment>, cursor: int, probe: Probe, from: nat)
    requires from <= |segs|
    requires forall j :: from <= j < |segs| ==> !Hits(segs, cursor, probe, j)
    ensures FirstHit(segs, cursor, probe, from).None?
    decreases |segs| - from
  {
    if from < |segs| {
      FirstHitNone(segs, cursor, probe, from + 1);
    }
  }

  /**
   * On ordered segments (which the splitter produces) the priority cascade is
   * simply: the first segment whose end is not before the cursor, else the last.
   */
  lemma QueryAtOrdered(segs: seq<Segment>, cursor: int)
    requires segs != [] && Ordered(segs)
    ensures QueryAt(segs, cursor) == Some(FirstNotBefore(segs, cursor))
  {
    var n := |segs|;
    match FirstHit(segs, cursor, EndsNotBefore, 0)
    case None =>
      assert !Hits(segs, cursor, EndsNotBefore, n - 1);
      FirstHitNone(segs, cursor, Contains, 0);
      FirstHitNone(segs, cursor, EndsAt, 0);
    case Some(i) =>
      if segs[i].startOffset <= cursor {
        match FirstHit(segs, cursor, Contains, 0)
        case Some(j) =>
          OrderedFirstReaching(segs, cursor, i, j);
        case None =>
          assert !Hits(segs, cursor, Contains, i);
          assert Hits(segs, cursor, EndsAt, i);
          var j := FirstHit(segs, cursor, EndsAt, 0).value;
          OrderedFirstReaching(segs, cursor, i, j);
      } else {
        OrderedGapMisses(segs, cursor, i);
        OrderedGapFound(segs, cursor, i);
      }
  }

  /** `findQueryAtPosition`: splits the text and scans the segments in priority order. */
  method FindQueryAtPosition(queryString: string, cursorOffset: int) returns (r: Option<Segment>)
    ensures r == QueryAt(SplitWithPositions(queryString), cursorOffset)
  {
    var queries := SplitPromQLQueries(queryString);
    if |queries| == 0 {
      return None;
    }
    var n := |queries|;
    var i := 0;
    while i < n
      invariant 0 <= i <= n
      invariant FirstHit(queries, cursorOffset, Contains, i) == FirstHit(queries, cursorOffset, Contains, 0)
    {
      if cursorOffset >= queries[i].startOffset && cursorOffset < queries[i].endOffset {
        return Some(queries[i]);
      }
      i := i + 1;
    }
    i := 0;
    while i < n
      invariant 0 <= i <= n
      invariant FirstHit(queries, cursorOffset, EndsAt, i) == FirstHit(queries, cursorOffset, EndsAt, 0)
    {
      if cursorOffset == queries[i].endOffset {
        return Some(queries[i]);
      }
      i := i + 1;
    }
    var lastQuery := queries[n - 1];
    if cursorOffset >= lastQuery.endOffset {
      return Some(lastQuery);
    }
    i := 0;
    while i < n - 1
      invariant 0 <= i <= n - 1
      invariant FirstHit(queries, cursorOffset, InGapBefore, i) == FirstHit(queries, cursorOffset, InGapBefore, 0)
    {
      var currentQuery, nextQuery := queries[i], queries[i + 1];
      if cursorOffset >= currentQuery.endOffset && cursorOffset < nextQuery.startOffset {
        return Some(nextQuery);
      }
      i := i + 1;
    }
    assert !Hits(queries, cursorOffset, InGapBefore, n - 1);
    return Some(queries[0]);
  }

  /** A segment together with the cursor's offset relative to the segment's start. */
  datatype RelativePosition = RelativePosition(segment: Segment, relativeOffset: int)

  /**
   * `getQueryRelativePosition`: undefined exactly when the text has no query;
   * otherwise the segment `findQueryAtPosition` picks and the cursor's distance
   * from its start (negative when the cursor sits in the gap before it).
   */
  method GetQueryRelativePosition(queryString: string, cursorOffset: int) returns (r: Option<RelativePosition>)
    ensures r.None? <==> SplitWithPositions(queryString) == []
    ensures r.Some? ==>
      && r.value.segment == QueryAt(SplitWithPositions(queryString), cursorOffset).value
      && r.value.relativeOffset == cursorOffset - r.value.segment.startOffset
  {
    var queries := SplitPromQLQueries(queryString);
    if |queries| == 0 {
      return None;
    }
    var currentQuery := FindQueryAtPosition(queryString, cursorOffset);
    // With at least one query the lookup always finds one, so the branch that
    // synthesises a new query after a trailing `;` is never taken.
    assert currentQuery.Some?;
    return Some(RelativePosition(currentQuery.value, cursorOffset - currentQuery.value.startOffset));
  }

  // ---------------------------------------------------------------------------
  // Cache keys

  function CreateMultiQueryCacheKey(queryLabel: string, queryString: string): string
  {
    queryLabel + ":" + queryString
  }

  /** The number of upper-case letters A-Z at the front of `s`. */
  function UpperPrefix(s: string): (n: nat)
    ensures n <= |s|
    ensures forall i :: 0 <= i < n ==> IsUpperLetter(s[i])
    ensures n < |s| ==> !IsUpperLetter(s[n])
  {
    if s == [] || !IsUpperLetter(s[0]) then 0 else 1 + UpperPrefix(s[1..])
  }

  /**
   * `parseMultiQueryCacheKey`: the match of `^([A-Z]+):(.*)$`. The letters cannot
   * include `:`, so the label is the whole run of leading capitals; `.` stops at
   * line terminators, so the query must contain none.
   */
  function ParseMultiQueryCacheKey(cacheKey: string): Option<(string, string)>
  {
    var n := UpperPrefix(cacheKey);
    if 0 < n < |cacheKey| && cacheKey[n] == ':' && NoLineTerminator(cacheKey[n + 1..]) then
      Some((cacheKey[..n], cacheKey[n + 1..]))
    else None
  }

  lemma {:induction false} UpperPrefixOfKey(queryLabel: string, rest: string)
    requires forall i :: 0 <= i < |queryLabel| ==> IsUpperLetter(queryLabel[i])
    requires rest != [] && !IsUpperLetter(rest[0])
    ensures UpperPrefix(queryLabel + rest) == |queryLabel|
  {
    if queryLabel != [] {
      assert (queryLabel + rest)[1..] == queryLabel[1..] + rest;
      UpperPrefixOfKey(queryLabel[1..], rest);
    }
  }

  /** A key built from a capital-letter label and a one-line query parses back to them. */
  lemma ParseCreateCacheKey(queryLabel: string, queryString: string)
    requires queryLabel != [] && forall i :: 0 <= i < |queryLabel| ==> IsUpperLetter(queryLabel[i])
    requires NoLineTerminator(queryString)
    ensures ParseMultiQueryCacheKey(CreateMultiQueryCacheKey(queryLabel, queryString)) == Some((queryLabel, queryString))
  {
    var key := CreateMultiQueryCacheKey(queryLabel, queryString);
    UpperPrefixOfKey(queryLabel, ":" + queryString);
    assert key == queryLabel + (":" + queryString);
    assert key[..|queryLabel|] == queryLabel;
    assert key[|queryLabel| + 1..] == queryString;
  }

  /** Every key that parses is a label of capitals, `:`, and a one-line query; anything else is null. */
  lemma ParsedCacheKeyShape(cacheKey: string)
    ensures ParseMultiQueryCacheKey(cacheKey).Some? ==>
      var (l, q) := ParseMultiQueryCacheKey(cacheKey).value;
      && cacheKey == CreateMultiQueryCacheKey(l, q)
      && l != [] && (forall i :: 0 <= i < |l| ==> IsUpperLetter(l[i]))
      && NoLineTerminator(q)
    ensures (|cacheKey| == 0 || !IsUpperLetter(cacheKey[0])) ==> ParseMultiQueryCacheKey(cacheKey).None?
  {
    var n := UpperPrefix(cacheKey);
    if ParseMultiQueryCacheKey(cacheKey).Some? {
      assert cacheKey == cacheKey[..n] + ":" + cacheKey[n + 1..];
    }
  }

  // ---------------------------------------------------------------------------
  // Offsets to Monaco positions

  /** The index of the last line feed in `text[..n]`, or -1 when there is none. */
  function LastNewlineBefore(text: string, n: nat): (r: int)
    requires n <= |text|
    ensures -1 <= r < n
    ensures r >= 0 ==> text[r] == '\n'
    ensures forall i :: r < i < n ==> text[i] != '\n'
  {
    if n == 0 then -1
    else if text[n - 1] == '\n' then n - 1
    else LastNewlineBefore(text, n - 1)
  }

  /**
   * `offsetToLineColumn`: the 1-based line is one more than the line feeds before
   * the clamped offset, and the 1-based column is the distance from the last of them.
   */
  method OffsetToLineColumn(text: string, offset: int) returns (lineNumber: nat, column: nat)
    ensures lineNumber == LineOf(text, offset) + 1
    ensures column == ClampOffset(text, offset) - LastNewlineBefore(text, ClampOffset(text, offset))
    ensures lineNumber >= 1 && column >= 1
    ensures forall i :: ClampOffset(text, offset) - column < i < ClampOffset(text, offset) ==> text[i] != '\n'
  {
    var clampedOffset := Max(0, Min(offset, |text|));
    assert clampedOffset == ClampOffset(text, offset);
    lineNumber := 1;
    var lastNewlineIndex := -1;
    var i := 0;
    while i < clampedOffset
      invariant 0 <= i <= clampedOffset
      invariant lineNumber == NewlinesBefore(text, i) + 1
      invariant lastNewlineIndex == LastNewlineBefore(text, i)
    {
      if text[i] == '\n' {
        lineNumber := lineNumber + 1;
        lastNewlineIndex := i;
      }
      i := i + 1;
    }
    column := clampedOffset - lastNewlineIndex;
  }
}
