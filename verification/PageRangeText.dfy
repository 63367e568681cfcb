/**
 * Reading page-range text, and the law that makes the printed form canonical:
 * what was parsed is what its own printed text parses to.
 * packages/domain/src/print-settings.ts, lines 175-231.
 */
module PageRangeText {
  import opened CodeUnits
  import opened PageRanges
  import opened Wrappers

  // ---------- White space ----------

  /** ECMAScript WhiteSpace and LineTerminator: what `trim` removes and `\s` matches. */
  predicate IsSpace(c: CodeUnit) {
    9 <= c <= 13 || c == 32 || c == 0xA0 || c == 0x1680 || 0x2000 <= c <= 0x200A
    || c == 0x2028 || c == 0x2029 || c == 0x202F || c == 0x205F || c == 0x3000 || c == 0xFEFF
  }

  predicate AllSpaces(t: Text) {
    forall i :: 0 <= i < |t| ==> IsSpace(t[i])
  }

  function SpaceRun(t: Text): (n: nat)
    ensures n <= |t| && AllSpaces(t[..n])
    ensures n < |t| ==> !IsSpace(t[n])
  {
    if t == [] || !IsSpace(t[0]) then 0
    else
      var n := 1 + SpaceRun(t[1..]);
      assert t[..n] == [t[0]] + t[1..][..n - 1];
      n
  }

  function TrimStart(t: Text): Text {
    t[SpaceRun(t)..]
  }

  function TrimEnd(t: Text): Text {
    if t != [] && IsSpace(t[|t| - 1]) then TrimEnd(t[..|t| - 1]) else t
  }

  function Trim(t: Text): Text {
    TrimEnd(TrimStart(t))
  }

  lemma {:induction false} TrimStartOf(spaces: Text, rest: Text)
    requires AllSpaces(spaces)
    requires rest == [] || !IsSpace(rest[0])
    ensures TrimStart(spaces + rest) == rest
  {
    if spaces == [] {
      assert spaces + rest == rest;
    } else {
      TrimStartOf(spaces[1..], rest);
      assert (spaces + rest)[1..] == spaces[1..] + rest;
    }
  }

  lemma {:induction false} TrimEndMeaning(t: Text) returns (after: Text)
    ensures t == TrimEnd(t) + after && AllSpaces(after)
    ensures TrimEnd(t) != [] ==> TrimEnd(t)[0] == t[0] && !IsSpace(TrimEnd(t)[|TrimEnd(t)| - 1])
  {
    after := [];
    if t != [] && IsSpace(t[|t| - 1]) {
      var earlier := TrimEndMeaning(t[..|t| - 1]);
      after := earlier + [t[|t| - 1]];
    }
  }

  /** Trimming takes white space off both ends, and all of it. */
  lemma TrimMeaning(t: Text) returns (before: Text, after: Text)
    ensures t == before + Trim(t) + after && AllSpaces(before) && AllSpaces(after)
    ensures Trim(t) != [] ==> !IsSpace(Trim(t)[0]) && !IsSpace(Trim(t)[|Trim(t)| - 1])
  {
    before := t[..SpaceRun(t)];
    after := TrimEndMeaning(TrimStart(t));
  }

  // ---------- One segment ----------

  /** `\d{1,6}` */
  predicate Number(t: Text) {
    1 <= |t| <= 6 && AllDigits(t)
  }

  datatype Scanned = Scanned(digits: Text, rest: Text)

  /** `\s*(\d{1,6})\s*`, greedily: the digits, and what follows them and their spaces. */
  function ScanNumber(t: Text): Option<Scanned> {
    var a := TrimStart(t);
    var n := DigitRun(a);
    if 1 <= n <= 6 then Some(Scanned(a[..n], TrimStart(a[n..]))) else None
  }

  lemma ScanIsNumber(t: Text)
    ensures ScanNumber(t).Some? ==> Number(ScanNumber(t).value.digits)
  {
  }

  /** `/^\s*(\d{1,6})\s*(?:-\s*(\d{1,6})\s*)?$/` as a scan that never backtracks. */
  function MatchSegment(segment: Text): Option<Range> {
    match ScanNumber(segment)
    case None => None
    case Some(Scanned(d1, tail)) =>
      ScanIsNumber(segment);
      if tail == [] then Some(Range(DecimalValue(d1), DecimalValue(d1)))
      else if tail[0] != HYPHEN then None
      else
        match ScanNumber(tail[1..])
        case None => None
        case Some(Scanned(d2, end)) =>
          ScanIsNumber(tail[1..]);
          if end == [] then Some(Range(DecimalValue(d1), DecimalValue(d2))) else None
  }

  /** A scan undoes a concatenation whose last part is neither space nor digit. */
  lemma ScanOf(s: Text, d: Text, s': Text, rest: Text)
    requires AllSpaces(s) && Number(d) && AllSpaces(s')
    requires rest == [] || rest[0] == HYPHEN
    ensures ScanNumber(s + (d + (s' + rest))) == Some(Scanned(d, rest))
  {
    var after := s' + rest;
    assert after == [] || IsSpace(after[0]) || after[0] == HYPHEN;
    assert IsDigit(d[0]) && d[0] == (d + after)[0];
    TrimStartOf(s, d + after);
    DigitRunOf(d, after);
    assert (d + after)[..|d|] == d && (d + after)[|d|..] == after;
    TrimStartOf(s', rest);
  }

  lemma Rejoin(t: Text, i: nat)
    requires i <= |t|
    ensures t[..i] + t[i..] == t
  {
  }

  lemma ScanSplits(t: Text) returns (s: Text, s': Text)
    requires ScanNumber(t).Some?
    ensures AllSpaces(s) && AllSpaces(s') && Number(ScanNumber(t).value.digits)
    ensures t == s + (ScanNumber(t).value.digits + (s' + ScanNumber(t).value.rest))
  {
    var a := TrimStart(t);
    var i, n := SpaceRun(t), DigitRun(a);
    var after := a[n..];
    var j := SpaceRun(after);
    s, s' := t[..i], after[..j];
    Rejoin(t, i);
    Rejoin(a, n);
    Rejoin(after, j);
  }

  /** The capture groups and the white space around them, in the order they are matched. */
  datatype Captures =
    | SinglePage(s1: Text, d1: Text, s2: Text)
    | PageSpan(s1: Text, d1: Text, s2: Text, s3: Text, d2: Text, s4: Text)

  function Tail(c: Captures): Text {
    match c
    case SinglePage(_, _, _) => []
    case PageSpan(_, _, _, s3, d2, s4) => [HYPHEN] + (s3 + (d2 + s4))
  }

  /** The same pattern read as a grammar. */
  predicate Fits(segment: Text, c: Captures) {
    && AllSpaces(c.s1) && Number(c.d1) && AllSpaces(c.s2)
    && (c.PageSpan? ==> AllSpaces(c.s3) && Number(c.d2) && AllSpaces(c.s4))
    && segment == c.s1 + (c.d1 + (c.s2 + Tail(c)))
  }

  function Read(c: Captures): Range
    requires AllDigits(c.d1) && (c.PageSpan? ==> AllDigits(c.d2))
  {
    Range(DecimalValue(c.d1), DecimalValue(if c.PageSpan? then c.d2 else c.d1))
  }

  lemma FittingTextScans(segment: Text, c: Captures)
    requires Fits(segment, c)
    ensures MatchSegment(segment) == Some(Read(c))
  {
    ScanOf(c.s1, c.d1, c.s2, Tail(c));
    if c.PageSpan? {
      ScanOf(c.s3, c.d2, c.s4, []);
      assert c.s4 + [] == c.s4;
      assert Tail(c)[1..] == c.s3 + (c.d2 + c.s4);
    }
  }

  lemma NoPadding(t: Text)
    ensures [] + t == t && t + [] == t
  {
  }

  lemma ScannedTextFits(segment: Text) returns (c: Captures)
    requires MatchSegment(segment).Some?
    ensures Fits(segment, c) && MatchSegment(segment) == Some(Read(c))
  {
    hide ScanNumber, AllSpaces, IsSpace, AllDigits, DecimalValue;
    var s1, s2 := ScanSplits(segment);
    var Scanned(d1, tail) := ScanNumber(segment).value;
    if tail == [] {
      c := SinglePage(s1, d1, s2);
    } else {
      var s3, s4 := ScanSplits(tail[1..]);
      var d2 := ScanNumber(tail[1..]).value.digits;
      c := PageSpan(s1, d1, s2, s3, d2, s4);
      NoPadding(s4);
      Rejoin(tail, 1);
      assert tail[..1] == [HYPHEN];
    }
  }

  /** The captured digits, and the hyphen between them, are part of the segment. */
  lemma FittingLength(segment: Text, c: Captures)
    requires Fits(segment, c)
    ensures |c.d1| + (if c.PageSpan? then 1 + |c.d2| else 0) <= |segment|
  {
    hide AllSpaces, AllDigits;
  }

  /** The grammar derives the segment, and its numbers are these. */
  ghost predicate Derives(segment: Text, r: Range) {
    exists c :: Fits(segment, c) && Read(c) == r
  }

  /** The scan accepts exactly the segments the grammar derives, with the same pages. */
  lemma ScanIsPattern(segment: Text, r: Range)
    ensures MatchSegment(segment) == Some(r) <==> Derives(segment, r)
  {
    if MatchSegment(segment).Some? {
      var c := ScannedTextFits(segment);
    }
    if c :| Fits(segment, c) && Read(c) == r {
      FittingTextScans(segment, c);
    }
  }

  // ---------- The whole text ----------

  function ParseSegment(segment: Text, pageCount: int): Result<Range, RangeError> {
    match MatchSegment(segment)
    case None => Failure(PageRangeInvalid)
    case Some(r) =>
      if r.first < 1 || r.last < r.first then Failure(PageRangeInvalid)
      else if r.last > pageCount then Failure(PageRangeOutOfBounds)
      else Success(r)
  }

  function ParseSegments(segments: seq<Text>, pageCount: int): Result<seq<Range>, RangeError> {
    if segments == [] then Success([])
    else
      var r :- ParseSegment(segments[0], pageCount);
      var rest :- ParseSegments(segments[1..], pageCount);
      Success([r] + rest)
  }

  function Trimmed(text: Option<Text>): Text {
    if text.None? then [] else Trim(text.value)
  }

  function Parse(text: Option<Text>, pageCount: int): Result<seq<Range>, RangeError> {
    var trimmed := Trimmed(text);
    if !IsSafe(pageCount) || pageCount < 1 then Failure(PageRangeOutOfBounds)
    else if trimmed == [] then Success([Range(1, pageCount)])
    else if |trimmed| > MAX_PAGE_RANGE_TEXT_LENGTH then Failure(PageRangeInvalid)
    else
      var segments := Split(trimmed, COMMA);
      if |segments| > MAX_PAGE_RANGE_SEGMENTS then Failure(PageRangeInvalid)
      else
        var parsed :- ParseSegments(segments, pageCount);
        Success(Merge(parsed))
  }

  function Prepend(parsed: seq<Range>, rest: Result<seq<Range>, RangeError>): Result<seq<Range>, RangeError> {
    if rest.Failure? then rest else Success(parsed + rest.value)
  }

  lemma PrependNothing(rest: Result<seq<Range>, RangeError>)
    ensures Prepend([], rest) == rest
  {
    if rest.Success? {
      assert [] + rest.value == rest.value;
    }
  }

  lemma PrependOne(parsed: seq<Range>, r: Range, rest: Result<seq<Range>, RangeError>)
    ensures Prepend(parsed, Prepend([r], rest)) == Prepend(parsed + [r], rest)
  {
    if rest.Success? {
      assert parsed + ([r] + rest.value) == parsed + [r] + rest.value;
    }
  }

  /** The loop over the segments: the first one that fails decides the error. */
  method ParseEach(segments: seq<Text>, pageCount: int) returns (result: Result<seq<Range>, RangeError>)
    ensures result == ParseSegments(segments, pageCount)
  {
    var parsed: seq<Range> := [];
    assert segments[0..] == segments;
    PrependNothing(ParseSegments(segments, pageCount));
    for i := 0 to |segments|
      invariant ParseSegments(segments, pageCount) == Prepend(parsed, ParseSegments(segments[i..], pageCount))
    {
      assert segments[i..][1..] == segments[i + 1..];
      var r := ParseSegment(segments[i], pageCount);
      if r.Failure? {
        return Failure(r.error);
      }
      PrependOne(parsed, r.value, ParseSegments(segments[i + 1..], pageCount));
      parsed := parsed + [r.value];
    }
    assert parsed + [] == parsed;
    return Success(parsed);
  }

  lemma NumberFacts(d: Text)
    requires Number(d)
    ensures DecimalValue(d) <= 999_999 && |Decimal(DecimalValue(d))| <= |d|
  {
    DecimalIsShortest(d);
    SixDigits(DecimalValue(d));
  }

  lemma ReadFacts(c: Captures)
    requires Number(c.d1) && (c.PageSpan? ==> Number(c.d2))
    ensures var r := Read(c);
            && 0 <= r.first <= 999_999 && 0 <= r.last <= 999_999
            && |FormatRange(r)| <= |c.d1| + (if c.PageSpan? then 1 + |c.d2| else 0)
  {
    NumberFacts(c.d1);
    if c.PageSpan? {
      NumberFacts(c.d2);
    }
    hide AllDigits, DecimalValue, Decimal;
  }

  lemma SegmentFacts(segment: Text)
    requires MatchSegment(segment).Some?
    ensures var r := MatchSegment(segment).value;
            && 0 <= r.first <= 999_999 && 0 <= r.last <= 999_999
            && |FormatRange(r)| <= |segment|
  {
    var c := ScannedTextFits(segment);
    FittingLength(segment, c);
    ReadFacts(c);
    hide MatchSegment, Read, FormatRange, AllSpaces, AllDigits;
  }

  lemma {:induction false} SegmentsFacts(segments: seq<Text>, pageCount: int)
    requires ParseSegments(segments, pageCount).Success?
    ensures var parsed := ParseSegments(segments, pageCount).value;
            && |parsed| == |segments| && Within(parsed, 1, Min(pageCount, 999_999))
            && JoinedLength(FormatEach(parsed)) <= JoinedLength(segments)
  {
    if segments != [] {
      SegmentFacts(segments[0]);
      SegmentsFacts(segments[1..], pageCount);
      var parsed := ParseSegments(segments, pageCount).value;
      assert parsed[1..] == ParseSegments(segments[1..], pageCount).value;
    }
  }

  lemma WithinMerge(ranges: seq<Range>, low: int, high: int)
    requires Within(ranges, low, high)
    ensures Within(Merge(ranges), low, high)
  {
    MergeIsCanonical(ranges);
    var merged := Merge(ranges);
    forall i | 0 <= i < |merged| ensures low <= merged[i].first <= merged[i].last <= high {
      assert Covers(merged, merged[i].first) && Covers(merged, merged[i].last);
      assert Covers(ranges, merged[i].first) && Covers(ranges, merged[i].last);
    }
  }

  /** Accepted text selects at least one page, canonically and within the document. */
  lemma ParsedIsInBounds(text: Option<Text>, pageCount: int)
    ensures var result := Parse(text, pageCount);
            result.Success? ==>
              && result.value != [] && Canonical(result.value) && Within(result.value, 1, pageCount)
              && (Trimmed(text) != [] ==> Within(result.value, 1, 999_999) && |result.value| <= MAX_PAGE_RANGE_SEGMENTS)
  {
    if Parse(text, pageCount).Success? && Trimmed(text) != [] {
      var segments := Split(Trimmed(text), COMMA);
      var parsed := ParseSegments(segments, pageCount).value;
      SegmentsFacts(segments, pageCount);
      MergeIsCanonical(parsed);
      WithinMerge(parsed, 1, Min(pageCount, 999_999));
      assert Covers(parsed, parsed[0].first);
      assert Covers(Merge(parsed), parsed[0].first);
    }
  }

  // ---------- What a text asks for ----------

  /** The segment derives a range of pages of the document. */
  ghost predicate Selects(segment: Text, pageCount: int) {
    exists r :: Derives(segment, r) && 1 <= r.first <= r.last <= pageCount
  }

  /** The numbers are in order, but the last one is past the end of the document. */
  ghost predicate BeyondDocument(segment: Text, pageCount: int) {
    exists r :: Derives(segment, r) && 1 <= r.first <= r.last && pageCount < r.last
  }

  lemma SegmentMeaning(segment: Text, pageCount: int)
    ensures var result := ParseSegment(segment, pageCount);
            && (result.Success? <==> Selects(segment, pageCount))
            && (result.Success? ==> forall r :: Derives(segment, r) <==> r == result.value)
            && (result == Failure(PageRangeOutOfBounds) <==> BeyondDocument(segment, pageCount))
  {
    hide MatchSegment, Derives;
    forall r ensures MatchSegment(segment) == Some(r) <==> Derives(segment, r) {
      ScanIsPattern(segment, r);
    }
  }

  /** All segments are read, or the first that is refused decides. */
  lemma {:induction false} FirstRefused(segments: seq<Text>, pageCount: int) returns (i: nat)
    ensures i <= |segments| && forall j :: 0 <= j < i ==> ParseSegment(segments[j], pageCount).Success?
    ensures var result := ParseSegments(segments, pageCount);
            if i < |segments| then ParseSegment(segments[i], pageCount).Failure? && result == Failure(ParseSegment(segments[i], pageCount).error)
            else result.Success? && |result.value| == |segments|
                 && forall j :: 0 <= j < |segments| ==> result.value[j] == ParseSegment(segments[j], pageCount).value
  {
    hide ParseSegment;
    i := 0;
    if segments != [] && ParseSegment(segments[0], pageCount).Success? {
      var rest := FirstRefused(segments[1..], pageCount);
      i := rest + 1;
    }
  }

  /** A page some segment names, or any page of the document for a blank text. */
  ghost predicate AsksFor(text: Option<Text>, pageCount: int, p: int) {
    if Trimmed(text) == [] then 1 <= p <= pageCount
    else
      var segments := Split(Trimmed(text), COMMA);
      exists i, r :: 0 <= i < |segments| && Derives(segments[i], r) && r.first <= p <= r.last
  }

  predicate TooLong(text: Option<Text>) {
    |Trimmed(text)| > 200 || |Split(Trimmed(text), COMMA)| > 50
  }

  ghost predicate Accepted(text: Option<Text>, pageCount: int) {
    && 1 <= pageCount <= 9_007_199_254_740_991
    && (Trimmed(text) == []
        || (&& !TooLong(text)
            && var segments := Split(Trimmed(text), COMMA);
               forall i :: 0 <= i < |segments| ==> Selects(segments[i], pageCount)))
  }

  /** The page count itself, or the first segment that is refused, is out of bounds. */
  ghost predicate OutOfBounds(text: Option<Text>, pageCount: int) {
    || !(1 <= pageCount <= 9_007_199_254_740_991)
    || (&& Trimmed(text) != [] && !TooLong(text)
        && var segments := Split(Trimmed(text), COMMA);
           exists i :: 0 <= i < |segments| && BeyondDocument(segments[i], pageCount)
                       && forall j :: 0 <= j < i ==> Selects(segments[j], pageCount))
  }

  /**
   * Which texts are accepted, which error refuses the others, and which pages an accepted
   * one selects: exactly those that some segment names, however they are ordered, repeated
   * or overlap.
   */
  ghost predicate ReadsAs(text: Option<Text>, pageCount: int, result: Result<seq<Range>, RangeError>) {
    && (result.Success? <==> Accepted(text, pageCount))
    && (result == Failure(PageRangeOutOfBounds) <==> OutOfBounds(text, pageCount))
    && (result.Success? ==> Canonical(result.value) && forall p :: Covers(result.value, p) <==> AsksFor(text, pageCount, p))
  }

  /** The ranges read from the segments cover what the segments name. */
  lemma SegmentsCover(segments: seq<Text>, pageCount: int, p: int)
    requires ParseSegments(segments, pageCount).Success?
    ensures Covers(ParseSegments(segments, pageCount).value, p) <==>
            exists i, r :: 0 <= i < |segments| && Derives(segments[i], r) && r.first <= p <= r.last
  {
    hide ParseSegment, ParseSegments, Derives;
    var n := FirstRefused(segments, pageCount);
    var parsed := ParseSegments(segments, pageCount).value;
    forall i, r | 0 <= i < |segments| ensures Derives(segments[i], r) <==> r == parsed[i] {
      SegmentMeaning(segments[i], pageCount);
    }
    if Covers(parsed, p) {
      var i :| 0 <= i < |parsed| && parsed[i].first <= p <= parsed[i].last;
      assert Derives(segments[i], parsed[i]);
    }
  }

  lemma SegmentsRefused(segments: seq<Text>, pageCount: int)
    ensures ParseSegments(segments, pageCount).Success? <==> forall i :: 0 <= i < |segments| ==> Selects(segments[i], pageCount)
    ensures ParseSegments(segments, pageCount) == Failure(PageRangeOutOfBounds) <==>
            exists i :: 0 <= i < |segments| && BeyondDocument(segments[i], pageCount)
                        && forall j :: 0 <= j < i ==> Selects(segments[j], pageCount)
  {
    hide ParseSegment, ParseSegments, Selects, BeyondDocument;
    var n := FirstRefused(segments, pageCount);
    forall i | 0 <= i < |segments|
      ensures ParseSegment(segments[i], pageCount).Success? <==> Selects(segments[i], pageCount)
      ensures ParseSegment(segments[i], pageCount) == Failure(PageRangeOutOfBounds) <==> BeyondDocument(segments[i], pageCount)
    {
      SegmentMeaning(segments[i], pageCount);
    }
  }

  lemma WholeDocument(pageCount: int, p: int)
    requires 1 <= pageCount
    ensures Covers([Range(1, pageCount)], p) <==> 1 <= p <= pageCount
  {
    var whole := [Range(1, pageCount)];
    assert whole[0] == Range(1, pageCount);
  }

  lemma ParseMeaning(text: Option<Text>, pageCount: int)
    ensures ReadsAs(text, pageCount, Parse(text, pageCount))
  {
    hide ParseSegments, Selects, BeyondDocument, Derives, Merge, Covers;
    var segments := Split(Trimmed(text), COMMA);
    SegmentsRefused(segments, pageCount);
    if Parse(text, pageCount).Success? {
      ParsedIsInBounds(text, pageCount);
      forall p ensures Covers(Parse(text, pageCount).value, p) <==> AsksFor(text, pageCount, p) {
        if Trimmed(text) == [] {
          WholeDocument(pageCount, p);
        } else {
          SegmentsCover(segments, pageCount, p);
          SegmentsFacts(segments, pageCount);
          MergeIsCanonical(ParseSegments(segments, pageCount).value);
        }
      }
    }
  }

  method ParsePageRangeText(text: Option<Text>, pageCount: int) returns (result: Result<seq<Range>, RangeError>)
    ensures result == Parse(text, pageCount)
    ensures ReadsAs(text, pageCount, result)
    ensures result.Success? ==> result.value != [] && Canonical(result.value) && Within(result.value, 1, pageCount)
  {
    ParseMeaning(text, pageCount);
    ParsedIsInBounds(text, pageCount);
    hide ReadsAs;
    if !IsSafe(pageCount) || pageCount < 1 {
      return Failure(PageRangeOutOfBounds);
    }
    var trimmed := Trimmed(text);
    if trimmed == [] {
      return Success([Range(1, pageCount)]);
    }
    if |trimmed| > MAX_PAGE_RANGE_TEXT_LENGTH {
      return Failure(PageRangeInvalid);
    }
    var segments := Split(trimmed, COMMA);
    if |segments| > MAX_PAGE_RANGE_SEGMENTS {
      return Failure(PageRangeInvalid);
    }
    var parsed := ParseEach(segments, pageCount);
    if parsed.Failure? {
      return parsed;
    }
    var merged := MergePageRanges(parsed.value);
    return Success(merged);
  }

  // ---------- What an accepted text yields ----------

  lemma {:induction false} FormattedLengthConcat(a: seq<Range>, b: seq<Range>)
    ensures JoinedLength(FormatEach(a + b)) == JoinedLength(FormatEach(a)) + JoinedLength(FormatEach(b))
  {
    if a == [] {
      assert a + b == b;
    } else {
      FormattedLengthConcat(a[1..], b);
      assert (a + b)[1..] == a[1..] + b;
    }
  }

  /** Merging two ranges prints no longer than the two of them with their comma. */
  lemma {:induction false} MergedTextIsNoLonger(merged: seq<Range>, ordered: seq<Range>)
    ensures JoinedLength(FormatEach(MergeInto(merged, ordered))) <=
            JoinedLength(FormatEach(merged)) + JoinedLength(FormatEach(ordered))
    decreases |ordered|
  {
    if ordered != [] {
      var r := ordered[0];
      var m := Absorb(merged, r);
      if merged != [] {
        var init, last := merged[..|merged| - 1], merged[|merged| - 1];
        assert merged == init + [last];
        FormattedLengthConcat(init, [last]);
        assert m == merged + [r] || m == init + [Range(last.first, Max(last.last, r.last))];
        FormattedLengthConcat(init, [Range(last.first, Max(last.last, r.last))]);
      }
      FormattedLengthConcat(merged, [r]);
      MergedTextIsNoLonger(m, ordered[1..]);
    }
  }

  lemma {:induction false} JoinLength(parts: seq<Text>, separator: CodeUnit)
    requires parts != []
    ensures |Join(parts, separator)| + 1 == JoinedLength(parts)
  {
    if |parts| > 1 {
      JoinLength(parts[1..], separator);
    }
  }

  /**
   * The printed text fits wherever the customer's text fitted, so parsing it again
   * can meet neither the length nor the segment limit.
   */
  lemma PrintedTextIsNoLonger(text: Option<Text>, pageCount: int)
    requires Parse(text, pageCount).Success? && Trimmed(text) != []
    ensures var ranges := Parse(text, pageCount).value;
            && |FormatPageRanges(ranges)| <= |Trimmed(text)|
            && |ranges| <= |Split(Trimmed(text), COMMA)|
  {
    var trimmed := Trimmed(text);
    var segments := Split(trimmed, COMMA);
    var parsed := ParseSegments(segments, pageCount).value;
    JoinSplit(trimmed, COMMA);
    SegmentsFacts(segments, pageCount);
    SortFacts(parsed);
    MergedTextIsNoLonger([], Sort(parsed));
    MergeIsCanonical(parsed);
    ParsedIsInBounds(text, pageCount);
    JoinLength(FormatEach(Merge(parsed)), COMMA);
  }

  // ---------- The round trip ----------

  /** Every unit the printer emits is a digit, a hyphen or a comma. */
  predicate Plain(t: Text) {
    forall c :: c in t ==> IsDigit(c) || c == HYPHEN || c == COMMA
  }

  lemma NumeralIsNumber(n: nat)
    ensures Numeral(n) == Decimal(n) && Plain(Numeral(n)) && AllDigits(Decimal(n))
    ensures Number(Decimal(n)) <==> n <= 999_999
    ensures DecimalValue(Decimal(n)) == n && COMMA !in Numeral(n)
  {
    DecimalRoundTrip(n);
    SixDigits(n);
  }

  lemma BareNumberScans(d: Text)
    requires Number(d)
    ensures MatchSegment(d) == Some(Range(DecimalValue(d), DecimalValue(d)))
  {
    NoPadding(d);
    FittingTextScans(d, SinglePage([], d, []));
  }

  lemma BareSpanScans(d1: Text, d2: Text)
    requires Number(d1) && Number(d2)
    ensures MatchSegment(d1 + [HYPHEN] + d2) == Some(Range(DecimalValue(d1), DecimalValue(d2)))
  {
    var c := PageSpan([], d1, [], [], d2, []);
    var t := d1 + [HYPHEN] + d2;
    NoPadding(d2);
    NoPadding(Tail(c));
    NoPadding(d1 + Tail(c));
    assert d1 + ([HYPHEN] + d2) == t;
    FittingTextScans(t, c);
  }

  lemma FormatRangeScans(r: Range)
    requires 1 <= r.first <= r.last <= 999_999
    ensures MatchSegment(FormatRange(r)) == Some(r)
  {
    NumeralIsNumber(r.first);
    NumeralIsNumber(r.last);
    if r.first == r.last {
      BareNumberScans(Decimal(r.first));
    } else {
      BareSpanScans(Decimal(r.first), Decimal(r.last));
    }
  }

  predicate PlainPart(t: Text) {
    Plain(t) && COMMA !in t && t != []
  }

  lemma FormatRangeIsPlain(r: Range)
    requires 1 <= r.first && 1 <= r.last
    ensures PlainPart(FormatRange(r))
  {
    NumeralIsNumber(r.first);
    NumeralIsNumber(r.last);
  }

  lemma {:induction false} FormatEachIsPlain(ranges: seq<Range>)
    requires Within(ranges, 1, 999_999)
    ensures forall i :: 0 <= i < |ranges| ==> PlainPart(FormatEach(ranges)[i])
  {
    if ranges != [] {
      FormatRangeIsPlain(ranges[0]);
      FormatEachIsPlain(ranges[1..]);
    }
  }

  lemma {:induction false} FormatEachParses(ranges: seq<Range>, pageCount: int)
    requires Within(ranges, 1, Min(pageCount, 999_999))
    ensures ParseSegments(FormatEach(ranges), pageCount) == Success(ranges)
  {
    if ranges != [] {
      FormatRangeScans(ranges[0]);
      FormatEachParses(ranges[1..], pageCount);
      assert ParseSegment(FormatRange(ranges[0]), pageCount) == Success(ranges[0]);
      assert FormatEach(ranges)[1..] == FormatEach(ranges[1..]);
      assert [ranges[0]] + ranges[1..] == ranges;
    }
  }

  lemma {:induction false} JoinIsPlain(parts: seq<Text>)
    requires parts != [] && forall i :: 0 <= i < |parts| ==> PlainPart(parts[i])
    ensures Plain(Join(parts, COMMA)) && Join(parts, COMMA) != []
  {
    if |parts| > 1 {
      JoinIsPlain(parts[1..]);
    }
  }

  lemma PlainIsTrimmed(t: Text)
    requires Plain(t) && t != []
    ensures Trim(t) == t
  {
    assert t[0] in t && t[|t| - 1] in t;
    TrimStartOf([], t);
    assert [] + t == t;
  }

  /** Printing a canonical list that fits the limits and parsing it gives the list back. */
  lemma CanonicalTextParsesBack(ranges: seq<Range>, pageCount: int)
    requires IsSafe(pageCount) && ranges != [] && Canonical(ranges)
    requires Within(ranges, 1, Min(pageCount, 999_999))
    requires |FormatPageRanges(ranges)| <= MAX_PAGE_RANGE_TEXT_LENGTH && |ranges| <= MAX_PAGE_RANGE_SEGMENTS
    ensures Parse(Some(FormatPageRanges(ranges)), pageCount) == Success(ranges)
  {
    var parts := FormatEach(ranges);
    FormatEachParses(ranges, pageCount);
    FormatEachIsPlain(ranges);
    JoinIsPlain(parts);
    PlainIsTrimmed(FormatPageRanges(ranges));
    SplitJoin(parts, COMMA);
    assert ranges[0].first <= pageCount;
    MergeIsCanonical(ranges);
    CanonicalIsUnique(Merge(ranges), ranges);
  }

  lemma LongNumberDoesNotScan(digits: Text)
    requires AllDigits(digits) && |digits| > 6
    ensures ScanNumber(digits).None?
  {
    NoPadding(digits);
    assert !IsSpace(digits[0]);
    TrimStartOf([], digits);
    DigitRunOf(digits, []);
  }

  lemma BareHyphenScans(d: Text, rest: Text)
    requires Number(d) && ScanNumber(rest).None?
    ensures MatchSegment(d + [HYPHEN] + rest).None?
  {
    var tail := [HYPHEN] + rest;
    NoPadding(tail);
    NoPadding(d + tail);
    assert d + tail == d + [HYPHEN] + rest;
    ScanOf([], d, [], tail);
    assert tail[1..] == rest;
  }

  lemma SevenDigitsDoNotScan(pageCount: nat)
    requires pageCount > 999_999
    ensures MatchSegment(FormatRange(Range(1, pageCount))).None?
  {
    var digits := Decimal(pageCount);
    NumeralIsNumber(pageCount);
    NumeralIsNumber(1);
    LongNumberDoesNotScan(digits);
    BareHyphenScans(Decimal(1), digits);
  }

  /** "1-1000000" and longer: seven digits do not fit the pattern. */
  lemma LongDocumentIsRefused(pageCount: nat)
    requires pageCount > 999_999
    ensures var t := FormatPageRanges([Range(1, pageCount)]); Parse(Some(t), pageCount).Failure?
  {
    var t := FormatRange(Range(1, pageCount));
    assert FormatEach([Range(1, pageCount)]) == [t];
    FormatRangeIsPlain(Range(1, pageCount));
    PlainIsTrimmed(t);
    SplitJoin([t], COMMA);
    SevenDigitsDoNotScan(pageCount);
  }

  /**
   * Parsing the printed form of what was parsed gives it back: always for text that
   * names pages, and for a blank text exactly when the page count has six digits.
   */
  lemma PrintedTextParsesBack(text: Option<Text>, pageCount: int)
    requires Parse(text, pageCount).Success?
    ensures var ranges := Parse(text, pageCount).value;
            Parse(Some(FormatPageRanges(ranges)), pageCount) == Success(ranges) <==>
            (Trimmed(text) != [] || pageCount <= 999_999)
  {
    var ranges := Parse(text, pageCount).value;
    ParsedIsInBounds(text, pageCount);
    if Trimmed(text) != [] {
      PrintedTextIsNoLonger(text, pageCount);
      CanonicalTextParsesBack(ranges, pageCount);
    } else {
      SixDigits(pageCount);
      SixDigits(1);
      if pageCount <= 999_999 {
        assert FormatEach(ranges) == [FormatRange(ranges[0])];
        CanonicalTextParsesBack(ranges, pageCount);
      } else {
        LongDocumentIsRefused(pageCount);
      }
    }
  }
}
