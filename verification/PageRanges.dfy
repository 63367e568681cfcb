/**
 * Page selection text: the parser, the interval merge, the printer and the page
 * count of packages/domain/src/print-settings.ts, lines 171-235.
 */
module PageRanges {
  import opened CodeUnits
  import opened Wrappers

  const MAX_PAGE_RANGE_TEXT_LENGTH := 200
  const MAX_PAGE_RANGE_SEGMENTS := 50

  datatype Range = Range(first: int, last: int)

  datatype RangeError = PageRangeInvalid | PageRangeOutOfBounds

  // ---------- What a list of ranges means ----------

  predicate Within(ranges: seq<Range>, low: int, high: int) {
    forall i :: 0 <= i < |ranges| ==> low <= ranges[i].first <= ranges[i].last <= high
  }

  predicate Valid(ranges: seq<Range>) {
    forall i :: 0 <= i < |ranges| ==> ranges[i].first <= ranges[i].last
  }

  /** Page `p` is selected. */
  predicate Covers(ranges: seq<Range>, p: int) {
    exists i :: 0 <= i < |ranges| && ranges[i].first <= p <= ranges[i].last
  }

  ghost predicate SamePages(a: seq<Range>, b: seq<Range>) {
    forall p :: Covers(a, p) <==> Covers(b, p)
  }

  /** Ascending, with at least one unselected page between neighbours. */
  predicate Canonical(ranges: seq<Range>) {
    && Valid(ranges)
    && forall i, j :: 0 <= i < j < |ranges| ==> ranges[i].last + 1 < ranges[j].first
  }

  // ---------- Merging ----------

  /** The comparator `left[0] - right[0] || left[1] - right[1]` does not exceed zero. */
  predicate Before(a: Range, b: Range) {
    a.first < b.first || (a.first == b.first && a.last <= b.last)
  }

  predicate Sorted(ranges: seq<Range>) {
    forall i, j :: 0 <= i < j < |ranges| ==> Before(ranges[i], ranges[j])
  }

  function Insert(r: Range, ordered: seq<Range>): seq<Range> {
    if ordered == [] || Before(r, ordered[0]) then [r] + ordered
    else [ordered[0]] + Insert(r, ordered[1..])
  }

  /** What `Array.prototype.sort` returns for that comparator. */
  function Sort(ranges: seq<Range>): seq<Range> {
    if ranges == [] then [] else Insert(ranges[0], Sort(ranges[1..]))
  }

  function Absorb(merged: seq<Range>, r: Range): seq<Range> {
    if merged != [] && r.first <= merged[|merged| - 1].last + 1 then
      var last := merged[|merged| - 1];
      merged[|merged| - 1 := Range(last.first, Max(last.last, r.last))]
    else
      merged + [r]
  }

  function MergeInto(merged: seq<Range>, ordered: seq<Range>): seq<Range>
    decreases |ordered|
  {
    if ordered == [] then merged else MergeInto(Absorb(merged, ordered[0]), ordered[1..])
  }

  function Merge(ranges: seq<Range>): seq<Range> {
    MergeInto([], Sort(ranges))
  }

  function FormatRange(r: Range): Text {
    if r.first == r.last then Numeral(r.first) else Numeral(r.first) + [HYPHEN] + Numeral(r.last)
  }

  function FormatEach(ranges: seq<Range>): (parts: seq<Text>)
    ensures |parts| == |ranges|
  {
    if ranges == [] then [] else [FormatRange(ranges[0])] + FormatEach(ranges[1..])
  }

  lemma {:induction false} InsertKeepsOrder(r: Range, ordered: seq<Range>)
    requires Sorted(ordered)
    ensures Sorted(Insert(r, ordered))
    ensures multiset(Insert(r, ordered)) == multiset(ordered) + multiset{r}
  {
    if ordered != [] && !Before(r, ordered[0]) {
      var tail := ordered[1..];
      InsertKeepsOrder(r, tail);
      var rest := Insert(r, tail);
      assert ordered == [ordered[0]] + tail;
      forall k | 0 <= k < |rest| ensures Before(ordered[0], rest[k]) {
        assert rest[k] in multiset(rest);
        assert rest[k] == r || rest[k] in tail;
      }
    }
  }

  lemma {:induction false} InsertKeepsLength(r: Range, ordered: seq<Range>)
    ensures |Insert(r, ordered)| == |ordered| + 1
    ensures JoinedLength(FormatEach(Insert(r, ordered))) == |FormatRange(r)| + 1 + JoinedLength(FormatEach(ordered))
  {
    var inserted := Insert(r, ordered);
    if ordered == [] || Before(r, ordered[0]) {
      assert inserted[1..] == ordered;
    } else {
      InsertKeepsLength(r, ordered[1..]);
      assert inserted[1..] == Insert(r, ordered[1..]);
    }
  }

  lemma {:induction false} SortFacts(ranges: seq<Range>)
    ensures Sorted(Sort(ranges)) && |Sort(ranges)| == |ranges|
    ensures multiset(Sort(ranges)) == multiset(ranges)
    ensures JoinedLength(FormatEach(Sort(ranges))) == JoinedLength(FormatEach(ranges))
  {
    if ranges != [] {
      SortFacts(ranges[1..]);
      InsertKeepsOrder(ranges[0], Sort(ranges[1..]));
      InsertKeepsLength(ranges[0], Sort(ranges[1..]));
      assert ranges == [ranges[0]] + ranges[1..];
    }
  }

  lemma SamePagesByElements(a: seq<Range>, b: seq<Range>)
    requires multiset(a) == multiset(b)
    ensures SamePages(a, b)
    ensures Valid(a) ==> Valid(b)
    ensures forall low, high :: Within(a, low, high) ==> Within(b, low, high)
  {
    forall i | 0 <= i < |a| ensures a[i] in b {
      assert a[i] in multiset(a);
    }
    forall i | 0 <= i < |b| ensures b[i] in a {
      assert b[i] in multiset(b);
    }
  }

  lemma AbsorbFacts(merged: seq<Range>, r: Range)
    requires Canonical(merged) && r.first <= r.last
    requires merged != [] ==> merged[|merged| - 1].first <= r.first
    ensures var m := Absorb(merged, r);
            && Canonical(m) && m != [] && |m| <= |merged| + 1
            && m[|m| - 1].first <= r.first
  {
  }

  lemma CoversConcat(a: seq<Range>, b: seq<Range>, p: int)
    ensures Covers(a + b, p) <==> Covers(a, p) || Covers(b, p)
  {
    if i :| 0 <= i < |a| && a[i].first <= p <= a[i].last {
      assert (a + b)[i] == a[i];
    }
    if i :| 0 <= i < |b| && b[i].first <= p <= b[i].last {
      assert (a + b)[|a| + i] == b[i];
    }
  }

  lemma CoversCons(r: Range, rest: seq<Range>, p: int)
    ensures Covers([r] + rest, p) <==> r.first <= p <= r.last || Covers(rest, p)
  {
    CoversConcat([r], rest, p);
    assert [r][0] == r;
  }

  lemma CoversSnoc(init: seq<Range>, r: Range, p: int)
    ensures Covers(init + [r], p) <==> Covers(init, p) || r.first <= p <= r.last
  {
    CoversConcat(init, [r], p);
    CoversCons(r, [], p);
    assert [r] + [] == [r];
  }

  lemma AbsorbCovers(merged: seq<Range>, r: Range, p: int)
    requires Canonical(merged) && r.first <= r.last
    requires merged != [] ==> merged[|merged| - 1].first <= r.first
    ensures Covers(Absorb(merged, r), p) <==> Covers(merged, p) || r.first <= p <= r.last
  {
    hide Covers;
    if merged != [] {
      var n := |merged| - 1;
      var init, last := merged[..n], merged[n];
      assert merged == init + [last];
      CoversSnoc(init, last, p);
      var wider := Range(last.first, Max(last.last, r.last));
      CoversSnoc(init, wider, p);
      assert merged[n := wider] == init + [wider];
    }
    CoversSnoc(merged, r, p);
  }

  lemma {:induction false} MergeIntoFacts(merged: seq<Range>, ordered: seq<Range>)
    requires Canonical(merged) && Valid(ordered) && Sorted(ordered)
    requires merged != [] && ordered != [] ==> merged[|merged| - 1].first <= ordered[0].first
    ensures Canonical(MergeInto(merged, ordered))
    ensures |MergeInto(merged, ordered)| <= |merged| + |ordered|
    ensures SamePages(MergeInto(merged, ordered), merged + ordered)
    decreases |ordered|
  {
    if ordered == [] {
      assert merged + ordered == merged;
    } else {
      var r, rest := ordered[0], ordered[1..];
      var m := Absorb(merged, r);
      AbsorbFacts(merged, r);
      MergeIntoFacts(m, rest);
      hide Covers;
      forall p ensures Covers(m + rest, p) <==> Covers(merged + ordered, p) {
        CoversConcat(m, rest, p);
        CoversConcat(merged, ordered, p);
        CoversCons(r, rest, p);
        AbsorbCovers(merged, r, p);
        assert ordered == [r] + rest;
      }
    }
  }

  /** The merged list is sorted with real gaps and selects exactly the input's pages. */
  lemma MergeIsCanonical(ranges: seq<Range>)
    requires Valid(ranges)
    ensures Canonical(Merge(ranges))
    ensures SamePages(Merge(ranges), ranges)
    ensures |Merge(ranges)| <= |ranges|
  {
    SortFacts(ranges);
    SamePagesByElements(ranges, Sort(ranges));
    MergeIntoFacts([], Sort(ranges));
    assert [] + Sort(ranges) == Sort(ranges);
  }

  method MergePageRanges(ranges: seq<Range>) returns (merged: seq<Range>)
    ensures merged == Merge(ranges)
    ensures Valid(ranges) ==> Canonical(merged) && SamePages(merged, ranges)
  {
    var ordered := Sort(ranges);
    merged := [];
    for i := 0 to |ordered|
      invariant MergeInto(merged, ordered[i..]) == Merge(ranges)
    {
      var r := ordered[i];
      assert ordered[i..][1..] == ordered[i + 1..];
      var n := |merged|;
      if n > 0 && r.first <= merged[n - 1].last + 1 {
        merged := merged[n - 1 := Range(merged[n - 1].first, Max(merged[n - 1].last, r.last))];
      } else {
        merged := merged + [r];
      }
    }
    if Valid(ranges) {
      MergeIsCanonical(ranges);
    }
  }

  // ---------- Printing ----------

  function FormatPageRanges(ranges: seq<Range>): Text {
    Join(FormatEach(ranges), COMMA)
  }

  function CountSelectedPages(ranges: seq<Range>): int {
    if ranges == [] then 0
    else CountSelectedPages(ranges[..|ranges| - 1]) + (ranges[|ranges| - 1].last - ranges[|ranges| - 1].first + 1)
  }

  // ---------- Sorting keeps every range ----------

  // ---------- Merging is a canonical form ----------

  lemma CoversTail(ranges: seq<Range>, p: int)
    requires Canonical(ranges) && ranges != []
    ensures Covers(ranges[1..], p) <==> Covers(ranges, p) && p > ranges[0].last
  {
    if Covers(ranges, p) && p > ranges[0].last {
      var i :| 0 <= i < |ranges| && ranges[i].first <= p <= ranges[i].last;
      assert ranges[1..][i - 1] == ranges[i];
    }
    if i :| 0 <= i < |ranges| - 1 && ranges[1..][i].first <= p <= ranges[1..][i].last {
      assert ranges[i + 1] == ranges[1..][i];
    }
  }

  /** Only one canonical list selects a given set of pages. */
  lemma {:induction false} CanonicalIsUnique(a: seq<Range>, b: seq<Range>)
    requires Canonical(a) && Canonical(b) && SamePages(a, b)
    ensures a == b
  {
    assert a != [] ==> Covers(a, a[0].first);
    assert b != [] ==> Covers(b, b[0].first);
    if a != [] && b != [] {
      assert Covers(a, a[0].last) && Covers(b, b[0].last);
      assert a[0].first == b[0].first;
      assert !Covers(a, a[0].last + 1) && !Covers(b, b[0].last + 1);
      assert a[0].last == b[0].last;
      forall p ensures Covers(a[1..], p) <==> Covers(b[1..], p) {
        CoversTail(a, p);
        CoversTail(b, p);
      }
      CanonicalIsUnique(a[1..], b[1..]);
    }
  }

  /** Two range lists merge to the same list exactly when they select the same pages. */
  lemma MergeDecidesSamePages(a: seq<Range>, b: seq<Range>)
    requires Valid(a) && Valid(b)
    ensures Merge(a) == Merge(b) <==> SamePages(a, b)
  {
    MergeIsCanonical(a);
    MergeIsCanonical(b);
    if SamePages(a, b) {
      CanonicalIsUnique(Merge(a), Merge(b));
    } else {
      var p :| Covers(a, p) != Covers(b, p);
      assert Covers(Merge(a), p) != Covers(Merge(b), p);
    }
  }

  // ---------- Counting ----------

  function Span(first: int, last: int): (pages: set<int>)
    ensures forall p :: p in pages <==> first <= p <= last
    ensures first <= last + 1 ==> |pages| == last - first + 1
    decreases last - first + 1
  {
    if last < first then {} else Span(first, last - 1) + {last}
  }

  /** The pages a list selects, each of them once. */
  function PageSet(ranges: seq<Range>): (pages: set<int>)
    ensures forall p :: p in pages <==> Covers(ranges, p)
  {
    if ranges == [] then {}
    else
      var init, r := ranges[..|ranges| - 1], ranges[|ranges| - 1];
      assert forall p :: Covers(ranges, p) <==> Covers(init, p) || r.first <= p <= r.last by {
        forall p ensures Covers(ranges, p) <==> Covers(init, p) || r.first <= p <= r.last {
          CoversSnoc(init, r, p);
          assert ranges == init + [r];
        }
      }
      PageSet(init) + Span(r.first, r.last)
  }

  /** On a canonical list the running total counts every selected page once. */
  lemma {:induction false} CountIsPageSetSize(ranges: seq<Range>)
    requires Canonical(ranges)
    ensures CountSelectedPages(ranges) == |PageSet(ranges)|
  {
    if ranges != [] {
      var init, r := ranges[..|ranges| - 1], ranges[|ranges| - 1];
      CountIsPageSetSize(init);
      assert PageSet(init) !! Span(r.first, r.last);
    }
  }

  lemma SamePagesSameSet(a: seq<Range>, b: seq<Range>)
    requires SamePages(a, b)
    ensures PageSet(a) == PageSet(b)
  {
    hide Covers;
  }

  /** Overlaps and duplicates never change what is charged. */
  lemma MergedCountIsPageSetSize(ranges: seq<Range>)
    requires Valid(ranges)
    ensures CountSelectedPages(Merge(ranges)) == |PageSet(ranges)|
  {
    MergeIsCanonical(ranges);
    CountIsPageSetSize(Merge(ranges));
    SamePagesSameSet(Merge(ranges), ranges);
  }
}
