/**
 * What normalization promises: exactly which requests it accepts, what every
 * normalized document says, and that its stored form normalizes to itself.
 */
module PrintSettingsLaws {
  import opened CodeUnits
  import opened PageRanges
  import opened PageRangeText
  import opened PrintSettings
  import opened Wrappers

  // ---------- Identifiers and maps ----------

  predicate Distinct(ids: seq<Text>) {
    forall i, j :: 0 <= i < j < |ids| ==> ids[i] != ids[j]
  }

  /** `order` lists every member of `ids` once. */
  predicate Enumerates(order: seq<Text>, ids: set<Text>) {
    Distinct(order) && Elements(order) == ids
  }

  function FileIds(files: seq<SelectableFile>): (ids: seq<Text>)
    ensures |ids| == |files| && forall i :: 0 <= i < |files| ==> ids[i] == files[i].id
  {
    seq(|files|, i requires 0 <= i < |files| => files[i].id)
  }

  function SelectionIds(selections: seq<FileSelection>): (ids: seq<Text>)
    ensures |ids| == |selections| && forall i :: 0 <= i < |selections| ==> ids[i] == selections[i].fileId
  {
    seq(|selections|, i requires 0 <= i < |selections| => selections[i].fileId)
  }

  lemma {:induction false} SetSizeCountsDistinct(ids: seq<Text>)
    ensures |Elements(ids)| <= |ids|
    ensures |Elements(ids)| == |ids| <==> Distinct(ids)
  {
    if ids != [] {
      var init, last := ids[..|ids| - 1], ids[|ids| - 1];
      SetSizeCountsDistinct(init);
      assert ids == init + [last];
      assert Elements(ids) == Elements(init) + {last};
      if last in init {
        var i :| 0 <= i < |init| && init[i] == last;
        assert ids[i] == ids[|ids| - 1];
        assert Elements(ids) == Elements(init);
      } else if Distinct(init) {
        assert Distinct(ids);
      }
    }
  }

  lemma SubsetOfSameSize<T>(a: set<T>, b: set<T>)
    requires a <= b && |a| == |b|
    ensures a == b
  {
    assert |b - a| == |b| - |a|;
  }

  lemma {:induction false} FileMapKeys(files: seq<SelectableFile>)
    ensures FileMap(files).Keys == Elements(FileIds(files))
    ensures forall id :: id in FileMap(files) ==> FileMap(files)[id] in files && FileMap(files)[id].id == id
  {
    if files != [] {
      var init, last := files[..|files| - 1], files[|files| - 1];
      FileMapKeys(init);
      assert files == init + [last];
      assert FileIds(files) == FileIds(init) + [last.id];
      assert Elements(FileIds(files)) == Elements(FileIds(init)) + {last.id};
    }
  }

  /** Nothing later in the list has the name of this document. */
  predicate LastOfItsName(files: seq<SelectableFile>, i: nat)
    requires i < |files|
  {
    forall j :: i < j < |files| ==> files[j].id != files[i].id
  }

  lemma {:induction false} LastOfItsNameIsFound(files: seq<SelectableFile>, i: nat)
    requires i < |files| && LastOfItsName(files, i)
    ensures files[i].id in FileMap(files) && FileMap(files)[files[i].id] == files[i]
  {
    var init := files[..|files| - 1];
    if i < |init| {
      assert files[|files| - 1].id != files[i].id;
      LastOfItsNameIsFound(init, i);
    }
  }

  lemma {:induction false} SelectionMapMeaning(selections: seq<FileSelection>)
    ensures SelectionMap(selections).Some? <==> Distinct(SelectionIds(selections))
    ensures SelectionMap(selections).Some? ==>
              && SelectionMap(selections).value.Keys == Elements(SelectionIds(selections))
              && forall s :: s in selections ==> s.fileId in SelectionMap(selections).value && SelectionMap(selections).value[s.fileId] == s
  {
    if selections != [] {
      var init, last := selections[..|selections| - 1], selections[|selections| - 1];
      SelectionMapMeaning(init);
      assert selections == init + [last];
      var ids := SelectionIds(init);
      assert SelectionIds(selections) == ids + [last.fileId];
      assert Elements(ids + [last.fileId]) == Elements(ids) + {last.fileId};
      if SelectionMap(init).Some? && last.fileId !in ids {
        forall i, j | 0 <= i < j < |ids| + 1 ensures (ids + [last.fileId])[i] != (ids + [last.fileId])[j] {
          assert ids[i] in ids;
        }
        forall s | s in selections ensures (s in init && s.fileId in ids) || s == last {
          if s in init {
            var k :| 0 <= k < |init| && init[k] == s;
            assert ids[k] == s.fileId;
          }
        }
      } else if SelectionMap(init).Some? {
        var k :| 0 <= k < |ids| && ids[k] == last.fileId;
        assert (ids + [last.fileId])[k] == (ids + [last.fileId])[|ids|];
      } else {
        var i, j :| 0 <= i < j < |ids| && ids[i] == ids[j];
        assert (ids + [last.fileId])[i] == (ids + [last.fileId])[j];
      }
    }
  }

  // ---------- Which requests are accepted ----------

  predicate DeviceOffers(selection: FileSelection, context: Context) {
    selection.duplex in context.capabilities.duplexModes && selection.orientation in context.capabilities.orientations
  }

  /** Neither the deployment nor the device is asked for more than it allows. */
  predicate CopiesAllowed(selection: FileSelection, context: Context) {
    && 1 <= selection.copies <= 9_007_199_254_740_991
    && selection.copies <= context.limits.maxCopies && selection.copies <= context.capabilities.maxCopies
  }

  predicate FilePrintable(file: SelectableFile, selection: FileSelection, context: Context) {
    DeviceOffers(selection, context) && CopiesAllowed(selection, context) && Parse(selection.pageRanges, file.pageCount).Success?
  }

  predicate OnePrintable(id: Text, available: map<Text, SelectableFile>, selected: map<Text, FileSelection>, context: Context) {
    id in available && id in selected && FilePrintable(available[id], selected[id], context)
  }

  /** Every named document exists, is selected, and can be printed as asked. */
  predicate EachPrintable(order: seq<Text>, available: map<Text, SelectableFile>, selected: map<Text, FileSelection>, context: Context) {
    forall i :: 0 <= i < |order| ==> OnePrintable(order[i], available, selected, context)
  }

  function RequestedPages(file: SelectableFile, selection: FileSelection): int {
    match Parse(selection.pageRanges, file.pageCount)
    case Success(ranges) => |PageSet(ranges)|
    case Failure(_) => 0
  }

  /** The distinct pages chosen over all documents. */
  function TotalPages(order: seq<Text>, available: map<Text, SelectableFile>, selected: map<Text, FileSelection>): int
    requires forall i :: 0 <= i < |order| ==> order[i] in available && order[i] in selected
  {
    if order == [] then 0
    else
      var id := order[|order| - 1];
      TotalPages(order[..|order| - 1], available, selected) + RequestedPages(available[id], selected[id])
  }

  /** The sides printed over all documents, copies included. */
  function TotalSides(order: seq<Text>, available: map<Text, SelectableFile>, selected: map<Text, FileSelection>): int
    requires forall i :: 0 <= i < |order| ==> order[i] in available && order[i] in selected
  {
    if order == [] then 0
    else
      var id := order[|order| - 1];
      TotalSides(order[..|order| - 1], available, selected) + RequestedPages(available[id], selected[id]) * selected[id].copies
  }

  /** A sheet a page, or a sheet for two pages and one more for an odd page. */
  function SheetsFor(pages: int, duplex: DuplexMode): int {
    if duplex.Simplex? then pages else pages / 2 + pages % 2
  }

  /** The sheets fed over all documents, copies included. */
  function TotalSheets(order: seq<Text>, available: map<Text, SelectableFile>, selected: map<Text, FileSelection>): int
    requires forall i :: 0 <= i < |order| ==> order[i] in available && order[i] in selected
  {
    if order == [] then 0
    else
      var id := order[|order| - 1];
      TotalSheets(order[..|order| - 1], available, selected)
      + SheetsFor(RequestedPages(available[id], selected[id]), selected[id].duplex) * selected[id].copies
  }

  lemma PagesWithinDocument(ranges: seq<Range>, pageCount: int)
    requires ranges != [] && Within(ranges, 1, pageCount)
    ensures 1 <= |PageSet(ranges)| <= pageCount
  {
    assert PageSet(ranges) <= Span(1, pageCount);
    assert |Span(1, pageCount) - PageSet(ranges)| == |Span(1, pageCount)| - |PageSet(ranges)|;
    assert Covers(ranges, ranges[0].first);
    assert ranges[0].first in PageSet(ranges);
  }

  lemma SheetsBounds(pages: nat, copies: int, duplex: DuplexMode)
    requires pages >= 1 && copies >= 1
    ensures var sheets := SheetsPerCopy(pages, duplex);
            && 1 <= sheets <= pages && 1 <= sheets * copies <= pages * copies && pages <= pages * copies
            && (if duplex.Simplex? then sheets == pages else pages <= 2 * sheets <= pages + 1)
  {
  }

  /** What a normalized document says about the request and the stored document. */
  predicate Describes(f: NormalizedFile, fileId: Text, file: SelectableFile, selection: FileSelection, position: nat) {
    && f.fileId == fileId && f.position == position
    && f.pageCount == file.pageCount && f.processingRevision == file.processingRevision
    && f.contentSha256 == file.contentSha256
    && f.copies == selection.copies && f.duplex == selection.duplex && f.orientation == selection.orientation
    // The pages: canonical, inside the document, counted once each.
    && Parse(selection.pageRanges, file.pageCount) == Success(f.pageRanges)
    && Canonical(f.pageRanges) && Within(f.pageRanges, 1, f.pageCount)
    && f.pageRangeText == FormatPageRanges(f.pageRanges)
    && f.selectedPages == |PageSet(f.pageRanges)| && 1 <= f.selectedPages <= f.pageCount
    // The output: one side a page and copy, and the sheets those sides need.
    && f.printedSidesPerCopy == f.selectedPages
    && f.printedSides == f.selectedPages * f.copies && f.physicalSheets == f.physicalSheetsPerCopy * f.copies
    && (if f.duplex.Simplex? then f.physicalSheetsPerCopy == f.selectedPages
        else f.selectedPages <= 2 * f.physicalSheetsPerCopy <= f.selectedPages + 1)
    && 1 <= f.physicalSheets <= f.printedSides && f.selectedPages <= f.printedSides && 1 <= f.copies
  }

  /** The error one document is refused with: the first of the checks it fails. */
  predicate FileRefused(file: SelectableFile, selection: FileSelection, context: Context, error: SettingsError) {
    match error
    case UnsupportedPrintSetting => !DeviceOffers(selection, context)
    case CopiesOutOfRange => DeviceOffers(selection, context) && !CopiesAllowed(selection, context)
    case PageRange(range) =>
      DeviceOffers(selection, context) && CopiesAllowed(selection, context)
      && Parse(selection.pageRanges, file.pageCount) == Failure(range)
    case _ => false
  }

  /** One document: refused exactly when it is not printable, with which error, and what it becomes otherwise. */
  lemma NormalizeFileMeaning(fileId: Text, file: SelectableFile, selection: FileSelection, position: nat, context: Context)
    ensures var result := NormalizeFile(fileId, file, selection, position, context.capabilities, CopyCeiling(context));
            && (result.Success? <==> FilePrintable(file, selection, context))
            && (forall error :: result == Failure(error) <==> FileRefused(file, selection, context, error))
            && (result.Success? ==> Describes(result.value, fileId, file, selection, position))
  {
    var result := NormalizeFile(fileId, file, selection, position, context.capabilities, CopyCeiling(context));
    if result.Success? {
      var ranges := Parse(selection.pageRanges, file.pageCount).value;
      ParsedIsInBounds(selection.pageRanges, file.pageCount);
      CountIsPageSetSize(ranges);
      PagesWithinDocument(ranges, file.pageCount);
      SheetsBounds(|PageSet(ranges)|, selection.copies, selection.duplex);
    }
  }

  predicate AllDescribed(files: seq<NormalizedFile>, order: seq<Text>, available: map<Text, SelectableFile>, selected: map<Text, FileSelection>) {
    && |files| == |order|
    && forall i :: 0 <= i < |order| ==>
         order[i] in available && order[i] in selected
         && Describes(files[i], order[i], available[order[i]], selected[order[i]], i)
  }

  lemma EachPrintableSnoc(order: seq<Text>, available: map<Text, SelectableFile>, selected: map<Text, FileSelection>, context: Context)
    ensures order == [] ==> EachPrintable(order, available, selected, context)
    ensures order != [] ==>
              (EachPrintable(order, available, selected, context) <==>
               EachPrintable(order[..|order| - 1], available, selected, context)
               && OnePrintable(order[|order| - 1], available, selected, context))
  {
    hide OnePrintable;
    if order != [] {
      var init := order[..|order| - 1];
      assert forall i :: 0 <= i < |init| ==> init[i] == order[i];
    }
  }

  /** A name that is unknown or not selected is refused before its document is looked at. */
  predicate OneRefused(
    id: Text, available: map<Text, SelectableFile>, selected: map<Text, FileSelection>, context: Context, error: SettingsError
  ) {
    if id !in available then error == FileOrderInvalid
    else if id !in selected then error == FileSelectionInvalid
    else FileRefused(available[id], selected[id], context, error)
  }

  lemma NormalizeOneAccepts(
    id: Text, position: nat, available: map<Text, SelectableFile>, selected: map<Text, FileSelection>, context: Context)
    ensures var result := NormalizeOne(id, position, available, selected, context.capabilities, CopyCeiling(context));
            && (result.Success? <==> OnePrintable(id, available, selected, context))
            && (forall error :: result == Failure(error) <==> OneRefused(id, available, selected, context, error))
  {
    hide NormalizeFile, FilePrintable, FileRefused, Describes;
    if id in available && id in selected {
      NormalizeFileMeaning(id, available[id], selected[id], position, context);
    }
  }

  /** The first document in the order that cannot be printed decides the error. */
  predicate FirstRefused(
    order: seq<Text>, available: map<Text, SelectableFile>, selected: map<Text, FileSelection>, context: Context, error: SettingsError
  ) {
    exists i :: 0 <= i < |order| && OneRefused(order[i], available, selected, context, error)
                && EachPrintable(order[..i], available, selected, context)
  }

  lemma FirstRefusedSnoc(
    order: seq<Text>, available: map<Text, SelectableFile>, selected: map<Text, FileSelection>, context: Context, error: SettingsError)
    requires order != []
    ensures var init, last := order[..|order| - 1], order[|order| - 1];
            FirstRefused(order, available, selected, context, error) <==>
            FirstRefused(init, available, selected, context, error)
            || (EachPrintable(init, available, selected, context) && OneRefused(last, available, selected, context, error))
  {
    hide OneRefused, EachPrintable;
    var n := |order| - 1;
    assert forall i :: 0 <= i < n ==> order[..n][i] == order[i] && order[..n][..i] == order[..i];
  }

  lemma {:induction false} NormalizeFilesAccepts(
    order: seq<Text>, available: map<Text, SelectableFile>, selected: map<Text, FileSelection>, context: Context)
    ensures var result := NormalizeFiles(order, available, selected, context.capabilities, CopyCeiling(context));
            && (result.Success? <==> EachPrintable(order, available, selected, context))
            && (forall error :: result == Failure(error) <==> FirstRefused(order, available, selected, context, error))
  {
    hide NormalizeOne, EachPrintable, OnePrintable, OneRefused;
    EachPrintableSnoc(order, available, selected, context);
    if order != [] {
      var n := |order| - 1;
      NormalizeFilesAccepts(order[..n], available, selected, context);
      NormalizeOneAccepts(order[n], n, available, selected, context);
      forall error ensures FirstRefused(order, available, selected, context, error) <==>
        FirstRefused(order[..n], available, selected, context, error)
        || (EachPrintable(order[..n], available, selected, context) && OneRefused(order[n], available, selected, context, error)) {
        FirstRefusedSnoc(order, available, selected, context, error);
      }
      hide FirstRefused;
    }
  }

  lemma {:induction false} NormalizeFilesDescribe(
    order: seq<Text>, available: map<Text, SelectableFile>, selected: map<Text, FileSelection>, context: Context)
    requires EachPrintable(order, available, selected, context)
    ensures NormalizeFiles(order, available, selected, context.capabilities, CopyCeiling(context)).Success?
    ensures AllDescribed(NormalizeFiles(order, available, selected, context.capabilities, CopyCeiling(context)).value,
                         order, available, selected)
  {
    hide NormalizeFile, FilePrintable, Describes;
    NormalizeFilesAccepts(order, available, selected, context);
    if order != [] {
      var n := |order| - 1;
      var init, id := order[..n], order[n];
      NormalizeFilesDescribe(init, available, selected, context);
      NormalizeFileMeaning(id, available[id], selected[id], n, context);
      var earlier := NormalizeFiles(init, available, selected, context.capabilities, CopyCeiling(context)).value;
      var files := NormalizeFiles(order, available, selected, context.capabilities, CopyCeiling(context)).value;
      assert files == earlier + [files[n]];
    }
  }

  lemma AllDescribedInit(
    files: seq<NormalizedFile>, order: seq<Text>, available: map<Text, SelectableFile>, selected: map<Text, FileSelection>)
    requires AllDescribed(files, order, available, selected) && order != []
    ensures AllDescribed(files[..|order| - 1], order[..|order| - 1], available, selected)
  {
    hide Describes;
  }

  lemma DescribedRequest(f: NormalizedFile, fileId: Text, file: SelectableFile, selection: FileSelection, position: nat)
    requires Describes(f, fileId, file, selection, position)
    ensures f.selectedPages == RequestedPages(file, selection)
    ensures f.printedSides == RequestedPages(file, selection) * selection.copies
    ensures f.physicalSheetsPerCopy == SheetsFor(RequestedPages(file, selection), selection.duplex)
    ensures f.physicalSheets == f.physicalSheetsPerCopy * selection.copies
  {
    hide Canonical, Within, PageSet, FormatPageRanges;
  }

  lemma {:induction false} DescribedTotals(
    files: seq<NormalizedFile>, order: seq<Text>, available: map<Text, SelectableFile>, selected: map<Text, FileSelection>)
    requires AllDescribed(files, order, available, selected)
    ensures SumSelected(files) == TotalPages(order, available, selected)
    ensures SumSides(files) == TotalSides(order, available, selected)
  {
    if order != [] {
      var n := |order| - 1;
      AllDescribedInit(files, order, available, selected);
      DescribedTotals(files[..n], order[..n], available, selected);
      DescribedRequest(files[n], order[n], available[order[n]], selected[order[n]], n);
      hide Describes;
    }
  }

  lemma {:induction false} DescribedSheets(
    files: seq<NormalizedFile>, order: seq<Text>, available: map<Text, SelectableFile>, selected: map<Text, FileSelection>)
    requires AllDescribed(files, order, available, selected)
    ensures SumSheets(files) == TotalSheets(order, available, selected)
  {
    if order != [] {
      var n := |order| - 1;
      AllDescribedInit(files, order, available, selected);
      DescribedSheets(files[..n], order[..n], available, selected);
      DescribedRequest(files[n], order[n], available[order[n]], selected[order[n]], n);
      hide Describes, RequestedPages, SheetsFor;
    }
  }

  /** The request names the session's documents once each, and selects each of them once. */
  predicate OneToOne(input: SettingsInput, context: Context) {
    && Enumerates(input.fileOrder, Elements(FileIds(context.files)))
    && Enumerates(SelectionIds(input.fileSelections), Elements(input.fileOrder))
  }

  /** The length and duplicate checks, followed by a lookup of every name, amount to a bijection. */
  lemma LengthsAndLookupsAreOneToOne(input: SettingsInput, context: Context)
    ensures var available := FileMap(context.files);
            var selected := SelectionMap(input.fileSelections);
            OneToOne(input, context) <==>
            && |input.fileOrder| == |available| && |Elements(input.fileOrder)| == |input.fileOrder|
            && |input.fileSelections| == |input.fileOrder| && selected.Some?
            && forall i :: 0 <= i < |input.fileOrder| ==>
                 input.fileOrder[i] in available && input.fileOrder[i] in selected.value
  {
    var order, ids := input.fileOrder, SelectionIds(input.fileSelections);
    var available := FileMap(context.files);
    FileMapKeys(context.files);
    SelectionMapMeaning(input.fileSelections);
    SetSizeCountsDistinct(order);
    SetSizeCountsDistinct(ids);
    assert |available| == |available.Keys|;
    forall i | 0 <= i < |order| ensures order[i] in Elements(order) {
    }
    if |order| == |available| && |Elements(order)| == |order| && |ids| == |order| && Distinct(ids)
      && (forall i :: 0 <= i < |order| ==> order[i] in available && order[i] in Elements(ids)) {
      SubsetOfSameSize(Elements(order), available.Keys);
      SubsetOfSameSize(Elements(order), Elements(ids));
    }
  }

  predicate WithinLimits(pages: int, sides: int, limits: Limits) {
    1 <= pages <= limits.maxSelectedPages && sides <= limits.maxPrintedSides
  }

  /** What the device must offer to any request at all. */
  predicate Offered(input: SettingsInput, context: Context) {
    && input.paperSize in context.capabilities.paperSizes && input.scaling in context.capabilities.scalingModes
    && Monochrome in context.capabilities.colorModes
  }

  /** A request is accepted exactly when all of this can be read off it. */
  predicate Acceptable(input: SettingsInput, context: Context) {
    && Offered(input, context)
    && OneToOne(input, context)
    && SelectionMap(input.fileSelections).Some?
    && var available, selected := FileMap(context.files), SelectionMap(input.fileSelections).value;
    && EachPrintable(input.fileOrder, available, selected, context)
    && WithinLimits(TotalPages(input.fileOrder, available, selected), TotalSides(input.fileOrder, available, selected), context.limits)
  }

  lemma EachIsNamed(order: seq<Text>, available: map<Text, SelectableFile>, selected: map<Text, FileSelection>, context: Context)
    requires EachPrintable(order, available, selected, context)
    ensures forall i :: 0 <= i < |order| ==> order[i] in available && order[i] in selected
  {
    forall i | 0 <= i < |order| ensures order[i] in available && order[i] in selected {
      assert OnePrintable(order[i], available, selected, context);
    }
  }

  /** The error a request is refused with: checks of the whole, then each document in order, then the totals. */
  predicate Refused(input: SettingsInput, context: Context, error: SettingsError) {
    var order, ids := input.fileOrder, SelectionIds(input.fileSelections);
    var available := FileMap(context.files);
    if !Offered(input, context) then error == UnsupportedPrintSetting
    else if |order| != |available| || !Distinct(order) then error == FileOrderInvalid
    else if |ids| != |order| || !Distinct(ids) then error == FileSelectionInvalid
    else
      && SelectionMap(input.fileSelections).Some?
      && var selected := SelectionMap(input.fileSelections).value;
         if EachPrintable(order, available, selected, context) then
           match error
           case NoSelectedPages => order == []
           case SelectedPageLimitExceeded => order != [] && context.limits.maxSelectedPages < TotalPages(order, available, selected)
           case PrintedSideLimitExceeded =>
             order != [] && TotalPages(order, available, selected) <= context.limits.maxSelectedPages
             && context.limits.maxPrintedSides < TotalSides(order, available, selected)
           case _ => false
         else FirstRefused(order, available, selected, context, error)
  }

  lemma RequestedIsPositive(file: SelectableFile, selection: FileSelection)
    requires Parse(selection.pageRanges, file.pageCount).Success?
    ensures RequestedPages(file, selection) >= 1
  {
    ParsedIsInBounds(selection.pageRanges, file.pageCount);
    PagesWithinDocument(Parse(selection.pageRanges, file.pageCount).value, file.pageCount);
  }

  /** Every printable document adds a page at least, so only an empty request selects none. */
  lemma {:induction false} TotalIsPositive(
    order: seq<Text>, available: map<Text, SelectableFile>, selected: map<Text, FileSelection>, context: Context)
    requires EachPrintable(order, available, selected, context)
    requires forall i :: 0 <= i < |order| ==> order[i] in available && order[i] in selected
    ensures TotalPages(order, available, selected) >= |order| && (order == [] ==> TotalPages(order, available, selected) == 0)
  {
    hide RequestedPages;
    if order != [] {
      var n := |order| - 1;
      EachPrintableSnoc(order, available, selected, context);
      TotalIsPositive(order[..n], available, selected, context);
      RequestedIsPositive(available[order[n]], selected[order[n]]);
    }
  }

  lemma NormalizeAcceptsExactly(input: SettingsInput, context: Context)
    ensures Normalize(input, context).Success? <==> Acceptable(input, context)
    ensures forall error :: Normalize(input, context) == Failure(error) <==> Refused(input, context, error)
  {
    hide OneToOne, OnePrintable, EachPrintable, FirstRefused, AllDescribed, Elements, Distinct, FileMap, SelectionMap, NormalizeFiles, TotalPages, TotalSides;
    LengthsAndLookupsAreOneToOne(input, context);
    SetSizeCountsDistinct(input.fileOrder);
    SelectionMapMeaning(input.fileSelections);
    if SelectionMap(input.fileSelections).Some? {
      var available, selected := FileMap(context.files), SelectionMap(input.fileSelections).value;
      NormalizeFilesAccepts(input.fileOrder, available, selected, context);
      if EachPrintable(input.fileOrder, available, selected, context) {
        NormalizeFilesDescribe(input.fileOrder, available, selected, context);
        DescribedTotals(NormalizeFiles(input.fileOrder, available, selected, context.capabilities, CopyCeiling(context)).value,
                        input.fileOrder, available, selected);
        EachIsNamed(input.fileOrder, available, selected, context);
        TotalIsPositive(input.fileOrder, available, selected, context);
      }
    }
  }

  /** The totals are those of the documents that were asked for. */
  predicate Totaled(n: NormalizedSettings, order: seq<Text>, available: map<Text, SelectableFile>, selected: map<Text, FileSelection>) {
    && (forall i :: 0 <= i < |order| ==> order[i] in available && order[i] in selected)
    && n.selectedPages == TotalPages(order, available, selected)
    && n.printedSides == TotalSides(order, available, selected)
    && n.physicalSheets == TotalSheets(order, available, selected)
  }

  lemma DescribedAreTotaled(
    n: NormalizedSettings, order: seq<Text>, available: map<Text, SelectableFile>, selected: map<Text, FileSelection>)
    requires AllDescribed(n.files, order, available, selected)
    requires n.selectedPages == SumSelected(n.files) && n.printedSides == SumSides(n.files) && n.physicalSheets == SumSheets(n.files)
    ensures Totaled(n, order, available, selected)
  {
    DescribedTotals(n.files, order, available, selected);
    DescribedSheets(n.files, order, available, selected);
    hide Describes;
  }

  /** What an accepted request becomes: one described document per name, and exact totals. */
  lemma NormalizedMeaning(input: SettingsInput, context: Context)
    requires Normalize(input, context).Success?
    ensures var n := Normalize(input, context).value;
            && OneToOne(input, context) && SelectionMap(input.fileSelections).Some?
            && AllDescribed(n.files, input.fileOrder, FileMap(context.files), SelectionMap(input.fileSelections).value)
            && n.files != []
            && n.selectedPages == SumSelected(n.files) && n.printedSides == SumSides(n.files) && n.physicalSheets == SumSheets(n.files)
            && Totaled(n, input.fileOrder, FileMap(context.files), SelectionMap(input.fileSelections).value)
            && WithinLimits(n.selectedPages, n.printedSides, context.limits)
            && n.paperSize == input.paperSize && n.scaling == input.scaling && n.collate == input.collate
            && n.capabilityVersion == context.capabilities.version
  {
    hide Totaled, OnePrintable, AllDescribed, EachPrintable, OneToOne, Elements, FileMap, SelectionMap, NormalizeFiles, TotalPages, TotalSides;
    NormalizeAcceptsExactly(input, context);
    NormalizeFilesDescribe(input.fileOrder, FileMap(context.files), SelectionMap(input.fileSelections).value, context);
    DescribedAreTotaled(Normalize(input, context).value, input.fileOrder, FileMap(context.files), SelectionMap(input.fileSelections).value);
    assert Normalize(input, context).value.selectedPages >= 1;
  }

  // ---------- The stored form normalizes to itself ----------

  function StoredSelection(f: NormalizedFile): FileSelection {
    FileSelection(f.fileId, Some(f.pageRangeText), f.copies, f.duplex, f.orientation)
  }

  function StoredSelections(files: seq<NormalizedFile>): (selections: seq<FileSelection>)
    ensures |selections| == |files|
    ensures forall i :: 0 <= i < |files| ==> selections[i] == StoredSelection(files[i])
  {
    seq(|files|, i requires 0 <= i < |files| => StoredSelection(files[i]))
  }

  function StoredInput(n: NormalizedSettings): SettingsInput {
    SettingsInput(SelectionIds(StoredSelections(n.files)), StoredSelections(n.files), n.paperSize, n.scaling, n.collate)
  }

  /** The text a document's selection carried names pages, or its page count has at most six digits. */
  predicate TextSurvives(selection: FileSelection, file: SelectableFile) {
    Trimmed(selection.pageRanges) != [] || file.pageCount <= 999_999
  }

  lemma StoredFileNormalizes(fileId: Text, file: SelectableFile, selection: FileSelection, position: nat, context: Context)
    requires FilePrintable(file, selection, context)
    ensures var f := NormalizeFile(fileId, file, selection, position, context.capabilities, CopyCeiling(context)).value;
            NormalizeFile(fileId, file, StoredSelection(f), position, context.capabilities, CopyCeiling(context)) == Success(f)
            <==> TextSurvives(selection, file)
  {
    NormalizeFileMeaning(fileId, file, selection, position, context);
    PrintedTextParsesBack(selection.pageRanges, file.pageCount);
  }

  lemma {:induction false} NormalizeFilesPointwise(
    order: seq<Text>, available: map<Text, SelectableFile>, selected: map<Text, FileSelection>, context: Context, files: seq<NormalizedFile>)
    ensures NormalizeFiles(order, available, selected, context.capabilities, CopyCeiling(context)) == Success(files) <==>
            && |files| == |order|
            && forall i :: 0 <= i < |order| ==>
                 NormalizeOne(order[i], i, available, selected, context.capabilities, CopyCeiling(context)) == Success(files[i])
  {
    hide NormalizeOne;
    if order != [] {
      var n := |order| - 1;
      if |files| == |order| {
        NormalizeFilesPointwise(order[..n], available, selected, context, files[..n]);
        assert files == files[..n] + [files[n]];
      }
      var result := NormalizeFiles(order, available, selected, context.capabilities, CopyCeiling(context));
      if result.Success? {
        var earlier := NormalizeFiles(order[..n], available, selected, context.capabilities, CopyCeiling(context)).value;
        NormalizeFilesPointwise(order[..n], available, selected, context, earlier);
        assert result.value[..n] == earlier;
      }
    }
  }

  predicate EachNamed(input: SettingsInput, context: Context) {
    && SelectionMap(input.fileSelections).Some?
    && forall i :: 0 <= i < |input.fileOrder| ==>
         input.fileOrder[i] in FileMap(context.files) && input.fileOrder[i] in SelectionMap(input.fileSelections).value
  }

  predicate EveryTextSurvives(input: SettingsInput, context: Context)
    requires EachNamed(input, context)
  {
    forall i :: 0 <= i < |input.fileOrder| ==>
      TextSurvives(SelectionMap(input.fileSelections).value[input.fileOrder[i]], FileMap(context.files)[input.fileOrder[i]])
  }

  lemma StoredSelectionsAreIndexed(n: NormalizedSettings, order: seq<Text>)
    requires |n.files| == |order| && Distinct(order)
    requires forall i :: 0 <= i < |order| ==> n.files[i].fileId == order[i]
    ensures StoredInput(n).fileOrder == order
    ensures SelectionMap(StoredSelections(n.files)).Some?
    ensures var m := SelectionMap(StoredSelections(n.files)).value;
            forall i :: 0 <= i < |order| ==> order[i] in m && m[order[i]] == StoredSelection(n.files[i])
  {
    var stored := StoredSelections(n.files);
    assert SelectionIds(stored) == order;
    SelectionMapMeaning(stored);
    forall i | 0 <= i < |order| ensures stored[i] in stored && stored[i].fileId == order[i] {
    }
  }

  /** One stored document, looked up by its name on both sides. */
  lemma StoredOneNormalizes(
    id: Text, i: nat, available: map<Text, SelectableFile>, selected: map<Text, FileSelection>,
    stored: map<Text, FileSelection>, context: Context, f: NormalizedFile)
    requires OnePrintable(id, available, selected, context)
    requires NormalizeOne(id, i, available, selected, context.capabilities, CopyCeiling(context)) == Success(f)
    requires id in stored && stored[id] == StoredSelection(f)
    ensures NormalizeOne(id, i, available, stored, context.capabilities, CopyCeiling(context)) == Success(f)
            <==> TextSurvives(selected[id], available[id])
  {
    hide NormalizeFile, FilePrintable;
    StoredFileNormalizes(id, available[id], selected[id], i, context);
  }

  lemma NamesInOrder(files: seq<NormalizedFile>, order: seq<Text>, available: map<Text, SelectableFile>, selected: map<Text, FileSelection>)
    requires AllDescribed(files, order, available, selected)
    ensures |files| == |order| && forall i :: 0 <= i < |order| ==> files[i].fileId == order[i]
  {
  }

  lemma StoredFilesNormalize(
    order: seq<Text>, available: map<Text, SelectableFile>, selected: map<Text, FileSelection>,
    stored: map<Text, FileSelection>, context: Context, files: seq<NormalizedFile>)
    requires EachPrintable(order, available, selected, context)
    requires forall i :: 0 <= i < |order| ==> order[i] in available && order[i] in selected
    requires NormalizeFiles(order, available, selected, context.capabilities, CopyCeiling(context)) == Success(files)
    requires |files| == |order|
    requires forall i :: 0 <= i < |order| ==> order[i] in stored && stored[order[i]] == StoredSelection(files[i])
    ensures NormalizeFiles(order, available, stored, context.capabilities, CopyCeiling(context)) == Success(files) <==>
            forall i :: 0 <= i < |order| ==> TextSurvives(selected[order[i]], available[order[i]])
  {
    hide OnePrintable, NormalizeOne, NormalizeFiles, TextSurvives, StoredSelection;
    NormalizeFilesPointwise(order, available, selected, context, files);
    NormalizeFilesPointwise(order, available, stored, context, files);
    forall i | 0 <= i < |order|
      ensures NormalizeOne(order[i], i, available, stored, context.capabilities, CopyCeiling(context)) == Success(files[i])
              <==> TextSurvives(selected[order[i]], available[order[i]])
    {
      StoredOneNormalizes(order[i], i, available, selected, stored, context, files[i]);
    }
  }

  lemma NormalizedFilesOf(input: SettingsInput, context: Context)
    requires Normalize(input, context).Success?
    ensures SelectionMap(input.fileSelections).Some?
    ensures NormalizeFiles(input.fileOrder, FileMap(context.files), SelectionMap(input.fileSelections).value,
                           context.capabilities, CopyCeiling(context)) == Success(Normalize(input, context).value.files)
  {
    hide NormalizeFiles, SelectionMap, FileMap, Elements;
  }

  /** With the same documents, the stored request passes every other check and sums to the same totals. */
  lemma StoredTotals(input: SettingsInput, context: Context, n: NormalizedSettings)
    requires Normalize(input, context) == Success(n)
    requires StoredInput(n).fileOrder == input.fileOrder && SelectionMap(StoredSelections(n.files)).Some?
    ensures var stored := SelectionMap(StoredSelections(n.files)).value;
            Normalize(StoredInput(n), context) == Success(n) <==>
            NormalizeFiles(input.fileOrder, FileMap(context.files), stored, context.capabilities, CopyCeiling(context)) == Success(n.files)
  {
    hide NormalizeFiles, SelectionMap, FileMap, Elements;
  }

  /**
   * The re-check behind every stored quote: normalizing the stored choices again gives
   * the same settings, exactly when no blank selection covers a seven-digit page count.
   */
  lemma StoredSettingsNormalizeToThemselves(input: SettingsInput, context: Context)
    requires Normalize(input, context).Success?
    ensures EachNamed(input, context)
    ensures var n := Normalize(input, context).value;
            Normalize(StoredInput(n), context) == Success(n) <==> EveryTextSurvives(input, context)
  {
    hide Normalize, AllDescribed, NormalizeFiles, TextSurvives, Elements, FileMap, SelectionMap, EachPrintable;
    NormalizedMeaning(input, context);
    NormalizedFilesOf(input, context);
    var n := Normalize(input, context).value;
    var order := input.fileOrder;
    var available, selected := FileMap(context.files), SelectionMap(input.fileSelections).value;
    NormalizeFilesAccepts(order, available, selected, context);
    EachIsNamed(order, available, selected, context);
    NamesInOrder(n.files, order, available, selected);
    StoredSelectionsAreIndexed(n, order);
    StoredTotals(input, context, n);
    StoredFilesNormalize(order, available, selected, SelectionMap(StoredSelections(n.files)).value, context, n.files);
  }
}
