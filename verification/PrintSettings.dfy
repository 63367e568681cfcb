/**
 * Normalizing a customer's print choices: packages/domain/src/print-settings.ts,
 * lines 237-369. A document identifier, digest and page text are code-unit texts.
 */
module PrintSettings {
  import opened CodeUnits
  import opened PageRanges
  import opened PageRangeText
  import opened Wrappers

  datatype PaperSize = A4
  datatype DuplexMode = Simplex | LongEdge | ShortEdge
  datatype Orientation = Auto | Portrait | Landscape
  datatype ScalingMode = Fit | ActualSize
  datatype ColorMode = Monochrome

  datatype FileSelection = FileSelection(
    fileId: Text, pageRanges: Option<Text>, copies: int, duplex: DuplexMode, orientation: Orientation)

  datatype SettingsInput = SettingsInput(
    fileOrder: seq<Text>, fileSelections: seq<FileSelection>,
    paperSize: PaperSize, scaling: ScalingMode, collate: bool)

  datatype SelectableFile = SelectableFile(
    id: Text, pageCount: int, processingRevision: int, contentSha256: Text)

  datatype Capabilities = Capabilities(
    version: int, paperSizes: seq<PaperSize>, colorModes: seq<ColorMode>, duplexModes: seq<DuplexMode>,
    scalingModes: seq<ScalingMode>, orientations: seq<Orientation>, maxCopies: int)

  datatype Limits = Limits(maxCopies: int, maxSelectedPages: int, maxPrintedSides: int)

  datatype Context = Context(files: seq<SelectableFile>, capabilities: Capabilities, limits: Limits)

  datatype NormalizedFile = NormalizedFile(
    fileId: Text, position: nat, pageCount: int, processingRevision: int, contentSha256: Text,
    pageRanges: seq<Range>, pageRangeText: Text, selectedPages: int, copies: int,
    duplex: DuplexMode, orientation: Orientation,
    printedSidesPerCopy: int, physicalSheetsPerCopy: int, printedSides: int, physicalSheets: int)

  datatype NormalizedSettings = NormalizedSettings(
    paperSize: PaperSize, scaling: ScalingMode, collate: bool, colorMode: ColorMode, capabilityVersion: int,
    files: seq<NormalizedFile>, selectedPages: int, printedSides: int, physicalSheets: int)

  datatype SettingsError =
    | FileOrderInvalid
    | FileSelectionInvalid
    | PageRange(range: RangeError)
    | NoSelectedPages
    | CopiesOutOfRange
    | SelectedPageLimitExceeded
    | PrintedSideLimitExceeded
    | UnsupportedPrintSetting

  // ---------- The computation ----------

  function Elements(ids: seq<Text>): set<Text> {
    set id | id in ids
  }

  /** `new Map(files.map((file) => [file.id, file]))`: a later duplicate replaces an earlier one. */
  function FileMap(files: seq<SelectableFile>): map<Text, SelectableFile> {
    if files == [] then map[]
    else FileMap(files[..|files| - 1])[files[|files| - 1].id := files[|files| - 1]]
  }

  /** The loop filling `selectionByFile`, or nothing when it meets a file twice. */
  function SelectionMap(selections: seq<FileSelection>): Option<map<Text, FileSelection>> {
    if selections == [] then Some(map[])
    else
      var last := selections[|selections| - 1];
      match SelectionMap(selections[..|selections| - 1])
      case None => None
      case Some(m) => if last.fileId in m then None else Some(m[last.fileId := last])
  }

  /** `Math.ceil(sides / 2)` unless the document is printed one-sided. */
  function SheetsPerCopy(selectedPages: int, duplex: DuplexMode): int {
    if duplex.Simplex? then selectedPages else (selectedPages + 1) / 2
  }

  function NormalizeFile(
    fileId: Text, file: SelectableFile, selection: FileSelection, position: nat, capabilities: Capabilities, maxCopies: int
  ): Result<NormalizedFile, SettingsError> {
    if selection.duplex !in capabilities.duplexModes || selection.orientation !in capabilities.orientations then
      Failure(UnsupportedPrintSetting)
    else if !IsSafe(selection.copies) || selection.copies < 1 || selection.copies > maxCopies then
      Failure(CopiesOutOfRange)
    else
      match Parse(selection.pageRanges, file.pageCount)
      case Failure(error) => Failure(PageRange(error))
      case Success(ranges) =>
        var selectedPages := CountSelectedPages(ranges);
        var sheets := SheetsPerCopy(selectedPages, selection.duplex);
        Success(NormalizedFile(
          fileId, position, file.pageCount, file.processingRevision, file.contentSha256,
          ranges, FormatPageRanges(ranges), selectedPages, selection.copies,
          selection.duplex, selection.orientation,
          selectedPages, sheets, selectedPages * selection.copies, sheets * selection.copies))
  }

  function NormalizeOne(
    fileId: Text, position: nat, available: map<Text, SelectableFile>, selected: map<Text, FileSelection>,
    capabilities: Capabilities, maxCopies: int
  ): Result<NormalizedFile, SettingsError> {
    if fileId !in available then Failure(FileOrderInvalid)
    else if fileId !in selected then Failure(FileSelectionInvalid)
    else NormalizeFile(fileId, available[fileId], selected[fileId], position, capabilities, maxCopies)
  }

  /** `fileOrder.map(...)`, where the first document that is refused decides the error. */
  function NormalizeFiles(
    order: seq<Text>, available: map<Text, SelectableFile>, selected: map<Text, FileSelection>,
    capabilities: Capabilities, maxCopies: int
  ): Result<seq<NormalizedFile>, SettingsError> {
    if order == [] then Success([])
    else
      var n := |order| - 1;
      var earlier :- NormalizeFiles(order[..n], available, selected, capabilities, maxCopies);
      var last :- NormalizeOne(order[n], n, available, selected, capabilities, maxCopies);
      Success(earlier + [last])
  }

  function SumSelected(files: seq<NormalizedFile>): int {
    if files == [] then 0 else SumSelected(files[..|files| - 1]) + files[|files| - 1].selectedPages
  }

  function SumSides(files: seq<NormalizedFile>): int {
    if files == [] then 0 else SumSides(files[..|files| - 1]) + files[|files| - 1].printedSides
  }

  function SumSheets(files: seq<NormalizedFile>): int {
    if files == [] then 0 else SumSheets(files[..|files| - 1]) + files[|files| - 1].physicalSheets
  }

  predicate DeviceSupports(input: SettingsInput, capabilities: Capabilities) {
    && input.paperSize in capabilities.paperSizes
    && input.scaling in capabilities.scalingModes
    && Monochrome in capabilities.colorModes
  }

  function CopyCeiling(context: Context): int {
    Min(context.limits.maxCopies, context.capabilities.maxCopies)
  }

  function Totals(input: SettingsInput, context: Context, files: seq<NormalizedFile>): Result<NormalizedSettings, SettingsError> {
    var selectedPages := SumSelected(files);
    if selectedPages < 1 then Failure(NoSelectedPages)
    else if selectedPages > context.limits.maxSelectedPages then Failure(SelectedPageLimitExceeded)
    else if SumSides(files) > context.limits.maxPrintedSides then Failure(PrintedSideLimitExceeded)
    else
      Success(NormalizedSettings(
        input.paperSize, input.scaling, input.collate, Monochrome, context.capabilities.version,
        files, selectedPages, SumSides(files), SumSheets(files)))
  }

  function Normalize(input: SettingsInput, context: Context): Result<NormalizedSettings, SettingsError> {
    var available := FileMap(context.files);
    if !DeviceSupports(input, context.capabilities) then Failure(UnsupportedPrintSetting)
    else if |input.fileOrder| != |available| || |Elements(input.fileOrder)| != |input.fileOrder| then
      Failure(FileOrderInvalid)
    else if |input.fileSelections| != |input.fileOrder| then Failure(FileSelectionInvalid)
    else
      match SelectionMap(input.fileSelections)
      case None => Failure(FileSelectionInvalid)
      case Some(selected) =>
        var files :- NormalizeFiles(input.fileOrder, available, selected, context.capabilities, CopyCeiling(context));
        Totals(input, context, files)
  }
}
