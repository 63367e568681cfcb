/**
 * A settings revision and the text hashed for it: what normalization makes safe to print
 * (packages/domain/src/print-settings.ts, lines 371-404), and the recheck of a stored
 * revision before it is quoted (services/api/src/modules/quotes/service.ts, lines
 * 351-400). The hash itself is not part of the model: texts are compared.
 */
module SettingsRevision {
  import opened CanonicalJson
  import opened CodeUnits
  import opened PageRanges
  import opened PrintSettings
  import opened PrintSettingsLaws
  import opened SettingsManifest
  import opened Wrappers

  // ---------- Every number of the manifest is safe ----------

  /** The numbers of the context are ones a JavaScript number can hold. */
  predicate ContextSafe(context: Context) {
    && IsSafe(context.capabilities.version) && IsSafe(|context.files|)
    && forall i :: 0 <= i < |context.files| ==> IsSafe(context.files[i].pageCount) && IsSafe(context.files[i].processingRevision)
  }

  lemma DescribedFileIsSafe(f: NormalizedFile, file: SelectableFile, selection: FileSelection, position: nat)
    requires Describes(f, f.fileId, file, selection, position)
    requires IsSafe(file.pageCount) && IsSafe(file.processingRevision) && IsSafe(position) && IsSafe(selection.copies)
    ensures FileNumbersSafe(f)
  {
  }

  lemma {:induction false} FileMapIsShort(files: seq<SelectableFile>)
    ensures |FileMap(files)| <= |files|
  {
    if files != [] {
      var earlier, last := files[..|files| - 1], files[|files| - 1];
      FileMapIsShort(earlier);
      assert FileMap(files).Keys == FileMap(earlier).Keys + {last.id};
      assert |FileMap(files)| == |FileMap(files).Keys| && |FileMap(earlier)| == |FileMap(earlier).Keys|;
    }
  }

  lemma PrintableCopies(file: SelectableFile, selection: FileSelection, context: Context)
    requires FilePrintable(file, selection, context)
    ensures IsSafe(selection.copies)
  {
  }

  lemma DescribedName(f: NormalizedFile, id: Text, file: SelectableFile, selection: FileSelection, position: nat)
    requires Describes(f, id, file, selection, position)
    ensures f.fileId == id
    ensures f.pageCount == file.pageCount && f.processingRevision == file.processingRevision && f.contentSha256 == file.contentSha256
  {
  }

  /** What normalization accepts can be written into a manifest. */
  lemma NormalizedIsSafe(input: SettingsInput, context: Context)
    requires Normalize(input, context).Success? && ContextSafe(context)
    ensures NumbersSafe(Normalize(input, context).value)
  {
    hide Describes, FilePrintable, OneToOne, TotalPages, TotalSides, NormalizeFiles, SelectionMap, FileMap;
    var n := Normalize(input, context).value;
    NormalizedMeaning(input, context);
    NormalizeAcceptsExactly(input, context);
    LengthsAndLookupsAreOneToOne(input, context);
    FileMapKeys(context.files);
    FileMapIsShort(context.files);
    var available, selected := FileMap(context.files), SelectionMap(input.fileSelections).value;
    assert n.capabilityVersion == context.capabilities.version;
    forall i | 0 <= i < |n.files| ensures FileNumbersSafe(n.files[i]) {
      var id := input.fileOrder[i];
      assert OnePrintable(id, available, selected, context);
      PrintableCopies(available[id], selected[id], context);
      DescribedName(n.files[i], id, available[id], selected[id], i);
      DescribedFileIsSafe(n.files[i], available[id], selected[id], i);
    }
  }

  // ---------- The text determines the revision ----------

  /** What a document's line of the revision says beyond the manifest follows from it. */
  predicate Derived(f: NormalizedFile) {
    && f.pageRangeText == FormatPageRanges(f.pageRanges)
    && f.printedSidesPerCopy == f.selectedPages
    && f.physicalSheetsPerCopy == SheetsPerCopy(f.selectedPages, f.duplex)
    && f.printedSides == f.selectedPages * f.copies && f.physicalSheets == f.physicalSheetsPerCopy * f.copies
  }

  lemma DescribedIsDerived(f: NormalizedFile, id: Text, file: SelectableFile, selection: FileSelection, position: nat)
    requires Describes(f, id, file, selection, position)
    ensures Derived(f)
  {
  }

  /** A revision that normalization made. */
  predicate IsRevision(n: NormalizedSettings) {
    && NumbersSafe(n)
    && (forall i :: 0 <= i < |n.files| ==> Derived(n.files[i]))
    && n.selectedPages == SumSelected(n.files) && n.printedSides == SumSides(n.files) && n.physicalSheets == SumSheets(n.files)
  }

  lemma NormalizedIsRevision(input: SettingsInput, context: Context)
    requires Normalize(input, context).Success? && ContextSafe(context)
    ensures IsRevision(Normalize(input, context).value)
  {
    hide Describes, Derived, OneToOne, SelectionMap, FileMap, NormalizeFiles;
    var n := Normalize(input, context).value;
    NormalizedIsSafe(input, context);
    NormalizedMeaning(input, context);
    var available, selected := FileMap(context.files), SelectionMap(input.fileSelections).value;
    forall i | 0 <= i < |n.files| ensures Derived(n.files[i]) {
      var id := input.fileOrder[i];
      DescribedIsDerived(n.files[i], id, available[id], selected[id], i);
    }
  }

  lemma BuiltFileDetermines(a: NormalizedFile, b: NormalizedFile)
    requires FileNumbersSafe(a) && FileNumbersSafe(b) && Derived(a) && Derived(b) && BuildFile(a) == BuildFile(b)
    ensures a == b
  {
    var x, y := BuildFile(a).pageRanges, BuildFile(b).pageRanges;
    forall i | 0 <= i < |a.pageRanges| ensures |a.pageRanges| == |b.pageRanges| && a.pageRanges[i] == b.pageRanges[i] {
      assert x[i] == y[i];
    }
    assert a.pageRanges == b.pageRanges;
  }

  lemma BuiltManifestDetermines(a: NormalizedSettings, b: NormalizedSettings)
    requires IsRevision(a) && IsRevision(b) && BuildManifest(a) == BuildManifest(b)
    ensures a == b
  {
    hide FileNumbersSafe, Derived, BuildFile;
    var x, y := BuildManifest(a).files, BuildManifest(b).files;
    assert |a.files| == |x| == |y| == |b.files|;
    forall i | 0 <= i < |a.files| ensures a.files[i] == b.files[i] {
      assert x[i] == y[i];
      BuiltFileDetermines(a.files[i], b.files[i]);
    }
    assert a.files == b.files;
  }

  /** The text whose hash a revision is stored with. */
  function RevisionText(n: NormalizedSettings): Result<Text, PrintError>
    requires NumbersSafe(n)
  {
    CanonicalManifest(BuildManifest(n))
  }

  /**
   * Two accepted revisions, of whatever requests against whatever documents, have the same
   * text if and only if they are the same revision, down to every range, sum and digest.
   */
  lemma TextDeterminesRevision(a: SettingsInput, contextA: Context, b: SettingsInput, contextB: Context)
    requires Normalize(a, contextA).Success? && ContextSafe(contextA)
    requires Normalize(b, contextB).Success? && ContextSafe(contextB)
    ensures var x, y := Normalize(a, contextA).value, Normalize(b, contextB).value;
            NumbersSafe(x) && NumbersSafe(y) && (RevisionText(x) == RevisionText(y) <==> x == y)
  {
    hide Normalize, CanonicalManifest;
    NormalizedIsRevision(a, contextA);
    NormalizedIsRevision(b, contextB);
    var x, y := Normalize(a, contextA).value, Normalize(b, contextB).value;
    ManifestTextDeterminesManifest(BuildManifest(x), BuildManifest(y));
    if RevisionText(x) == RevisionText(y) {
      BuiltManifestDetermines(x, y);
    }
  }

  // ---------- The recheck before a quote ----------

  /** The stored selections are normalized against the documents as they are now, and the texts compared. */
  predicate RecheckPasses(stored: NormalizedSettings, now: Context)
    requires NumbersSafe(stored)
    requires Normalize(StoredInput(stored), now).Success? ==> NumbersSafe(Normalize(StoredInput(stored), now).value)
  {
    var again := Normalize(StoredInput(stored), now);
    again.Success? && RevisionText(again.value) == RevisionText(stored)
  }

  lemma RecheckIsDefined(input: SettingsInput, recorded: Context, now: Context)
    requires Normalize(input, recorded).Success? && ContextSafe(recorded) && ContextSafe(now)
    ensures var stored := Normalize(input, recorded).value;
            && NumbersSafe(stored)
            && (Normalize(StoredInput(stored), now).Success? ==> NumbersSafe(Normalize(StoredInput(stored), now).value))
  {
    hide Normalize, NumbersSafe;
    NormalizedIsSafe(input, recorded);
    var stored := Normalize(input, recorded).value;
    if Normalize(StoredInput(stored), now).Success? {
      NormalizedIsSafe(StoredInput(stored), now);
    }
  }

  /** The document of that name is as the revision recorded it. */
  predicate Unchanged(f: NormalizedFile, now: Context) {
    && f.fileId in FileMap(now.files)
    && var file := FileMap(now.files)[f.fileId];
       file.pageCount == f.pageCount && file.processingRevision == f.processingRevision && file.contentSha256 == f.contentSha256
  }

  lemma NamedIsUnchanged(f: NormalizedFile, now: Context)
    requires f.fileId in FileMap(now.files)
    requires var file := FileMap(now.files)[f.fileId];
             file.pageCount == f.pageCount && file.processingRevision == f.processingRevision && file.contentSha256 == f.contentSha256
    ensures Unchanged(f, now)
  {
  }

  lemma RevisionNamesDocuments(input: SettingsInput, now: Context)
    requires Normalize(input, now).Success?
    ensures var n := Normalize(input, now).value;
            && (forall i :: 0 <= i < |n.files| ==> Unchanged(n.files[i], now))
            && n.capabilityVersion == now.capabilities.version && |n.files| == |FileMap(now.files)|
  {
    hide Normalize, Describes, OneToOne, SelectionMap, FileMap, Unchanged;
    var n := Normalize(input, now).value;
    NormalizedMeaning(input, now);
    LengthsAndLookupsAreOneToOne(input, now);
    var available, selected := FileMap(now.files), SelectionMap(input.fileSelections).value;
    forall i | 0 <= i < |n.files| ensures Unchanged(n.files[i], now) {
      var id := input.fileOrder[i];
      DescribedName(n.files[i], id, available[id], selected[id], i);
      NamedIsUnchanged(n.files[i], now);
    }
  }

  /**
   * The recheck passes exactly when normalizing the stored selections gives the stored
   * revision back, and then every document is unchanged, byte for byte and page for page,
   * and so is what the device can do.
   */
  lemma RecheckDecides(input: SettingsInput, recorded: Context, now: Context)
    requires Normalize(input, recorded).Success? && ContextSafe(recorded) && ContextSafe(now)
    ensures var stored := Normalize(input, recorded).value;
            && NumbersSafe(stored)
            && (Normalize(StoredInput(stored), now).Success? ==> NumbersSafe(Normalize(StoredInput(stored), now).value))
            && (RecheckPasses(stored, now) <==> Normalize(StoredInput(stored), now) == Success(stored))
            && (RecheckPasses(stored, now) ==>
                  && (forall i :: 0 <= i < |stored.files| ==> Unchanged(stored.files[i], now))
                  && stored.capabilityVersion == now.capabilities.version && |stored.files| == |FileMap(now.files)|)
  {
    hide Normalize, NumbersSafe, RevisionText, OneToOne, Unchanged;
    RecheckIsDefined(input, recorded, now);
    var stored := Normalize(input, recorded).value;
    if Normalize(StoredInput(stored), now).Success? {
      TextDeterminesRevision(input, recorded, StoredInput(stored), now);
      if RecheckPasses(stored, now) {
        RevisionNamesDocuments(StoredInput(stored), now);
      }
    }
  }

  /** With nothing changed, the recheck passes if and only if every page text survives being stored. */
  lemma RecheckOfUnchanged(input: SettingsInput, context: Context)
    requires Normalize(input, context).Success? && ContextSafe(context)
    ensures EachNamed(input, context)
    ensures var stored := Normalize(input, context).value;
            && NumbersSafe(stored)
            && (Normalize(StoredInput(stored), context).Success? ==> NumbersSafe(Normalize(StoredInput(stored), context).value))
            && (RecheckPasses(stored, context) <==> EveryTextSurvives(input, context))
  {
    hide Normalize, NumbersSafe, RecheckPasses, EveryTextSurvives, Unchanged;
    StoredSettingsNormalizeToThemselves(input, context);
    RecheckDecides(input, context, context);
  }
}
