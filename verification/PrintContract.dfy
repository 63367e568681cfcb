/**
 * What the consumers of a normalized settings revision check again: the pricing usage
 * (packages/pricing/src/index.ts, lines 275-312) and the print job manifest
 * (packages/contracts/src/print-jobs.ts, lines 116-230). Both always agree with it, and
 * a quote charges exactly what it says (services/api/src/modules/quotes/service.ts, lines
 * 130-147).
 */
module PrintContract {
  import opened CodeUnits
  import opened PageRanges
  import opened PrintSettings
  import opened PrintSettingsLaws
  import opened Wrappers
  import PageRangeText
  import Pricing
  import PricingLaws

  // ---------- The print job manifest ----------

  datatype Document = Document(
    documentId: Text, position: nat, selectedPages: int, copies: int, duplex: DuplexMode,
    printedSides: int, physicalSheets: int)

  datatype JobManifest = JobManifest(
    selectedPages: int, printedSides: int, physicalSheets: int, documents: seq<Document>)

  /** The refinement of one document. */
  predicate DocumentAgrees(d: Document) {
    var sheetsPerCopy := if d.duplex.Simplex? then d.selectedPages else (d.selectedPages + 1) / 2;
    d.printedSides == d.selectedPages * d.copies && d.physicalSheets == sheetsPerCopy * d.copies
  }

  predicate DistinctDocuments(documents: seq<Document>) {
    forall i, j :: 0 <= i < j < |documents| ==>
      documents[i].documentId != documents[j].documentId && documents[i].position != documents[j].position
  }

  datatype Sums = Sums(pages: int, sides: int, sheets: int)

  function DocumentSums(documents: seq<Document>): Sums {
    if documents == [] then Sums(0, 0, 0)
    else
      var sums, d := DocumentSums(documents[..|documents| - 1]), documents[|documents| - 1];
      Sums(sums.pages + d.selectedPages, sums.sides + d.printedSides, sums.sheets + d.physicalSheets)
  }

  /** The refinement of the whole manifest. */
  predicate ManifestAgrees(m: JobManifest) {
    DistinctDocuments(m.documents) && DocumentSums(m.documents) == Sums(m.selectedPages, m.printedSides, m.physicalSheets)
  }

  lemma DistinctSnoc(documents: seq<Document>, i: nat)
    requires i < |documents|
    ensures DistinctDocuments(documents[..i + 1]) <==>
            && DistinctDocuments(documents[..i])
            && forall k :: 0 <= k < i ==>
                 documents[k].documentId != documents[i].documentId && documents[k].position != documents[i].position
  {
    var longer, shorter := documents[..i + 1], documents[..i];
    assert forall k :: 0 <= k < i ==> longer[k] == shorter[k] == documents[k];
    assert longer[i] == documents[i];
  }

  lemma NothingIsDistinct()
    ensures DistinctDocuments([])
  {
  }

  method RefineManifest(m: JobManifest) returns (issues: nat)
    ensures issues == 0 <==> ManifestAgrees(m)
  {
    hide DistinctDocuments;
    NothingIsDistinct();
    assert m.documents[..0] == [];
    var documentIds: set<Text> := {};
    var positions: set<nat> := {};
    var selectedPages, printedSides, physicalSheets := 0, 0, 0;
    issues := 0;
    for i := 0 to |m.documents|
      invariant forall id :: id in documentIds <==> exists k :: 0 <= k < i && m.documents[k].documentId == id
      invariant forall p :: p in positions <==> exists k :: 0 <= k < i && m.documents[k].position == p
      invariant issues == 0 <==> DistinctDocuments(m.documents[..i])
      invariant DocumentSums(m.documents[..i]) == Sums(selectedPages, printedSides, physicalSheets)
    {
      var d := m.documents[i];
      assert m.documents[..i + 1][..i] == m.documents[..i];
      if d.documentId in documentIds {
        issues := issues + 1;
      }
      if d.position in positions {
        issues := issues + 1;
      }
      DistinctSnoc(m.documents, i);
      documentIds := documentIds + {d.documentId};
      positions := positions + {d.position};
      selectedPages := selectedPages + d.selectedPages;
      printedSides := printedSides + d.printedSides;
      physicalSheets := physicalSheets + d.physicalSheets;
    }
    assert m.documents[..|m.documents|] == m.documents;
    if selectedPages != m.selectedPages {
      issues := issues + 1;
    }
    if printedSides != m.printedSides {
      issues := issues + 1;
    }
    if physicalSheets != m.physicalSheets {
      issues := issues + 1;
    }
  }

  // ---------- Projecting a normalized revision ----------

  function DocumentOf(f: NormalizedFile): Document {
    Document(f.fileId, f.position, f.selectedPages, f.copies, f.duplex, f.printedSides, f.physicalSheets)
  }

  function DocumentsOf(files: seq<NormalizedFile>): (documents: seq<Document>)
    ensures |documents| == |files| && forall i :: 0 <= i < |files| ==> documents[i] == DocumentOf(files[i])
  {
    seq(|files|, i requires 0 <= i < |files| => DocumentOf(files[i]))
  }

  function JobManifestOf(n: NormalizedSettings): JobManifest {
    JobManifest(n.selectedPages, n.printedSides, n.physicalSheets, DocumentsOf(n.files))
  }

  function UsageDocuments(files: seq<NormalizedFile>): (documents: seq<Pricing.DocumentUsage>)
    ensures |documents| == |files|
    ensures forall i :: 0 <= i < |files| ==> documents[i] == Pricing.DocumentUsage(!files[i].duplex.Simplex?, files[i].printedSides)
  {
    seq(|files|, i requires 0 <= i < |files| => Pricing.DocumentUsage(!files[i].duplex.Simplex?, files[i].printedSides))
  }

  function UsageOf(n: NormalizedSettings): Pricing.Usage {
    Pricing.Usage("PRINT", "A4", "MONOCHROME", UsageDocuments(n.files), n.selectedPages, n.printedSides, n.physicalSheets)
  }

  // ---------- Agreement ----------

  lemma {:induction false} SumsAgree(files: seq<NormalizedFile>)
    ensures DocumentSums(DocumentsOf(files)) == Sums(SumSelected(files), SumSides(files), SumSheets(files))
    ensures Pricing.SumSides(UsageDocuments(files)) == SumSides(files)
  {
    if files != [] {
      var init := files[..|files| - 1];
      SumsAgree(init);
      assert DocumentsOf(files)[..|files| - 1] == DocumentsOf(init);
      assert UsageDocuments(files)[..|files| - 1] == UsageDocuments(init);
    }
  }

  predicate FileBounds(f: NormalizedFile) {
    1 <= f.physicalSheets <= f.printedSides && 1 <= f.selectedPages <= f.printedSides
  }

  lemma {:induction false} SumBounds(files: seq<NormalizedFile>)
    requires forall i :: 0 <= i < |files| ==> FileBounds(files[i])
    ensures |files| <= SumSheets(files) <= SumSides(files) && |files| <= SumSelected(files) <= SumSides(files)
    ensures forall i :: 0 <= i < |files| ==> files[i].printedSides <= SumSides(files)
  {
    if files != [] {
      var init := files[..|files| - 1];
      SumBounds(init);
      assert forall i :: 0 <= i < |init| ==> files[i] == init[i];
    }
  }

  lemma DescribedAgrees(f: NormalizedFile, fileId: Text, file: SelectableFile, selection: FileSelection, position: nat)
    requires Describes(f, fileId, file, selection, position)
    ensures FileBounds(f) && DocumentAgrees(DocumentOf(f)) && f.fileId == fileId && f.position == position
  {
    hide PageRangeText.Parse, Canonical, Within, PageSet, FormatPageRanges;
    assert f.physicalSheetsPerCopy == if f.duplex.Simplex? then f.selectedPages else (f.selectedPages + 1) / 2;
  }

  lemma DescribedDocuments(input: SettingsInput, context: Context)
    requires Normalize(input, context).Success?
    ensures var files := Normalize(input, context).value.files;
            && files != [] && DistinctDocuments(DocumentsOf(files))
            && forall i :: 0 <= i < |files| ==> FileBounds(files[i]) && DocumentAgrees(DocumentOf(files[i]))
  {
    NormalizedMeaning(input, context);
    var n := Normalize(input, context).value;
    var available, selected := FileMap(context.files), SelectionMap(input.fileSelections).value;
    forall i | 0 <= i < |n.files|
      ensures FileBounds(n.files[i]) && DocumentAgrees(DocumentOf(n.files[i]))
      ensures n.files[i].fileId == input.fileOrder[i] && n.files[i].position == i
    {
      DescribedAgrees(n.files[i], input.fileOrder[i], available[input.fileOrder[i]], selected[input.fileOrder[i]], i);
    }
  }

  lemma UsageOfBoundedFiles(n: NormalizedSettings)
    requires n.files != [] && forall i :: 0 <= i < |n.files| ==> FileBounds(n.files[i])
    requires n.selectedPages == SumSelected(n.files) && n.printedSides == SumSides(n.files) && n.physicalSheets == SumSheets(n.files)
    ensures Pricing.UsageValid(UsageOf(n)) <==> n.printedSides <= MAX_SAFE_INTEGER
  {
    SumsAgree(n.files);
    SumBounds(n.files);
  }

  /**
   * Every revision normalization accepts passes the manifest refinements, and passes the
   * usage check of pricing exactly when its side count is a safe integer, which a safe
   * `maxPrintedSides` guarantees.
   */
  lemma NormalizedPassesConsumers(input: SettingsInput, context: Context)
    requires Normalize(input, context).Success?
    ensures var n := Normalize(input, context).value;
            && ManifestAgrees(JobManifestOf(n))
            && (forall i :: 0 <= i < |n.files| ==> DocumentAgrees(DocumentOf(n.files[i])))
            && (Pricing.UsageValid(UsageOf(n)) <==> n.printedSides <= MAX_SAFE_INTEGER)
            && (IsSafe(context.limits.maxPrintedSides) ==> Pricing.UsageValid(UsageOf(n)))
  {
    var n := Normalize(input, context).value;
    DescribedDocuments(input, context);
    NormalizedMeaning(input, context);
    hide Normalize, AllDescribed, OneToOne, SelectionMap, DocumentAgrees, FileBounds, DistinctDocuments;
    SumsAgree(n.files);
    UsageOfBoundedFiles(n);
    hide Pricing.UsageValid;
  }

  // ---------- The price of a revision ----------

  /** Every document at the unit price of its sides, with the share of that which duplex printing adds or takes. */
  function RevisionCharge(files: seq<NormalizedFile>, rule: Pricing.PricingRule, rounding: Pricing.RoundingMode): int {
    if files == [] then 0
    else
      var f := files[|files| - 1];
      var amount := f.printedSides * rule.unitAmountMinor;
      RevisionCharge(files[..|files| - 1], rule, rounding)
      + (if f.duplex.Simplex? then amount else PricingLaws.Charge(amount, rule.duplexAdjustmentBasisPoints, rounding))
  }

  lemma {:induction false} UsageIsCharged(files: seq<NormalizedFile>, rule: Pricing.PricingRule, rounding: Pricing.RoundingMode)
    ensures PricingLaws.PrintCharge(UsageDocuments(files), rule, rounding) == RevisionCharge(files, rule, rounding)
  {
    hide PricingLaws.Charge;
    if files != [] {
      var init := files[..|files| - 1];
      UsageIsCharged(init, rule, rounding);
      assert UsageDocuments(files)[..|files| - 1] == UsageDocuments(init);
    }
  }

  /**
   * A quote for an accepted revision is of a rule for A4 monochrome printing, and names and
   * charges the pages, sides and sheets of that revision, each document by its own choice.
   */
  lemma RevisionIsPriced(n: NormalizedSettings, ruleSet: Pricing.RuleSet)
    requires Pricing.CalculateQuote(ruleSet, UsageOf(n)).Success?
    ensures Pricing.SelectFrom(ruleSet.rules, UsageOf(n)).Some?
    ensures var q := Pricing.CalculateQuote(ruleSet, UsageOf(n)).value;
            var rule := Pricing.SelectFrom(ruleSet.rules, UsageOf(n)).value;
            && rule.service == "PRINT" && rule.paperSize == "A4" && rule.colorMode == "MONOCHROME"
            && q.selectedPages == n.selectedPages && q.printedSides == n.printedSides && q.physicalSheets == n.physicalSheets
            && q.printAmountMinor == n.printedSides * rule.unitAmountMinor
            && q.printAmountMinor + q.duplexAdjustmentMinor == RevisionCharge(n.files, rule, ruleSet.rounding)
  {
    PricingLaws.QuoteReconciles(ruleSet, UsageOf(n));
    hide Pricing.CalculateQuote, Pricing.UsageValid, PricingLaws.Payable, PricingLaws.Reconciles, PricingLaws.NamesCurrency,
      PricingLaws.IsShare;
    var i := PricingLaws.SelectedRule(ruleSet.rules, UsageOf(n));
    UsageIsCharged(n.files, Pricing.SelectFrom(ruleSet.rules, UsageOf(n)).value, ruleSet.rounding);
  }
}
