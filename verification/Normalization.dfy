/**
 * The normalization of a settings request as it runs (packages/domain/src/print-settings.ts,
 * lines 252-369): the early errors in order, and the loop that fills the lookup.
 */
module Normalization {
  import opened CodeUnits
  import opened PrintSettings
  import opened PrintSettingsLaws
  import opened Wrappers

  lemma {:induction false} RepeatedSelection(selections: seq<FileSelection>, n: nat)
    requires n <= |selections| && SelectionMap(selections[..n]).None?
    ensures SelectionMap(selections).None?
    decreases |selections| - n
  {
    if n == |selections| {
      assert selections[..n] == selections;
    } else {
      assert selections[..n + 1][..n] == selections[..n];
      RepeatedSelection(selections, n + 1);
    }
  }

  method FillSelections(selections: seq<FileSelection>) returns (filled: Option<map<Text, FileSelection>>)
    ensures filled == SelectionMap(selections)
    ensures filled.Some? <==> Distinct(SelectionIds(selections))
    ensures filled.Some? ==> forall s :: s in selections ==> s.fileId in filled.value && filled.value[s.fileId] == s
  {
    SelectionMapMeaning(selections);
    hide Distinct;
    var selectionByFile: map<Text, FileSelection> := map[];
    for i := 0 to |selections|
      invariant SelectionMap(selections[..i]) == Some(selectionByFile)
    {
      assert selections[..i + 1][..i] == selections[..i];
      if selections[i].fileId in selectionByFile {
        RepeatedSelection(selections, i + 1);
        return None;
      }
      selectionByFile := selectionByFile[selections[i].fileId := selections[i]];
    }
    assert selections[..|selections|] == selections;
    return Some(selectionByFile);
  }

  method NormalizePrintSettings(input: SettingsInput, context: Context)
    returns (result: Result<NormalizedSettings, SettingsError>)
    ensures result == Normalize(input, context)
    ensures result.Success? <==> Acceptable(input, context)
    ensures forall error :: result == Failure(error) <==> Refused(input, context, error)
    ensures result.Success? ==>
              && SelectionMap(input.fileSelections).Some?
              && AllDescribed(result.value.files, input.fileOrder, FileMap(context.files), SelectionMap(input.fileSelections).value)
              && Totaled(result.value, input.fileOrder, FileMap(context.files), SelectionMap(input.fileSelections).value)
              && WithinLimits(result.value.selectedPages, result.value.printedSides, context.limits)
  {
    hide Acceptable, Refused, Totaled, AllDescribed, OneToOne, NormalizeFiles;
    NormalizeAcceptsExactly(input, context);
    if Normalize(input, context).Success? {
      NormalizedMeaning(input, context);
    }
    if !DeviceSupports(input, context.capabilities) {
      return Failure(UnsupportedPrintSetting);
    }
    var maxCopies := CopyCeiling(context);
    var available := FileMap(context.files);
    if |input.fileOrder| != |available| || |Elements(input.fileOrder)| != |input.fileOrder| {
      return Failure(FileOrderInvalid);
    }
    if |input.fileSelections| != |input.fileOrder| {
      return Failure(FileSelectionInvalid);
    }
    var selectionByFile := FillSelections(input.fileSelections);
    if selectionByFile.None? {
      return Failure(FileSelectionInvalid);
    }
    var files := NormalizeFiles(input.fileOrder, available, selectionByFile.value, context.capabilities, maxCopies);
    if files.Failure? {
      return Failure(files.error);
    }
    return Totals(input, context, files.value);
  }
}
