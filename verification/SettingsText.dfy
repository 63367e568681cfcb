/**
 * What a reader finds in the text hashed for a settings revision (lines 371-423 of
 * packages/domain/src/print-settings.ts): every setting and every document under its own
 * name, and nothing else.
 */
module SettingsText {
  import opened CanonicalJson
  import opened CanonicalJsonLaws
  import opened CanonicalJsonMeaning
  import opened CodeUnits
  import opened PageRanges
  import opened PrintSettings
  import opened SettingsManifest
  import opened SettingsRevision
  import opened Wrappers

  datatype Said = Said(key: string, value: Value)

  /** An object with exactly these fields. */
  ghost predicate Says(v: Value, facts: seq<Said>) {
    && v.Record?
    && (forall i :: 0 <= i < |facts| ==> Ascii(facts[i].key) in v.fields && v.fields[Ascii(facts[i].key)] == facts[i].value)
    && (forall key :: key in v.fields ==> exists i :: 0 <= i < |facts| && key == Ascii(facts[i].key))
  }

  function TextValue(t: Text): Value {
    Atom(String(t))
  }

  function NumberValue(n: int): Value
    requires IsSafe(n)
  {
    Atom(Number(n))
  }

  ghost predicate RangesSay(v: Value, ranges: seq<Range>) {
    && v.List? && |v.items| == |ranges|
    && forall i :: 0 <= i < |ranges| ==>
         IsSafe(ranges[i].first) && IsSafe(ranges[i].last)
         && v.items[i] == List([NumberValue(ranges[i].first), NumberValue(ranges[i].last)])
  }

  function DuplexName(d: DuplexMode): Text {
    Ascii(match d case Simplex => "SIMPLEX" case LongEdge => "LONG_EDGE" case ShortEdge => "SHORT_EDGE")
  }

  function OrientationName(o: Orientation): Text {
    Ascii(match o case Auto => "AUTO" case Portrait => "PORTRAIT" case Landscape => "LANDSCAPE")
  }

  /** One document: which bytes, which pages, and how they are printed. */
  ghost predicate FileSays(v: Value, f: NormalizedFile)
    requires FileNumbersSafe(f)
  {
    exists ranges :: RangesSay(ranges, f.pageRanges) &&
      Says(v, [
        Said("fileId", TextValue(f.fileId)), Said("position", NumberValue(f.position)),
        Said("processingRevision", NumberValue(f.processingRevision)), Said("contentSha256", TextValue(f.contentSha256)),
        Said("pageCount", NumberValue(f.pageCount)), Said("pageRanges", ranges),
        Said("selectedPages", NumberValue(f.selectedPages)), Said("copies", NumberValue(f.copies)),
        Said("duplex", TextValue(DuplexName(f.duplex))), Said("orientation", TextValue(OrientationName(f.orientation)))])
  }

  ghost predicate FilesSay(v: Value, files: seq<NormalizedFile>)
    requires forall i :: 0 <= i < |files| ==> FileNumbersSafe(files[i])
  {
    v.List? && |v.items| == |files| && forall i :: 0 <= i < |files| ==> FileSays(v.items[i], files[i])
  }

  ghost predicate SettingsSay(v: Value, n: NormalizedSettings)
    requires NumbersSafe(n)
  {
    exists files :: FilesSay(files, n.files) &&
      Says(v, [
        Said("manifestVersion", NumberValue(3)), Said("colorMode", TextValue(Ascii("MONOCHROME"))),
        Said("paperSize", TextValue(Ascii("A4"))), Said("scaling", TextValue(Ascii(if n.scaling.Fit? then "FIT" else "ACTUAL_SIZE"))),
        Said("collate", Atom(Bool(n.collate))), Said("capabilityVersion", NumberValue(n.capabilityVersion)),
        Said("files", files)])
  }

  lemma RecordSays(keys: seq<string>, values: seq<Json>, facts: seq<Said>)
    requires |keys| == |values| == |facts| && DistinctKeys(keys)
    requires forall i :: 0 <= i < |keys| ==> !values[i].Undefined? && facts[i] == Said(keys[i], Meaning(values[i]))
    ensures Says(Meaning(Object(SettingsManifest.Record(keys, values))), facts)
  {
    var entries := SettingsManifest.Record(keys, values);
    RecordHasUniqueKeys(keys, values);
    FieldKeys(entries);
    forall i | 0 <= i < |facts| ensures Ascii(facts[i].key) in Fields(entries) && Fields(entries)[Ascii(facts[i].key)] == facts[i].value {
      FieldAt(entries, i);
    }
    forall key | key in Fields(entries) ensures exists i :: 0 <= i < |facts| && key == Ascii(facts[i].key) {
      assert !NewKey(key, entries);
      var i :| 0 <= i < |entries| && entries[i].key == key;
      assert key == Ascii(facts[i].key);
    }
  }

  lemma PairSays(p: PagePair)
    ensures Meaning(PairJson(p)) == List([Atom(Number(p.first)), Atom(Number(p.last))])
  {
    var items := [Number(p.first), Number(p.last)];
    MeaningsAt(items, 0);
    MeaningsAt(items, 1);
    assert Meanings(items) == [Meaning(items[0]), Meaning(items[1])];
  }

  lemma PairsSay(f: NormalizedFile)
    requires FileNumbersSafe(f)
    ensures RangesSay(Meaning(Array(PairsJson(BuildFile(f).pageRanges))), f.pageRanges)
  {
    var pairs := BuildFile(f).pageRanges;
    forall i | 0 <= i < |pairs|
      ensures Meanings(PairsJson(pairs))[i] == List([NumberValue(f.pageRanges[i].first), NumberValue(f.pageRanges[i].last)])
    {
      MeaningsAt(PairsJson(pairs), i);
      PairSays(pairs[i]);
    }
  }

  lemma BuiltFileSays(f: NormalizedFile)
    requires FileNumbersSafe(f)
    ensures FileSays(Meaning(FileJson(BuildFile(f))), f)
  {
    hide RangesSay, Ascii;
    var ranges := Meaning(Array(PairsJson(BuildFile(f).pageRanges)));
    KeysAreDistinct();
    PairsSay(f);
    RecordSays(FILE_KEYS, FileValues(BuildFile(f)), [
      Said("fileId", TextValue(f.fileId)), Said("position", NumberValue(f.position)),
      Said("processingRevision", NumberValue(f.processingRevision)), Said("contentSha256", TextValue(f.contentSha256)),
      Said("pageCount", NumberValue(f.pageCount)), Said("pageRanges", ranges),
      Said("selectedPages", NumberValue(f.selectedPages)), Said("copies", NumberValue(f.copies)),
      Said("duplex", TextValue(DuplexName(f.duplex))), Said("orientation", TextValue(OrientationName(f.orientation)))]);
    hide Says, DistinctKeys;
  }

  lemma BuiltFilesSay(n: NormalizedSettings)
    requires NumbersSafe(n)
    ensures FilesSay(Meaning(Array(FilesJson(BuildManifest(n).files))), n.files)
  {
    hide FileNumbersSafe, FileJson, FileSays, BuildFile;
    var files := BuildManifest(n).files;
    forall i | 0 <= i < |n.files| ensures FileSays(Meanings(FilesJson(files))[i], n.files[i]) {
      MeaningsAt(FilesJson(files), i);
      BuiltFileSays(n.files[i]);
    }
  }

  lemma BuiltManifestSays(n: NormalizedSettings)
    requires NumbersSafe(n)
    ensures SettingsSay(Meaning(ManifestJson(BuildManifest(n))), n)
  {
    hide FilesSay, FileNumbersSafe, Ascii, FilesJson;
    var files := Meaning(Array(FilesJson(BuildManifest(n).files)));
    KeysAreDistinct();
    BuiltFilesSay(n);
    RecordSays(MANIFEST_KEYS, ManifestValues(BuildManifest(n)), [
      Said("manifestVersion", NumberValue(3)), Said("colorMode", TextValue(Ascii("MONOCHROME"))),
      Said("paperSize", TextValue(Ascii("A4"))), Said("scaling", TextValue(Ascii(if n.scaling.Fit? then "FIT" else "ACTUAL_SIZE"))),
      Said("collate", Atom(Bool(n.collate))), Said("capabilityVersion", NumberValue(n.capabilityVersion)),
      Said("files", files)]);
    hide Says, DistinctKeys;
  }

  /**
   * Whoever parses the hashed text of a revision finds every setting and, document by
   * document, its name, place, digest, pages, copies, sides and orientation under their
   * names, and no other field; and the keys of every object ascend by code unit.
   */
  lemma TextSaysRevision(n: NormalizedSettings)
    requires NumbersSafe(n)
    ensures RevisionText(n).Success? && Decode(RevisionText(n).value).Some?
    ensures var read := Decode(RevisionText(n).value).value; IsNormal(read) && SettingsSay(Meaning(read), n)
  {
    hide Print, Decode, SettingsSay, IsNormal, Normal, BuildManifest;
    var j := ManifestJson(BuildManifest(n));
    ManifestPrints(BuildManifest(n));
    DecodePrint(j);
    NormalIsNormal(j);
    NormalKeepsMeaning(j);
    BuiltManifestSays(n);
  }
}
