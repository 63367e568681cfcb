/**
 * The manifest a quote, a payment and a print job agree on, and the text that is
 * hashed for it: packages/domain/src/print-settings.ts, lines 371-408.
 */
module SettingsManifest {
  import opened CanonicalJson
  import opened CanonicalJsonLaws
  import opened CanonicalJsonMeaning
  import opened CodeUnits
  import opened PrintSettings
  import opened Wrappers

  const SETTINGS_MANIFEST_VERSION: SafeInteger := 3

  datatype PagePair = PagePair(first: SafeInteger, last: SafeInteger)

  datatype ManifestFile = ManifestFile(
    fileId: Text, position: SafeInteger, processingRevision: SafeInteger, contentSha256: Text,
    pageCount: SafeInteger, pageRanges: seq<PagePair>, selectedPages: SafeInteger, copies: SafeInteger,
    duplex: DuplexMode, orientation: Orientation)

  datatype Manifest = Manifest(
    manifestVersion: SafeInteger, colorMode: ColorMode, paperSize: PaperSize, scaling: ScalingMode,
    collate: bool, capabilityVersion: SafeInteger, files: seq<ManifestFile>)

  // ---------- Building the manifest ----------

  predicate FileNumbersSafe(f: NormalizedFile) {
    && IsSafe(f.position) && IsSafe(f.processingRevision) && IsSafe(f.pageCount)
    && IsSafe(f.selectedPages) && IsSafe(f.copies)
    && forall i :: 0 <= i < |f.pageRanges| ==> IsSafe(f.pageRanges[i].first) && IsSafe(f.pageRanges[i].last)
  }

  predicate NumbersSafe(n: NormalizedSettings) {
    IsSafe(n.capabilityVersion) && forall i :: 0 <= i < |n.files| ==> FileNumbersSafe(n.files[i])
  }

  function BuildFile(f: NormalizedFile): ManifestFile
    requires FileNumbersSafe(f)
  {
    var ranges := f.pageRanges;
    ManifestFile(
      f.fileId, f.position, f.processingRevision, f.contentSha256, f.pageCount,
      seq(|ranges|, i requires 0 <= i < |ranges| => PagePair(ranges[i].first, ranges[i].last)),
      f.selectedPages, f.copies, f.duplex, f.orientation)
  }

  function BuildManifest(n: NormalizedSettings): Manifest
    requires NumbersSafe(n)
  {
    Manifest(
      SETTINGS_MANIFEST_VERSION, n.colorMode, n.paperSize, n.scaling, n.collate, n.capabilityVersion,
      seq(|n.files|, i requires 0 <= i < |n.files| => BuildFile(n.files[i])))
  }

  // ---------- The manifest as a JSON value ----------

  function UnitOf(c: char): CodeUnit {
    if c as int < 0x80 then c as int else 0
  }

  function Ascii(s: string): (t: Text)
    ensures |t| == |s| && forall i :: 0 <= i < |s| && s[i] as int < 0x80 ==> t[i] == s[i] as int
  {
    seq(|s|, i requires 0 <= i < |s| => UnitOf(s[i]))
  }

  function Record(keys: seq<string>, values: seq<Json>): (entries: seq<Keyed<Json>>)
    requires |keys| == |values|
    ensures |entries| == |keys|
  {
    seq(|keys|, i requires 0 <= i < |keys| => Keyed(Ascii(keys[i]), values[i]))
  }

  const FILE_KEYS := [
    "fileId", "position", "processingRevision", "contentSha256", "pageCount",
    "pageRanges", "selectedPages", "copies", "duplex", "orientation"]

  const MANIFEST_KEYS := [
    "manifestVersion", "colorMode", "paperSize", "scaling", "collate", "capabilityVersion", "files"]

  function DuplexText(d: DuplexMode): string {
    match d
    case Simplex => "SIMPLEX"
    case LongEdge => "LONG_EDGE"
    case ShortEdge => "SHORT_EDGE"
  }

  function OrientationText(o: Orientation): string {
    match o
    case Auto => "AUTO"
    case Portrait => "PORTRAIT"
    case Landscape => "LANDSCAPE"
  }

  function ScalingText(s: ScalingMode): string {
    match s
    case Fit => "FIT"
    case ActualSize => "ACTUAL_SIZE"
  }

  function PairJson(p: PagePair): Json {
    Array([Number(p.first), Number(p.last)])
  }

  function PairsJson(pairs: seq<PagePair>): (items: seq<Json>)
    ensures |items| == |pairs| && forall i :: 0 <= i < |pairs| ==> items[i] == PairJson(pairs[i])
  {
    seq(|pairs|, i requires 0 <= i < |pairs| => PairJson(pairs[i]))
  }

  function FileValues(f: ManifestFile): seq<Json> {
    [String(f.fileId), Number(f.position), Number(f.processingRevision), String(f.contentSha256),
     Number(f.pageCount), Array(PairsJson(f.pageRanges)), Number(f.selectedPages), Number(f.copies),
     String(Ascii(DuplexText(f.duplex))), String(Ascii(OrientationText(f.orientation)))]
  }

  function FileJson(f: ManifestFile): Json {
    Object(Record(FILE_KEYS, FileValues(f)))
  }

  function FilesJson(files: seq<ManifestFile>): (items: seq<Json>)
    ensures |items| == |files| && forall i :: 0 <= i < |files| ==> items[i] == FileJson(files[i])
  {
    seq(|files|, i requires 0 <= i < |files| => FileJson(files[i]))
  }

  function ManifestValues(m: Manifest): seq<Json> {
    [Number(m.manifestVersion), String(Ascii("MONOCHROME")), String(Ascii("A4")),
     String(Ascii(ScalingText(m.scaling))), Bool(m.collate), Number(m.capabilityVersion),
     Array(FilesJson(m.files))]
  }

  function ManifestJson(m: Manifest): Json {
    Object(Record(MANIFEST_KEYS, ManifestValues(m)))
  }

  /** The string the caller hashes. */
  function CanonicalManifest(m: Manifest): Result<Text, PrintError> {
    Print(ManifestJson(m))
  }

  // ---------- Keys never collide ----------

  predicate DistinctKeys(keys: seq<string>) {
    forall i, j :: 0 <= i < j < |keys| ==> Ascii(keys[i]) != Ascii(keys[j])
  }

  lemma DifferAt(a: string, b: string, k: nat)
    requires |a| != |b| || (k < |a| && UnitOf(a[k]) != UnitOf(b[k]))
    ensures Ascii(a) != Ascii(b)
  {
    if |a| == |b| {
      assert Ascii(a)[k] != Ascii(b)[k];
    }
  }

  lemma KeysAreDistinct()
    ensures DistinctKeys(FILE_KEYS) && DistinctKeys(MANIFEST_KEYS)
  {
    forall i, j | 0 <= i < j < |FILE_KEYS| ensures Ascii(FILE_KEYS[i]) != Ascii(FILE_KEYS[j]) {
      DifferAt(FILE_KEYS[i], FILE_KEYS[j], 0);
    }
    forall i, j | 0 <= i < j < |MANIFEST_KEYS| ensures Ascii(MANIFEST_KEYS[i]) != Ascii(MANIFEST_KEYS[j]) {
      DifferAt(MANIFEST_KEYS[i], MANIFEST_KEYS[j], 0);
    }
  }

  lemma RecordHasUniqueKeys(keys: seq<string>, values: seq<Json>)
    requires DistinctKeys(keys) && |keys| == |values|
    ensures UniqueKeys(Record(keys, values))
  {
  }

  // ---------- The text determines the manifest ----------

  lemma {:induction false} FieldAt(entries: seq<Keyed<Json>>, i: nat)
    requires UniqueKeys(entries) && i < |entries|
    requires forall k :: 0 <= k < |entries| ==> !entries[k].item.Undefined?
    ensures entries[i].key in Fields(entries) && Fields(entries)[entries[i].key] == Meaning(entries[i].item)
  {
    if i > 0 {
      FieldAt(entries[1..], i - 1);
    }
  }

  lemma RecordMeaning(keys: seq<string>, a: seq<Json>, b: seq<Json>, i: nat)
    requires |keys| == |a| == |b| && DistinctKeys(keys) && i < |keys|
    requires forall k :: 0 <= k < |keys| ==> !a[k].Undefined? && !b[k].Undefined?
    requires Meaning(Object(Record(keys, a))) == Meaning(Object(Record(keys, b)))
    ensures Meaning(a[i]) == Meaning(b[i])
  {
    RecordHasUniqueKeys(keys, a);
    RecordHasUniqueKeys(keys, b);
    FieldAt(Record(keys, a), i);
    FieldAt(Record(keys, b), i);
  }

  lemma {:induction false} MeaningsAt(items: seq<Json>, i: nat)
    requires i < |items|
    ensures Meanings(items)[i] == Meaning(items[i])
  {
    if i > 0 {
      MeaningsAt(items[1..], i - 1);
    }
  }

  lemma ArrayMeaning(a: seq<Json>, b: seq<Json>)
    requires Meaning(Array(a)) == Meaning(Array(b))
    ensures |a| == |b| && forall i :: 0 <= i < |a| ==> Meaning(a[i]) == Meaning(b[i])
  {
    assert |a| == |Meanings(a)| && |b| == |Meanings(b)|;
    forall i | 0 <= i < |a| ensures Meaning(a[i]) == Meaning(b[i]) {
      MeaningsAt(a, i);
      MeaningsAt(b, i);
    }
  }

  lemma PairMeaning(a: PagePair, b: PagePair)
    requires Meaning(PairJson(a)) == Meaning(PairJson(b))
    ensures a == b
  {
    var x, y := [Number(a.first), Number(a.last)], [Number(b.first), Number(b.last)];
    ArrayMeaning(x, y);
    assert Meaning(x[0]) == Meaning(y[0]) && Meaning(x[1]) == Meaning(y[1]);
  }

  lemma EnumTexts(d: DuplexMode, d': DuplexMode, o: Orientation, o': Orientation, s: ScalingMode, s': ScalingMode)
    ensures Ascii(DuplexText(d)) == Ascii(DuplexText(d')) ==> d == d'
    ensures Ascii(OrientationText(o)) == Ascii(OrientationText(o')) ==> o == o'
    ensures Ascii(ScalingText(s)) == Ascii(ScalingText(s')) ==> s == s'
  {
  }

  lemma SameFileValues(a: ManifestFile, b: ManifestFile)
    requires forall i :: 0 <= i < |FileValues(a)| ==> Meaning(FileValues(a)[i]) == Meaning(FileValues(b)[i])
    ensures a == b
  {
    var x, y := FileValues(a), FileValues(b);
    assert Meaning(x[0]) == Meaning(y[0]) && Meaning(x[1]) == Meaning(y[1]) && Meaning(x[2]) == Meaning(y[2]);
    assert Meaning(x[3]) == Meaning(y[3]) && Meaning(x[4]) == Meaning(y[4]) && Meaning(x[5]) == Meaning(y[5]);
    assert Meaning(x[6]) == Meaning(y[6]) && Meaning(x[7]) == Meaning(y[7]);
    assert Meaning(x[8]) == Meaning(y[8]) && Meaning(x[9]) == Meaning(y[9]);
    EnumTexts(a.duplex, b.duplex, a.orientation, b.orientation, Fit, Fit);
    ArrayMeaning(PairsJson(a.pageRanges), PairsJson(b.pageRanges));
    forall i | 0 <= i < |a.pageRanges| ensures a.pageRanges[i] == b.pageRanges[i] {
      PairMeaning(a.pageRanges[i], b.pageRanges[i]);
    }
  }

  lemma FileMeaning(a: ManifestFile, b: ManifestFile)
    requires Meaning(FileJson(a)) == Meaning(FileJson(b))
    ensures a == b
  {
    var x, y := FileValues(a), FileValues(b);
    KeysAreDistinct();
    forall i | 0 <= i < |x| ensures Meaning(x[i]) == Meaning(y[i]) {
      RecordMeaning(FILE_KEYS, x, y, i);
    }
    SameFileValues(a, b);
  }

  lemma SameFiles(a: seq<ManifestFile>, b: seq<ManifestFile>)
    requires Meaning(Array(FilesJson(a))) == Meaning(Array(FilesJson(b)))
    ensures a == b
  {
    hide FileJson;
    ArrayMeaning(FilesJson(a), FilesJson(b));
    forall i | 0 <= i < |a| ensures a[i] == b[i] {
      FileMeaning(a[i], b[i]);
    }
  }

  lemma SameManifestValues(a: Manifest, b: Manifest)
    requires forall i :: 0 <= i < 7 ==> Meaning(ManifestValues(a)[i]) == Meaning(ManifestValues(b)[i])
    ensures a == b
  {
    var x, y := ManifestValues(a), ManifestValues(b);
    assert Meaning(x[0]) == Meaning(y[0]) && Meaning(x[3]) == Meaning(y[3]) && Meaning(x[4]) == Meaning(y[4]);
    assert Meaning(x[5]) == Meaning(y[5]) && Meaning(x[6]) == Meaning(y[6]);
    EnumTexts(Simplex, Simplex, Auto, Auto, a.scaling, b.scaling);
    SameFiles(a.files, b.files);
  }

  lemma ManifestMeaning(a: Manifest, b: Manifest)
    requires Meaning(ManifestJson(a)) == Meaning(ManifestJson(b))
    ensures a == b
  {
    KeysAreDistinct();
    hide Ascii, FilesJson, FileJson;
    forall i | 0 <= i < 7 ensures Meaning(ManifestValues(a)[i]) == Meaning(ManifestValues(b)[i]) {
      RecordMeaning(MANIFEST_KEYS, ManifestValues(a), ManifestValues(b), i);
    }
    SameManifestValues(a, b);
  }

  predicate Printable(j: Json) {
    Serializable(j) && WellFormed(j)
  }

  lemma FileJsonIsPrintable(f: ManifestFile)
    ensures Printable(FileJson(f))
  {
    KeysAreDistinct();
    RecordHasUniqueKeys(FILE_KEYS, FileValues(f));
    forall i | 0 <= i < |f.pageRanges| ensures Printable(PairsJson(f.pageRanges)[i]) {
    }
  }

  lemma ManifestPrints(m: Manifest)
    ensures CanonicalManifest(m).Success? && WellFormed(ManifestJson(m))
  {
    hide FileJson, Ascii, Print, Meaning;
    KeysAreDistinct();
    RecordHasUniqueKeys(MANIFEST_KEYS, ManifestValues(m));
    forall i | 0 <= i < |m.files| ensures Printable(FilesJson(m.files)[i]) {
      FileJsonIsPrintable(m.files[i]);
    }
    PrintsExactly(ManifestJson(m));
  }

  /**
   * The hashed text binds the manifest: two manifests share it exactly when they agree
   * on every setting, document, digest, page range, copy count and orientation.
   */
  lemma ManifestTextDeterminesManifest(a: Manifest, b: Manifest)
    ensures CanonicalManifest(a) == CanonicalManifest(b) <==> a == b
  {
    ManifestPrints(a);
    ManifestPrints(b);
    SameTextIffSameMeaning(ManifestJson(a), ManifestJson(b));
    if CanonicalManifest(a) == CanonicalManifest(b) {
      ManifestMeaning(a, b);
    }
  }

  /** However the same object was assembled, it hashes to the manifest's own text. */
  lemma KeyOrderDoesNotMatter(m: Manifest, assembled: Json)
    requires WellFormed(assembled) && Print(assembled).Success?
    ensures Print(assembled) == CanonicalManifest(m) <==> Meaning(assembled) == Meaning(ManifestJson(m))
  {
    ManifestPrints(m);
    SameTextIffSameMeaning(assembled, ManifestJson(m));
  }
}
