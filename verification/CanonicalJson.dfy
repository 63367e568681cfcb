/**
 * Key-sorted JSON: the printer shared by packages/domain/src/print-settings.ts
 * (lines 406-423) and packages/printer-adapters/src/types.ts (lines 345-362), and a
 * parser for the RFC 8259 grammar (sections 4, 5 and 7, integers only) that reads it.
 */
module CanonicalJson {
  import opened CodeUnits
  import opened Wrappers

  datatype Keyed<T> = Keyed(key: Text, item: T)

  /** A value as JavaScript holds it; an object lists its entries in some order. */
  datatype Json =
    | Undefined
    | Null
    | Bool(b: bool)
    | Number(n: SafeInteger)
    | String(s: Text)
    | Array(items: seq<Json>)
    | Object(entries: seq<Keyed<Json>>)

  datatype PrintError = UnserializableManifest

  const QUOTE: CodeUnit := 34
  const COLON: CodeUnit := 58
  const BACKSLASH: CodeUnit := 92
  const OPEN_BRACKET: CodeUnit := 91
  const CLOSE_BRACKET: CodeUnit := 93
  const OPEN_BRACE: CodeUnit := 123
  const CLOSE_BRACE: CodeUnit := 125
  const NULL_TEXT: Text := [110, 117, 108, 108]
  const TRUE_TEXT: Text := [116, 114, 117, 101]
  const FALSE_TEXT: Text := [102, 97, 108, 115, 101]

  // ---------- Strings ----------

  predicate IsHigh(c: CodeUnit) {
    0xD800 <= c <= 0xDBFF
  }

  predicate IsLow(c: CodeUnit) {
    0xDC00 <= c <= 0xDFFF
  }

  function HexDigit(d: nat): CodeUnit
    requires d < 16
  {
    if d < 10 then ZERO + d else 97 + (d - 10)
  }

  function UnicodeEscape(c: CodeUnit): Text {
    [BACKSLASH, 117, HexDigit(c / 16 / 16 / 16), HexDigit(c / 16 / 16 % 16), HexDigit(c / 16 % 16), HexDigit(c % 16)]
  }

  function EscapeUnit(c: CodeUnit): Text {
    if c == QUOTE || c == BACKSLASH then [BACKSLASH, c]
    else if c == 8 then [BACKSLASH, 98]
    else if c == 9 then [BACKSLASH, 116]
    else if c == 10 then [BACKSLASH, 110]
    else if c == 12 then [BACKSLASH, 102]
    else if c == 13 then [BACKSLASH, 114]
    else if c < 0x20 || IsHigh(c) || IsLow(c) then UnicodeEscape(c)
    else [c]
  }

  /** A surrogate pair is copied, a lone surrogate is escaped. */
  function Escape(s: Text): Text {
    if s == [] then []
    else if |s| >= 2 && IsHigh(s[0]) && IsLow(s[1]) then [s[0], s[1]] + Escape(s[2..])
    else EscapeUnit(s[0]) + Escape(s[1..])
  }

  /** `JSON.stringify` of a string. */
  function Quote(s: Text): Text {
    [QUOTE] + Escape(s) + [QUOTE]
  }

  // ---------- Key order ----------

  /** `left < right` on strings: by code unit, a proper prefix first. */
  predicate Less(a: Text, b: Text) {
    if b == [] then false
    else if a == [] then true
    else if a[0] != b[0] then a[0] < b[0]
    else Less(a[1..], b[1..])
  }

  function InsertByKey<T>(e: Keyed<T>, sorted: seq<Keyed<T>>): seq<Keyed<T>> {
    if sorted == [] || !Less(sorted[0].key, e.key) then [e] + sorted
    else [sorted[0]] + InsertByKey(e, sorted[1..])
  }

  function SortByKey<T>(entries: seq<Keyed<T>>): seq<Keyed<T>> {
    if entries == [] then [] else InsertByKey(entries[0], SortByKey(entries[1..]))
  }

  // ---------- Printing ----------

  function PrintItems(items: seq<Json>): Result<seq<Text>, PrintError> {
    if items == [] then Success([])
    else
      var first :- Print(items[0]);
      var rest :- PrintItems(items[1..]);
      Success([first] + rest)
  }

  /** The defined entries, each value printed; the sort then only moves them. */
  function PrintEntries(entries: seq<Keyed<Json>>): Result<seq<Keyed<Text>>, PrintError> {
    if entries == [] then Success([])
    else if entries[0].item.Undefined? then PrintEntries(entries[1..])
    else
      var first :- Print(entries[0].item);
      var rest :- PrintEntries(entries[1..]);
      Success([Keyed(entries[0].key, first)] + rest)
  }

  function Members(printed: seq<Keyed<Text>>): (parts: seq<Text>)
    ensures |parts| == |printed|
  {
    if printed == [] then []
    else [Quote(printed[0].key) + [COLON] + printed[0].item] + Members(printed[1..])
  }

  function Print(j: Json): Result<Text, PrintError> {
    match j
    case Undefined => Failure(UnserializableManifest)
    case Null => Success(NULL_TEXT)
    case Bool(b) => Success(if b then TRUE_TEXT else FALSE_TEXT)
    case Number(n) => Success(Numeral(n))
    case String(s) => Success(Quote(s))
    case Array(items) =>
      var parts :- PrintItems(items);
      Success([OPEN_BRACKET] + Join(parts, COMMA) + [CLOSE_BRACKET])
    case Object(entries) =>
      var printed :- PrintEntries(entries);
      Success([OPEN_BRACE] + Join(Members(SortByKey(printed)), COMMA) + [CLOSE_BRACE])
  }

  // ---------- The value a text stands for ----------

  function NormalItems(items: seq<Json>): (normal: seq<Json>)
    ensures |normal| == |items|
  {
    if items == [] then [] else [Normal(items[0])] + NormalItems(items[1..])
  }

  function NormalEntries(entries: seq<Keyed<Json>>): seq<Keyed<Json>> {
    if entries == [] then []
    else if entries[0].item.Undefined? then NormalEntries(entries[1..])
    else [Keyed(entries[0].key, Normal(entries[0].item))] + NormalEntries(entries[1..])
  }

  /** Keys sorted, undefined fields dropped, all the way down. */
  function Normal(j: Json): Json {
    match j
    case Array(items) => Array(NormalItems(items))
    case Object(entries) => Object(SortByKey(NormalEntries(entries)))
    case _ => j
  }

  // ---------- Parsing ----------

  datatype Parsed<T> = Parsed(value: T, rest: Text)

  function HexValue(c: CodeUnit): Option<nat> {
    if IsDigit(c) then Some(c - ZERO)
    else if 97 <= c <= 102 then Some(c - 87)
    else if 65 <= c <= 70 then Some(c - 55)
    else None
  }

  function ParseHex4(t: Text): Option<CodeUnit> {
    if |t| < 4 then None
    else
      match (HexValue(t[0]), HexValue(t[1]), HexValue(t[2]), HexValue(t[3]))
      case (Some(a), Some(b), Some(c), Some(d)) =>
        var unit := a * 4096 + b * 256 + c * 16 + d;
        if unit < 0x1_0000 then Some(unit) else None
      case _ => None
  }

  function SimpleEscape(c: CodeUnit): Option<CodeUnit> {
    if c == QUOTE || c == BACKSLASH || c == 47 then Some(c)
    else if c == 98 then Some(8)
    else if c == 102 then Some(12)
    else if c == 110 then Some(10)
    else if c == 114 then Some(13)
    else if c == 116 then Some(9)
    else None
  }

  /** One character of a string, after its opening quotation mark. */
  function ParseUnit(t: Text): (r: Option<Parsed<CodeUnit>>)
    ensures r.Some? ==> |r.value.rest| < |t|
  {
    if t == [] || t[0] < 0x20 || t[0] == QUOTE then None
    else if t[0] != BACKSLASH then Some(Parsed(t[0], t[1..]))
    else if |t| < 2 then None
    else if t[1] == 117 then
      match ParseHex4(t[2..])
      case Some(c) => Some(Parsed(c, t[6..]))
      case None => None
    else
      match SimpleEscape(t[1])
      case Some(c) => Some(Parsed(c, t[2..]))
      case None => None
  }

  function ParseString(t: Text): (r: Option<Parsed<Text>>)
    ensures r.Some? ==> |r.value.rest| < |t|
    decreases |t|
  {
    if t != [] && t[0] == QUOTE then Some(Parsed([], t[1..]))
    else
      match ParseUnit(t)
      case None => None
      case Some(Parsed(c, after)) =>
        match ParseString(after)
        case None => None
        case Some(Parsed(s, rest)) => Some(Parsed([c] + s, rest))
  }

  /** An integer without superfluous zeros, in the safe range. */
  function ParseNatural(t: Text): (r: Option<Parsed<nat>>)
    ensures r.Some? ==> |r.value.rest| < |t|
  {
    var n := DigitRun(t);
    if n == 0 || (n > 1 && t[0] == ZERO) then None
    else Some(Parsed(DecimalValue(t[..n]), t[n..]))
  }

  function ParseNumber(t: Text): (r: Option<Parsed<Json>>)
    ensures r.Some? ==> |r.value.rest| < |t|
  {
    var negative := t != [] && t[0] == HYPHEN;
    match ParseNatural(if negative then t[1..] else t)
    case None => None
    case Some(Parsed(n, rest)) =>
      var magnitude: int := n;
      var value := if negative then -magnitude else magnitude;
      if IsSafe(value) then Some(Parsed(Number(value), rest)) else None
  }

  function ParseLiteral(t: Text, literal: Text, value: Json): (r: Option<Parsed<Json>>)
    requires literal != []
    ensures r.Some? ==> |r.value.rest| < |t|
  {
    if literal <= t then Some(Parsed(value, t[|literal|..])) else None
  }

  /** `value *( "," value ) "]"` */
  function ParseElements(t: Text): (r: Option<Parsed<seq<Json>>>)
    ensures r.Some? ==> |r.value.rest| < |t|
    decreases |t|, 2
  {
    match ParseValue(t)
    case None => None
    case Some(Parsed(first, after)) =>
      if after != [] && after[0] == CLOSE_BRACKET then Some(Parsed([first], after[1..]))
      else if after == [] || after[0] != COMMA then None
      else
        match ParseElements(after[1..])
        case Some(Parsed(items, rest)) => Some(Parsed([first] + items, rest))
        case None => None
  }

  /** `string ":" value` */
  function ParseMember(t: Text): (r: Option<Parsed<Keyed<Json>>>)
    ensures r.Some? ==> |r.value.rest| < |t|
    decreases |t|, 2
  {
    if t == [] || t[0] != QUOTE then None
    else
      match ParseString(t[1..])
      case None => None
      case Some(Parsed(key, after)) =>
        if after == [] || after[0] != COLON then None
        else
          match ParseValue(after[1..])
          case Some(Parsed(item, rest)) => Some(Parsed(Keyed(key, item), rest))
          case None => None
  }

  /** `member *( "," member ) "}"` */
  function ParseMembers(t: Text): (r: Option<Parsed<seq<Keyed<Json>>>>)
    ensures r.Some? ==> |r.value.rest| < |t|
    decreases |t|, 3
  {
    match ParseMember(t)
    case None => None
    case Some(Parsed(first, after)) =>
      if after != [] && after[0] == CLOSE_BRACE then Some(Parsed([first], after[1..]))
      else if after == [] || after[0] != COMMA then None
      else
        match ParseMembers(after[1..])
        case Some(Parsed(entries, rest)) => Some(Parsed([first] + entries, rest))
        case None => None
  }

  function ParseValue(t: Text): (r: Option<Parsed<Json>>)
    ensures r.Some? ==> |r.value.rest| < |t|
    decreases |t|, 1
  {
    if t == [] then None
    else if t[0] == 110 then ParseLiteral(t, NULL_TEXT, Null)
    else if t[0] == 116 then ParseLiteral(t, TRUE_TEXT, Bool(true))
    else if t[0] == 102 then ParseLiteral(t, FALSE_TEXT, Bool(false))
    else if t[0] == QUOTE then
      match ParseString(t[1..])
      case Some(Parsed(s, rest)) => Some(Parsed(String(s), rest))
      case None => None
    else if t[0] == OPEN_BRACKET then
      if |t| > 1 && t[1] == CLOSE_BRACKET then Some(Parsed(Array([]), t[2..]))
      else
        match ParseElements(t[1..])
        case Some(Parsed(items, rest)) => Some(Parsed(Array(items), rest))
        case None => None
    else if t[0] == OPEN_BRACE then
      if |t| > 1 && t[1] == CLOSE_BRACE then Some(Parsed(Object([]), t[2..]))
      else
        match ParseMembers(t[1..])
        case Some(Parsed(entries, rest)) => Some(Parsed(Object(entries), rest))
        case None => None
    else ParseNumber(t)
  }

  /** A whole text is one value and nothing after it. */
  function Decode(t: Text): Option<Json> {
    match ParseValue(t)
    case Some(Parsed(value, rest)) => if rest == [] then Some(value) else None
    case None => None
  }
}
