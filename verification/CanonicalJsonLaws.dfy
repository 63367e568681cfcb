/**
 * The canonical text determines the value: parsing it gives the value back in normal
 * form, so two values print alike exactly when they are the same value.
 */
module CanonicalJsonLaws {
  import opened CanonicalJson
  import opened CodeUnits
  import opened Wrappers

  // ---------- Strings ----------

  lemma HexDigitRoundTrip(d: nat)
    requires d < 16
    ensures HexValue(HexDigit(d)) == Some(d)
  {
  }

  lemma HexRoundTrip(c: CodeUnit)
    ensures ParseHex4([HexDigit(c / 16 / 16 / 16), HexDigit(c / 16 / 16 % 16), HexDigit(c / 16 % 16), HexDigit(c % 16)]) == Some(c)
  {
    hide HexDigit, HexValue;
    var high := c / 16 / 16;
    HexDigitRoundTrip(high / 16);
    HexDigitRoundTrip(high % 16);
    HexDigitRoundTrip(c / 16 % 16);
    HexDigitRoundTrip(c % 16);
    assert c == high / 16 * 4096 + high % 16 * 256 + c / 16 % 16 * 16 + c % 16;
  }

  lemma Hex4Ignores(hex: Text, rest: Text)
    requires |hex| == 4
    ensures ParseHex4(hex + rest) == ParseHex4(hex)
  {
  }

  /** The two-unit escapes of section 7 of RFC 8259 that a printer has to choose from. */
  predicate HasShortEscape(c: CodeUnit) {
    c == QUOTE || c == BACKSLASH || c == 8 || c == 9 || c == 10 || c == 12 || c == 13
  }

  predicate IsLowerHex(c: CodeUnit) {
    IsDigit(c) || 97 <= c <= 102
  }

  /** The form `JSON.stringify` gives a unit: itself, its short escape, or four lower-case digits. */
  lemma EscapeForm(c: CodeUnit)
    ensures var e := EscapeUnit(c);
            && (|e| == 1 <==> c >= 0x20 && c != QUOTE && c != BACKSLASH && !(0xD800 <= c <= 0xDFFF))
            && (|e| == 1 ==> e == [c])
            && (|e| == 2 <==> HasShortEscape(c))
            && (|e| == 1 || |e| == 2 || (|e| == 6 && forall i :: 2 <= i < 6 ==> IsLowerHex(e[i])))
  {
  }

  lemma RawUnit(c: CodeUnit, rest: Text)
    requires c >= 0x20 && c != QUOTE && c != BACKSLASH
    ensures ParseUnit([c] + rest) == Some(Parsed(c, rest))
  {
    assert ([c] + rest)[1..] == rest;
  }

  lemma HexUnit(c: CodeUnit, rest: Text)
    ensures ParseUnit(UnicodeEscape(c) + rest) == Some(Parsed(c, rest))
  {
    HexRoundTrip(c);
    var t, hex := UnicodeEscape(c) + rest, UnicodeEscape(c)[2..];
    assert t[2..] == hex + rest && t[6..] == rest;
    Hex4Ignores(hex, rest);
    hide ParseHex4, HexDigit;
  }

  lemma ShortUnit(c: CodeUnit, mark: CodeUnit, rest: Text)
    requires mark != 117 && SimpleEscape(mark) == Some(c)
    ensures ParseUnit([BACKSLASH, mark] + rest) == Some(Parsed(c, rest))
  {
    assert ([BACKSLASH, mark] + rest)[2..] == rest;
  }

  /** Reading one printed character gives the code unit it was printed from. */
  lemma UnitRoundTrip(c: CodeUnit, rest: Text)
    ensures ParseUnit(EscapeUnit(c) + rest) == Some(Parsed(c, rest))
  {
    hide UnicodeEscape, ParseUnit;
    var escaped := EscapeUnit(c);
    EscapeForm(c);
    if |escaped| == 1 {
      RawUnit(c, rest);
    } else if HasShortEscape(c) {
      ShortUnit(c, escaped[1], rest);
    } else {
      HexUnit(c, rest);
    }
  }

  lemma EscapedStartsNoQuote(c: CodeUnit, rest: Text)
    ensures EscapeUnit(c) != [] && (EscapeUnit(c) + rest)[0] != QUOTE
  {
  }

  /** The unit at `i` is one half of a surrogate pair. */
  predicate Paired(s: Text, i: nat)
    requires i < |s|
  {
    (IsHigh(s[i]) && i + 1 < |s| && IsLow(s[i + 1])) || (IsLow(s[i]) && i > 0 && IsHigh(s[i - 1]))
  }

  predicate CopiedUnit(s: Text, i: nat)
    requires i < |s|
  {
    s[i] >= 0x20 && s[i] != QUOTE && s[i] != BACKSLASH && (0xD800 <= s[i] <= 0xDFFF ==> Paired(s, i))
  }

  /** No control, quotation mark, backslash or lone surrogate. */
  predicate Copied(s: Text) {
    forall i :: 0 <= i < |s| ==> CopiedUnit(s, i)
  }

  predicate StartsWithPair(s: Text) {
    |s| >= 2 && IsHigh(s[0]) && IsLow(s[1])
  }

  lemma CopiedAfterPair(s: Text)
    requires StartsWithPair(s)
    ensures Copied(s) <==> Copied(s[2..])
  {
    forall i | 0 <= i < |s| - 2 ensures CopiedUnit(s[2..], i) <==> CopiedUnit(s, i + 2) {
    }
    forall i | 2 <= i < |s| ensures CopiedUnit(s, i) <==> CopiedUnit(s[2..], i - 2) {
    }
  }

  lemma CopiedAfterUnit(s: Text)
    requires s != [] && !StartsWithPair(s)
    ensures Copied(s) <==> CopiedUnit(s, 0) && Copied(s[1..])
  {
    forall i | 0 <= i < |s| - 1 ensures CopiedUnit(s[1..], i) <==> CopiedUnit(s, i + 1) {
    }
    forall i | 1 <= i < |s| ensures CopiedUnit(s, i) <==> CopiedUnit(s[1..], i - 1) {
    }
  }

  /** Exactly those strings are printed as they are, and every other one grows. */
  lemma {:induction false} CopiedExactly(s: Text)
    ensures |Escape(s)| >= |s|
    ensures |Escape(s)| == |s| <==> Copied(s)
    ensures Copied(s) ==> Escape(s) == s
  {
    hide EscapeUnit;
    if StartsWithPair(s) {
      hide Copied;
      CopiedExactly(s[2..]);
      CopiedAfterPair(s);
      assert s == [s[0], s[1]] + s[2..];
    } else if s != [] {
      hide Copied;
      CopiedExactly(s[1..]);
      CopiedAfterUnit(s);
      EscapeForm(s[0]);
      assert CopiedUnit(s, 0) <==> |EscapeUnit(s[0])| == 1;
      assert s == [s[0]] + s[1..];
    }
  }

  lemma ParseStringStep(t: Text, c: CodeUnit, after: Text, s: Text, rest: Text)
    requires ParseUnit(t) == Some(Parsed(c, after)) && (t == [] || t[0] != QUOTE)
    requires ParseString(after) == Some(Parsed(s, rest))
    ensures ParseString(t) == Some(Parsed([c] + s, rest))
  {
    hide ParseUnit;
  }

  lemma EscapedUnitStep(c: CodeUnit, after: Text, s: Text, rest: Text)
    requires ParseString(after) == Some(Parsed(s, rest))
    ensures ParseString(EscapeUnit(c) + after) == Some(Parsed([c] + s, rest))
  {
    hide ParseUnit, ParseString, EscapeUnit;
    UnitRoundTrip(c, after);
    EscapedStartsNoQuote(c, after);
    ParseStringStep(EscapeUnit(c) + after, c, after, s, rest);
  }

  lemma RawUnitStep(c: CodeUnit, after: Text, s: Text, rest: Text)
    requires c >= 0x20 && c != QUOTE && c != BACKSLASH
    requires ParseString(after) == Some(Parsed(s, rest))
    ensures ParseString([c] + after) == Some(Parsed([c] + s, rest))
  {
    hide ParseUnit, ParseString;
    RawUnit(c, after);
    ParseStringStep([c] + after, c, after, s, rest);
  }

  lemma PairStep(high: CodeUnit, low: CodeUnit, after: Text, s: Text, rest: Text)
    requires IsHigh(high) && IsLow(low) && ParseString(after) == Some(Parsed(s, rest))
    ensures ParseString([high, low] + after) == Some(Parsed([high, low] + s, rest))
  {
    hide ParseString;
    RawUnitStep(low, after, s, rest);
    RawUnitStep(high, [low] + after, [low] + s, rest);
    assert [high] + ([low] + after) == [high, low] + after && [high] + ([low] + s) == [high, low] + s;
  }

  lemma ParseEmptyString(rest: Text)
    ensures ParseString([] + ([QUOTE] + rest)) == Some(Parsed([], rest))
  {
    assert ([QUOTE] + rest)[1..] == rest;
    assert [] + ([QUOTE] + rest) == [QUOTE] + rest;
  }

  lemma {:induction false} StringRoundTrip(s: Text, rest: Text)
    ensures ParseString(Escape(s) + ([QUOTE] + rest)) == Some(Parsed(s, rest))
    decreases |s|
  {
    hide ParseString, EscapeUnit;
    var tail := [QUOTE] + rest;
    if s == [] {
      ParseEmptyString(rest);
    } else if |s| >= 2 && IsHigh(s[0]) && IsLow(s[1]) {
      var after := Escape(s[2..]) + tail;
      StringRoundTrip(s[2..], rest);
      PairStep(s[0], s[1], after, s[2..], rest);
      assert Escape(s) + tail == [s[0], s[1]] + after;
      assert s == [s[0], s[1]] + s[2..];
    } else {
      var after := Escape(s[1..]) + tail;
      StringRoundTrip(s[1..], rest);
      EscapedUnitStep(s[0], after, s[1..], rest);
      assert Escape(s) + tail == EscapeUnit(s[0]) + after;
      assert s == [s[0]] + s[1..];
    }
  }

  // ---------- Numbers ----------

  /** What may follow a value inside a text, or nothing. */
  predicate Terminated(rest: Text) {
    rest == [] || rest[0] == COMMA || rest[0] == CLOSE_BRACKET || rest[0] == CLOSE_BRACE
  }

  lemma NaturalRoundTrip(n: nat, rest: Text)
    requires Terminated(rest)
    ensures ParseNatural(Decimal(n) + rest) == Some(Parsed(n, rest))
  {
    var digits := Decimal(n);
    DecimalRoundTrip(n);
    DigitRunOf(digits, rest);
    assert (digits + rest)[..|digits|] == digits && (digits + rest)[|digits|..] == rest;
  }

  lemma NumberRoundTrip(n: SafeInteger, rest: Text)
    requires Terminated(rest)
    ensures ParseNumber(Numeral(n) + rest) == Some(Parsed(Number(n), rest))
  {
    hide ParseNatural, Decimal;
    var value: int := n;
    if value < 0 {
      NaturalRoundTrip(-value, rest);
      assert (Numeral(n) + rest)[1..] == Decimal(-value) + rest;
    } else {
      NaturalRoundTrip(n, rest);
      DecimalRoundTrip(n);
      assert IsDigit(Decimal(n)[0]) && (Decimal(n) + rest)[0] == Decimal(n)[0];
    }
  }

  // ---------- Sorting by key ----------

  predicate SortedByKey<T>(entries: seq<Keyed<T>>) {
    forall i :: 0 < i < |entries| ==> !Less(entries[i].key, entries[i - 1].key)
  }

  lemma {:induction false} LessIsAsymmetric(a: Text, b: Text)
    ensures !(Less(a, b) && Less(b, a))
  {
    if a != [] && b != [] && a[0] == b[0] {
      LessIsAsymmetric(a[1..], b[1..]);
    }
  }

  lemma {:induction false} InsertKeepsSorted<T>(e: Keyed<T>, sorted: seq<Keyed<T>>)
    requires SortedByKey(sorted)
    ensures SortedByKey(InsertByKey(e, sorted))
    ensures InsertByKey(e, sorted)[0] == e || (sorted != [] && InsertByKey(e, sorted)[0] == sorted[0])
  {
    if sorted != [] && Less(sorted[0].key, e.key) {
      InsertKeepsSorted(e, sorted[1..]);
      LessIsAsymmetric(sorted[0].key, e.key);
    }
  }

  lemma {:induction false} SortByKeySorts<T>(entries: seq<Keyed<T>>)
    ensures SortedByKey(SortByKey(entries))
  {
    if entries != [] {
      SortByKeySorts(entries[1..]);
      InsertKeepsSorted(entries[0], SortByKey(entries[1..]));
    }
  }

  lemma {:induction false} SortedIsFixed<T>(entries: seq<Keyed<T>>)
    requires SortedByKey(entries)
    ensures SortByKey(entries) == entries
  {
    if entries != [] {
      SortedIsFixed(entries[1..]);
      assert entries == [entries[0]] + entries[1..];
    }
  }

  /** The same keys in the same order, with related items. */
  ghost predicate Parallel(printed: seq<Keyed<Text>>, entries: seq<Keyed<Json>>, related: (Text, Json) -> bool) {
    && |printed| == |entries|
    && forall i :: 0 <= i < |printed| ==> printed[i].key == entries[i].key && related(printed[i].item, entries[i].item)
  }

  lemma {:induction false} InsertKeepsParallel(
    p: Keyed<Text>, e: Keyed<Json>, printed: seq<Keyed<Text>>, entries: seq<Keyed<Json>>, related: (Text, Json) -> bool)
    requires p.key == e.key && related(p.item, e.item) && Parallel(printed, entries, related)
    ensures Parallel(InsertByKey(p, printed), InsertByKey(e, entries), related)
  {
    if printed != [] && Less(printed[0].key, p.key) {
      InsertKeepsParallel(p, e, printed[1..], entries[1..], related);
    }
  }

  /** The sort looks at keys only, so what was parallel stays parallel. */
  lemma {:induction false} SortKeepsParallel(printed: seq<Keyed<Text>>, entries: seq<Keyed<Json>>, related: (Text, Json) -> bool)
    requires Parallel(printed, entries, related)
    ensures Parallel(SortByKey(printed), SortByKey(entries), related)
  {
    if printed != [] {
      SortKeepsParallel(printed[1..], entries[1..], related);
      InsertKeepsParallel(printed[0], entries[0], SortByKey(printed[1..]), SortByKey(entries[1..]), related);
    }
  }

  // ---------- Parsing a printed value ----------

  /** `t` reads as `j` wherever a value may stand. */
  ghost predicate Decodes(t: Text, j: Json) {
    forall rest :: Terminated(rest) ==> ParseValue(t + rest) == Some(Parsed(j, rest))
  }

  ghost predicate AllDecode(parts: seq<Text>, items: seq<Json>) {
    && |parts| == |items|
    && forall i :: 0 <= i < |parts| ==> Decodes(parts[i], items[i])
  }

  lemma DecodesAt(t: Text, j: Json, rest: Text)
    requires Decodes(t, j) && Terminated(rest)
    ensures ParseValue(t + rest) == Some(Parsed(j, rest))
  {
  }

  lemma DecodableStarts(t: Text, j: Json)
    requires Decodes(t, j)
    ensures t != [] && t[0] != CLOSE_BRACKET
  {
    DecodesAt(t, j, []);
    assert t + [] == t;
  }

  lemma {:induction false} ElementsRoundTrip(parts: seq<Text>, items: seq<Json>, rest: Text)
    requires parts != [] && AllDecode(parts, items)
    ensures ParseElements(Join(parts, COMMA) + ([CLOSE_BRACKET] + rest)) == Some(Parsed(items, rest))
  {
    hide ParseValue, Decodes;
    if |parts| == 1 {
      DecodesAt(parts[0], items[0], [CLOSE_BRACKET] + rest);
      assert ([CLOSE_BRACKET] + rest)[1..] == rest;
      assert items == [items[0]];
    } else {
      var tail := Join(parts[1..], COMMA) + ([CLOSE_BRACKET] + rest);
      ElementsRoundTrip(parts[1..], items[1..], rest);
      DecodesAt(parts[0], items[0], [COMMA] + tail);
      assert Join(parts, COMMA) + ([CLOSE_BRACKET] + rest) == parts[0] + ([COMMA] + tail);
      assert ([COMMA] + tail)[1..] == tail;
      assert items == [items[0]] + items[1..];
    }
  }

  lemma MemberText(p: Keyed<Text>, rest: Text)
    ensures var t := (Quote(p.key) + [COLON] + p.item) + rest;
            t != [] && t[0] == QUOTE && t[1..] == Escape(p.key) + ([QUOTE] + ([COLON] + (p.item + rest)))
  {
    hide Escape;
  }

  lemma MemberRoundTrip(p: Keyed<Text>, item: Json, rest: Text)
    requires Decodes(p.item, item) && Terminated(rest)
    ensures ParseMember((Quote(p.key) + [COLON] + p.item) + rest) == Some(Parsed(Keyed(p.key, item), rest))
  {
    hide ParseValue, Decodes, ParseString, Escape;
    var after := [COLON] + (p.item + rest);
    StringRoundTrip(p.key, after);
    DecodesAt(p.item, item, rest);
    MemberText(p, rest);
    assert after[1..] == p.item + rest;
  }

  lemma {:induction false} MembersRoundTrip(printed: seq<Keyed<Text>>, entries: seq<Keyed<Json>>, rest: Text)
    requires printed != [] && Parallel(printed, entries, Decodes)
    ensures ParseMembers(Join(Members(printed), COMMA) + ([CLOSE_BRACE] + rest)) == Some(Parsed(entries, rest))
  {
    hide ParseMember, Decodes, Quote;
    var part := Quote(printed[0].key) + [COLON] + printed[0].item;
    assert entries[0] == Keyed(printed[0].key, entries[0].item);
    if |printed| == 1 {
      MemberRoundTrip(printed[0], entries[0].item, [CLOSE_BRACE] + rest);
      assert ([CLOSE_BRACE] + rest)[1..] == rest;
      assert Members(printed) == [part];
      assert entries == [entries[0]];
    } else {
      var tail := Join(Members(printed[1..]), COMMA) + ([CLOSE_BRACE] + rest);
      MembersRoundTrip(printed[1..], entries[1..], rest);
      MemberRoundTrip(printed[0], entries[0].item, [COMMA] + tail);
      assert Members(printed)[1..] == Members(printed[1..]);
      assert Join(Members(printed), COMMA) + ([CLOSE_BRACE] + rest) == part + ([COMMA] + tail);
      assert ([COMMA] + tail)[1..] == tail;
      assert entries == [entries[0]] + entries[1..];
    }
  }

  lemma DecodesEverywhere(t: Text, j: Json)
    requires forall rest :: ParseValue(t + rest) == Some(Parsed(j, rest))
    ensures Decodes(t, j)
  {
    hide ParseValue;
  }

  lemma ArrayDecodes(parts: seq<Text>, items: seq<Json>)
    requires AllDecode(parts, items)
    ensures Decodes([OPEN_BRACKET] + Join(parts, COMMA) + [CLOSE_BRACKET], Array(items))
  {
    hide Decodes, ParseElements;
    var t := [OPEN_BRACKET] + Join(parts, COMMA) + [CLOSE_BRACKET];
    forall rest ensures ParseValue(t + rest) == Some(Parsed(Array(items), rest)) {
      var inner := Join(parts, COMMA) + ([CLOSE_BRACKET] + rest);
      assert t + rest == [OPEN_BRACKET] + inner;
      assert ([OPEN_BRACKET] + inner)[1..] == inner;
      if parts == [] {
        assert inner == [CLOSE_BRACKET] + rest;
        assert (t + rest)[2..] == rest;
      } else {
        DecodableStarts(parts[0], items[0]);
        assert inner[0] == parts[0][0];
        ElementsRoundTrip(parts, items, rest);
      }
    }
    DecodesEverywhere(t, Array(items));
  }

  lemma MembersStart(printed: seq<Keyed<Text>>)
    requires printed != []
    ensures Join(Members(printed), COMMA) != [] && Join(Members(printed), COMMA)[0] == QUOTE
  {
  }

  lemma ObjectDecodes(printed: seq<Keyed<Text>>, entries: seq<Keyed<Json>>)
    requires Parallel(printed, entries, Decodes)
    ensures Decodes([OPEN_BRACE] + Join(Members(printed), COMMA) + [CLOSE_BRACE], Object(entries))
  {
    hide Decodes, ParseMembers, Quote;
    var joined := Join(Members(printed), COMMA);
    var t := [OPEN_BRACE] + joined + [CLOSE_BRACE];
    forall rest ensures ParseValue(t + rest) == Some(Parsed(Object(entries), rest)) {
      var inner := joined + ([CLOSE_BRACE] + rest);
      assert t + rest == [OPEN_BRACE] + inner;
      assert ([OPEN_BRACE] + inner)[1..] == inner;
      if printed == [] {
        assert inner == [CLOSE_BRACE] + rest;
        assert (t + rest)[2..] == rest;
      } else {
        MembersStart(printed);
        assert inner[0] == QUOTE;
        MembersRoundTrip(printed, entries, rest);
      }
    }
    DecodesEverywhere(t, Object(entries));
  }

  lemma NumeralStarts(n: int)
    ensures Numeral(n) != [] && (Numeral(n)[0] == HYPHEN || IsDigit(Numeral(n)[0]))
  {
    DecimalRoundTrip(if n < 0 then -n else n);
  }

  lemma NumberDecodes(n: SafeInteger)
    ensures Decodes(Numeral(n), Number(n))
  {
    hide ParseNumber, Decimal;
    forall rest | Terminated(rest) ensures ParseValue(Numeral(n) + rest) == Some(Parsed(Number(n), rest)) {
      NumberRoundTrip(n, rest);
      NumeralStarts(n);
      assert (Numeral(n) + rest)[0] == Numeral(n)[0];
    }
  }

  lemma StringDecodes(s: Text)
    ensures Decodes(Quote(s), String(s))
  {
    hide ParseString, Escape;
    forall rest ensures ParseValue(Quote(s) + rest) == Some(Parsed(String(s), rest)) {
      StringRoundTrip(s, rest);
      assert Quote(s) + rest == [QUOTE] + (Escape(s) + ([QUOTE] + rest));
      assert (Quote(s) + rest)[1..] == Escape(s) + ([QUOTE] + rest);
    }
  }

  lemma LiteralDecodes(b: bool)
    ensures Decodes(NULL_TEXT, Null) && Decodes(if b then TRUE_TEXT else FALSE_TEXT, Bool(b))
  {
    forall rest: Text
      ensures ParseValue(NULL_TEXT + rest) == Some(Parsed(Null, rest))
      ensures ParseValue(TRUE_TEXT + rest) == Some(Parsed(Bool(true), rest))
      ensures ParseValue(FALSE_TEXT + rest) == Some(Parsed(Bool(false), rest))
    {
      assert (NULL_TEXT + rest)[4..] == rest && (TRUE_TEXT + rest)[4..] == rest && (FALSE_TEXT + rest)[5..] == rest;
    }
  }

  lemma {:induction false} PrintItemsDecode(items: seq<Json>)
    requires PrintItems(items).Success?
    ensures AllDecode(PrintItems(items).value, NormalItems(items))
  {
    hide Decodes;
    if items != [] {
      PrintDecodes(items[0]);
      PrintItemsDecode(items[1..]);
    }
  }

  lemma {:induction false} PrintEntriesDecode(entries: seq<Keyed<Json>>)
    requires PrintEntries(entries).Success?
    ensures Parallel(PrintEntries(entries).value, NormalEntries(entries), Decodes)
  {
    hide Decodes;
    if entries != [] {
      PrintEntriesDecode(entries[1..]);
      if !entries[0].item.Undefined? {
        PrintDecodes(entries[0].item);
      }
    }
  }

  lemma {:induction false} PrintDecodes(j: Json)
    requires Print(j).Success?
    ensures Decodes(Print(j).value, Normal(j))
  {
    hide Decodes;
    match j
    case Null => LiteralDecodes(true);
    case Bool(b) => LiteralDecodes(b);
    case Number(n) => NumberDecodes(n);
    case String(s) => StringDecodes(s);
    case Array(items) =>
      PrintItemsDecode(items);
      ArrayDecodes(PrintItems(items).value, NormalItems(items));
    case Object(entries) =>
      PrintEntriesDecode(entries);
      SortKeepsParallel(PrintEntries(entries).value, NormalEntries(entries), Decodes);
      ObjectDecodes(SortByKey(PrintEntries(entries).value), SortByKey(NormalEntries(entries)));
  }

  /** Parsing the canonical text recovers the value in normal form. */
  lemma DecodePrint(j: Json)
    requires Print(j).Success?
    ensures Decode(Print(j).value) == Some(Normal(j))
  {
    PrintDecodes(j);
    DecodesAt(Print(j).value, Normal(j), []);
    assert Print(j).value + [] == Print(j).value;
  }

  // ---------- The normal form determines the text ----------

  ghost predicate PrintsTo(t: Text, j: Json) {
    !j.Undefined? && Print(j) == Success(t)
  }

  lemma {:induction false} PrintNormalItems(items: seq<Json>)
    requires PrintItems(items).Success?
    ensures PrintItems(NormalItems(items)) == PrintItems(items)
  {
    if items != [] {
      PrintNormal(items[0]);
      PrintNormalItems(items[1..]);
      assert NormalItems(items)[1..] == NormalItems(items[1..]);
    }
  }

  lemma {:induction false} PrintNormalEntries(entries: seq<Keyed<Json>>)
    requires PrintEntries(entries).Success?
    ensures Parallel(PrintEntries(entries).value, NormalEntries(entries), PrintsTo)
  {
    hide PrintsTo;
    if entries != [] {
      PrintNormalEntries(entries[1..]);
      if !entries[0].item.Undefined? {
        PrintNormal(entries[0].item);
      }
    }
  }

  lemma {:induction false} ParallelPrints(printed: seq<Keyed<Text>>, entries: seq<Keyed<Json>>)
    requires Parallel(printed, entries, PrintsTo)
    ensures PrintEntries(entries) == Success(printed)
  {
    if entries != [] {
      ParallelPrints(printed[1..], entries[1..]);
      assert printed == [Keyed(entries[0].key, printed[0].item)] + printed[1..];
    }
  }

  lemma {:induction false} PrintNormal(j: Json)
    requires Print(j).Success?
    ensures PrintsTo(Print(j).value, Normal(j))
  {
    match j
    case Array(items) =>
      PrintNormalItems(items);
    case Object(entries) =>
      var printed, normal := PrintEntries(entries).value, NormalEntries(entries);
      PrintNormalEntries(entries);
      SortKeepsParallel(printed, normal, PrintsTo);
      ParallelPrints(SortByKey(printed), SortByKey(normal));
      SortByKeySorts(printed);
      SortedIsFixed(SortByKey(printed));
    case _ =>
  }

  /** Two values share a canonical text exactly when they have the same normal form. */
  lemma PrintIsInjective(a: Json, b: Json)
    requires Print(a).Success? && Print(b).Success?
    ensures Print(a) == Print(b) <==> Normal(a) == Normal(b)
  {
    hide Print, Decode;
    DecodePrint(a);
    DecodePrint(b);
    PrintNormal(a);
    PrintNormal(b);
  }

  // ---------- The normal form is the value up to key order ----------

  /** A value with its objects read as maps: no key order, no undefined fields. */
  datatype Value =
    | Atom(j: Json)
    | List(items: seq<Value>)
    | Record(fields: map<Text, Value>)

  function Meanings(items: seq<Json>): (values: seq<Value>)
    ensures |values| == |items|
  {
    if items == [] then [] else [Meaning(items[0])] + Meanings(items[1..])
  }

  function Fields(entries: seq<Keyed<Json>>): map<Text, Value> {
    if entries == [] then map[]
    else if entries[0].item.Undefined? then Fields(entries[1..])
    else Fields(entries[1..])[entries[0].key := Meaning(entries[0].item)]
  }

  function Meaning(j: Json): Value {
    match j
    case Array(items) => List(Meanings(items))
    case Object(entries) => Record(Fields(entries))
    case _ => Atom(j)
  }

  predicate UniqueKeys<T>(entries: seq<Keyed<T>>) {
    forall i, j :: 0 <= i < j < |entries| ==> entries[i].key != entries[j].key
  }

  /** Every object in the value lists each of its keys once, as a JavaScript object does. */
  predicate WellFormed(j: Json) {
    match j
    case Array(items) => forall i :: 0 <= i < |items| ==> WellFormed(items[i])
    case Object(entries) => UniqueKeys(entries) && forall i :: 0 <= i < |entries| ==> WellFormed(entries[i].item)
    case _ => true
  }
}
