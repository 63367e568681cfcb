/**
 * JavaScript strings as sequences of UTF-16 code units, and their decimal
 * numerals: `Decimal` prints a number, `DecimalValue` reads one.
 */
module CodeUnits {

  type CodeUnit = n: int | 0 <= n < 0x1_0000
  type Text = seq<CodeUnit>

  const COMMA: CodeUnit := 44
  const HYPHEN: CodeUnit := 45
  const ZERO: CodeUnit := 48
  const NINE: CodeUnit := 57

  predicate IsDigit(c: CodeUnit) {
    ZERO <= c <= NINE
  }

  predicate AllDigits(t: Text) {
    forall i :: 0 <= i < |t| ==> IsDigit(t[i])
  }

  function DecimalValue(t: Text): nat
    requires AllDigits(t)
  {
    if t == [] then 0 else DecimalValue(t[..|t| - 1]) * 10 + (t[|t| - 1] - ZERO)
  }

  function Decimal(n: nat): Text {
    if n < 10 then [ZERO + n] else Decimal(n / 10) + [ZERO + n % 10]
  }

  /** The template-literal form of a safe integer. */
  function Numeral(n: int): Text {
    if n < 0 then [HYPHEN] + Decimal(-n) else Decimal(n)
  }

  /** Printing a number and reading it back is the identity. */
  lemma {:induction false} DecimalRoundTrip(n: nat)
    ensures |Decimal(n)| >= 1 && AllDigits(Decimal(n))
    ensures DecimalValue(Decimal(n)) == n
    ensures n > 0 ==> Decimal(n)[0] != ZERO
  {
    if n < 10 {
      assert Decimal(n)[..0] == [];
    } else {
      DecimalRoundTrip(n / 10);
      assert Decimal(n)[..|Decimal(n)| - 1] == Decimal(n / 10);
    }
  }

  /** Zeros in front change nothing, so every text of digits reads as its canonical numeral does. */
  lemma {:induction false} LeadingZero(t: Text)
    requires AllDigits(t)
    ensures AllDigits([ZERO] + t) && DecimalValue([ZERO] + t) == DecimalValue(t)
  {
    if t == [] {
      assert DecimalValue([ZERO][..0]) == 0;
    } else {
      LeadingZero(t[..|t| - 1]);
      assert ([ZERO] + t)[..|t|] == [ZERO] + t[..|t| - 1];
    }
  }

  /** The canonical numeral is never longer than the digits it was read from. */
  lemma {:induction false} DecimalIsShortest(t: Text)
    requires |t| >= 1 && AllDigits(t)
    ensures |Decimal(DecimalValue(t))| <= |t|
  {
    var init := t[..|t| - 1];
    if init != [] {
      DecimalIsShortest(init);
      assert DecimalValue(t) / 10 == DecimalValue(init);
    } else {
      assert DecimalValue(init) == 0;
    }
  }

  /** Six digits reach exactly up to 999,999. */
  lemma SixDigits(n: nat)
    ensures n <= 999_999 <==> |Decimal(n)| <= 6
  {
    var a := n / 10;
    var b := a / 10;
    var c := b / 10;
    var d := c / 10;
    var e := d / 10;
    assert |Decimal(n)| == if n < 10 then 1 else |Decimal(a)| + 1;
    assert |Decimal(a)| == if a < 10 then 1 else |Decimal(b)| + 1;
    assert |Decimal(b)| == if b < 10 then 1 else |Decimal(c)| + 1;
    assert |Decimal(c)| == if c < 10 then 1 else |Decimal(d)| + 1;
    assert |Decimal(d)| == if d < 10 then 1 else |Decimal(e)| + 1;
    DecimalRoundTrip(e / 10);
  }

  /** How many digits a text starts with: the reach of a greedy `\d*`. */
  function DigitRun(t: Text): (n: nat)
    ensures n <= |t| && AllDigits(t[..n])
    ensures n < |t| ==> !IsDigit(t[n])
  {
    if t == [] || !IsDigit(t[0]) then 0
    else
      var n := 1 + DigitRun(t[1..]);
      assert t[..n] == [t[0]] + t[1..][..n - 1];
      n
  }

  lemma {:induction false} DigitRunOf(digits: Text, rest: Text)
    requires AllDigits(digits)
    requires rest == [] || !IsDigit(rest[0])
    ensures DigitRun(digits + rest) == |digits|
  {
    if digits == [] {
      assert digits + rest == rest;
    } else {
      DigitRunOf(digits[1..], rest);
      assert (digits + rest)[1..] == digits[1..] + rest;
    }
  }

  // ---------- Separators ----------

  /** `text.split(separator)` for a one-unit separator: never empty. */
  function Split(t: Text, separator: CodeUnit): (parts: seq<Text>)
    ensures |parts| >= 1
  {
    if t == [] then [[]]
    else
      var parts := Split(t[1..], separator);
      if t[0] == separator then [[]] + parts else [[t[0]] + parts[0]] + parts[1..]
  }

  /** `parts.join(separator)`. */
  function Join(parts: seq<Text>, separator: CodeUnit): Text {
    if parts == [] then []
    else if |parts| == 1 then parts[0]
    else parts[0] + [separator] + Join(parts[1..], separator)
  }

  /** The room the parts take, counting one separator after each. */
  function JoinedLength(parts: seq<Text>): nat {
    if parts == [] then 0 else |parts[0]| + 1 + JoinedLength(parts[1..])
  }

  lemma {:induction false} JoinSplit(t: Text, separator: CodeUnit)
    ensures Join(Split(t, separator), separator) == t
    ensures JoinedLength(Split(t, separator)) == |t| + 1
    ensures forall i :: 0 <= i < |Split(t, separator)| ==> separator !in Split(t, separator)[i]
  {
    if t != [] {
      JoinSplit(t[1..], separator);
      var rest := Split(t[1..], separator);
      var parts := Split(t, separator);
      if t[0] == separator {
        assert parts[1..] == rest;
      } else {
        assert parts[1..] == rest[1..];
        assert parts[0] == [t[0]] + rest[0];
      }
    }
  }

  lemma {:induction false} SplitJoin(parts: seq<Text>, separator: CodeUnit)
    requires |parts| >= 1
    requires forall i :: 0 <= i < |parts| ==> separator !in parts[i]
    ensures Split(Join(parts, separator), separator) == parts
    decreases |parts|, |parts[0]|
  {
    var t := Join(parts, separator);
    if parts[0] == [] {
      if |parts| > 1 {
        SplitJoin(parts[1..], separator);
        assert t[1..] == Join(parts[1..], separator);
      }
    } else {
      var shorter := [parts[0][1..]] + parts[1..];
      assert forall i :: 0 < i < |shorter| ==> shorter[i] == parts[i];
      SplitJoin(shorter, separator);
      assert shorter[1..] == parts[1..];
      assert t[1..] == Join(shorter, separator);
      assert t[0] == parts[0][0] && t[0] in parts[0];
      assert [t[0]] + shorter[0] == parts[0];
    }
  }
}
