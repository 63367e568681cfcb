/**
 * Pricing: packages/pricing/src/index.ts. Amounts are integer minor units and
 * percentages are integer basis points; every safe-integer and limit check of the
 * source is kept as a failure.
 */
module Pricing {
  import opened Wrappers

  datatype RoundingMode = HalfUp | HalfEven | AwayFromZero | TowardZero
  datatype MinimumApplication = BeforeTax | AfterTax

  const BASIS_POINT_SCALE := 10_000
  const MAX_QUOTE_AMOUNT_MINOR := 100_000_000

  datatype PricingRule = PricingRule(
    service: string, paperSize: string, colorMode: string,
    unitAmountMinor: int, duplexAdjustmentBasisPoints: int, serviceFeeMinor: int,
    minimumAmountMinor: int, taxBasisPoints: int, priority: int)

  datatype RuleSet = RuleSet(
    id: string, version: string, currency: string, currencyExponent: int,
    rounding: RoundingMode, minimumApplication: MinimumApplication, rules: seq<PricingRule>)

  datatype DocumentUsage = DocumentUsage(duplex: bool, printedSides: int)

  datatype Usage = Usage(
    service: string, paperSize: string, colorMode: string, documents: seq<DocumentUsage>,
    selectedPages: int, printedSides: int, physicalSheets: int)

  datatype Quote = Quote(
    pricingVersion: string, ruleSetId: string, currency: string, currencyExponent: int,
    selectedPages: int, printedSides: int, physicalSheets: int,
    printAmountMinor: int, duplexAdjustmentMinor: int, serviceFeeMinor: int,
    minimumAdjustmentMinor: int, subtotalMinor: int, taxMinor: int, totalMinor: int)

  datatype PricingError = RuleNotFound | RuleSetInvalid | UsageInvalid | AmountLimitExceeded

  // ---------- Rounding one division ----------

  function Sign(n: int): int {
    if n < 0 then -1 else 1
  }

  function Abs(n: int): nat {
    if n < 0 then -n else n
  }

  function RoundMagnitude(quotient: nat, remainder: nat, rounding: RoundingMode): nat {
    if remainder == 0 then quotient
    else
      match rounding
      case TowardZero => quotient
      case AwayFromZero => quotient + 1
      case HalfUp => if remainder * 2 >= BASIS_POINT_SCALE then quotient + 1 else quotient
      case HalfEven =>
        if remainder * 2 > BASIS_POINT_SCALE then quotient + 1
        else if remainder * 2 < BASIS_POINT_SCALE then quotient
        else if quotient % 2 == 0 then quotient
        else quotient + 1
  }

  /** The product divided by the scale, rounded once. */
  function RoundProduct(product: int, rounding: RoundingMode): int {
    Sign(product) * RoundMagnitude(Abs(product) / BASIS_POINT_SCALE, Abs(product) % BASIS_POINT_SCALE, rounding)
  }

  function ApplyBasisPoints(amountMinor: int, basisPoints: int, rounding: RoundingMode): Result<int, PricingError> {
    if !IsSafe(amountMinor) || !IsSafe(basisPoints) then Failure(UsageInvalid)
    else if !IsSafe(amountMinor * basisPoints) then Failure(AmountLimitExceeded)
    else Success(RoundProduct(amountMinor * basisPoints, rounding))
  }

  // ---------- Choosing and validating the rule ----------

  predicate Matches(rule: PricingRule, usage: Usage) {
    rule.service == usage.service && rule.paperSize == usage.paperSize && rule.colorMode == usage.colorMode
  }

  /** `matches.sort((left, right) => right.priority - left.priority)[0]`: the sort is stable. */
  function SelectFrom(rules: seq<PricingRule>, usage: Usage): Option<PricingRule> {
    if rules == [] then None
    else
      var last := rules[|rules| - 1];
      match SelectFrom(rules[..|rules| - 1], usage)
      case None => if Matches(last, usage) then Some(last) else None
      case Some(best) => if Matches(last, usage) && last.priority > best.priority then Some(last) else Some(best)
  }

  predicate RuleSetValid(ruleSet: RuleSet) {
    && |ruleSet.currency| == 3
    && (forall i :: 0 <= i < 3 ==> 'A' <= ruleSet.currency[i] <= 'Z')
    && 0 <= ruleSet.currencyExponent <= MAX_SAFE_INTEGER
  }

  predicate NonNegativeSafe(n: int) {
    0 <= n <= MAX_SAFE_INTEGER
  }

  predicate RuleValid(rule: PricingRule) {
    && NonNegativeSafe(rule.unitAmountMinor) && NonNegativeSafe(rule.serviceFeeMinor)
    && NonNegativeSafe(rule.minimumAmountMinor) && NonNegativeSafe(rule.taxBasisPoints)
    && -BASIS_POINT_SCALE <= rule.duplexAdjustmentBasisPoints <= BASIS_POINT_SCALE
  }

  method AssertRule(rule: PricingRule) returns (valid: bool)
    ensures valid == RuleValid(rule)
    ensures valid <==>
            && 0 <= rule.unitAmountMinor <= 9_007_199_254_740_991 && 0 <= rule.serviceFeeMinor <= 9_007_199_254_740_991
            && 0 <= rule.minimumAmountMinor <= 9_007_199_254_740_991 && 0 <= rule.taxBasisPoints <= 9_007_199_254_740_991
            && -10_000 <= rule.duplexAdjustmentBasisPoints <= 10_000
  {
    var nonNegative := [rule.unitAmountMinor, rule.serviceFeeMinor, rule.minimumAmountMinor, rule.taxBasisPoints];
    for i := 0 to |nonNegative|
      invariant forall k :: 0 <= k < i ==> NonNegativeSafe(nonNegative[k])
    {
      if !IsSafe(nonNegative[i]) || nonNegative[i] < 0 {
        return false;
      }
    }
    assert NonNegativeSafe(nonNegative[0]) && NonNegativeSafe(nonNegative[1]);
    assert NonNegativeSafe(nonNegative[2]) && NonNegativeSafe(nonNegative[3]);
    return IsSafe(rule.duplexAdjustmentBasisPoints)
      && -BASIS_POINT_SCALE <= rule.duplexAdjustmentBasisPoints <= BASIS_POINT_SCALE;
  }

  function SumSides(documents: seq<DocumentUsage>): int {
    if documents == [] then 0 else SumSides(documents[..|documents| - 1]) + documents[|documents| - 1].printedSides
  }

  predicate Positive(n: int) {
    1 <= n <= MAX_SAFE_INTEGER
  }

  /** The breakdown accounts for exactly the sides the job is charged for. */
  predicate UsageValid(usage: Usage) {
    && Positive(usage.selectedPages) && Positive(usage.printedSides) && Positive(usage.physicalSheets)
    && usage.physicalSheets <= usage.printedSides
    && usage.documents != []
    && (forall i :: 0 <= i < |usage.documents| ==> Positive(usage.documents[i].printedSides))
    && SumSides(usage.documents) == usage.printedSides
  }

  method AssertUsage(usage: Usage) returns (valid: bool)
    ensures valid == UsageValid(usage)
    ensures valid ==>
              && usage.selectedPages >= 1 && 1 <= usage.physicalSheets <= usage.printedSides <= 9_007_199_254_740_991
              && usage.selectedPages <= 9_007_199_254_740_991
    ensures valid ==> forall i :: 0 <= i < |usage.documents| ==> 1 <= usage.documents[i].printedSides <= 9_007_199_254_740_991
  {
    var positive := [usage.selectedPages, usage.printedSides, usage.physicalSheets];
    for i := 0 to |positive|
      invariant forall k :: 0 <= k < i ==> Positive(positive[k])
    {
      if !IsSafe(positive[i]) || positive[i] < 1 {
        return false;
      }
    }
    assert Positive(positive[0]) && Positive(positive[1]) && Positive(positive[2]);
    if usage.physicalSheets > usage.printedSides || |usage.documents| == 0 {
      return false;
    }
    var documentSides := 0;
    for i := 0 to |usage.documents|
      invariant forall k :: 0 <= k < i ==> Positive(usage.documents[k].printedSides)
      invariant documentSides == SumSides(usage.documents[..i])
    {
      if !IsSafe(usage.documents[i].printedSides) || usage.documents[i].printedSides < 1 {
        return false;
      }
      documentSides := documentSides + usage.documents[i].printedSides;
      assert usage.documents[..i + 1][..i] == usage.documents[..i];
    }
    assert usage.documents[..|usage.documents|] == usage.documents;
    return documentSides == usage.printedSides;
  }

  // ---------- The quote ----------

  function BoundedProduct(left: int, right: int): Result<int, PricingError> {
    if !IsSafe(left * right) || left * right > MAX_QUOTE_AMOUNT_MINOR then Failure(AmountLimitExceeded)
    else Success(left * right)
  }

  /** The `reduce` over the documents: one rounding a duplex document. */
  function DuplexAdjustment(documents: seq<DocumentUsage>, rule: PricingRule, rounding: RoundingMode): Result<int, PricingError> {
    if documents == [] then Success(0)
    else
      var total :- DuplexAdjustment(documents[..|documents| - 1], rule, rounding);
      var document := documents[|documents| - 1];
      if !document.duplex then Success(total)
      else
        var amount :- BoundedProduct(document.printedSides, rule.unitAmountMinor);
        var adjustment :- ApplyBasisPoints(amount, rule.duplexAdjustmentBasisPoints, rounding);
        Success(total + adjustment)
  }

  function QuoteWith(rule: PricingRule, ruleSet: RuleSet, usage: Usage): Result<Quote, PricingError> {
    var printAmount :- BoundedProduct(usage.printedSides, rule.unitAmountMinor);
    var duplexAdjustment :- DuplexAdjustment(usage.documents, rule, ruleSet.rounding);
    var floored := Max(printAmount + duplexAdjustment + rule.serviceFeeMinor, 0);
    var beforeTax := if ruleSet.minimumApplication.BeforeTax? then Max(floored, rule.minimumAmountMinor) else floored;
    var tax :- ApplyBasisPoints(beforeTax, rule.taxBasisPoints, ruleSet.rounding);
    var gross := beforeTax + tax;
    var total := if ruleSet.minimumApplication.BeforeTax? then gross else Max(gross, rule.minimumAmountMinor);
    var minimumAdjustment := if ruleSet.minimumApplication.BeforeTax? then beforeTax - floored else total - gross;
    if !IsSafe(total) || total > MAX_QUOTE_AMOUNT_MINOR then Failure(AmountLimitExceeded)
    else
      Success(Quote(
        ruleSet.version, ruleSet.id, ruleSet.currency, ruleSet.currencyExponent,
        usage.selectedPages, usage.printedSides, usage.physicalSheets,
        printAmount, duplexAdjustment, rule.serviceFeeMinor, minimumAdjustment, beforeTax, tax, total))
  }

  function CalculateQuote(ruleSet: RuleSet, usage: Usage): Result<Quote, PricingError> {
    if !RuleSetValid(ruleSet) then Failure(RuleSetInvalid)
    else if !UsageValid(usage) then Failure(UsageInvalid)
    else
      match SelectFrom(ruleSet.rules, usage)
      case None => Failure(RuleNotFound)
      case Some(rule) => if RuleValid(rule) then QuoteWith(rule, ruleSet, usage) else Failure(RuleSetInvalid)
  }
}
