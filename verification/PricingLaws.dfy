/** What the arithmetic of a quote guarantees, for all four rounding modes. */
module PricingLaws {
  import opened Pricing
  import opened Wrappers

  // ---------- One rounding ----------

  /** Rounding changes the sign with the amount and nothing else. */
  lemma RoundingIsOdd(product: int, rounding: RoundingMode)
    ensures RoundProduct(-product, rounding) == -RoundProduct(product, rounding)
  {
  }

  /** Twice the distance, in ten-thousandths, between the rounded and the exact value. */
  function TwiceError(product: int, rounding: RoundingMode): int {
    2 * (BASIS_POINT_SCALE * RoundProduct(product, rounding) - product)
  }

  /** Half a unit at most in the HALF modes, less than one otherwise, each on its own side. */
  lemma RoundingError(product: int, rounding: RoundingMode)
    ensures match rounding
            case HalfUp => Abs(TwiceError(product, rounding)) <= BASIS_POINT_SCALE
            case HalfEven => Abs(TwiceError(product, rounding)) <= BASIS_POINT_SCALE
            case AwayFromZero => 0 <= Sign(product) * TwiceError(product, rounding) < 2 * BASIS_POINT_SCALE
            case TowardZero => -2 * BASIS_POINT_SCALE < Sign(product) * TwiceError(product, rounding) <= 0
    ensures product % BASIS_POINT_SCALE == 0 ==> TwiceError(product, rounding) == 0
  {
  }

  /** A tie goes away from zero under HALF_UP and to the even neighbour under HALF_EVEN. */
  lemma TiesAsNamed(product: int)
    requires Abs(product) % BASIS_POINT_SCALE * 2 == BASIS_POINT_SCALE
    ensures Sign(product) * TwiceError(product, HalfUp) == BASIS_POINT_SCALE
    ensures RoundProduct(product, HalfEven) % 2 == 0
  {
  }

  /** Negating the amount negates the result, and fails exactly as the amount does. */
  lemma ApplyIsOdd(amount: int, basisPoints: int, rounding: RoundingMode)
    ensures var forth, back := ApplyBasisPoints(amount, basisPoints, rounding), ApplyBasisPoints(-amount, basisPoints, rounding);
            && (forth.Success? <==> back.Success?)
            && (forth.Success? ==> back.value == -forth.value)
            && (forth.Failure? ==> back == forth)
  {
    assert -amount * basisPoints == -(amount * basisPoints);
    RoundingIsOdd(amount * basisPoints, rounding);
  }

  /** Twice the distance between a result and the exact share of the amount, in ten-thousandths. */
  function TwiceOff(result: int, amount: int, basisPoints: int): int {
    2 * (10_000 * result - amount * basisPoints)
  }

  /**
   * The share itself where it is whole; otherwise within half a unit in the HALF modes,
   * with ties as named, and less than one away on the named side in the others.
   */
  predicate IsShare(result: int, amount: int, basisPoints: int, rounding: RoundingMode) {
    var off, side := TwiceOff(result, amount, basisPoints), Sign(amount * basisPoints);
    && (amount * basisPoints % 10_000 == 0 ==> off == 0)
    && match rounding
       case HalfUp => Abs(off) <= 10_000 && (Abs(off) == 10_000 ==> side * off > 0)
       case HalfEven => Abs(off) <= 10_000 && (Abs(off) == 10_000 ==> result % 2 == 0)
       case AwayFromZero => 0 <= side * off < 20_000
       case TowardZero => -20_000 < side * off <= 0
  }

  /** No other number is a share of that amount. */
  lemma ShareIsUnique(a: int, b: int, amount: int, basisPoints: int, rounding: RoundingMode)
    requires IsShare(a, amount, basisPoints, rounding) && IsShare(b, amount, basisPoints, rounding)
    ensures a == b
  {
    var product := amount * basisPoints;
    assert 20_000 * (a - b) == TwiceOff(a, amount, basisPoints) - TwiceOff(b, amount, basisPoints);
  }

  lemma OnlyTiesAreHalf(product: int, rounding: RoundingMode)
    requires Abs(product) % BASIS_POINT_SCALE * 2 != BASIS_POINT_SCALE && (rounding.HalfUp? || rounding.HalfEven?)
    ensures Abs(TwiceError(product, rounding)) < BASIS_POINT_SCALE
  {
  }

  /** The rounding of a product is the share, whichever two factors it came from. */
  lemma RoundedIsShare(amount: int, basisPoints: int, rounding: RoundingMode)
    ensures IsShare(RoundProduct(amount * basisPoints, rounding), amount, basisPoints, rounding)
  {
    var product := amount * basisPoints;
    RoundingError(product, rounding);
    if Abs(product) % BASIS_POINT_SCALE * 2 == BASIS_POINT_SCALE {
      TiesAsNamed(product);
    } else if rounding.HalfUp? || rounding.HalfEven? {
      OnlyTiesAreHalf(product, rounding);
    }
    hide RoundProduct;
    assert TwiceOff(RoundProduct(product, rounding), amount, basisPoints) == TwiceError(product, rounding);
    hide TwiceOff, TwiceError;
  }

  /** When a share is refused, with which error, and what it is otherwise. */
  lemma ApplyMeaning(amount: int, basisPoints: int, rounding: RoundingMode)
    ensures var r := ApplyBasisPoints(amount, basisPoints, rounding);
            && (r == Failure(UsageInvalid) <==> !IsSafe(amount) || !IsSafe(basisPoints))
            && (r == Failure(AmountLimitExceeded) <==> IsSafe(amount) && IsSafe(basisPoints) && !IsSafe(amount * basisPoints))
            && (r.Success? ==> IsShare(r.value, amount, basisPoints, rounding))
  {
    hide RoundProduct, IsShare;
    RoundedIsShare(amount, basisPoints, rounding);
  }

  lemma RoundingIsMonotone(a: int, b: int, rounding: RoundingMode)
    requires a <= b
    ensures RoundProduct(a, rounding) <= RoundProduct(b, rounding)
  {
  }

  /** Less than `steps` whole units apart before rounding, at most `steps` apart after it. */
  lemma RoundingContracts(a: nat, b: nat, steps: nat, rounding: RoundingMode)
    requires a <= b < a + BASIS_POINT_SCALE * steps
    ensures RoundProduct(b, rounding) <= RoundProduct(a, rounding) + steps
  {
    RoundingError(a, rounding);
    RoundingError(b, rounding);
  }

  lemma WholeUnits(amount: nat, rounding: RoundingMode)
    ensures RoundProduct(amount * BASIS_POINT_SCALE, rounding) == amount
  {
  }

  lemma PartialDiscountGap(amount: nat, more: nat, discount: nat)
    requires amount < more && discount < BASIS_POINT_SCALE
    ensures amount * discount <= more * discount < amount * discount + BASIS_POINT_SCALE * (more - amount)
  {
    var steps := more - amount;
    assert more * discount == amount * discount + steps * discount;
    assert steps * discount + steps * (BASIS_POINT_SCALE - discount) == steps * BASIS_POINT_SCALE;
    assert steps * (BASIS_POINT_SCALE - discount) > 0;
  }

  /** A rounded discount never grows faster than the amount it is taken from. */
  lemma DiscountContracts(amount: nat, more: nat, discount: nat, rounding: RoundingMode)
    requires amount <= more && discount <= BASIS_POINT_SCALE
    ensures RoundProduct(more * discount, rounding) <= RoundProduct(amount * discount, rounding) + (more - amount)
  {
    if discount == BASIS_POINT_SCALE {
      WholeUnits(amount, rounding);
      WholeUnits(more, rounding);
    } else if amount < more {
      PartialDiscountGap(amount, more, discount);
      RoundingContracts(amount * discount, more * discount, more - amount, rounding);
    }
  }

  function Charge(amount: int, basisPoints: int, rounding: RoundingMode): int {
    amount + RoundProduct(amount * basisPoints, rounding)
  }

  lemma ProductMonotone(a: nat, b: nat, factor: nat)
    requires a <= b
    ensures a * factor <= b * factor
  {
  }

  /**
   * An amount plus a share of it between minus and plus one hundred percent: the sum
   * never falls when the amount grows, however the share is rounded.
   */
  lemma ChargeIsMonotone(amount: nat, more: nat, basisPoints: int, rounding: RoundingMode)
    requires amount <= more && -BASIS_POINT_SCALE <= basisPoints <= BASIS_POINT_SCALE
    ensures Charge(amount, basisPoints, rounding) <= Charge(more, basisPoints, rounding)
  {
    hide RoundProduct;
    if basisPoints >= 0 {
      ProductMonotone(amount, more, basisPoints);
      RoundingIsMonotone(amount * basisPoints, more * basisPoints, rounding);
    } else {
      var discount := -basisPoints;
      assert amount * basisPoints == -(amount * discount) && more * basisPoints == -(more * discount);
      RoundingIsOdd(amount * discount, rounding);
      RoundingIsOdd(more * discount, rounding);
      DiscountContracts(amount, more, discount, rounding);
    }
  }

  /** A discount of at most everything leaves a charge between nothing and twice the amount. */
  lemma ChargeBounds(amount: nat, basisPoints: int, rounding: RoundingMode)
    requires -BASIS_POINT_SCALE <= basisPoints <= BASIS_POINT_SCALE
    ensures 0 <= Charge(amount, basisPoints, rounding) <= 2 * amount
  {
    ChargeIsMonotone(0, amount, basisPoints, rounding);
    var product := amount * basisPoints;
    assert product <= amount * BASIS_POINT_SCALE by {
      if basisPoints >= 0 {
        ProductMonotone(basisPoints, BASIS_POINT_SCALE, amount);
      } else {
        ProductMonotone(0, -basisPoints, amount);
      }
    }
    RoundingIsMonotone(product, amount * BASIS_POINT_SCALE, rounding);
    RoundingError(amount * BASIS_POINT_SCALE, rounding);
  }

  // ---------- The chosen rule ----------

  /** The first of the matching rules with the highest priority; none exactly when none matches. */
  lemma {:induction false} SelectedRule(rules: seq<PricingRule>, usage: Usage) returns (index: nat)
    ensures SelectFrom(rules, usage).None? <==> forall i :: 0 <= i < |rules| ==> !Matches(rules[i], usage)
    ensures SelectFrom(rules, usage).Some? ==>
              && index < |rules| && rules[index] == SelectFrom(rules, usage).value && Matches(rules[index], usage)
              && (forall i :: 0 <= i < |rules| && Matches(rules[i], usage) ==> rules[i].priority <= rules[index].priority)
              && (forall i :: 0 <= i < index && Matches(rules[i], usage) ==> rules[i].priority < rules[index].priority)
  {
    index := 0;
    if rules != [] {
      var n := |rules| - 1;
      var init := rules[..n];
      var before := SelectedRule(init, usage);
      assert forall i :: 0 <= i < n ==> init[i] == rules[i];
      var best := SelectFrom(init, usage);
      index := if best.None? || (Matches(rules[n], usage) && rules[n].priority > best.value.priority) then n else before;
    }
  }

  // ---------- The print charge over the documents ----------

  predicate DocumentsValid(documents: seq<DocumentUsage>) {
    forall i :: 0 <= i < |documents| ==> Positive(documents[i].printedSides)
  }

  function DocumentCharge(document: DocumentUsage, rule: PricingRule, rounding: RoundingMode): int {
    var amount := document.printedSides * rule.unitAmountMinor;
    if document.duplex then Charge(amount, rule.duplexAdjustmentBasisPoints, rounding) else amount
  }

  function PrintCharge(documents: seq<DocumentUsage>, rule: PricingRule, rounding: RoundingMode): int {
    if documents == [] then 0
    else PrintCharge(documents[..|documents| - 1], rule, rounding)
         + DocumentCharge(documents[|documents| - 1], rule, rounding)
  }

  lemma DocumentChargeBounds(document: DocumentUsage, rule: PricingRule, rounding: RoundingMode)
    requires RuleValid(rule) && document.printedSides >= 0
    ensures document.printedSides * rule.unitAmountMinor >= 0
    ensures 0 <= DocumentCharge(document, rule, rounding) <= 2 * (document.printedSides * rule.unitAmountMinor)
  {
    hide RoundProduct;
    ProductMonotone(0, document.printedSides, rule.unitAmountMinor);
    ChargeBounds(document.printedSides * rule.unitAmountMinor, rule.duplexAdjustmentBasisPoints, rounding);
  }

  /** The share of a bounded amount is far from the safe-integer limit. */
  lemma ShareIsSafe(amount: nat, basisPoints: int, rounding: RoundingMode)
    requires amount <= MAX_QUOTE_AMOUNT_MINOR && -BASIS_POINT_SCALE <= basisPoints <= BASIS_POINT_SCALE
    ensures ApplyBasisPoints(amount, basisPoints, rounding) == Success(Charge(amount, basisPoints, rounding) - amount)
  {
    ProductMonotone(amount, MAX_QUOTE_AMOUNT_MINOR, Abs(basisPoints));
    assert amount * Abs(basisPoints) <= MAX_QUOTE_AMOUNT_MINOR * BASIS_POINT_SCALE;
    assert amount * basisPoints == if basisPoints < 0 then -(amount * Abs(basisPoints)) else amount * Abs(basisPoints);
    hide RoundProduct;
  }

  lemma DistributeSum(a: int, b: int, factor: int)
    ensures (a + b) * factor == a * factor + b * factor
  {
  }

  lemma OneMoreDocument(documents: seq<DocumentUsage>, rule: PricingRule)
    requires documents != []
    ensures SumSides(documents) * rule.unitAmountMinor ==
            SumSides(documents[..|documents| - 1]) * rule.unitAmountMinor
            + documents[|documents| - 1].printedSides * rule.unitAmountMinor
  {
    DistributeSum(SumSides(documents[..|documents| - 1]), documents[|documents| - 1].printedSides, rule.unitAmountMinor);
  }

  lemma BoundedAmount(left: int, right: int)
    requires 0 <= left * right <= MAX_QUOTE_AMOUNT_MINOR
    ensures BoundedProduct(left, right) == Success(left * right)
  {
  }

  /**
   * Once the print amount fits the limit no document's own step can fail, and the print
   * amount plus the adjustment is a sum of document charges, none of them negative.
   */
  lemma {:induction false} DuplexAdjustmentMeaning(documents: seq<DocumentUsage>, rule: PricingRule, rounding: RoundingMode)
    requires RuleValid(rule) && DocumentsValid(documents)
    requires SumSides(documents) * rule.unitAmountMinor <= MAX_QUOTE_AMOUNT_MINOR
    ensures var amount := SumSides(documents) * rule.unitAmountMinor;
            var adjustment := DuplexAdjustment(documents, rule, rounding);
            && 0 <= amount && 0 <= PrintCharge(documents, rule, rounding) <= 2 * amount
            && adjustment == Success(PrintCharge(documents, rule, rounding) - amount)
  {
    hide RoundProduct, Charge, IsSafe, ApplyBasisPoints;
    if documents != [] {
      var init, last := documents[..|documents| - 1], documents[|documents| - 1];
      var amount := last.printedSides * rule.unitAmountMinor;
      OneMoreDocument(documents, rule);
      DocumentChargeBounds(last, rule, rounding);
      DuplexAdjustmentMeaning(init, rule, rounding);
      ShareIsSafe(amount, rule.duplexAdjustmentBasisPoints, rounding);
      BoundedAmount(last.printedSides, rule.unitAmountMinor);
    }
  }

  // ---------- The whole quote ----------

  /** What is charged before tax: documents and fee, lifted to a minimum that applies here. */
  function Taxable(rule: PricingRule, ruleSet: RuleSet, usage: Usage): int {
    var charged := PrintCharge(usage.documents, rule, ruleSet.rounding) + rule.serviceFeeMinor;
    if ruleSet.minimumApplication.BeforeTax? then Max(charged, rule.minimumAmountMinor) else charged
  }

  function FinalPrice(rule: PricingRule, ruleSet: RuleSet, usage: Usage): int {
    var taxable := Taxable(rule, ruleSet, usage);
    var gross := taxable + RoundProduct(taxable * rule.taxBasisPoints, ruleSet.rounding);
    if ruleSet.minimumApplication.BeforeTax? then gross else Max(gross, rule.minimumAmountMinor)
  }

  /** Everything that can refuse a quote once its rule and usage are valid. */
  predicate Payable(rule: PricingRule, ruleSet: RuleSet, usage: Usage) {
    && usage.printedSides * rule.unitAmountMinor <= MAX_QUOTE_AMOUNT_MINOR
    && IsSafe(Taxable(rule, ruleSet, usage))
    && IsSafe(Taxable(rule, ruleSet, usage) * rule.taxBasisPoints)
    && FinalPrice(rule, ruleSet, usage) <= MAX_QUOTE_AMOUNT_MINOR
  }

  lemma TaxIsNonNegative(taxable: nat, basisPoints: nat, rounding: RoundingMode)
    ensures 0 <= taxable * basisPoints && 0 <= RoundProduct(taxable * basisPoints, rounding)
  {
    ProductMonotone(0, taxable, basisPoints);
    RoundingIsMonotone(0, taxable * basisPoints, rounding);
  }

  predicate InLimit(amountMinor: int) {
    0 <= amountMinor <= 100_000_000
  }

  /** The quote says what was priced: the rule set, and the usage. */
  predicate Heads(q: Quote, ruleSet: RuleSet, usage: Usage) {
    && q.pricingVersion == ruleSet.version && q.ruleSetId == ruleSet.id
    && q.currency == ruleSet.currency && q.currencyExponent == ruleSet.currencyExponent
    && q.selectedPages == usage.selectedPages && q.printedSides == usage.printedSides && q.physicalSheets == usage.physicalSheets
  }

  /**
   * Each line on its own: the sides at the unit price, the share of every duplex document,
   * the fee, what is missing to the minimum where the minimum applies, and the tax on the
   * subtotal.
   */
  predicate Itemizes(q: Quote, rule: PricingRule, ruleSet: RuleSet, usage: Usage) {
    var charged := q.printAmountMinor + q.duplexAdjustmentMinor + q.serviceFeeMinor;
    && q.printAmountMinor == usage.printedSides * rule.unitAmountMinor
    && q.duplexAdjustmentMinor == PrintCharge(usage.documents, rule, ruleSet.rounding) - q.printAmountMinor
    && q.serviceFeeMinor == rule.serviceFeeMinor
    && IsShare(q.taxMinor, q.subtotalMinor, rule.taxBasisPoints, ruleSet.rounding)
    && match ruleSet.minimumApplication
       case BeforeTax =>
         && q.minimumAdjustmentMinor == Max(0, rule.minimumAmountMinor - charged)
         && q.subtotalMinor == charged + q.minimumAdjustmentMinor
         && q.totalMinor == q.subtotalMinor + q.taxMinor
       case AfterTax =>
         && q.subtotalMinor == charged
         && q.minimumAdjustmentMinor == Max(0, rule.minimumAmountMinor - (q.subtotalMinor + q.taxMinor))
         && q.totalMinor == q.subtotalMinor + q.taxMinor + q.minimumAdjustmentMinor
  }

  /**
   * The published lines add up to the total exactly, the zero floor took nothing, the
   * total meets the published minimum, and every line lies within the quote limit.
   */
  predicate Reconciles(q: Quote, rule: PricingRule) {
    && q.printAmountMinor + q.duplexAdjustmentMinor + q.serviceFeeMinor + q.minimumAdjustmentMinor + q.taxMinor == q.totalMinor
    && 0 <= q.printAmountMinor + q.duplexAdjustmentMinor
    && rule.minimumAmountMinor <= q.totalMinor && InLimit(q.totalMinor)
    && -100_000_000 <= q.duplexAdjustmentMinor <= 100_000_000
    && InLimit(q.printAmountMinor) && InLimit(q.serviceFeeMinor) && InLimit(q.minimumAdjustmentMinor)
    && InLimit(q.subtotalMinor) && InLimit(q.taxMinor)
  }

  lemma QuoteWithMeaning(rule: PricingRule, ruleSet: RuleSet, usage: Usage)
    requires RuleValid(rule) && UsageValid(usage)
    ensures var quote := QuoteWith(rule, ruleSet, usage);
            && (quote.Success? <==> Payable(rule, ruleSet, usage))
            && (quote == Failure(UsageInvalid) <==>
                  usage.printedSides * rule.unitAmountMinor <= 100_000_000 && !IsSafe(Taxable(rule, ruleSet, usage)))
            && (quote.Failure? ==> quote.error == UsageInvalid || quote.error == AmountLimitExceeded)
            && (quote.Success? ==>
                  && quote.value.totalMinor == FinalPrice(rule, ruleSet, usage)
                  && Heads(quote.value, ruleSet, usage)
                  && Itemizes(quote.value, rule, ruleSet, usage)
                  && Reconciles(quote.value, rule))
  {
    var amount := usage.printedSides * rule.unitAmountMinor;
    ProductMonotone(0, usage.printedSides, rule.unitAmountMinor);
    if amount <= MAX_QUOTE_AMOUNT_MINOR {
      DuplexAdjustmentMeaning(usage.documents, rule, ruleSet.rounding);
      BoundedAmount(usage.printedSides, rule.unitAmountMinor);
      TaxIsNonNegative(Taxable(rule, ruleSet, usage), rule.taxBasisPoints, ruleSet.rounding);
      RoundedIsShare(Taxable(rule, ruleSet, usage), rule.taxBasisPoints, ruleSet.rounding);
      hide RoundProduct, PrintCharge, DuplexAdjustment, BoundedProduct, UsageValid, IsShare;
    }
  }

  /** Three capital letters, and a safe exponent. */
  predicate NamesCurrency(ruleSet: RuleSet) {
    && |ruleSet.currency| == 3 && (forall c :: c in ruleSet.currency ==> 'A' <= c <= 'Z')
    && 0 <= ruleSet.currencyExponent <= 9_007_199_254_740_991
  }

  lemma ValidNamesCurrency(ruleSet: RuleSet)
    ensures RuleSetValid(ruleSet) <==> NamesCurrency(ruleSet)
  {
    if NamesCurrency(ruleSet) {
      forall i | 0 <= i < 3 ensures 'A' <= ruleSet.currency[i] <= 'Z' {
        assert ruleSet.currency[i] in ruleSet.currency;
      }
    }
  }

  predicate Quotable(ruleSet: RuleSet, usage: Usage) {
    && NamesCurrency(ruleSet) && UsageValid(usage)
    && SelectFrom(ruleSet.rules, usage).Some?
    && RuleValid(SelectFrom(ruleSet.rules, usage).value)
    && Payable(SelectFrom(ruleSet.rules, usage).value, ruleSet, usage)
  }

  /** When a quote exists, which error refuses it otherwise, and what it always says, in both minimum modes. */
  lemma QuoteReconciles(ruleSet: RuleSet, usage: Usage)
    ensures var quote := CalculateQuote(ruleSet, usage);
            var selected := SelectFrom(ruleSet.rules, usage);
            && (quote.Success? <==> Quotable(ruleSet, usage))
            && (quote.Success? ==>
                  && Heads(quote.value, ruleSet, usage)
                  && Itemizes(quote.value, selected.value, ruleSet, usage)
                  && Reconciles(quote.value, selected.value))
            && (quote == Failure(RuleSetInvalid) <==>
                  !NamesCurrency(ruleSet) || (UsageValid(usage) && selected.Some? && !RuleValid(selected.value)))
            && (quote == Failure(RuleNotFound) <==>
                  NamesCurrency(ruleSet) && UsageValid(usage) && forall i :: 0 <= i < |ruleSet.rules| ==> !Matches(ruleSet.rules[i], usage))
            && (quote == Failure(UsageInvalid) <==>
                  NamesCurrency(ruleSet)
                  && (!UsageValid(usage)
                      || (&& selected.Some? && RuleValid(selected.value)
                          && usage.printedSides * selected.value.unitAmountMinor <= 100_000_000
                          && !IsSafe(Taxable(selected.value, ruleSet, usage)))))
  {
    hide Payable, Heads, Itemizes, Reconciles, Taxable, QuoteWith, UsageValid, RuleValid, RuleSetValid, Matches, NamesCurrency;
    ValidNamesCurrency(ruleSet);
    var i := SelectedRule(ruleSet.rules, usage);
    if UsageValid(usage) && SelectFrom(ruleSet.rules, usage).Some? && RuleValid(SelectFrom(ruleSet.rules, usage).value) {
      QuoteWithMeaning(SelectFrom(ruleSet.rules, usage).value, ruleSet, usage);
    }
  }

  // ---------- Monotonicity ----------

  /** The same documents and possibly more, each printed the same way on at least as many sides. */
  predicate DocumentsAtMost(a: seq<DocumentUsage>, b: seq<DocumentUsage>) {
    && |a| <= |b|
    && forall i :: 0 <= i < |a| ==> a[i].duplex == b[i].duplex && a[i].printedSides <= b[i].printedSides
  }

  /** A rule no cheaper in any of its amounts or percentages. */
  predicate RuleAtMost(a: PricingRule, b: PricingRule) {
    && a.unitAmountMinor <= b.unitAmountMinor && a.serviceFeeMinor <= b.serviceFeeMinor
    && a.minimumAmountMinor <= b.minimumAmountMinor && a.taxBasisPoints <= b.taxBasisPoints
    && a.duplexAdjustmentBasisPoints <= b.duplexAdjustmentBasisPoints
  }

  lemma ScaledMonotone(factor: nat, a: int, b: int)
    requires a <= b
    ensures factor * a <= factor * b
  {
  }

  lemma ChargeGrows(amount: nat, more: nat, basisPoints: int, basisPoints': int, rounding: RoundingMode)
    requires amount <= more && -BASIS_POINT_SCALE <= basisPoints <= basisPoints' <= BASIS_POINT_SCALE
    ensures Charge(amount, basisPoints, rounding) <= Charge(more, basisPoints', rounding)
  {
    hide RoundProduct;
    ChargeIsMonotone(amount, more, basisPoints, rounding);
    ScaledMonotone(more, basisPoints, basisPoints');
    RoundingIsMonotone(more * basisPoints, more * basisPoints', rounding);
  }

  lemma DocumentChargeIsMonotone(a: DocumentUsage, b: DocumentUsage, rule: PricingRule, rule': PricingRule, rounding: RoundingMode)
    requires RuleValid(rule) && RuleValid(rule') && RuleAtMost(rule, rule')
    requires 0 <= a.printedSides <= b.printedSides && a.duplex == b.duplex
    ensures DocumentCharge(a, rule, rounding) <= DocumentCharge(b, rule', rounding)
  {
    var amount := a.printedSides * rule.unitAmountMinor;
    var more := b.printedSides * rule'.unitAmountMinor;
    ProductMonotone(a.printedSides, b.printedSides, rule.unitAmountMinor);
    ProductMonotone(rule.unitAmountMinor, rule'.unitAmountMinor, b.printedSides);
    ProductMonotone(0, a.printedSides, rule.unitAmountMinor);
    ChargeGrows(amount, more, rule.duplexAdjustmentBasisPoints, rule'.duplexAdjustmentBasisPoints, rounding);
    hide Charge;
  }

  lemma {:induction false} PrintChargeIsMonotone(
    a: seq<DocumentUsage>, b: seq<DocumentUsage>, rule: PricingRule, rule': PricingRule, rounding: RoundingMode)
    requires RuleValid(rule) && RuleValid(rule') && RuleAtMost(rule, rule')
    requires DocumentsValid(a) && DocumentsValid(b) && DocumentsAtMost(a, b)
    ensures PrintCharge(a, rule, rounding) <= PrintCharge(b, rule', rounding)
    decreases |b|
  {
    hide DocumentCharge;
    if b != [] {
      var last := b[|b| - 1];
      if |a| == |b| {
        PrintChargeIsMonotone(a[..|a| - 1], b[..|b| - 1], rule, rule', rounding);
        DocumentChargeIsMonotone(a[|a| - 1], last, rule, rule', rounding);
      } else {
        PrintChargeIsMonotone(a, b[..|b| - 1], rule, rule', rounding);
        DocumentChargeBounds(last, rule', rounding);
      }
    }
  }

  lemma TaxIsMonotone(taxable: nat, more: nat, basisPoints: nat, basisPoints': nat, rounding: RoundingMode)
    requires taxable <= more && basisPoints <= basisPoints'
    ensures taxable + RoundProduct(taxable * basisPoints, rounding) <= more + RoundProduct(more * basisPoints', rounding)
  {
    ProductMonotone(taxable, more, basisPoints);
    ProductMonotone(basisPoints, basisPoints', more);
    RoundingIsMonotone(taxable * basisPoints, more * basisPoints', rounding);
  }

  lemma PriceIsMonotone(rule: PricingRule, ruleSet: RuleSet, usage: Usage, rule': PricingRule, ruleSet': RuleSet, usage': Usage)
    requires RuleValid(rule) && UsageValid(usage) && RuleValid(rule') && UsageValid(usage')
    requires Payable(rule, ruleSet, usage) && Payable(rule', ruleSet', usage')
    requires ruleSet.rounding == ruleSet'.rounding && ruleSet.minimumApplication == ruleSet'.minimumApplication
    requires RuleAtMost(rule, rule') && DocumentsAtMost(usage.documents, usage'.documents)
    ensures FinalPrice(rule, ruleSet, usage) <= FinalPrice(rule', ruleSet', usage')
  {
    hide RoundProduct, PrintCharge;
    DuplexAdjustmentMeaning(usage.documents, rule, ruleSet.rounding);
    PrintChargeIsMonotone(usage.documents, usage'.documents, rule, rule', ruleSet.rounding);
    TaxIsMonotone(Taxable(rule, ruleSet, usage), Taxable(rule', ruleSet', usage'), rule.taxBasisPoints, rule'.taxBasisPoints, ruleSet.rounding);
  }

  /**
   * Printing more, or under a rule that is nowhere cheaper, never lowers the total: for
   * every rounding mode, duplex discount, minimum mode and mix of documents.
   */
  lemma QuoteIsMonotone(ruleSet: RuleSet, usage: Usage, ruleSet': RuleSet, usage': Usage)
    requires CalculateQuote(ruleSet, usage).Success? && CalculateQuote(ruleSet', usage').Success?
    requires ruleSet.rounding == ruleSet'.rounding && ruleSet.minimumApplication == ruleSet'.minimumApplication
    requires RuleAtMost(SelectFrom(ruleSet.rules, usage).value, SelectFrom(ruleSet'.rules, usage').value)
    requires DocumentsAtMost(usage.documents, usage'.documents)
    ensures CalculateQuote(ruleSet, usage).value.totalMinor <= CalculateQuote(ruleSet', usage').value.totalMinor
  {
    var rule, rule' := SelectFrom(ruleSet.rules, usage).value, SelectFrom(ruleSet'.rules, usage').value;
    QuoteWithMeaning(rule, ruleSet, usage);
    QuoteWithMeaning(rule', ruleSet', usage');
    PriceIsMonotone(rule, ruleSet, usage, rule', ruleSet', usage');
  }

  // ---------- Rounding document by document ----------

  function DuplexSides(documents: seq<DocumentUsage>): int {
    if documents == [] then 0
    else
      var last := documents[|documents| - 1];
      DuplexSides(documents[..|documents| - 1]) + (if last.duplex then last.printedSides else 0)
  }

  function DuplexCount(documents: seq<DocumentUsage>): nat {
    if documents == [] then 0
    else DuplexCount(documents[..|documents| - 1]) + (if documents[|documents| - 1].duplex then 1 else 0)
  }

  lemma Distribute(a: int, b: int, unit: int, basisPoints: int)
    ensures (a + b) * unit * basisPoints == a * unit * basisPoints + b * unit * basisPoints
  {
    DistributeSum(a, b, unit);
    DistributeSum(a * unit, b * unit, basisPoints);
  }

  lemma {:induction false} AdjustmentError(documents: seq<DocumentUsage>, rule: PricingRule, rounding: RoundingMode)
    requires rounding.HalfUp? || rounding.HalfEven?
    requires DuplexAdjustment(documents, rule, rounding).Success?
    ensures var exact := DuplexSides(documents) * rule.unitAmountMinor * rule.duplexAdjustmentBasisPoints;
            var adjustment := DuplexAdjustment(documents, rule, rounding).value;
            Abs(2 * (BASIS_POINT_SCALE * adjustment - exact)) <= BASIS_POINT_SCALE * DuplexCount(documents)
  {
    hide RoundProduct;
    if documents != [] {
      var init, last := documents[..|documents| - 1], documents[|documents| - 1];
      AdjustmentError(init, rule, rounding);
      if last.duplex {
        var product := last.printedSides * rule.unitAmountMinor * rule.duplexAdjustmentBasisPoints;
        RoundingError(product, rounding);
        Distribute(DuplexSides(init), last.printedSides, rule.unitAmountMinor, rule.duplexAdjustmentBasisPoints);
      }
    }
  }

  /**
   * Rounding each of n duplex documents on its own moves the adjustment by at most
   * (n + 1) / 2 minor units from rounding their sum once.
   */
  lemma PerDocumentRoundingDrift(documents: seq<DocumentUsage>, rule: PricingRule, rounding: RoundingMode)
    requires rounding.HalfUp? || rounding.HalfEven?
    requires DuplexAdjustment(documents, rule, rounding).Success?
    ensures var together := RoundProduct(DuplexSides(documents) * rule.unitAmountMinor * rule.duplexAdjustmentBasisPoints, rounding);
            2 * Abs(DuplexAdjustment(documents, rule, rounding).value - together) <= DuplexCount(documents) + 1
  {
    hide RoundProduct, DuplexAdjustment;
    AdjustmentError(documents, rule, rounding);
    RoundingError(DuplexSides(documents) * rule.unitAmountMinor * rule.duplexAdjustmentBasisPoints, rounding);
  }
}
