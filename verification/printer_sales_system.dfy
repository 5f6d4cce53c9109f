/**
 A model of the printer sale pricing: three interchangeable discount
 strategies computing a total from a unit price and a quantity, and a
 context that holds the current strategy, can swap it, and delegates every
 price request to it.

 Java `double` arithmetic is modelled with mathematical reals, so the
 formulas hold exactly; the Java `int` quantity is converted to a real just
 as Java widens it to `double` before multiplying.
 */
module PrinterSalesSystem {

  /** An amount of money; the Java `double` is modelled as a real. */
  type Money = real

  /** The three strategies, each with the constant it was constructed with. */
  datatype DiscountStrategy =
    | NoDiscount
    | FixedAmountDiscount(discountPerUnit: Money)
    | PercentageDiscount(discountRate: real)

  /** The total without any discount: unit price times quantity. */
  function ListTotal(unitPrice: Money, quantity: int): (total: Money)
  {
    unitPrice * quantity as real
  }

  /** `calculatePrice` of each strategy. The fixed amount is taken off the
      unit price and a negative result is clamped to zero before multiplying;
      the percentage rate is not validated. */
  function CalculatePrice(strategy: DiscountStrategy, originalPrice: Money, quantity: int): (total: Money)
    ensures quantity == 0 ==> total == 0.0
    ensures strategy.FixedAmountDiscount? && quantity >= 0 ==> total >= 0.0
    ensures strategy.FixedAmountDiscount? && strategy.discountPerUnit >= originalPrice ==> total == 0.0
  {
    match strategy
    case NoDiscount =>
      originalPrice * quantity as real
    case FixedAmountDiscount(discountPerUnit) =>
      var discountedPrice := originalPrice - discountPerUnit;
      var clampedPrice := if discountedPrice < 0.0 then 0.0 else discountedPrice;
      clampedPrice * quantity as real
    case PercentageDiscount(discountRate) =>
      originalPrice * (1.0 - discountRate) * quantity as real
  }

  /** The price one unit costs under a strategy. */
  function UnitPrice(strategy: DiscountStrategy, originalPrice: Money): (price: Money)
    ensures strategy.FixedAmountDiscount? ==> price >= 0.0
  {
    match strategy
    case NoDiscount => originalPrice
    case FixedAmountDiscount(discountPerUnit) =>
      if originalPrice - discountPerUnit < 0.0 then 0.0 else originalPrice - discountPerUnit
    case PercentageDiscount(discountRate) => originalPrice * (1.0 - discountRate)
  }

  /** Every strategy prices the units independently: the total is the
      discounted unit price times the quantity. */
  lemma TotalIsUnitPriceTimesQuantity(strategy: DiscountStrategy, originalPrice: Money, quantity: int)
    ensures CalculatePrice(strategy, originalPrice, quantity) == UnitPrice(strategy, originalPrice) * quantity as real
  {
  }

  /** Hence a total is additive in the quantity: buying `a + b` units costs
      the same as buying `a` and then `b` units. */
  lemma TotalIsAdditiveInQuantity(strategy: DiscountStrategy, originalPrice: Money, a: int, b: int)
    ensures CalculatePrice(strategy, originalPrice, a + b)
            == CalculatePrice(strategy, originalPrice, a) + CalculatePrice(strategy, originalPrice, b)
  {
    TotalIsUnitPriceTimesQuantity(strategy, originalPrice, a + b);
    TotalIsUnitPriceTimesQuantity(strategy, originalPrice, a);
    TotalIsUnitPriceTimesQuantity(strategy, originalPrice, b);
    var u := UnitPrice(strategy, originalPrice);
    assert u * (a + b) as real == u * a as real + u * b as real;
  }

  /** No discount charges the list total. */
  lemma NoDiscountChargesListTotal(originalPrice: Money, quantity: int)
    ensures CalculatePrice(NoDiscount, originalPrice, quantity) == ListTotal(originalPrice, quantity)
  {
  }

  /** A fixed discount no larger than the unit price saves exactly that
      amount on every unit; a larger one makes the units free. */
  lemma FixedAmountSavesPerUnit(discountPerUnit: Money, originalPrice: Money, quantity: int)
    ensures discountPerUnit <= originalPrice ==>
              CalculatePrice(FixedAmountDiscount(discountPerUnit), originalPrice, quantity)
              == ListTotal(originalPrice, quantity) - discountPerUnit * quantity as real
    ensures discountPerUnit >= originalPrice ==>
              CalculatePrice(FixedAmountDiscount(discountPerUnit), originalPrice, quantity) == 0.0
  {
    var q := quantity as real;
    assert (originalPrice - discountPerUnit) * q == originalPrice * q - discountPerUnit * q;
  }

  /** For a non-negative price, discount and quantity, the fixed-amount total
      lies between zero and the list total. */
  lemma FixedAmountWithinListTotal(discountPerUnit: Money, originalPrice: Money, quantity: int)
    requires 0.0 <= discountPerUnit && 0.0 <= originalPrice && 0 <= quantity
    ensures 0.0 <= CalculatePrice(FixedAmountDiscount(discountPerUnit), originalPrice, quantity)
                <= ListTotal(originalPrice, quantity)
  {
    var q := quantity as real;
    var u := UnitPrice(FixedAmountDiscount(discountPerUnit), originalPrice);
    TotalIsUnitPriceTimesQuantity(FixedAmountDiscount(discountPerUnit), originalPrice, quantity);
    assert u <= originalPrice;
    assert u * q <= originalPrice * q;
  }

  /** A percentage discount scales the list total by `1 - rate`. */
  lemma PercentageScalesListTotal(discountRate: real, originalPrice: Money, quantity: int)
    ensures CalculatePrice(PercentageDiscount(discountRate), originalPrice, quantity)
            == (1.0 - discountRate) * ListTotal(originalPrice, quantity)
  {
  }

  /** A rate of 0.05 charges 95 % of the list total, as the comment on the
      `discountRate` field says. */
  lemma FivePercentChargesNinetyFivePercent(originalPrice: Money, quantity: int)
    ensures CalculatePrice(PercentageDiscount(0.05), originalPrice, quantity)
            == 0.95 * ListTotal(originalPrice, quantity)
  {
    PercentageScalesListTotal(0.05, originalPrice, quantity);
  }

  /** A zero rate, and a zero fixed amount on a non-negative price, charge
      the same as no discount. */
  lemma ZeroDiscountsAreNoDiscount(originalPrice: Money, quantity: int)
    ensures CalculatePrice(PercentageDiscount(0.0), originalPrice, quantity)
            == CalculatePrice(NoDiscount, originalPrice, quantity)
    ensures 0.0 <= originalPrice ==>
              CalculatePrice(FixedAmountDiscount(0.0), originalPrice, quantity)
              == CalculatePrice(NoDiscount, originalPrice, quantity)
  {
  }

  /** The context holding the current strategy. */
  datatype PrinterSaleContext = PrinterSaleContext(discountStrategy: DiscountStrategy)

  /** `getFinalPrice` delegates to the current strategy. */
  function GetFinalPrice(context: PrinterSaleContext, unitPrice: Money, quantity: int): (total: Money)
    ensures total == CalculatePrice(context.discountStrategy, unitPrice, quantity)
  {
    CalculatePrice(context.discountStrategy, unitPrice, quantity)
  }

  /** `setDiscountStrategy` replaces the strategy, so every later price
      request is answered by the new one, whatever the old one was. */
  function SetDiscountStrategy(context: PrinterSaleContext, strategy: DiscountStrategy): (context': PrinterSaleContext)
    ensures forall p, q :: GetFinalPrice(context', p, q) == CalculatePrice(strategy, p, q)
  {
    PrinterSaleContext(strategy)
  }

  /** The calls a client can make on a context after constructing it. */
  datatype SaleCall =
    | SetDiscountStrategyCall(strategy: DiscountStrategy)
    | GetFinalPriceCall(unitPrice: Money, quantity: int)

  /** The context after a sequence of calls and the prices returned, in order. */
  datatype Session = Session(context: PrinterSaleContext, prices: seq<Money>)

  /** A sequence of calls on one context object. Each call yields at most one
      price, and price requests alone leave the context as it was, one price
      per request. */
  function RunSales(context: PrinterSaleContext, calls: seq<SaleCall>): (r: Session)
    ensures |r.prices| <= |calls|
    ensures (forall i :: 0 <= i < |calls| ==> calls[i].GetFinalPriceCall?) ==>
              r.context == context && |r.prices| == |calls|
    decreases |calls|
  {
    if calls == [] then Session(context, [])
    else
      match calls[0]
      case SetDiscountStrategyCall(strategy) =>
        RunSales(SetDiscountStrategy(context, strategy), calls[1..])
      case GetFinalPriceCall(unitPrice, quantity) =>
        var rest := RunSales(context, calls[1..]);
        Session(rest.context, [GetFinalPrice(context, unitPrice, quantity)] + rest.prices)
  }

  /** Running two sequences of calls one after the other is running their
      concatenation. */
  lemma {:induction false} RunSalesAppend(context: PrinterSaleContext, first: seq<SaleCall>, second: seq<SaleCall>)
    ensures var a := RunSales(context, first);
            var b := RunSales(a.context, second);
            RunSales(context, first + second) == Session(b.context, a.prices + b.prices)
    decreases |first|
  {
    if first != [] {
      var whole := first + second;
      assert whole[0] == first[0];
      assert whole[1..] == first[1..] + second;
      match first[0]
      case SetDiscountStrategyCall(strategy) =>
        var next := SetDiscountStrategy(context, strategy);
        RunSalesAppend(next, first[1..], second);
        assert RunSales(context, whole) == RunSales(next, first[1..] + second);
        assert RunSales(context, first) == RunSales(next, first[1..]);
      case GetFinalPriceCall(unitPrice, quantity) =>
        var price := GetFinalPrice(context, unitPrice, quantity);
        RunSalesAppend(context, first[1..], second);
        var a := RunSales(context, first[1..]);
        var b := RunSales(a.context, second);
        assert RunSales(context, first) == Session(a.context, [price] + a.prices);
        assert RunSales(context, whole) == Session(b.context, [price] + (a.prices + b.prices));
        assert [price] + (a.prices + b.prices) == [price] + a.prices + b.prices;
    } else {
      assert first + second == second;
    }
  }

  /** Swapping the strategy has no retroactive effect: the prices quoted
      before the swap are those quoted without it, and every price after it
      is computed by the new strategy. */
  lemma SwapAffectsOnlyLaterPrices(context: PrinterSaleContext, before: seq<SaleCall>, strategy: DiscountStrategy, after: seq<SaleCall>)
    ensures RunSales(context, before + [SetDiscountStrategyCall(strategy)] + after).prices
            == RunSales(context, before).prices + RunSales(PrinterSaleContext(strategy), after).prices
  {
    var a := RunSales(context, before);
    RunSalesAppend(context, before, [SetDiscountStrategyCall(strategy)] + after);
    assert before + [SetDiscountStrategyCall(strategy)] + after == before + ([SetDiscountStrategyCall(strategy)] + after);
    assert ([SetDiscountStrategyCall(strategy)] + after)[1..] == after;
  }

  /** The sale of three printers at 1500 each: 4500 without discount, 4200
      with 100 off per unit, 4275 with a 0.05 rate. */
  lemma PrinterSaleScenario()
    ensures RunSales(PrinterSaleContext(NoDiscount),
                     [ GetFinalPriceCall(1500.0, 3)
                     , SetDiscountStrategyCall(FixedAmountDiscount(100.0))
                     , GetFinalPriceCall(1500.0, 3)
                     , SetDiscountStrategyCall(PercentageDiscount(0.05))
                     , GetFinalPriceCall(1500.0, 3) ]).prices
            == [4500.0, 4200.0, 4275.0]
  {
  }
}
