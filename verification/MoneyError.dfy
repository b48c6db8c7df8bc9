/** How far an order rounded at every stage can drift from the unrounded figure. */
module MoneyError {
  import opened Rounding
  import opened Money
  import opened MoneyConservation
  import opened MoneyMonotone

  predicate SaneDiscounts(lines: seq<OrderLine>) {
    forall i :: 0 <= i < |lines| ==> Percentage(lines[i].discountPercent)
  }

  predicate AllTaxable(lines: seq<OrderLine>) {
    forall i :: 0 <= i < |lines| ==> !lines[i].taxExempt
  }

  // ---- the figures without any rounding ----

  function Kept(percent: real): real {
    1.0 - percent / 100.0
  }

  function Grown(percent: real): real {
    1.0 + percent / 100.0
  }

  function ExactNet(lines: seq<OrderLine>): real {
    if lines == [] then 0.0
    else Product(lines[0].Amount(), Kept(lines[0].discountPercent)) + ExactNet(lines[1..])
  }

  function ExactAfterDiscount(lines: seq<OrderLine>, discount: real): real {
    Product(ExactNet(lines), Kept(discount))
  }

  function ExactGrandTotal(lines: seq<OrderLine>, rules: TaxRules, discount: real): real {
    Product(Product(ExactAfterDiscount(lines, discount), Grown(rules.EffectiveService())), Grown(rules.EffectiveVat()))
  }

  predicate Within(x: real, y: real, e: real) {
    -e <= x - y <= e
  }

  // ---- one stage ----

  /** Rounding a share off an amount that was itself off by e leaves an error of e + 1/2. */
  lemma DiscountStage(amount: int, exact: real, e: real, percent: real)
    requires Within(amount as real, exact, e) && Percentage(percent)
    ensures Within((amount - HalfUp(PercentOf(amount, percent))) as real, Product(exact, Kept(percent)), e + 0.5)
  {
    var d := amount as real - exact;
    var kept := Kept(percent);
    assert Product(amount as real, kept) == amount as real - PercentOf(amount, percent);
    assert Product(d, kept) == Product(amount as real, kept) - Product(exact, kept);
    ShrinkWithin(d, e, kept);
  }

  lemma ShrinkWithin(d: real, e: real, factor: real)
    requires -e <= d <= e && 0.0 <= factor <= 1.0
    ensures -e <= Product(d, factor) <= e
  {
    Scale(d, e, factor);
    Scale(-e, d, factor);
    Scale(factor, 1.0, e);
  }

  /** Adding a rounded surcharge multiplies the error by the surcharge and adds 1/2. */
  lemma SurchargeStage(amount: int, exact: real, e: real, percent: real)
    requires Within(amount as real, exact, e) && percent >= 0.0
    ensures Within((amount + HalfUp(PercentOf(amount, percent))) as real, Product(exact, Grown(percent)),
                   Product(e, Grown(percent)) + 0.5)
  {
    var d := amount as real - exact;
    var grown := Grown(percent);
    assert Product(amount as real, grown) == amount as real + PercentOf(amount, percent);
    assert Product(d, grown) == Product(amount as real, grown) - Product(exact, grown);
    Scale(d, e, grown);
    Scale(-e, d, grown);
    assert Product(-e, grown) == -Product(e, grown);
  }

  // ---- lines and order ----

  lemma LineError(line: OrderLine)
    requires Percentage(line.discountPercent)
    ensures Within(ComputeLine(line).net as real, Product(line.Amount(), Kept(line.discountPercent)), 1.0)
  {
    DiscountStage(HalfUp(line.Amount()), line.Amount(), 0.5, line.discountPercent);
  }

  lemma {:induction false} NetError(lines: seq<OrderLine>)
    requires SaneDiscounts(lines)
    ensures Within(OrderNet(lines) as real, ExactNet(lines), |lines| as real)
  {
    if lines != [] {
      LineError(lines[0]);
      NetError(lines[1..]);
      assert ComputeLines(lines)[1..] == ComputeLines(lines[1..]);
    }
  }

  /** n lines and an order discount drift by at most n cents and a half. */
  lemma AfterDiscountError(lines: seq<OrderLine>, discount: real)
    requires SaneDiscounts(lines) && Percentage(discount)
    ensures Within(AfterDiscount(lines, discount) as real, ExactAfterDiscount(lines, discount), |lines| as real + 0.5)
  {
    NetError(lines);
    DiscountStage(OrderNet(lines), ExactNet(lines), |lines| as real, discount);
  }

  // ---- the grand total ----

  lemma {:induction false} AllTaxableNet(lines: seq<OrderLine>)
    requires AllTaxable(lines)
    ensures TaxableNet(lines) == OrderNet(lines)
  {
    if lines != [] {
      AllTaxableNet(lines[1..]);
    }
  }

  /** On a fully taxable order VAT is charged on the whole base, zero or not. */
  lemma WholeBaseTaxed(base: int, net: int, vat: real)
    requires base >= 0 && vat >= 0.0 && (net == 0 ==> base == 0)
    ensures ComputeTax(base, TaxableRatio(net, net), vat, false) == HalfUp(PercentOf(base, vat))
  {
    if base == 0 || vat == 0.0 {
      assert PercentOf(base, vat) == 0.0;
      HalfUpOfInt(0);
    } else {
      assert TaxableRatio(net, net) == 1.0;
      assert Product(base as real, 1.0) == base as real;
      HalfUpOfInt(base);
    }
  }

  lemma ZeroNetIsFree(lines: seq<OrderLine>, service: real, discount: real)
    requires OrderNet(lines) == 0
    ensures var after := AfterDiscount(lines, discount); after == 0 == Service(after, service)
  {
    assert PercentOf(0, discount) == 0.0 == PercentOf(0, service);
    HalfUpOfInt(0);
  }

  function Tolerance(n: nat, rules: TaxRules): real {
    Product(Product(n as real + 0.5, Grown(rules.EffectiveService())) + 0.5, Grown(rules.EffectiveVat())) + 0.5
  }

  lemma RawTotalError(lines: seq<OrderLine>, rules: TaxRules, discount: real)
    requires WellPricedOrder(lines) && AllTaxable(lines) && SaneRules(rules, discount)
    requires !rules.vatInclusive && rules.EffectiveVat() >= 0.0
    ensures var after := AfterDiscount(lines, discount);
            var raw := after + Service(after, rules.EffectiveService()) + Tax(lines, rules, discount);
            Within(raw as real, ExactGrandTotal(lines, rules, discount), Tolerance(|lines|, rules))
  {
    var after, s, v := AfterDiscount(lines, discount), rules.EffectiveService(), rules.EffectiveVat();
    NetBounds(lines);
    AfterDiscountMonotone(lines, lines, discount);
    RoundedPercentGrows(after, after, s);
    var base := after + Service(after, s);
    if OrderNet(lines) == 0 {
      ZeroNetIsFree(lines, s, discount);
    }
    AllTaxableNet(lines);
    WholeBaseTaxed(base, OrderNet(lines), v);
    AfterDiscountError(lines, discount);
    var e := |lines| as real + 0.5;
    SurchargeStage(after, ExactAfterDiscount(lines, discount), e, s);
    SurchargeStage(base, Product(ExactAfterDiscount(lines, discount), Grown(s)), Product(e, Grown(s)) + 0.5, v);
  }

  lemma AssembleStep(lts: seq<LineTotals>, d: int, service: int, tax: int, step: real)
    requires step > 0.0 ==> WholeCents(step)
    ensures var raw := SumNet(lts) - d + service + tax;
            Within(Assemble(lts, d, service, tax, false, step).grandTotal as real, raw as real,
                   if step > 0.0 then step / 2.0 else 0.0)
  {
    var raw := SumNet(lts) - d + service + tax;
    if step > 0.0 {
      StepIsNearest(raw as real, step, 0);
    } else {
      HalfUpOfInt(raw);
    }
  }

  /** A fully taxable, tax-exclusive order of n lines charges the unrounded figure to within
      ((n + 1/2)(1 + s) + 1/2)(1 + v) + 1/2 cents and half a rounding step. */
  lemma GrandTotalError(lines: seq<OrderLine>, rules: TaxRules, discount: real)
    requires WellPricedOrder(lines) && AllTaxable(lines) && SaneRules(rules, discount)
    requires !rules.vatInclusive && rules.EffectiveVat() >= 0.0
    requires rules.roundingStep > 0.0 ==> WholeCents(rules.roundingStep)
    ensures Within(ComputeOrder(lines, rules, discount).grandTotal as real, ExactGrandTotal(lines, rules, discount),
                   Tolerance(|lines|, rules) + if rules.roundingStep > 0.0 then rules.roundingStep / 2.0 else 0.0)
  {
    RawTotalError(lines, rules, discount);
    AssembleStep(ComputeLines(lines), OrderDiscount(lines, discount),
      Service(AfterDiscount(lines, discount), rules.EffectiveService()), Tax(lines, rules, discount),
      rules.roundingStep);
  }
}
