/** The tax and the total of any order, mixed or not, inclusive or not, against the unrounded figures. */
module MoneyTax {
  import opened Rounding
  import opened Money
  import opened MoneyConservation
  import opened MoneyMonotone
  import opened MoneyError

  /** The part of a taxable amount that is VAT, added to it or contained in it. */
  function TaxRate(vat: real, inclusive: bool): real {
    if vat <= 0.0 then 0.0
    else if inclusive then 1.0 - 1.0 / Grown(vat) else vat / 100.0
  }

  lemma TaxRateSign(vat: real, inclusive: bool)
    ensures TaxRate(vat, inclusive) >= 0.0
  {
    if vat > 0.0 { DivideMonotone(1.0, Grown(vat), Grown(vat)); }
  }

  /** Contained tax is what VAT charged on the rest would come to. */
  lemma ContainedIsVatOnRest(base: int, vat: real)
    requires vat > 0.0
    ensures Product(base as real - ContainedTax(base, vat), vat / 100.0) == ContainedTax(base, vat)
  {
    var rest := base as real / (1.0 + vat / 100.0);
    assert base as real - ContainedTax(base, vat) == rest;
    assert Product(rest, 1.0 + vat / 100.0) == base as real;
    assert Product(rest, vat / 100.0) == Product(rest, 1.0 + vat / 100.0) - rest;
  }

  lemma ShareTaxed(share: int, vat: real, inclusive: bool)
    requires vat > 0.0
    ensures Within(TaxOnShare(share, vat, inclusive) as real, Product(share as real, TaxRate(vat, inclusive)), 0.5)
  {
    if inclusive {
      ShareOf(share as real, Grown(vat));
    } else {
      assert Product(share as real, vat / 100.0) == PercentOf(share, vat);
    }
  }

  lemma WithinScaled(x: real, y: real, e: real, rate: real)
    requires Within(x, y, e) && rate >= 0.0
    ensures Within(Product(x, rate), Product(y, rate), Product(e, rate))
  {
    Scale(x - y, e, rate);
    Scale(-e, x - y, rate);
    assert Product(x - y, rate) == Product(x, rate) - Product(y, rate);
    assert Product(-e, rate) == -Product(e, rate);
  }

  /** Two roundings, of the share and of its tax, cost at most half the rate and half a cent. */
  lemma TaxError(base: int, ratio: real, vat: real, inclusive: bool)
    requires base >= 0 && ratio >= 0.0
    ensures Within(ComputeTax(base, ratio, vat, inclusive) as real,
                   Product(Product(base as real, ratio), TaxRate(vat, inclusive)),
                   Product(0.5, TaxRate(vat, inclusive)) + 0.5)
  {
    var exact, rate := Product(base as real, ratio), TaxRate(vat, inclusive);
    TaxRateSign(vat, inclusive);
    Scale(0.0, 0.5, rate);
    if vat <= 0.0 || base <= 0 || ratio <= 0.0 {
      NothingTaxed(base, ratio, rate);
    } else {
      WithinScaled(HalfUp(exact) as real, exact, 0.5, rate);
      ShareTaxed(HalfUp(exact), vat, inclusive);
    }
  }

  lemma NothingTaxed(base: int, ratio: real, rate: real)
    requires base == 0 || ratio == 0.0 || rate == 0.0
    ensures Product(Product(base as real, ratio), rate) == 0.0
  {
    assert base == 0 || ratio == 0.0 ==> Product(base as real, ratio) == 0.0;
  }

  /** What is taxed: the discounted order with its service charge. */
  function TaxBase(lines: seq<OrderLine>, rules: TaxRules, discount: real): int {
    AfterDiscount(lines, discount) + Service(AfterDiscount(lines, discount), rules.EffectiveService())
  }

  /** The tax of an order is that on the share of its base that its taxable lines have in its lines. */
  lemma {:induction false} OrderTaxError(lines: seq<OrderLine>, rules: TaxRules, discount: real)
    requires WellPricedOrder(lines) && SaneRules(rules, discount)
    ensures var rate := TaxRate(rules.EffectiveVat(), rules.vatInclusive);
            var share := Product(TaxBase(lines, rules, discount) as real,
                                 TaxableRatio(TaxableNet(lines), OrderNet(lines)));
            Within(ComputeOrder(lines, rules, discount).taxTotal as real, Product(share, rate),
                   Product(0.5, rate) + 0.5)
  {
    NetBounds(lines);
    AfterDiscountMonotone(lines, lines, discount);
    RatioGrows(TaxableNet(lines), OrderNet(lines), 0);
    TaxError(TaxBase(lines, rules, discount), TaxableRatio(TaxableNet(lines), OrderNet(lines)),
             rules.EffectiveVat(), rules.vatInclusive);
  }

  // ---- against the unrounded order ----

  /** What the taxable lines come to without any rounding. */
  function ExactTaxable(lines: seq<OrderLine>): real {
    if lines == [] then 0.0
    else
      (if lines[0].taxExempt then 0.0 else Product(lines[0].Amount(), Kept(lines[0].discountPercent)))
        + ExactTaxable(lines[1..])
  }

  /** An amount after the order discount and with the service charge. */
  function Serviced(amount: real, rules: TaxRules, discount: real): real {
    Product(Product(amount, Kept(discount)), Grown(rules.EffectiveService()))
  }

  function ExactTax(lines: seq<OrderLine>, rules: TaxRules, discount: real): real {
    Product(Serviced(ExactTaxable(lines), rules, discount), TaxRate(rules.EffectiveVat(), rules.vatInclusive))
  }

  function ExactTotal(lines: seq<OrderLine>, rules: TaxRules, discount: real): real {
    Serviced(ExactNet(lines), rules, discount) + if rules.vatInclusive then 0.0 else ExactTax(lines, rules, discount)
  }

  function BaseTolerance(n: nat, rules: TaxRules): real {
    Product(n as real + 0.5, Grown(rules.EffectiveService())) + 0.5
  }

  function TaxTolerance(n: nat, rules: TaxRules): real {
    Product(BaseTolerance(n, rules) + 0.5, TaxRate(rules.EffectiveVat(), rules.vatInclusive)) + 0.5
  }

  lemma {:induction false} TaxableNetError(lines: seq<OrderLine>)
    requires SaneDiscounts(lines)
    ensures Within(TaxableNet(lines) as real, ExactTaxable(lines), |lines| as real)
  {
    if lines != [] {
      LineError(lines[0]);
      TaxableNetError(lines[1..]);
    }
  }

  /** Two roundings, of the discount and of the service charge, between an order's net and its base. */
  lemma {:induction false} BaseOfNet(lines: seq<OrderLine>, rules: TaxRules, discount: real)
    requires SaneRules(rules, discount)
    ensures Within(TaxBase(lines, rules, discount) as real, Serviced(OrderNet(lines) as real, rules, discount),
                   BaseTolerance(0, rules))
  {
    var net, service := OrderNet(lines), rules.EffectiveService();
    DiscountStage(net, net as real, 0.0, discount);
    SurchargeStage(AfterDiscount(lines, discount), Product(net as real, Kept(discount)), 0.5, service);
  }

  lemma {:induction false} BaseError(lines: seq<OrderLine>, rules: TaxRules, discount: real)
    requires SaneDiscounts(lines) && SaneRules(rules, discount)
    ensures Within(TaxBase(lines, rules, discount) as real, Serviced(ExactNet(lines), rules, discount),
                   BaseTolerance(|lines|, rules))
  {
    AfterDiscountError(lines, discount);
    SurchargeStage(AfterDiscount(lines, discount), ExactAfterDiscount(lines, discount), |lines| as real + 0.5,
                   rules.EffectiveService());
  }

  lemma ServicedWithin(x: real, y: real, e: real, rules: TaxRules, discount: real)
    requires Within(x, y, e) && SaneRules(rules, discount)
    ensures Within(Serviced(x, rules, discount), Serviced(y, rules, discount),
                   Product(e, Grown(rules.EffectiveService())))
  {
    var kept := Kept(discount);
    ShrinkWithin(x - y, e, kept);
    assert Product(x - y, kept) == Product(x, kept) - Product(y, kept);
    WithinScaled(Product(x, kept), Product(y, kept), e, Grown(rules.EffectiveService()));
  }

  /** The taxable share of the discounted, serviced net is the discounted, serviced taxable net. */
  lemma ShareOfServiced(taxable: int, net: int, rules: TaxRules, discount: real)
    requires net != 0
    ensures Product(Serviced(net as real, rules, discount), TaxableRatio(taxable, net))
         == Serviced(taxable as real, rules, discount)
  {
    var k, g, r := Kept(discount), Grown(rules.EffectiveService()), TaxableRatio(taxable, net);
    assert Product(net as real, r) == taxable as real;
    Reorder(net as real, k, g, r);
  }

  lemma Reorder(x: real, k: real, g: real, r: real)
    ensures Product(Product(Product(x, k), g), r) == Product(Product(Product(x, r), k), g)
  {
    assert x * k * g * r == x * r * k * g;
  }

  lemma Triangle(x: real, y: real, z: real, a: real, b: real)
    requires Within(x, y, a) && Within(y, z, b)
    ensures Within(x, z, a + b)
  {
  }

  lemma ProductSum(x: real, y: real, s: real)
    ensures Product(x + y, s) == Product(x, s) + Product(y, s)
  {
  }

  lemma ShareOfBase(base: int, taxable: int, net: int, e: real, rules: TaxRules, discount: real)
    requires 0 <= taxable <= net && net != 0 && Within(base as real, Serviced(net as real, rules, discount), e)
    ensures Within(Product(base as real, TaxableRatio(taxable, net)), Serviced(taxable as real, rules, discount), e)
  {
    var exact, ratio := Serviced(net as real, rules, discount), TaxableRatio(taxable, net);
    DivideMonotone(0.0, taxable as real, net as real);
    DivideMonotone(taxable as real, net as real, net as real);
    ShrinkWithin(base as real - exact, e, ratio);
    ProductSum(base as real - exact, exact, ratio);
    ShareOfServiced(taxable, net, rules, discount);
  }

  lemma {:induction false} ShareError(lines: seq<OrderLine>, rules: TaxRules, discount: real)
    requires WellPricedOrder(lines) && SaneRules(rules, discount)
    ensures var ratio := TaxableRatio(TaxableNet(lines), OrderNet(lines));
            Within(Product(TaxBase(lines, rules, discount) as real, ratio),
                   Serviced(ExactTaxable(lines), rules, discount), BaseTolerance(|lines|, rules))
  {
    var net, taxable, base := OrderNet(lines), TaxableNet(lines), TaxBase(lines, rules, discount);
    NetBounds(lines);
    TaxableNetError(lines);
    BaseOfNet(lines, rules, discount);
    ShareErrorOf(base, taxable, net, ExactTaxable(lines), |lines|, rules, discount);
  }

  lemma ShareErrorOf(base: int, taxable: int, net: int, exact: real, n: nat, rules: TaxRules, discount: real)
    requires 0 <= taxable <= net && Within(taxable as real, exact, n as real) && SaneRules(rules, discount)
    requires Within(base as real, Serviced(net as real, rules, discount), BaseTolerance(0, rules))
    ensures Within(Product(base as real, TaxableRatio(taxable, net)), Serviced(exact, rules, discount),
                   BaseTolerance(n, rules))
  {
    var g := Grown(rules.EffectiveService());
    ServicedWithin(taxable as real, exact, n as real, rules, discount);
    ProductSum(n as real, 0.5, g);
    if net == 0 {
      NoShare(base as real, rules, discount);
      Scale(0.0, 0.5, g);
    } else {
      ShareOfBase(base, taxable, net, BaseTolerance(0, rules), rules, discount);
    }
    Triangle(Product(base as real, TaxableRatio(taxable, net)), Serviced(taxable as real, rules, discount),
             Serviced(exact, rules, discount), BaseTolerance(0, rules), Product(n as real, g));
  }

  lemma NoShare(base: real, rules: TaxRules, discount: real)
    ensures Product(base, 0.0) == 0.0 == Serviced(0.0, rules, discount)
  {
    assert Product(0.0, Kept(discount)) == 0.0;
  }

  /** The tax charged on any order of n lines is within ((n + 1/2)(1 + s) + 1) r + 1/2 cents of the tax at rate r
      on its unrounded, discounted and serviced taxable lines. */
  lemma {:induction false} ExactTaxError(lines: seq<OrderLine>, rules: TaxRules, discount: real)
    requires WellPricedOrder(lines) && SaneRules(rules, discount)
    ensures Within(ComputeOrder(lines, rules, discount).taxTotal as real, ExactTax(lines, rules, discount),
                   TaxTolerance(|lines|, rules))
  {
    OrderTaxError(lines, rules, discount);
    ShareError(lines, rules, discount);
    TaxOfShare(ComputeOrder(lines, rules, discount).taxTotal,
               Product(TaxBase(lines, rules, discount) as real, TaxableRatio(TaxableNet(lines), OrderNet(lines))),
               Serviced(ExactTaxable(lines), rules, discount), BaseTolerance(|lines|, rules),
               rules.EffectiveVat(), rules.vatInclusive);
  }

  lemma TaxOfShare(tax: int, share: real, exact: real, e: real, vat: real, inclusive: bool)
    requires Within(share, exact, e)
    requires Within(tax as real, Product(share, TaxRate(vat, inclusive)), Product(0.5, TaxRate(vat, inclusive)) + 0.5)
    ensures Within(tax as real, Product(exact, TaxRate(vat, inclusive)),
                   Product(e + 0.5, TaxRate(vat, inclusive)) + 0.5)
  {
    var rate := TaxRate(vat, inclusive);
    TaxRateSign(vat, inclusive);
    WithinScaled(share, exact, e, rate);
    ProductSum(e, 0.5, rate);
    Triangle(tax as real, Product(share, rate), Product(exact, rate), Product(0.5, rate) + 0.5, Product(e, rate));
  }

  lemma AssembleWithin(lts: seq<LineTotals>, d: int, service: int, tax: int, inclusive: bool, step: real)
    requires step > 0.0 ==> WholeCents(step)
    ensures var raw := SumNet(lts) - d + service + if inclusive then 0 else tax;
            Within(Assemble(lts, d, service, tax, inclusive, step).grandTotal as real, raw as real,
                   if step > 0.0 then step / 2.0 else 0.0)
  {
    AssembleStep(lts, d, service, if inclusive then 0 else tax, step);
  }

  function TotalTolerance(n: nat, rules: TaxRules): real {
    BaseTolerance(n, rules) + if rules.vatInclusive then 0.0 else TaxTolerance(n, rules)
  }

  /** The grand total of any order, mixed or not, is within (n + 1/2)(1 + s) + 1/2 cents of the unrounded figure
      when prices include VAT, the tolerance of the tax more when they do not, and half a rounding step. */
  lemma {:induction false} ExactTotalError(lines: seq<OrderLine>, rules: TaxRules, discount: real)
    requires WellPricedOrder(lines) && SaneRules(rules, discount)
    requires rules.roundingStep > 0.0 ==> WholeCents(rules.roundingStep)
    ensures Within(ComputeOrder(lines, rules, discount).grandTotal as real, ExactTotal(lines, rules, discount),
                   TotalTolerance(|lines|, rules) + if rules.roundingStep > 0.0 then rules.roundingStep / 2.0 else 0.0)
  {
    BaseError(lines, rules, discount);
    ExactTaxError(lines, rules, discount);
    AssembleWithin(ComputeLines(lines), OrderDiscount(lines, discount),
      Service(AfterDiscount(lines, discount), rules.EffectiveService()), Tax(lines, rules, discount),
      rules.vatInclusive, rules.roundingStep);
  }
}
