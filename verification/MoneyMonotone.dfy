/** Raising a price or a quantity never lowers an order, and exactly when that holds. */
module MoneyMonotone {
  import opened Rounding
  import opened Money

  predicate WellPriced(line: OrderLine) {
    line.EffectiveUnitPrice() >= 0.0 && line.quantity >= 0.0 && Percentage(line.discountPercent)
  }

  predicate WellPricedOrder(lines: seq<OrderLine>) {
    forall i :: 0 <= i < |lines| ==> WellPriced(lines[i])
  }

  /** The same line sold at no lower a price and in no smaller a quantity. */
  predicate Raises(line: OrderLine, raised: OrderLine) {
    && WellPriced(line) && WellPriced(raised)
    && raised.taxExempt == line.taxExempt
    && raised.discountPercent == line.discountPercent
    && raised.EffectiveUnitPrice() >= line.EffectiveUnitPrice()
    && raised.quantity >= line.quantity
  }

  predicate NotLowered(before: OrderTotals, after: OrderTotals) {
    && before.subtotal <= after.subtotal
    && before.serviceTotal <= after.serviceTotal
    && before.taxTotal <= after.taxTotal
    && before.grandTotal <= after.grandTotal
  }

  predicate AllExempt(lines: seq<OrderLine>) {
    forall i :: 0 <= i < |lines| ==> lines[i].taxExempt
  }

  // ---- one rounding step ----

  /** Taking a rounded percentage off a whole amount is monotone although the part taken off is too. */
  lemma RemainderMonotone(g: int, h: int, percent: real)
    requires 0 <= g <= h && Percentage(percent)
    ensures 0 <= g - HalfUp(PercentOf(g, percent)) <= h - HalfUp(PercentOf(h, percent))
  {
    PercentGrows(0, g, percent);
    PercentGrows(g, h, percent);
    var gs, hs := PercentOf(g, percent), PercentOf(h, percent);
    HalfUpMonotone(gs, g as real);
    HalfUpOfInt(g);
    HalfUpMonotone(hs, gs + (h - g) as real);
    HalfUpShift(gs, h - g);
  }

  lemma PercentGrows(g: int, h: int, percent: real)
    requires 0 <= g <= h && percent >= 0.0
    ensures 0.0 <= PercentOf(g, percent) <= PercentOf(h, percent)
    ensures percent <= 100.0 ==> PercentOf(h, percent) - PercentOf(g, percent) <= (h - g) as real
  {
    Scale(0.0, g as real, percent);
    Scale(g as real, h as real, percent);
    if percent <= 100.0 {
      Scale(percent, 100.0, (h - g) as real);
      assert Product(percent, (h - g) as real) == Product(h as real, percent) - Product(g as real, percent);
    }
  }

  lemma RoundedPercentGrows(g: int, h: int, percent: real)
    requires 0 <= g <= h && percent >= 0.0
    ensures 0 <= HalfUp(PercentOf(g, percent)) <= HalfUp(PercentOf(h, percent))
  {
    PercentGrows(g, h, percent);
    HalfUpSign(PercentOf(g, percent));
    HalfUpMonotone(PercentOf(g, percent), PercentOf(h, percent));
  }

  lemma StepMonotone(x: real, y: real, step: real)
    requires x <= y
    ensures RoundToStep(x, step) <= RoundToStep(y, step)
  {
    if step <= 0.0 {
      HalfUpMonotone(x, y);
    } else {
      DivideMonotone(x, y, step);
      HalfUpMonotone(x / step, y / step);
      Scale(Steps(x, step) as real, Steps(y, step) as real, step);
      HalfUpMonotone(Multiple(Steps(x, step), step), Multiple(Steps(y, step), step));
    }
  }

  lemma DivideMonotone(x: real, y: real, d: real)
    requires x <= y && d > 0.0
    ensures x / d <= y / d
  {
  }

  // ---- lines ----

  lemma LineMonotone(line: OrderLine, raised: OrderLine)
    requires Raises(line, raised)
    ensures 0 <= ComputeLine(line).net <= ComputeLine(raised).net
  {
    AmountMonotone(line.EffectiveUnitPrice(), raised.EffectiveUnitPrice(), line.quantity, raised.quantity);
    HalfUpSign(line.Amount());
    HalfUpMonotone(line.Amount(), raised.Amount());
    RemainderMonotone(HalfUp(line.Amount()), HalfUp(raised.Amount()), line.discountPercent);
  }

  lemma AmountMonotone(p: real, p': real, q: real, q': real)
    requires 0.0 <= p <= p' && 0.0 <= q <= q'
    ensures 0.0 <= p * q <= p' * q'
  {
    Scale(0.0, p, q);
    Scale(p, p', q);
    Scale(q, q', p');
  }

  lemma {:induction false} ReplaceLine(lines: seq<OrderLine>, i: nat, line: OrderLine)
    requires i < |lines| && line.taxExempt == lines[i].taxExempt
    ensures var growth := ComputeLine(line).net - ComputeLine(lines[i]).net;
            && OrderNet(lines[i := line]) == OrderNet(lines) + growth
            && TaxableNet(lines[i := line]) == TaxableNet(lines) + (if line.taxExempt then 0 else growth)
  {
    var raised := lines[i := line];
    assert ComputeLines(raised)[1..] == ComputeLines(raised[1..]);
    assert ComputeLines(lines)[1..] == ComputeLines(lines[1..]);
    if i == 0 {
      assert raised[1..] == lines[1..];
    } else {
      assert raised[1..] == lines[1..][i - 1 := line];
      ReplaceLine(lines[1..], i - 1, line);
    }
  }

  function TaxableNet(lines: seq<OrderLine>): int {
    SumTaxableNet(ComputeLines(lines), lines)
  }

  lemma {:induction false} NetBounds(lines: seq<OrderLine>)
    requires WellPricedOrder(lines)
    ensures 0 <= TaxableNet(lines) <= OrderNet(lines)
    ensures AllExempt(lines) ==> TaxableNet(lines) == 0
  {
    if lines != [] {
      LineMonotone(lines[0], lines[0]);
      NetBounds(lines[1..]);
    }
  }

  // ---- tax ----

  /** The taxable part of the base does not shrink when base and taxable share do not. */
  lemma TaxMonotone(base: int, base': int, ratio: real, ratio': real, vat: real, inclusive: bool)
    requires 0 <= base <= base' && 0.0 <= ratio <= ratio'
    ensures 0 <= ComputeTax(base, ratio, vat, inclusive) <= ComputeTax(base', ratio', vat, inclusive)
  {
    AmountMonotone(base as real, base' as real, ratio, ratio');
    var share, share' := Product(base as real, ratio), Product(base' as real, ratio');
    HalfUpSign(share);
    HalfUpMonotone(share, share');
    if vat > 0.0 {
      TaxOnShareMonotone(HalfUp(share), HalfUp(share'), vat, inclusive);
    }
    if ratio' > 0.0 && base' > 0 && (ratio == 0.0 || base == 0) {
      assert ComputeTax(base, ratio, vat, inclusive) == 0;
    }
  }

  lemma TaxOnShareMonotone(tb: int, tb': int, vat: real, inclusive: bool)
    requires 0 <= tb <= tb' && vat > 0.0
    ensures 0 <= TaxOnShare(tb, vat, inclusive) <= TaxOnShare(tb', vat, inclusive)
  {
    if inclusive {
      ContainedTaxMonotone(tb, tb', vat);
      HalfUpSign(ContainedTax(tb, vat));
      HalfUpMonotone(ContainedTax(tb, vat), ContainedTax(tb', vat));
    } else {
      RoundedPercentGrows(tb, tb', vat);
    }
  }

  lemma ContainedTaxMonotone(tb: int, tb': int, vat: real)
    requires 0 <= tb <= tb' && vat > 0.0
    ensures 0.0 <= ContainedTax(tb, vat) <= ContainedTax(tb', vat)
  {
    var d := 1.0 + vat / 100.0;
    var share := 1.0 - 1.0 / d;
    ShareOf(tb as real, d);
    ShareOf(tb' as real, d);
    assert 0.0 <= share by { DivideMonotone(1.0, d, d); }
    Scale(0.0, tb as real, share);
    Scale(tb as real, tb' as real, share);
  }

  lemma ShareOf(x: real, d: real)
    requires d > 0.0
    ensures x - x / d == Product(x, 1.0 - 1.0 / d)
  {
    assert x / d == x * (1.0 / d);
  }

  lemma RatioGrows(t: int, n: int, growth: int)
    requires 0 <= t <= n && growth >= 0
    ensures 0.0 <= TaxableRatio(t, n) <= TaxableRatio(t + growth, n + growth)
  {
    if n > 0 {
      Scale(t as real, n as real, growth as real);
      CrossDivide(t as real, n as real, (t + growth) as real, (n + growth) as real);
      DivideMonotone(0.0, t as real, n as real);
    } else if growth > 0 {
      DivideMonotone(0.0, (t + growth) as real, (n + growth) as real);
    }
  }

  lemma CrossDivide(a: real, b: real, c: real, d: real)
    requires b > 0.0 && d > 0.0 && a * d <= c * b
    ensures a / b <= c / d
  {
    var x, y := a / b, c / d;
    assert a == x * b && c == y * d;
    CancelFactor(x, y, b * d);
  }

  lemma ScaleStrict(x: real, y: real, s: real)
    requires s > 0.0 && x < y
    ensures x * s < y * s
  {
    assert (y - x) * s > 0.0;
  }

  lemma CancelFactor(x: real, y: real, s: real)
    requires s > 0.0 && x * s <= y * s
    ensures x <= y
  {
    if y < x {
      ScaleStrict(y, x, s);
    }
  }

  // ---- whole orders ----

  predicate SaneRules(rules: TaxRules, discount: real) {
    rules.EffectiveService() >= 0.0 && Percentage(discount)
  }

  lemma AfterDiscountMonotone(lines: seq<OrderLine>, lines': seq<OrderLine>, discount: real)
    requires 0 <= OrderNet(lines) <= OrderNet(lines') && Percentage(discount)
    ensures 0 <= AfterDiscount(lines, discount) <= AfterDiscount(lines', discount)
  {
    RemainderMonotone(OrderNet(lines), OrderNet(lines'), discount);
  }

  lemma AssembleMonotone(lts: seq<LineTotals>, lts': seq<LineTotals>, d: int, d': int,
                         service: int, service': int, tax: int, tax': int, inclusive: bool, step: real)
    requires SumNet(lts) <= SumNet(lts') && SumNet(lts) - d <= SumNet(lts') - d'
    requires service <= service' && tax <= tax'
    ensures NotLowered(Assemble(lts, d, service, tax, inclusive, step),
                       Assemble(lts', d', service', tax', inclusive, step))
  {
    HalfUpOfInt(SumNet(lts));
    HalfUpOfInt(SumNet(lts'));
    var raw := SumNet(lts) - d + service + (if inclusive then 0 else tax);
    var raw' := SumNet(lts') - d' + service' + (if inclusive then 0 else tax');
    StepMonotone(raw as real, raw' as real, step);
  }

  lemma {:induction false} RaiseKeepsShape(lines: seq<OrderLine>, i: nat, raised: OrderLine)
    requires i < |lines| && WellPricedOrder(lines) && Raises(lines[i], raised)
    ensures var growth := ComputeLine(raised).net - ComputeLine(lines[i]).net;
            && growth >= 0
            && 0 <= TaxableNet(lines) <= OrderNet(lines)
            && OrderNet(lines[i := raised]) == OrderNet(lines) + growth
            && TaxableNet(lines[i := raised]) == TaxableNet(lines) + (if raised.taxExempt then 0 else growth)
  {
    NetBounds(lines);
    LineMonotone(lines[i], raised);
    ReplaceLine(lines, i, raised);
  }

  lemma TaxOfRaisedOrder(lines: seq<OrderLine>, i: nat, raised: OrderLine, rules: TaxRules, discount: real)
    requires i < |lines| && WellPricedOrder(lines) && Raises(lines[i], raised) && SaneRules(rules, discount)
    requires !raised.taxExempt || AllExempt(lines)
    ensures Tax(lines, rules, discount) <= Tax(lines[i := raised], rules, discount)
  {
    var lines' := lines[i := raised];
    RaiseKeepsShape(lines, i, raised);
    AfterDiscountMonotone(lines, lines', discount);
    var after, after' := AfterDiscount(lines, discount), AfterDiscount(lines', discount);
    var s := rules.EffectiveService();
    RoundedPercentGrows(after, after', s);
    var n, t, growth := OrderNet(lines), TaxableNet(lines), OrderNet(lines') - OrderNet(lines);
    if raised.taxExempt {
      NetBounds(lines);
      NoTaxableShare(n);
      NoTaxableShare(n + growth);
    } else {
      RatioGrows(t, n, growth);
    }
    TaxMonotone(after + Service(after, s), after' + Service(after', s),
      TaxableRatio(t, n), TaxableRatio(TaxableNet(lines'), n + growth), rules.EffectiveVat(), rules.vatInclusive);
  }

  lemma NoTaxableShare(n: int)
    ensures TaxableRatio(0, n) == 0.0
  {
  }

  /** Raising the price or the quantity of a taxable line, or of any line of an order
      with no taxable line, lowers none of the totals. */
  lemma OrderMonotone(lines: seq<OrderLine>, i: nat, raised: OrderLine, rules: TaxRules, discount: real)
    requires i < |lines| && WellPricedOrder(lines) && Raises(lines[i], raised) && SaneRules(rules, discount)
    requires !raised.taxExempt || AllExempt(lines)
    ensures NotLowered(ComputeOrder(lines, rules, discount), ComputeOrder(lines[i := raised], rules, discount))
  {
    var lines' := lines[i := raised];
    RaiseKeepsShape(lines, i, raised);
    AfterDiscountMonotone(lines, lines', discount);
    var s := rules.EffectiveService();
    RoundedPercentGrows(AfterDiscount(lines, discount), AfterDiscount(lines', discount), s);
    TaxOfRaisedOrder(lines, i, raised, rules, discount);
    AssembleMonotone(ComputeLines(lines), ComputeLines(lines'),
      OrderDiscount(lines, discount), OrderDiscount(lines', discount),
      Service(AfterDiscount(lines, discount), s), Service(AfterDiscount(lines', discount), s),
      Tax(lines, rules, discount), Tax(lines', rules, discount), rules.vatInclusive, rules.roundingStep);
  }

  // ---- exactly when ----

  predicate HasPattern(lines: seq<OrderLine>, exempt: seq<bool>) {
    |lines| == |exempt| && forall i :: 0 <= i < |lines| ==> lines[i].taxExempt == exempt[i]
  }

  predicate Scenario(lines: seq<OrderLine>, exempt: seq<bool>, i: nat, raised: OrderLine, rules: TaxRules,
                     discount: real) {
    && HasPattern(lines, exempt) && i < |lines|
    && WellPricedOrder(lines) && Raises(lines[i], raised) && SaneRules(rules, discount)
  }

  /** Whatever the amounts and rates, raising line i of an order with these exemptions lowers nothing. */
  ghost predicate MonotoneAt(exempt: seq<bool>, i: nat) {
    forall lines, raised, rules, discount :: Scenario(lines, exempt, i, raised, rules, discount) ==>
      NotLowered(ComputeOrder(lines, rules, discount), ComputeOrder(lines[i := raised], rules, discount))
  }

  function Priced(cents: int, exempt: bool): OrderLine {
    OrderLine(cents as real, 1.0, 0.0, [], exempt)
  }

  predicate AllFree(lines: seq<OrderLine>) {
    forall i :: 0 <= i < |lines| ==> lines[i] == Priced(0, lines[i].taxExempt)
  }

  function FreeOrder(exempt: seq<bool>): seq<OrderLine> {
    seq(|exempt|, i requires 0 <= i < |exempt| => Priced(0, exempt[i]))
  }

  lemma PricedNet(cents: int, exempt: bool)
    ensures ComputeLine(Priced(cents, exempt)) == LineTotals(cents, 0, cents)
  {
    HalfUpOfInt(cents);
    HalfUpOfInt(0);
    assert Priced(cents, exempt).Amount() == cents as real;
    assert PercentOf(cents, 0.0) == 0.0;
  }

  lemma {:induction false} FreeNet(lines: seq<OrderLine>)
    requires AllFree(lines)
    ensures OrderNet(lines) == 0 == TaxableNet(lines)
  {
    if lines != [] {
      PricedNet(0, lines[0].taxExempt);
      FreeNet(lines[1..]);
    }
  }

  /** One taxable line of 21 cents and one exempt line, every other line free. */
  ghost predicate Mixed(lines: seq<OrderLine>, exempt: seq<bool>, taxable: nat, free: nat, cents: int) {
    && taxable < |exempt| && free < |exempt| && !exempt[taxable] && exempt[free]
    && lines == FreeOrder(exempt)[taxable := Priced(21, false)][free := Priced(cents, true)]
  }

  lemma RepriceFreeLine(lines: seq<OrderLine>, k: nat, cents: int, exempt: bool)
    requires k < |lines| && lines[k] == Priced(0, exempt)
    ensures OrderNet(lines[k := Priced(cents, exempt)]) == OrderNet(lines) + cents
    ensures TaxableNet(lines[k := Priced(cents, exempt)]) == TaxableNet(lines) + (if exempt then 0 else cents)
  {
    PricedNet(0, exempt);
    PricedNet(cents, exempt);
    ReplaceLine(lines, k, Priced(cents, exempt));
  }

  lemma RepriceTwo(none: seq<OrderLine>, one: seq<OrderLine>, j: nat, k: nat, cents: int)
    requires j < |none| && k < |none| && j != k
    requires none[j] == Priced(0, false) && none[k] == Priced(0, true)
    requires OrderNet(none) == 0 == TaxableNet(none)
    requires one == none[j := Priced(21, false)]
    ensures OrderNet(one[k := Priced(cents, true)]) == 21 + cents
    ensures TaxableNet(one[k := Priced(cents, true)]) == 21
  {
    RepriceFreeLine(none, j, 21, false);
    RepriceFreeLine(one, k, cents, true);
  }

  lemma FreeOrderNet(exempt: seq<bool>)
    ensures OrderNet(FreeOrder(exempt)) == 0 == TaxableNet(FreeOrder(exempt))
  {
    FreeNet(FreeOrder(exempt));
  }

  lemma MixedNet(lines: seq<OrderLine>, exempt: seq<bool>, taxable: nat, free: nat, cents: int)
    requires Mixed(lines, exempt, taxable, free, cents)
    ensures OrderNet(lines) == 21 + cents && TaxableNet(lines) == 21
  {
    FreeOrderNet(exempt);
    var none := FreeOrder(exempt);
    var one := none[taxable := Priced(21, false)];
    assert lines == one[free := Priced(cents, true)];
    RepriceTwo(none, one, taxable, free, cents);
  }

  lemma PricedIsWellPriced(cents: nat, exempt: bool)
    ensures WellPriced(Priced(cents, exempt))
    ensures Priced(cents, exempt).EffectiveUnitPrice() == cents as real
  {
  }

  lemma MixedLine(lines: seq<OrderLine>, exempt: seq<bool>, taxable: nat, free: nat, k: nat)
    requires Mixed(lines, exempt, taxable, free, 1) && k < |lines|
    ensures lines[k].taxExempt == exempt[k] && WellPriced(lines[k])
  {
    if k == free {
      PricedIsWellPriced(1, true);
    } else if k == taxable {
      PricedIsWellPriced(21, false);
    } else {
      assert lines[k] == FreeOrder(exempt)[k];
      PricedIsWellPriced(0, exempt[k]);
    }
  }

  lemma MixedScenario(lines: seq<OrderLine>, exempt: seq<bool>, taxable: nat, free: nat)
    requires Mixed(lines, exempt, taxable, free, 1)
    ensures Scenario(lines, exempt, free, Priced(2, true), HALF_OFF_14_VAT, 50.0)
  {
    forall k | 0 <= k < |lines| ensures WellPriced(lines[k]) && lines[k].taxExempt == exempt[k] {
      MixedLine(lines, exempt, taxable, free, k);
    }
    RaiseByOne();
    assert lines[free] == Priced(1, true);
  }

  lemma RaiseByOne()
    ensures Raises(Priced(1, true), Priced(2, true))
  {
    PricedIsWellPriced(2, true);
    PricedIsWellPriced(1, true);
  }

  lemma MixedRaised(lines: seq<OrderLine>, exempt: seq<bool>, taxable: nat, free: nat)
    requires Mixed(lines, exempt, taxable, free, 1)
    ensures Mixed(lines[free := Priced(2, true)], exempt, taxable, free, 2)
  {
  }

  const HALF_OFF_14_VAT := TaxRules(14.0, true, false, 0.0, false, 0.0)

  lemma MixedOrderTax(lines: seq<OrderLine>, cents: int)
    requires cents == 1 || cents == 2
    requires OrderNet(lines) == 21 + cents && TaxableNet(lines) == 21
    ensures AfterDiscount(lines, 50.0) == 11
    ensures Tax(lines, HALF_OFF_14_VAT, 50.0) == 3 - cents
    ensures ComputeOrder(lines, HALF_OFF_14_VAT, 50.0).grandTotal == 14 - cents
  {
    NearestIsHalfUp(PercentOf(21 + cents, 50.0), 10 + cents);
    assert AfterDiscount(lines, 50.0) == 11;
    NearestIsHalfUp(PercentOf(11, 0.0), 0);
    var ratio := TaxableRatio(21, 21 + cents);
    if cents == 1 {
      assert ratio == 21.0 / 22.0;
      NearestIsHalfUp(Product(11.0, ratio), 11);
      NearestIsHalfUp(PercentOf(11, 14.0), 2);
    } else {
      assert ratio == 21.0 / 23.0;
      NearestIsHalfUp(Product(11.0, ratio), 10);
      NearestIsHalfUp(PercentOf(10, 14.0), 1);
    }
    HalfUpOfInt(14 - cents);
  }

  /** An exempt line beside a taxable one: raising it by one cent drops the total by one. */
  lemma MixedOrderFalls(exempt: seq<bool>, taxable: nat, free: nat) returns (lines: seq<OrderLine>)
    requires taxable < |exempt| && free < |exempt| && !exempt[taxable] && exempt[free]
    ensures Scenario(lines, exempt, free, Priced(2, true), HALF_OFF_14_VAT, 50.0)
    ensures ComputeOrder(lines, HALF_OFF_14_VAT, 50.0).grandTotal == 13
    ensures ComputeOrder(lines[free := Priced(2, true)], HALF_OFF_14_VAT, 50.0).grandTotal == 12
  {
    lines := FreeOrder(exempt)[taxable := Priced(21, false)][free := Priced(1, true)];
    MixedScenario(lines, exempt, taxable, free);
    MixedRaised(lines, exempt, taxable, free);
    MixedNet(lines, exempt, taxable, free, 1);
    MixedNet(lines[free := Priced(2, true)], exempt, taxable, free, 2);
    MixedOrderTax(lines, 1);
    MixedOrderTax(lines[free := Priced(2, true)], 2);
  }

  /** Totals are monotone in line i for every amount and rate if and only if
      line i is taxable or the order has no taxable line at all. */
  lemma MonotoneExactly(exempt: seq<bool>, i: nat)
    requires i < |exempt|
    ensures MonotoneAt(exempt, i) <==> !exempt[i] || forall j :: 0 <= j < |exempt| ==> exempt[j]
  {
    if !exempt[i] || forall j :: 0 <= j < |exempt| ==> exempt[j] {
      forall lines, raised, rules, discount | Scenario(lines, exempt, i, raised, rules, discount)
        ensures NotLowered(ComputeOrder(lines, rules, discount), ComputeOrder(lines[i := raised], rules, discount))
      {
        OrderMonotone(lines, i, raised, rules, discount);
      }
    } else {
      var j :| 0 <= j < |exempt| && !exempt[j];
      var lines := MixedOrderFalls(exempt, j, i);
    }
  }
}
