/** What the totals of an order mean, figure by figure, in terms of the lines, the rules and each other. */
module MoneyReceipt {
  import opened Rounding
  import opened Money
  import opened MoneyConservation
  import opened MoneyMonotone
  import opened MoneyError

  function Percent(amount: int, percent: real): real {
    amount as real * percent / 100.0
  }

  function Over(x: int, y: real): real
    requires y != 0.0
  {
    x as real / y
  }

  /** A line's gross is the nearest cent to price with modifiers times quantity, its discount the nearest cent
      to the percentage of that gross, its net what remains. */
  predicate LineReported(line: OrderLine, lt: LineTotals) {
    && IsNearest(Product(line.unitPrice + SumReals(line.modifierDeltas), line.quantity), lt.gross)
    && IsNearest(Percent(lt.gross, line.discountPercent), lt.discount)
    && lt.net == lt.gross - lt.discount
  }

  predicate LinesReported(lines: seq<OrderLine>, lts: seq<LineTotals>) {
    |lts| == |lines| && forall i :: 0 <= i < |lines| ==> LineReported(lines[i], lts[i])
  }

  /** The net of the lines that are not exempt. */
  function TaxableSum(lines: seq<OrderLine>, lts: seq<LineTotals>): int
    requires |lts| == |lines|
  {
    if lines == [] then 0
    else
      var n := |lines| - 1;
      TaxableSum(lines[..n], lts[..n]) + if lines[n].taxExempt then 0 else lts[n].net
  }

  /** VAT on a taxable amount, or contained in it. */
  function VatOf(share: int, vat: real, inclusive: bool): real
    requires vat > 0.0
  {
    if inclusive then share as real - Over(share, 1.0 + vat / 100.0) else Percent(share, vat)
  }

  predicate Untaxed(base: int, taxable: int, net: int, rules: TaxRules) {
    !rules.vatEnabled || rules.vatPercent <= 0.0 || base <= 0 || net == 0 || Over(taxable, net as real) <= 0.0
  }

  ghost predicate SharedTax(tax: int, base: int, ratio: real, vat: real, inclusive: bool)
    requires vat > 0.0
  {
    exists share :: IsNearest(Product(base as real, ratio), share) && IsNearest(VatOf(share, vat, inclusive), tax)
  }

  /** No tax is charged when VAT is off or nothing taxable is left; otherwise it is the nearest cent to the VAT on,
      or contained in, the nearest cent of the base's taxable share. */
  ghost predicate TaxReported(tax: int, base: int, taxable: int, net: int, rules: TaxRules) {
    if Untaxed(base, taxable, net, rules) then tax == 0
    else SharedTax(tax, base, Over(taxable, net as real), rules.vatPercent, rules.vatInclusive)
  }

  /** The figure itself without a step; with one, the nearest cent to the nearest multiple of it. */
  ghost predicate Stepped(raw: int, step: real, total: int) {
    if step <= 0.0 then total == raw
    else exists n :: IsNearest(Over(raw, step), n) && IsNearest(Product(n as real, step), total)
  }

  /** Every figure but the lines, from the figures before it. */
  ghost predicate FiguresReported(net: int, lineDiscounts: int, taxable: int, rules: TaxRules, discount: real,
                                  t: OrderTotals) {
    var orderDiscount := t.discountTotal - lineDiscounts;
    var after := net - orderDiscount;
    var raw := after + t.serviceTotal + if rules.vatInclusive then 0 else t.taxTotal;
    && t.subtotal == net
    && IsNearest(Percent(net, discount), orderDiscount)
    && IsNearest(Percent(after, if rules.serviceEnabled then rules.servicePercent else 0.0), t.serviceTotal)
    && TaxReported(t.taxTotal, after + t.serviceTotal, taxable, net, rules)
    && Stepped(raw, rules.roundingStep, t.grandTotal)
    && t.roundingAdjustment == t.grandTotal - raw
  }

  /** The receipt: every figure of the totals in terms of the lines, the rules and the figures before it. */
  ghost predicate Receipt(lines: seq<OrderLine>, rules: TaxRules, discount: real, t: OrderTotals) {
    && LinesReported(lines, t.lines)
    && FiguresReported(SumNet(t.lines), SumDiscount(t.lines), TaxableSum(lines, t.lines), rules, discount, t)
  }

  // ---- the receipt is what is computed ----

  lemma NearestUnique(x: real, m: int, n: int)
    requires IsNearest(x, m) && IsNearest(x, n)
    ensures m == n
  {
    NearestIsHalfUp(x, m);
    NearestIsHalfUp(x, n);
  }

  lemma NearestPercent(amount: int, percent: real, n: int)
    ensures IsNearest(Percent(amount, percent), n) <==> n == HalfUp(PercentOf(amount, percent))
  {
    assert Percent(amount, percent) == PercentOf(amount, percent);
    NearestIsHalfUp(PercentOf(amount, percent), n);
  }

  lemma AmountIs(line: OrderLine)
    ensures Product(line.unitPrice + SumReals(line.modifierDeltas), line.quantity) == line.Amount()
  {
  }

  lemma LineIsReported(line: OrderLine, lt: LineTotals)
    ensures LineReported(line, lt) <==> lt == ComputeLine(line)
  {
    AmountIs(line);
    NearestIsHalfUp(line.Amount(), lt.gross);
    NearestPercent(lt.gross, line.discountPercent, lt.discount);
  }

  /** Each line of the totals is so reported, in order, and no other list of lines would be. */
  lemma LinesReportedExactly(lines: seq<OrderLine>, rules: TaxRules, discount: real, lts: seq<LineTotals>)
    ensures LinesReported(lines, lts) <==> lts == ComputeOrder(lines, rules, discount).lines
  {
    if LinesReported(lines, lts) {
      forall i | 0 <= i < |lines| ensures lts[i] == ComputeLines(lines)[i] {
        LineIsReported(lines[i], lts[i]);
      }
    } else if lts == ComputeLines(lines) {
      forall i | 0 <= i < |lines| ensures LineReported(lines[i], lts[i]) {
        LineIsReported(lines[i], lts[i]);
      }
    }
  }

  lemma {:induction false} TaxableSumIs(lines: seq<OrderLine>, lts: seq<LineTotals>)
    requires |lts| == |lines|
    ensures TaxableSum(lines, lts) == SumTaxableNet(lts, lines)
  {
    if lines != [] {
      var n := |lines| - 1;
      TaxableSumIs(lines[..n], lts[..n]);
      SumTaxableSplits(lts, lines, n);
    }
  }

  lemma {:induction false} SumTaxableSplits(lts: seq<LineTotals>, lines: seq<OrderLine>, n: nat)
    requires |lts| == |lines| == n + 1
    ensures SumTaxableNet(lts, lines)
         == SumTaxableNet(lts[..n], lines[..n]) + if lines[n].taxExempt then 0 else lts[n].net
  {
    if n > 0 {
      SumTaxableSplits(lts[1..], lines[1..], n - 1);
      assert lts[1..][..n - 1] == lts[..n][1..] && lines[1..][..n - 1] == lines[..n][1..];
    }
  }

  lemma TaxIsReported(tax: int, base: int, taxable: int, net: int, rules: TaxRules)
    ensures TaxReported(tax, base, taxable, net, rules)
       <==> tax == ComputeTax(base, TaxableRatio(taxable, net), rules.EffectiveVat(), rules.vatInclusive)
  {
    if net != 0 {
      assert Over(taxable, net as real) == TaxableRatio(taxable, net);
    }
    if !Untaxed(base, taxable, net, rules) {
      SharedTaxIs(tax, base, TaxableRatio(taxable, net), rules.vatPercent, rules.vatInclusive);
    }
  }

  lemma SharedTaxIs(tax: int, base: int, ratio: real, vat: real, inclusive: bool)
    requires vat > 0.0
    ensures SharedTax(tax, base, ratio, vat, inclusive)
       <==> tax == TaxOnShare(HalfUp(Product(base as real, ratio)), vat, inclusive)
  {
    var share := HalfUp(Product(base as real, ratio));
    ShareIsReported(tax, share, vat, inclusive);
    if s :| IsNearest(Product(base as real, ratio), s) && IsNearest(VatOf(s, vat, inclusive), tax) {
      NearestUnique(Product(base as real, ratio), s, share);
    }
  }

  lemma ShareIsReported(tax: int, share: int, vat: real, inclusive: bool)
    requires vat > 0.0
    ensures tax == TaxOnShare(share, vat, inclusive) <==> IsNearest(VatOf(share, vat, inclusive), tax)
  {
    if inclusive {
      assert VatOf(share, vat, true) == ContainedTax(share, vat);
      NearestIsHalfUp(ContainedTax(share, vat), tax);
    } else {
      NearestPercent(share, vat, tax);
    }
  }

  lemma StepIsReported(raw: int, step: real, total: int)
    ensures Stepped(raw, step, total) <==> total == RoundToStep(raw as real, step)
  {
    if step <= 0.0 {
      HalfUpOfInt(raw);
    } else {
      MultipleIsReported(raw, step, total, Steps(raw as real, step));
    }
  }

  lemma MultipleIsReported(raw: int, step: real, total: int, n: int)
    requires step > 0.0 && n == Steps(raw as real, step)
    ensures Stepped(raw, step, total) <==> total == HalfUp(Multiple(n, step))
  {
    StepsAre(raw, step);
    assert Product(n as real, step) == Multiple(n, step);
    NearestIsHalfUp(Multiple(n, step), total);
    if m :| IsNearest(Over(raw, step), m) && IsNearest(Product(m as real, step), total) {
      NearestUnique(Over(raw, step), m, n);
    }
  }

  lemma StepsAre(raw: int, step: real)
    requires step > 0.0
    ensures IsNearest(Over(raw, step), Steps(raw as real, step))
  {
    assert Over(raw, step) == raw as real / step;
  }

  /** The totals computed are the receipt, and the only one there is for these lines and rules. */
  lemma {:induction false} ReceiptExactly(lines: seq<OrderLine>, rules: TaxRules, discount: real, t: OrderTotals)
    ensures Receipt(lines, rules, discount, t) <==> t == ComputeOrder(lines, rules, discount)
  {
    LinesReportedExactly(lines, rules, discount, t.lines);
    if t.lines == ComputeLines(lines) {
      TotalsReported(lines, rules, discount, t);
    }
  }

  lemma {:induction false} TotalsReported(lines: seq<OrderLine>, rules: TaxRules, discount: real, t: OrderTotals)
    requires t.lines == ComputeLines(lines) && LinesReported(lines, t.lines)
    ensures Receipt(lines, rules, discount, t) <==> t == ComputeOrder(lines, rules, discount)
  {
    var d := OrderDiscount(lines, discount);
    var service := Service(OrderNet(lines) - d, rules.EffectiveService());
    TaxableSumIs(lines, t.lines);
    FiguresAre(SumNet(t.lines), SumDiscount(t.lines), TaxableSum(lines, t.lines), rules, discount, t);
    AssembleIs(t.lines, d, service, Tax(lines, rules, discount), rules.vatInclusive, rules.roundingStep, t);
  }

  /** The figures of some totals as the pipeline computes them. */
  predicate Figures(net: int, lineDiscounts: int, d: int, service: int, tax: int, inclusive: bool, step: real,
                    t: OrderTotals) {
    var raw := net - d + service + if inclusive then 0 else tax;
    && t.subtotal == net && t.discountTotal == lineDiscounts + d && t.serviceTotal == service && t.taxTotal == tax
    && t.grandTotal == RoundToStep(raw as real, step) && t.roundingAdjustment == t.grandTotal - raw
  }

  lemma {:induction false} AssembleIs(lts: seq<LineTotals>, d: int, service: int, tax: int, inclusive: bool, step: real,
                                      t: OrderTotals)
    requires t.lines == lts
    ensures Figures(SumNet(lts), SumDiscount(lts), d, service, tax, inclusive, step, t)
       <==> t == Assemble(lts, d, service, tax, inclusive, step)
  {
    var raw := SumNet(lts) - d + service + if inclusive then 0 else tax;
    HalfUpOfInt(SumNet(lts));
    HalfUpOfInt(SumDiscount(lts) + d);
    HalfUpOfInt(RoundToStep(raw as real, step) - raw);
  }

  lemma FiguresAre(net: int, lineDiscounts: int, taxable: int, rules: TaxRules, discount: real, t: OrderTotals)
    ensures var d := HalfUp(PercentOf(net, discount));
            var service := Service(net - d, rules.EffectiveService());
            var tax := ComputeTax(net - d + service, TaxableRatio(taxable, net), rules.EffectiveVat(),
                                  rules.vatInclusive);
            && (FiguresReported(net, lineDiscounts, taxable, rules, discount, t)
                <==> Figures(net, lineDiscounts, d, service, tax, rules.vatInclusive, rules.roundingStep, t))
  {
    var orderDiscount := t.discountTotal - lineDiscounts;
    var after := net - orderDiscount;
    var raw := after + t.serviceTotal + if rules.vatInclusive then 0 else t.taxTotal;
    NearestPercent(net, discount, orderDiscount);
    NearestPercent(after, rules.EffectiveService(), t.serviceTotal);
    TaxIsReported(t.taxTotal, after + t.serviceTotal, taxable, net, rules);
    StepIsReported(raw, rules.roundingStep, t.grandTotal);
  }

  // ---- the reported discount against the unrounded one ----

  function ExactLineDiscounts(lines: seq<OrderLine>): real {
    if lines == [] then 0.0
    else Product(lines[0].Amount(), lines[0].discountPercent / 100.0) + ExactLineDiscounts(lines[1..])
  }

  /** A percentage of a figure that is off by e, rounded, is off by at most e and a half. */
  lemma PartWithin(amount: int, exact: real, e: real, percent: real)
    requires Within(amount as real, exact, e) && Percentage(percent)
    ensures Within(HalfUp(PercentOf(amount, percent)) as real, Product(exact, percent / 100.0), e + 0.5)
  {
    var part := percent / 100.0;
    assert Product(amount as real, part) == PercentOf(amount, percent);
    assert Product(amount as real - exact, part) == Product(amount as real, part) - Product(exact, part);
    ShrinkWithin(amount as real - exact, e, part);
  }

  lemma LineDiscountError(line: OrderLine)
    requires Percentage(line.discountPercent)
    ensures Within(ComputeLine(line).discount as real, Product(line.Amount(), line.discountPercent / 100.0), 1.0)
  {
    PartWithin(HalfUp(line.Amount()), line.Amount(), 0.5, line.discountPercent);
  }

  lemma {:induction false} LineDiscountsError(lines: seq<OrderLine>)
    requires SaneDiscounts(lines)
    ensures Within(SumDiscount(ComputeLines(lines)) as real, ExactLineDiscounts(lines), |lines| as real)
  {
    if lines != [] {
      LineDiscountError(lines[0]);
      LineDiscountsError(lines[1..]);
      assert ComputeLines(lines)[1..] == ComputeLines(lines[1..]);
    }
  }

  /** The discount reported on n lines and the order is within 2n + 1/2 cents of the unrounded one. */
  lemma {:induction false} DiscountError(lines: seq<OrderLine>, rules: TaxRules, discount: real)
    requires SaneDiscounts(lines) && Percentage(discount)
    ensures Within(ComputeOrder(lines, rules, discount).discountTotal as real,
                   ExactLineDiscounts(lines) + Product(ExactNet(lines), discount / 100.0), 2.0 * |lines| as real + 0.5)
  {
    NetError(lines);
    PartWithin(OrderNet(lines), ExactNet(lines), |lines| as real, discount);
    LineDiscountsError(lines);
    HalfUpOfInt(SumDiscount(ComputeLines(lines)) + OrderDiscount(lines, discount));
  }
}
