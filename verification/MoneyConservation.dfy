/** Nothing is lost between the lines of an order and its grand total. */
module MoneyConservation {
  import opened Rounding
  import opened Money

  predicate WholeCents(x: real) {
    x.Floor as real == x
  }

  lemma {:induction false} GrossSplits(lts: seq<LineTotals>)
    requires forall i :: 0 <= i < |lts| ==> lts[i].net == lts[i].gross - lts[i].discount
    ensures SumNet(lts) == SumGross(lts) - SumDiscount(lts)
  {
    if lts != [] {
      GrossSplits(lts[1..]);
    }
  }

  lemma AssembleConserves(lts: seq<LineTotals>, d: int, service: int, tax: int, inclusive: bool, step: real)
    requires SumNet(lts) == SumGross(lts) - SumDiscount(lts)
    ensures var t := Assemble(lts, d, service, tax, inclusive, step);
            && t.subtotal == SumNet(lts)
            && t.discountTotal == SumDiscount(lts) + d
            && t.grandTotal
               == SumGross(lts) - t.discountTotal + service + (if inclusive then 0 else tax) + t.roundingAdjustment
  {
    var raw := SumNet(lts) - d + service + (if inclusive then 0 else tax);
    HalfUpOfInt(SumNet(lts));
    HalfUpOfInt(SumDiscount(lts) + d);
    HalfUpOfInt(RoundToStep(raw as real, step) - raw);
  }

  /** The total computed is the parts it reports, to the cent. */
  lemma Conservation(lines: seq<OrderLine>, rules: TaxRules, discount: real)
    ensures var t := ComputeOrder(lines, rules, discount);
            SumGross(t.lines) - t.discountTotal + t.serviceTotal
            + (if rules.vatInclusive then 0 else t.taxTotal) + t.roundingAdjustment == t.grandTotal
    ensures var t := ComputeOrder(lines, rules, discount);
            && t.subtotal == SumNet(t.lines)
            && t.discountTotal == SumDiscount(t.lines) + OrderDiscount(lines, discount)
  {
    var lts := ComputeLines(lines);
    GrossSplits(lts);
    AssembleConserves(lts, OrderDiscount(lines, discount),
      Service(AfterDiscount(lines, discount), rules.EffectiveService()), Tax(lines, rules, discount),
      rules.vatInclusive, rules.roundingStep);
  }

  /** round_to_step lands on a multiple of a whole-cent step, and on a nearest one. */
  lemma StepIsNearest(value: real, step: real, k: int)
    requires step > 0.0 && WholeCents(step)
    ensures RoundToStep(value, step) as real == Multiple(Steps(value, step), step)
    ensures AbsReal(RoundToStep(value, step) as real - value) <= step / 2.0
    ensures AbsReal(RoundToStep(value, step) as real - value) <= AbsReal(Multiple(k, step) - value)
  {
    MultipleIsWhole(Steps(value, step), step);
    NearestMultiple(value, step, k);
  }

  lemma MultipleIsWhole(n: int, step: real)
    requires WholeCents(step)
    ensures HalfUp(Multiple(n, step)) as real == Multiple(n, step)
  {
    assert Multiple(n, step) == (n * step.Floor) as real;
    HalfUpOfInt(n * step.Floor);
  }

  lemma NearestMultiple(value: real, step: real, k: int)
    requires step > 0.0
    ensures AbsReal(Multiple(Steps(value, step), step) - value) <= step / 2.0
    ensures AbsReal(Multiple(Steps(value, step), step) - value) <= AbsReal(Multiple(k, step) - value)
  {
    var u := value / step;
    var n := HalfUp(u);
    assert n == Steps(value, step);
    Gap(value, step, u, n);
    Gap(value, step, u, k);
    var e, f := AbsReal(n as real - u), AbsReal(k as real - u);
    assert e <= 0.5 && e <= f by {
      assert k == n || k <= n - 1 || k >= n + 1;
    }
    Scale(e, 0.5, step);
    Scale(e, f, step);
  }

  lemma Gap(value: real, step: real, u: real, n: int)
    requires step > 0.0 && u == value / step
    ensures AbsReal(Multiple(n, step) - value) == Product(AbsReal(n as real - u), step)
  {
    assert u * step == value;
    var e := n as real - u;
    assert e * step == Multiple(n, step) - value;
    if e >= 0.0 { Scale(0.0, e, step); } else { Scale(e, 0.0, step); }
  }

  /** The reported adjustment is what the step did, and never more than half a step;
      without a step there is none. */
  lemma AssembleAdjusts(lts: seq<LineTotals>, d: int, service: int, tax: int, inclusive: bool, step: real)
    requires step > 0.0 ==> WholeCents(step)
    ensures var t := Assemble(lts, d, service, tax, inclusive, step);
            if step > 0.0 then AbsReal(t.roundingAdjustment as real) <= step / 2.0 else t.roundingAdjustment == 0
  {
    var raw := SumNet(lts) - d + service + (if inclusive then 0 else tax);
    HalfUpOfInt(RoundToStep(raw as real, step) - raw);
    if step > 0.0 {
      StepIsNearest(raw as real, step, 0);
    } else {
      HalfUpOfInt(raw);
    }
  }

  lemma AdjustmentBounded(lines: seq<OrderLine>, rules: TaxRules, discount: real)
    requires rules.roundingStep > 0.0 ==> WholeCents(rules.roundingStep)
    ensures var t := ComputeOrder(lines, rules, discount);
            if rules.roundingStep > 0.0
            then AbsReal(t.roundingAdjustment as real) <= rules.roundingStep / 2.0
            else t.roundingAdjustment == 0
  {
    AssembleAdjusts(ComputeLines(lines), OrderDiscount(lines, discount),
      Service(AfterDiscount(lines, discount), rules.EffectiveService()), Tax(lines, rules, discount),
      rules.vatInclusive, rules.roundingStep);
  }
}
