/** Order totals (core/money.py). Amounts are counted in cents: a quantized amount is
    an int, a price, percentage or step that has not been rounded yet is a real. */
module Money {
  import opened Rounding

  datatype TaxRules = TaxRules(
    vatPercent: real,
    vatEnabled: bool,
    vatInclusive: bool,
    servicePercent: real,
    serviceEnabled: bool,
    roundingStep: real)
  {
    function EffectiveVat(): real {
      if vatEnabled then vatPercent else 0.0
    }

    function EffectiveService(): real {
      if serviceEnabled then servicePercent else 0.0
    }
  }

  datatype OrderLine = OrderLine(
    unitPrice: real,
    quantity: real,
    discountPercent: real,
    modifierDeltas: seq<real>,
    taxExempt: bool)
  {
    function EffectiveUnitPrice(): real {
      unitPrice + SumReals(modifierDeltas)
    }

    function Amount(): real {
      EffectiveUnitPrice() * quantity
    }
  }

  datatype LineTotals = LineTotals(gross: int, discount: int, net: int)

  datatype OrderTotals = OrderTotals(
    subtotal: int,
    discountTotal: int,
    serviceTotal: int,
    taxTotal: int,
    grandTotal: int,
    roundingAdjustment: int,
    lines: seq<LineTotals>)

  function SumReals(xs: seq<real>): real {
    if xs == [] then 0.0 else xs[0] + SumReals(xs[1..])
  }

  function QuantizeMoney(value: real): int {
    HalfUp(value)
  }

  /** How many steps make up a value. */
  function Steps(value: real, step: real): int
    requires step > 0.0
  {
    HalfUp(value / step)
  }

  function Multiple(n: int, step: real): real {
    n as real * step
  }

  function PercentOf(amount: int, percent: real): real {
    amount as real * percent / 100.0
  }

  function RoundToStep(value: real, step: real): int {
    if step <= 0.0 then
      QuantizeMoney(value)
    else
      QuantizeMoney(Multiple(Steps(value, step), step))
  }

  function ComputeLine(line: OrderLine): LineTotals {
    var gross := QuantizeMoney(line.Amount());
    var discount := QuantizeMoney(PercentOf(gross, line.discountPercent));
    LineTotals(gross, discount, gross - discount)
  }

  function ComputeLines(lines: seq<OrderLine>): (lts: seq<LineTotals>)
    ensures |lts| == |lines|
    ensures forall i :: 0 <= i < |lines| ==> lts[i] == ComputeLine(lines[i])
  {
    if lines == [] then [] else [ComputeLine(lines[0])] + ComputeLines(lines[1..])
  }

  function SumGross(lts: seq<LineTotals>): int {
    if lts == [] then 0 else lts[0].gross + SumGross(lts[1..])
  }

  function SumDiscount(lts: seq<LineTotals>): int {
    if lts == [] then 0 else lts[0].discount + SumDiscount(lts[1..])
  }

  function SumNet(lts: seq<LineTotals>): int {
    if lts == [] then 0 else lts[0].net + SumNet(lts[1..])
  }

  function SumTaxableNet(lts: seq<LineTotals>, lines: seq<OrderLine>): int
    requires |lts| == |lines|
  {
    if lts == [] then 0
    else (if lines[0].taxExempt then 0 else lts[0].net) + SumTaxableNet(lts[1..], lines[1..])
  }

  function OrderNet(lines: seq<OrderLine>): int {
    SumNet(ComputeLines(lines))
  }

  function OrderDiscount(lines: seq<OrderLine>, discountPercent: real): int {
    QuantizeMoney(PercentOf(OrderNet(lines), discountPercent))
  }

  function AfterDiscount(lines: seq<OrderLine>, discountPercent: real): int {
    OrderNet(lines) - OrderDiscount(lines, discountPercent)
  }

  function TaxableRatio(taxableNet: int, orderNet: int): real {
    if orderNet != 0 then taxableNet as real / orderNet as real else 0.0
  }

  /** The VAT already inside a price that includes it. */
  function ContainedTax(taxableBase: int, vatPercent: real): real
    requires vatPercent > 0.0
  {
    var netOfTax := taxableBase as real / (1.0 + vatPercent / 100.0);
    taxableBase as real - netOfTax
  }

  function TaxOnShare(taxableBase: int, vatPercent: real, inclusive: bool): int
    requires vatPercent > 0.0
  {
    if inclusive then QuantizeMoney(ContainedTax(taxableBase, vatPercent))
    else QuantizeMoney(PercentOf(taxableBase, vatPercent))
  }

  function ComputeTax(base: int, taxableRatio: real, vatPercent: real, inclusive: bool): int {
    if vatPercent <= 0.0 || base <= 0 || taxableRatio <= 0.0 then
      0
    else
      var taxableBase := QuantizeMoney(Product(base as real, taxableRatio));
      TaxOnShare(taxableBase, vatPercent, inclusive)
  }

  function Service(afterDiscount: int, servicePercent: real): int {
    QuantizeMoney(PercentOf(afterDiscount, servicePercent))
  }

  function Tax(lines: seq<OrderLine>, rules: TaxRules, discountPercent: real): int {
    var after := AfterDiscount(lines, discountPercent);
    var ratio := TaxableRatio(SumTaxableNet(ComputeLines(lines), lines), OrderNet(lines));
    ComputeTax(after + Service(after, rules.EffectiveService()), ratio, rules.EffectiveVat(), rules.vatInclusive)
  }

  /** The last part of compute_order: from the rounded parts to the record of totals. */
  function Assemble(lts: seq<LineTotals>, orderDiscount: int, service: int, tax: int, inclusive: bool, step: real)
    : OrderTotals
  {
    var orderNet := SumNet(lts);
    var rawTotal := orderNet - orderDiscount + service + (if inclusive then 0 else tax);
    var grandTotal := RoundToStep(rawTotal as real, step);
    OrderTotals(
      QuantizeMoney(orderNet as real),
      QuantizeMoney((SumDiscount(lts) + orderDiscount) as real),
      service,
      tax,
      grandTotal,
      QuantizeMoney((grandTotal - rawTotal) as real),
      lts)
  }

  function ComputeOrder(lines: seq<OrderLine>, rules: TaxRules, discountPercent: real): OrderTotals {
    Assemble(
      ComputeLines(lines),
      OrderDiscount(lines, discountPercent),
      Service(AfterDiscount(lines, discountPercent), rules.EffectiveService()),
      Tax(lines, rules, discountPercent),
      rules.vatInclusive,
      rules.roundingStep)
  }

  predicate Percentage(p: real) {
    0.0 <= p <= 100.0
  }
}
