/** What a child's visit costs (core/play_pricing.py). Fees and rates are in cents, not yet
    rounded; a charge is a whole number of cents. Instants count microseconds. */
module PlayPricing {
  import opened Wrappers
  import opened Rounding

  datatype Mode = Timed | Package | OpenDay

  datatype RoundingMode = UpToBlock | NearestBlock | ExactMinutes

  datatype Tariff = Tariff(
    mode: Mode,
    entryFee: real,
    includedMinutes: int,
    packageMinutes: int,
    blockMinutes: int,
    blockRate: real,
    graceMinutes: int,
    dailyCap: real)
  {
    function CoveredMinutes(): int {
      match mode
      case Package => packageMinutes
      case OpenDay => 0
      case Timed => includedMinutes
    }
  }

  datatype PlayCharge = PlayCharge(
    charge: int,
    billableMinutes: int,
    elapsedMinutes: int,
    overrunMinutes: int,
    blocks: int,
    capped: bool)

  datatype PricingError = UnknownRounding(name: string)

  const MICROSECONDS_PER_MINUTE := 60_000_000

  function Max(a: int, b: int): int {
    if a >= b then a else b
  }

  function Min(a: int, b: int): int {
    if a <= b then a else b
  }

  function ElapsedMinutes(start: int, end: int): (minutes: int)
    ensures minutes >= 0
    ensures end >= start ==> minutes * MICROSECONDS_PER_MINUTE <= end - start < (minutes + 1) * MICROSECONDS_PER_MINUTE
    ensures end < start ==> minutes == 0
  {
    Max(0, (end - start) / MICROSECONDS_PER_MINUTE)
  }

  function ParseRounding(name: string): Option<RoundingMode> {
    if name == "up_to_block" then Some(UpToBlock)
    else if name == "nearest_block" then Some(NearestBlock)
    else if name == "exact_minutes" then Some(ExactMinutes)
    else None
  }

  function Grace(tariff: Tariff, graceMinutes: Option<int>): int {
    match graceMinutes
    case None => tariff.graceMinutes
    case Some(g) => Max(0, g)
  }

  function Covered(tariff: Tariff): int {
    Max(0, tariff.CoveredMinutes())
  }

  function Overrun(tariff: Tariff, minutes: int): int {
    Max(0, minutes - Covered(tariff))
  }

  /** Whether any overrun is charged for. */
  predicate Charged(tariff: Tariff, minutes: int, grace: int) {
    Overrun(tariff, minutes) > grace && tariff.blockMinutes > 0 && tariff.blockRate > 0.0
  }

  function Units(overrun: int, blockMinutes: int): real
    requires blockMinutes > 0
  {
    overrun as real / blockMinutes as real
  }

  function Blocks(overrun: int, blockMinutes: int, rounding: RoundingMode): int
    requires blockMinutes > 0
  {
    var units := Units(overrun, blockMinutes);
    match rounding
    case ExactMinutes => 0
    case UpToBlock => Max(1, Ceiling(units))
    case NearestBlock => Max(1, HalfUp(units))
  }

  function Extra(overrun: int, blockMinutes: int, blockRate: real, rounding: RoundingMode): int
    requires blockMinutes > 0
  {
    match rounding
    case ExactMinutes => HalfUp(Product(Units(overrun, blockMinutes), blockRate))
    case _ => HalfUp(Product(Blocks(overrun, blockMinutes, rounding) as real, blockRate))
  }

  function Capped(charge: int, dailyCap: real): bool {
    dailyCap > 0.0 && charge as real > dailyCap
  }

  function ApplyCap(charge: int, dailyCap: real): int {
    if Capped(charge, dailyCap) then HalfUp(dailyCap) else charge
  }

  function Price(tariff: Tariff, minutes: nat, rounding: RoundingMode, grace: int): PlayCharge {
    if tariff.mode.OpenDay? then
      PlayCharge(HalfUp(tariff.entryFee), minutes, minutes, 0, 0, false)
    else
      var covered := Covered(tariff);
      var overrun := Overrun(tariff, minutes);
      var charged := Charged(tariff, minutes, grace);
      var blocks := if charged then Blocks(overrun, tariff.blockMinutes, rounding) else 0;
      var extra := if charged then Extra(overrun, tariff.blockMinutes, tariff.blockRate, rounding) else 0;
      var billable :=
        if charged then (if rounding.ExactMinutes? then minutes else covered + blocks * tariff.blockMinutes)
        else if overrun > 0 then minutes
        else Min(minutes, covered);
      var charge := HalfUp(tariff.entryFee + extra as real);
      PlayCharge(ApplyCap(charge, tariff.dailyCap), billable, minutes, overrun, blocks, Capped(charge, tariff.dailyCap))
  }

  function ComputeCharge(tariff: Tariff, minutes: int, rounding: string, graceMinutes: Option<int>)
    : Result<PlayCharge, PricingError>
  {
    match ParseRounding(rounding)
    case None => Err(UnknownRounding(rounding))
    case Some(mode) => Ok(Price(tariff, Max(0, minutes), mode, Grace(tariff, graceMinutes)))
  }

  function ExpectedEnd(tariff: Tariff, start: int): Option<int> {
    var covered := tariff.CoveredMinutes();
    if tariff.mode.OpenDay? || covered <= 0 then None
    else Some(start + covered * MICROSECONDS_PER_MINUTE)
  }

  // ---- the charge over time ----

  lemma UnitsGrow(o: int, o': int, block: int)
    requires o <= o' && block > 0
    ensures Units(o, block) <= Units(o', block)
    ensures o >= 0 ==> Units(o, block) >= 0.0
  {
  }

  lemma BlocksGrow(o: int, o': int, block: int, rounding: RoundingMode)
    requires 0 <= o <= o' && block > 0
    ensures 0 <= Blocks(o, block, rounding) <= Blocks(o', block, rounding)
  {
    UnitsGrow(o, o', block);
    HalfUpMonotone(Units(o, block), Units(o', block));
  }

  lemma ScaledMonotone(k: real, k': real, rate: real)
    requires 0.0 <= k <= k' && rate > 0.0
    ensures 0 <= HalfUp(Product(k, rate)) <= HalfUp(Product(k', rate))
  {
    Scale(k, k', rate);
    Scale(0.0, k, rate);
    HalfUpSign(Product(k, rate));
    HalfUpMonotone(Product(k, rate), Product(k', rate));
  }

  lemma ExtraMonotone(o: int, o': int, block: int, rate: real, rounding: RoundingMode)
    requires 0 <= o <= o' && block > 0 && rate > 0.0
    ensures 0 <= Extra(o, block, rate, rounding) <= Extra(o', block, rate, rounding)
  {
    if rounding.ExactMinutes? {
      UnitsGrow(o, o', block);
      ScaledMonotone(Units(o, block), Units(o', block), rate);
    } else {
      BlocksGrow(o, o', block, rounding);
      ScaledMonotone(Blocks(o, block, rounding) as real, Blocks(o', block, rounding) as real, rate);
    }
  }

  lemma CapMonotone(charge: int, charge': int, cap: real)
    requires charge <= charge'
    ensures ApplyCap(charge, cap) <= ApplyCap(charge', cap)
    ensures cap > 0.0 ==> ApplyCap(charge', cap) <= HalfUp(cap)
  {
    HalfUpOfInt(charge);
    HalfUpOfInt(charge');
    if charge as real <= cap { HalfUpMonotone(charge as real, cap); }
    if charge' as real <= cap { HalfUpMonotone(charge' as real, cap); }
  }

  /** Staying longer never costs less, in every rounding mode and with any grace. */
  lemma ChargeMonotone(tariff: Tariff, minutes: nat, minutes': nat, rounding: RoundingMode, grace: int)
    requires minutes <= minutes'
    ensures Price(tariff, minutes, rounding, grace).charge <= Price(tariff, minutes', rounding, grace).charge
  {
    if !tariff.mode.OpenDay? {
      var o, o' := Overrun(tariff, minutes), Overrun(tariff, minutes');
      if tariff.blockMinutes > 0 && tariff.blockRate > 0.0 {
        ExtraMonotone(o, o', tariff.blockMinutes, tariff.blockRate, rounding);
      }
      FeeMonotone(tariff.entryFee,
        if Charged(tariff, minutes, grace) then Extra(o, tariff.blockMinutes, tariff.blockRate, rounding) else 0,
        if Charged(tariff, minutes', grace) then Extra(o', tariff.blockMinutes, tariff.blockRate, rounding) else 0,
        tariff.dailyCap);
    }
  }

  lemma FeeMonotone(fee: real, extra: int, extra': int, cap: real)
    requires extra <= extra'
    ensures ApplyCap(HalfUp(fee + extra as real), cap) <= ApplyCap(HalfUp(fee + extra' as real), cap)
  {
    HalfUpMonotone(fee + extra as real, fee + extra' as real);
    CapMonotone(HalfUp(fee + extra as real), HalfUp(fee + extra' as real), cap);
  }

  /** A positive cap, in whole cents as stored, bounds every metered visit. */
  lemma CapBounds(tariff: Tariff, minutes: nat, rounding: RoundingMode, grace: int)
    requires !tariff.mode.OpenDay? && tariff.dailyCap > 0.0
    ensures Price(tariff, minutes, rounding, grace).charge <= HalfUp(tariff.dailyCap)
    ensures tariff.dailyCap.Floor as real == tariff.dailyCap ==>
              Price(tariff, minutes, rounding, grace).charge as real <= tariff.dailyCap
  {
    var p := Price(tariff, minutes, rounding, grace);
    var extra := if Charged(tariff, minutes, grace)
      then Extra(Overrun(tariff, minutes), tariff.blockMinutes, tariff.blockRate, rounding) else 0;
    var charge := HalfUp(tariff.entryFee + extra as real);
    assert p.charge == ApplyCap(charge, tariff.dailyCap);
    CapMonotone(charge, charge, tariff.dailyCap);
    HalfUpOfInt(tariff.dailyCap.Floor);
  }

  lemma CeilingDivides(overrun: int, block: int, k: int)
    requires block > 0
    ensures k >= Ceiling(Units(overrun, block)) <==> k * block >= overrun
  {
    var u, b := Units(overrun, block), block as real;
    assert overrun as real == Product(u, b);
    assert (k * block) as real == Product(k as real, b);
    if k >= Ceiling(u) {
      Scale(u, k as real, b);
    } else {
      assert k as real + 1.0 <= Ceiling(u) as real < u + 1.0;
      StrictScale(k as real, u, b);
    }
  }

  lemma StrictScale(x: real, y: real, s: real)
    requires x < y && s > 0.0
    ensures Product(x, s) < Product(y, s)
  {
    assert (y - x) * s > 0.0;
  }

  /** Rounding up charges the least number of blocks that reaches the minutes stayed. */
  lemma UpToBlockIsLeast(tariff: Tariff, minutes: nat, grace: nat, k: int)
    requires !tariff.mode.OpenDay? && Charged(tariff, minutes, grace)
    ensures var p := Price(tariff, minutes, UpToBlock, grace);
            && (k >= p.blocks <==> Covered(tariff) + k * tariff.blockMinutes >= minutes)
            && minutes <= p.billableMinutes < minutes + tariff.blockMinutes
            && p.billableMinutes == Covered(tariff) + p.blocks * tariff.blockMinutes
  {
    var o, b := Overrun(tariff, minutes), tariff.blockMinutes;
    var n := Ceiling(Units(o, b));
    CeilingDivides(o, b, 0);
    CeilingDivides(o, b, k);
    CeilingDivides(o, b, n);
    CeilingDivides(o, b, n - 1);
  }

  lemma ExtraAtMostUp(overrun: int, block: int, rate: real, rounding: RoundingMode)
    requires overrun > 0 && block > 0 && rate > 0.0
    ensures Extra(overrun, block, rate, rounding) <= Extra(overrun, block, rate, UpToBlock)
  {
    var u := Units(overrun, block);
    var n := Blocks(overrun, block, UpToBlock);
    HalfUpOfInt(Ceiling(u));
    HalfUpMonotone(u, Ceiling(u) as real);
    var k := if rounding.ExactMinutes? then u else Blocks(overrun, block, rounding) as real;
    assert k <= n as real;
    Scale(k, n as real, rate);
    HalfUpMonotone(Product(k, rate), Product(n as real, rate));
  }

  /** Rounding up is the dearest mode. */
  lemma UpToBlockIsDearest(tariff: Tariff, minutes: nat, rounding: RoundingMode, grace: nat)
    ensures Price(tariff, minutes, rounding, grace).charge <= Price(tariff, minutes, UpToBlock, grace).charge
  {
    if !tariff.mode.OpenDay? && Charged(tariff, minutes, grace) {
      var o := Overrun(tariff, minutes);
      ExtraAtMostUp(o, tariff.blockMinutes, tariff.blockRate, rounding);
      FeeMonotone(tariff.entryFee, Extra(o, tariff.blockMinutes, tariff.blockRate, rounding),
        Extra(o, tariff.blockMinutes, tariff.blockRate, UpToBlock), tariff.dailyCap);
    }
  }

  /** Nearest-block bills the stay to within half a block, except that the first block is never waived. */
  lemma NearestBlockBills(tariff: Tariff, minutes: nat, grace: nat)
    requires !tariff.mode.OpenDay? && Charged(tariff, minutes, grace)
    ensures var p := Price(tariff, minutes, NearestBlock, grace);
            if 2 * p.overrunMinutes >= tariff.blockMinutes
            then -tariff.blockMinutes < 2 * (p.billableMinutes - minutes) <= tariff.blockMinutes
            else p.blocks == 1 && p.billableMinutes == Covered(tariff) + tariff.blockMinutes
  {
    var o, b := Overrun(tariff, minutes), tariff.blockMinutes;
    HalfUnit(o, b, HalfUp(Units(o, b)));
  }

  lemma HalfUnit(o: int, b: int, n: int)
    requires o >= 0 && b > 0 && n == HalfUp(Units(o, b))
    ensures n >= 1 <==> 2 * o >= b
    ensures -b < 2 * (n * b - o) <= b
  {
    var u, c := Units(o, b), b as real;
    UnitsGrow(0, o, b);
    assert o as real == Product(u, c);
    assert (n * b) as real == Product(n as real, c);
    StrictScale(-0.5, n as real - u, c);
    Scale(n as real - u, 0.5, c);
    assert Product(n as real - u, c) == (n * b - o) as real;
    if u < 0.5 { StrictScale(u, 0.5, c); } else { Scale(0.5, u, c); }
  }
}
