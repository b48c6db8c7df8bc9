/** What a visit costs, from the tariff's own fields and in every mode and rounding. */
module PlayCharges {
  import opened Wrappers
  import opened Rounding
  import opened PlayPricing

  const ROUNDINGS := {"up_to_block", "nearest_block", "exact_minutes"}

  /** The minutes the entry fee buys, whatever the mode calls that field. */
  function Included(t: Tariff): int {
    Max(0, if t.mode.Package? then t.packageMinutes else t.includedMinutes)
  }

  /** The minutes stayed past those. */
  function Past(t: Tariff, minutes: int): int {
    Max(0, Max(0, minutes) - Included(t))
  }

  function Forgiven(t: Tariff, grace: Option<int>): int {
    match grace
    case Some(g) => Max(0, g)
    case None => t.graceMinutes
  }

  /** The overrun is charged for. */
  predicate Due(t: Tariff, minutes: int, grace: Option<int>) {
    !t.mode.OpenDay? && Past(t, minutes) > Forgiven(t, grace) && t.blockMinutes > 0 && t.blockRate > 0.0
  }

  /** A total is charged as it is, or as the nearest cent of a positive cap it exceeds. */
  predicate Settled(total: int, cap: real, p: PlayCharge) {
    if cap > 0.0 && total as real > cap then IsNearest(cap, p.charge) && p.capped
    else p.charge == total && !p.capped
  }

  lemma SettledBy(total: int, cap: real, p: PlayCharge)
    requires p.charge == ApplyCap(total, cap) && p.capped == Capped(total, cap)
    ensures Settled(total, cap, p)
  {
  }

  /** Minutes in blocks, not rounded. */
  function InBlocks(minutes: int, block: int): real
    requires block > 0
  {
    minutes as real / block as real
  }

  lemma InBlocksIs(minutes: int, block: int)
    requires block > 0
    ensures InBlocks(minutes, block) == Units(minutes, block)
  {
  }

  lemma NearestIs(x: real, n: int)
    requires IsNearest(x, n)
    ensures HalfUp(x) == n
  {
    NearestIsHalfUp(x, n);
  }

  /** A rounding mode that is none of the three is refused, and nothing else is. */
  lemma RefusedExactly(t: Tariff, minutes: int, rounding: string, grace: Option<int>)
    ensures ComputeCharge(t, minutes, rounding, grace).Err? <==> rounding !in ROUNDINGS
    ensures rounding in ROUNDINGS ==>
              var p := ComputeCharge(t, minutes, rounding, grace).value;
              p.elapsedMinutes == Max(0, minutes) && p.overrunMinutes == if t.mode.OpenDay? then 0 else Past(t, minutes)
  {
  }

  /** A day ticket costs the nearest cent of its fee, however long the stay and whatever the cap. */
  lemma OpenDayCosts(t: Tariff, minutes: int, rounding: string, grace: Option<int>)
    requires t.mode.OpenDay? && rounding in ROUNDINGS
    ensures var p := ComputeCharge(t, minutes, rounding, grace).value;
            IsNearest(t.entryFee, p.charge) && !p.capped && p.blocks == 0 && p.billableMinutes == Max(0, minutes)
  {
  }

  /** A metered stay whose overrun is forgiven, or has no price, costs the nearest cent of the entry fee. */
  lemma EntryFeeCharged(t: Tariff, minutes: int, rounding: string, grace: Option<int>, fee: int)
    requires !t.mode.OpenDay? && rounding in ROUNDINGS && !Due(t, minutes, grace) && IsNearest(t.entryFee, fee)
    ensures var p := ComputeCharge(t, minutes, rounding, grace).value;
            Settled(fee, t.dailyCap, p) && p.blocks == 0 && p.billableMinutes == Max(0, minutes)
  {
    NearestIs(t.entryFee, fee);
    assert t.entryFee + 0 as real == t.entryFee;
    SettledBy(fee, t.dailyCap, ComputeCharge(t, minutes, rounding, grace).value);
  }

  /** The least number of blocks, at least one, that reaches the minutes past. */
  predicate IsLeastBlocks(k: int, block: int, past: int) {
    k >= 1 && k * block >= past && (k == 1 || (k - 1) * block < past)
  }

  lemma LeastBlocks(k: int, block: int, past: int)
    requires block > 0 && past >= 0 && IsLeastBlocks(k, block, past)
    ensures Blocks(past, block, UpToBlock) == k
  {
    var n := Ceiling(Units(past, block));
    CeilingDivides(past, block, k);
    CeilingDivides(past, block, k - 1);
  }

  /** The cost of k blocks, rounded, and of the visit with them, rounded again. */
  predicate IsVisitTotal(t: Tariff, units: real, extra: int, total: int) {
    IsNearest(Product(units, t.blockRate), extra) && IsNearest(t.entryFee + extra as real, total)
  }

  lemma DuePrice(t: Tariff, minutes: int, rounding: string, grace: Option<int>)
    requires Due(t, minutes, grace) && rounding in ROUNDINGS
    ensures var p := ComputeCharge(t, minutes, rounding, grace).value;
            var mode := ParseRounding(rounding).value;
            var total := HalfUp(t.entryFee + Extra(Past(t, minutes), t.blockMinutes, t.blockRate, mode) as real);
            && Settled(total, t.dailyCap, p)
            && p.blocks == Blocks(Past(t, minutes), t.blockMinutes, mode)
            && p.billableMinutes
               == (if mode.ExactMinutes? then Max(0, minutes) else Included(t) + p.blocks * t.blockMinutes)
  {
    var mode := ParseRounding(rounding).value;
    var total := HalfUp(t.entryFee + Extra(Past(t, minutes), t.blockMinutes, t.blockRate, mode) as real);
    SettledBy(total, t.dailyCap, ComputeCharge(t, minutes, rounding, grace).value);
  }

  /** Rounded up, an overrun costs its entry fee and the least number of blocks that reaches it. */
  lemma UpToBlockCosts(t: Tariff, minutes: int, grace: Option<int>, k: int, extra: int, total: int)
    requires Due(t, minutes, grace) && IsLeastBlocks(k, t.blockMinutes, Past(t, minutes))
    requires IsVisitTotal(t, k as real, extra, total)
    ensures var p := ComputeCharge(t, minutes, "up_to_block", grace).value;
            && Settled(total, t.dailyCap, p) && p.blocks == k
            && p.billableMinutes == Included(t) + k * t.blockMinutes
  {
    DuePrice(t, minutes, "up_to_block", grace);
    LeastBlocks(k, t.blockMinutes, Past(t, minutes));
    NearestIs(Product(k as real, t.blockRate), extra);
    NearestIs(t.entryFee + extra as real, total);
  }

  /** With a fee and a rate in whole cents that is the fee and k times the rate, to the cent. */
  lemma UpToBlockCostsExactly(t: Tariff, minutes: int, grace: Option<int>, k: int, fee: int, rate: int)
    requires Due(t, minutes, grace) && IsLeastBlocks(k, t.blockMinutes, Past(t, minutes))
    requires t.entryFee == fee as real && t.blockRate == rate as real
    ensures Settled(fee + k * rate, t.dailyCap, ComputeCharge(t, minutes, "up_to_block", grace).value)
  {
    assert Product(k as real, t.blockRate) == (k * rate) as real;
    NearestIsHalfUp((k * rate) as real, k * rate);
    HalfUpOfInt(k * rate);
    HalfUpOfInt(fee + k * rate);
    assert t.entryFee + (k * rate) as real == (fee + k * rate) as real;
    NearestIsHalfUp((fee + k * rate) as real, fee + k * rate);
    UpToBlockCosts(t, minutes, grace, k, k * rate, fee + k * rate);
  }

  /** To the nearest block it is the whole blocks nearest to the overrun, but at least one. */
  lemma NearestBlockCosts(t: Tariff, minutes: int, grace: Option<int>, m: int, extra: int, total: int)
    requires Due(t, minutes, grace) && IsNearest(InBlocks(Past(t, minutes), t.blockMinutes), m)
    requires IsVisitTotal(t, Max(1, m) as real, extra, total)
    ensures var p := ComputeCharge(t, minutes, "nearest_block", grace).value;
            && Settled(total, t.dailyCap, p) && p.blocks == Max(1, m)
            && p.billableMinutes == Included(t) + p.blocks * t.blockMinutes
  {
    DuePrice(t, minutes, "nearest_block", grace);
    InBlocksIs(Past(t, minutes), t.blockMinutes);
    NearestIs(InBlocks(Past(t, minutes), t.blockMinutes), m);
    NearestIs(Product(Max(1, m) as real, t.blockRate), extra);
    NearestIs(t.entryFee + extra as real, total);
  }

  /** To the minute it is the overrun's share of a block. */
  lemma ExactMinutesCosts(t: Tariff, minutes: int, grace: Option<int>, extra: int, total: int)
    requires Due(t, minutes, grace)
    requires IsVisitTotal(t, InBlocks(Past(t, minutes), t.blockMinutes), extra, total)
    ensures var p := ComputeCharge(t, minutes, "exact_minutes", grace).value;
            Settled(total, t.dailyCap, p) && p.blocks == 0 && p.billableMinutes == Max(0, minutes)
  {
    DuePrice(t, minutes, "exact_minutes", grace);
    InBlocksIs(Past(t, minutes), t.blockMinutes);
    NearestIs(Product(InBlocks(Past(t, minutes), t.blockMinutes), t.blockRate), extra);
    NearestIs(t.entryFee + extra as real, total);
  }

  // ---- against the unrounded price of the overrun ----

  predicate Near(x: real, y: real, e: real) {
    -e <= x - y <= e
  }

  function ExactCost(t: Tariff, minutes: int): real
    requires t.blockMinutes > 0
  {
    t.entryFee + Product(InBlocks(Past(t, minutes), t.blockMinutes), t.blockRate)
  }

  /** To the minute the total is within a cent of the entry fee and the overrun at the block's rate. */
  lemma ExactMinutesError(t: Tariff, minutes: int, extra: int, total: int)
    requires t.blockMinutes > 0 && IsVisitTotal(t, InBlocks(Past(t, minutes), t.blockMinutes), extra, total)
    ensures Near(total as real, ExactCost(t, minutes), 1.0)
  {
  }

  /** To the nearest block it is within half a block's rate and a cent of it, unless the floor of one block binds;
      then it is above by less than the rate and a cent. */
  lemma NearestBlockError(t: Tariff, minutes: int, grace: Option<int>, m: int, extra: int, total: int)
    requires Due(t, minutes, grace) && IsNearest(InBlocks(Past(t, minutes), t.blockMinutes), m)
    requires IsVisitTotal(t, Max(1, m) as real, extra, total)
    ensures m >= 1 ==> Near(total as real, ExactCost(t, minutes), t.blockRate / 2.0 + 1.0)
    ensures m < 1 ==> -1.0 <= total as real - ExactCost(t, minutes) <= t.blockRate + 1.0
  {
    var u, k := InBlocks(Past(t, minutes), t.blockMinutes), Max(1, m) as real;
    InBlocksIs(Past(t, minutes), t.blockMinutes);
    UnitsGrow(0, Past(t, minutes), t.blockMinutes);
    assert Product(k - u, t.blockRate) == Product(k, t.blockRate) - Product(u, t.blockRate);
    if m >= 1 {
      Scale(-0.5, k - u, t.blockRate);
      Scale(k - u, 0.5, t.blockRate);
    } else {
      Scale(0.0, k - u, t.blockRate);
      Scale(k - u, 1.0, t.blockRate);
    }
  }

  // ---- when a visit is due to end ----

  /** A visit is due at the first instant at which the minutes its fee buys have passed; a day ticket and a tariff
      that buys none are never due. */
  lemma DueWhenCovered(t: Tariff, start: int, before: int)
    ensures ExpectedEnd(t, start).None? <==> t.mode.OpenDay? || Included(t) == 0
    ensures ExpectedEnd(t, start).Some? ==>
              && ElapsedMinutes(start, ExpectedEnd(t, start).value) == Included(t)
              && (before < ExpectedEnd(t, start).value ==> ElapsedMinutes(start, before) < Included(t))
  {
  }
}
