/** What each stock operation does to levels, costs and the ledger, or why it is refused. */
module StockEffects {
  import opened Wrappers
  import opened Rounding
  import opened StockLedger
  import opened StockProofs

  function StoredQuantity(s: State, item: nat): int {
    if item in s.levels then s.levels[item].onHand else 0
  }

  function StoredCost(s: State, item: nat): int {
    if item in s.levels then s.levels[item].cost else 0
  }

  predicate Fifos(s: State, item: nat) {
    item in s.costing && s.costing[item] == Fifo
  }

  predicate SameElse(s: State, s': State, item: nat) {
    && s'.costing == s.costing && s'.pending == s.pending && s'.counts == s.counts && s'.copies == s.copies
    && s'.levels.Keys == s.levels.Keys + {item}
    && forall other :: other in s.levels && other != item ==> s'.levels[other] == s.levels[other]
  }

  /** A movement, quantized to d, is refused when d is zero, and when it may not go below zero and would; otherwise the
      item's level moves by d, one movement of d is recorded with the new balance, and no other item changes. */
  lemma AppliesExactly(s: State, m: Move, d: int)
    requires IsNearest(m.quantity, d)
    ensures var o := ApplyMovement(s, m);
            if d == 0 then o == Outcome(s, Err(ZeroMovement))
            else if d < 0 && !m.allowNegative && StoredQuantity(s, m.item) + d < 0
            then o == Outcome(s, Err(InsufficientStock(StoredQuantity(s, m.item), -d)))
            else
              && o.result.Ok? && o.result.value.Some?
              && var made := o.result.value.value;
                 && made.item == m.item && made.kind == m.kind && made.delta == d && made.count == m.count
                 && made.balanceAfter == StoredQuantity(s, m.item) + d == StoredQuantity(o.state, m.item)
                 && o.state.ledger == s.ledger + [made] && SameElse(s, o.state, m.item)
  {
    NearestIsHalfUp(m.quantity, d);
  }

  /** The value of the stock and the receipt over their quantity. */
  function BlendedCost(quantity: int, cost: int, incoming: int, incomingCost: int): real
    requires quantity > 0 && incoming > 0
  {
    (quantity * cost + incoming * incomingCost) as real / (quantity + incoming) as real
  }

  /** The stored cost after an accepted movement: the blend of a costed receipt with the stock there was, the
      receipt's own cost under FIFO or without stock, and otherwise what it was. */
  predicate RepricedTo(s: State, item: nat, d: int, incoming: Option<int>, cost: int) {
    if d > 0 && incoming.Some?
    then if Fifos(s, item) || StoredQuantity(s, item) <= 0 then cost == incoming.value
         else IsNearest(BlendedCost(StoredQuantity(s, item), StoredCost(s, item), d, incoming.value), cost)
    else cost == StoredCost(s, item)
  }

  /** The cost recorded on the movement is the one given or, without one, the stored one after it. */
  lemma RepricesExactly(s: State, m: Move, d: int, incoming: Option<int>)
    requires IsNearest(m.quantity, d) && ApplyMovement(s, m).result.Ok?
    requires m.unitCost.Some? <==> incoming.Some?
    requires m.unitCost.Some? ==> IsNearest(m.unitCost.value, incoming.value)
    ensures var o := ApplyMovement(s, m);
            && RepricedTo(s, m.item, d, incoming, StoredCost(o.state, m.item))
            && o.state.ledger[|s.ledger|].unitCost
               == if incoming.Some? then incoming.value else StoredCost(o.state, m.item)
  {
    NearestIsHalfUp(m.quantity, d);
    if incoming.Some? {
      NearestIsHalfUp(m.unitCost.value, incoming.value);
      if d > 0 && StoredQuantity(s, m.item) > 0 {
        AverageIs(StoredQuantity(s, m.item), StoredCost(s, m.item), d, incoming.value);
      }
    }
  }

  lemma AverageIs(quantity: int, cost: int, incoming: int, incomingCost: int)
    requires quantity > 0 && incoming > 0
    ensures IsNearest(BlendedCost(quantity, cost, incoming, incomingCost),
                      WeightedAverage(quantity, cost, incoming, incomingCost, WeightedAvg))
  {
    assert BlendedCost(quantity, cost, incoming, incomingCost)
        == Average(quantity * cost + incoming * incomingCost, quantity + incoming);
  }

  lemma NearestOpposite(x: real, d: int)
    requires IsNearest(x, d)
    ensures IsNearest(-x, -d)
  {
  }

  /** Wasting a positive quantity lowers the level by its nearest thousandth, below zero if need be; any other
      quantity is refused. */
  lemma WasteLowers(s: State, item: nat, quantity: real, d: int)
    requires IsNearest(quantity, d)
    ensures var o := RecordWaste(s, item, quantity);
            if quantity <= 0.0 then o == Outcome(s, Err(InvalidQuantity))
            else if d == 0 then o == Outcome(s, Err(ZeroMovement))
            else
              && o.result.Ok? && StoredQuantity(o.state, item) == StoredQuantity(s, item) - d &&
                   SameElse(s, o.state, item)
              && StoredCost(o.state, item) == StoredCost(s, item)
              && |o.state.ledger| == |s.ledger| + 1 && o.state.ledger[|s.ledger|].kind == Waste
  {
    NearestOpposite(quantity, d);
    AppliesExactly(s, Move(item, -quantity, Waste, None, true, None), -d);
    if quantity > 0.0 && d != 0 {
      RepricesExactly(s, Move(item, -quantity, Waste, None, true, None), -d, None);
    }
  }

  /** An opening balance is a receipt of its nearest thousandth at its cost. */
  lemma OpeningIsReceipt(s: State, item: nat, quantity: real, unitCost: real, d: int)
    requires IsNearest(quantity, d) && d != 0
    ensures var o := ApplyMovement(s, Move(item, HalfUp(quantity) as real, Opening, Some(unitCost), true, None));
            o.result.Ok? && StoredQuantity(o.state, item) == StoredQuantity(s, item) + d && SameElse(s, o.state, item)
  {
    NearestIsHalfUp(quantity, d);
    HalfUpOfInt(d);
    NearestIsHalfUp(d as real, d);
    AppliesExactly(s, Move(item, HalfUp(quantity) as real, Opening, Some(unitCost), true, None), d);
  }

  /** Completing an adjustment records one ADJUSTMENT of the difference it had read, or nothing without one. */
  lemma AdjustmentRecorded(s: State, terminal: nat)
    requires terminal in s.pending
    ensures var p, o := s.pending[terminal], AdjustWrite(s, terminal);
            && o.result.Ok? && terminal !in o.state.pending
            && if p.target == p.read then o.state == s.(pending := s.pending - {terminal})
               else
                 && |o.state.ledger| == |s.ledger| + 1 && s.ledger <= o.state.ledger
                 && var made := o.state.ledger[|s.ledger|];
                    && made.kind == Adjustment && made.item == p.item && made.delta == p.target - p.read
                    && StoredCost(o.state, p.item) == StoredCost(s, p.item)
  {
    var p := s.pending[terminal];
    if p.target != p.read {
      var d := p.target - p.read;
      var m := Move(p.item, d as real, Adjustment, None, true, None);
      HalfUpOfInt(d);
      NearestIsHalfUp(d as real, d);
      AppliesExactly(s.(pending := s.pending - {terminal}), m, d);
      RepricesExactly(s.(pending := s.pending - {terminal}), m, d, None);
    }
  }

  predicate IsCountMovement(m: Movement, count: nat) {
    m.kind == Count && m.count == Some(count) && m.delta != 0
  }

  /** Everything posted is a COUNT movement of that count, one for each line with a variance, in line order. */
  lemma {:induction false} PostedMovements(s: State, count: nat, lines: seq<CountLine>)
    ensures var made := PostLines(s, count, lines).ledger[|s.ledger|..];
            && Moved(made) == Varied(lines)
            && forall m <- made :: IsCountMovement(m, count)
  {
    if lines != [] {
      var init, last := lines[..|lines| - 1], lines[|lines| - 1];
      PostedMovements(s, count, init);
      if last.Variance() != 0 {
        var before := PostLines(s, count, init);
        var m := Move(last.item, last.Variance() as real, Count, None, true, Some(count));
        HalfUpOfInt(last.Variance());
        NearestIsHalfUp(last.Variance() as real, last.Variance());
        AppliesExactly(before, m, last.Variance());
        var made := ApplyMovement(before, m).result.value.value;
        assert PostLines(s, count, lines).ledger[|s.ledger|..] == before.ledger[|s.ledger|..] + [made];
        MovedAppend(before.ledger[|s.ledger|..], made);
      }
    }
  }

  /** Items and deltas of some movements, and items and variances of the lines that have one. */
  function Moved(made: seq<Movement>): seq<(nat, int)> {
    if made == [] then [] else Moved(made[..|made| - 1]) + [(made[|made| - 1].item, made[|made| - 1].delta)]
  }

  function Varied(lines: seq<CountLine>): seq<(nat, int)> {
    if lines == [] then []
    else
      var rest, last := Varied(lines[..|lines| - 1]), lines[|lines| - 1];
      if last.counted.None? || last.counted.value == last.systemQuantity then rest
      else rest + [(last.item, last.counted.value - last.systemQuantity)]
  }

  lemma MovedAppend(made: seq<Movement>, m: Movement)
    ensures Moved(made + [m]) == Moved(made) + [(m.item, m.delta)]
  {
    assert (made + [m])[..|made|] == made;
  }

  /** A terminal's posting is refused exactly when it has loaded nothing, the count is gone or its copy was POSTED;
      a refusal moves no stock and posts nothing. */
  lemma PostsOrRefuses(s: State, terminal: nat)
    ensures var p := PostCopy(s, terminal);
            && (p.result == Err(NotReading) <==> terminal !in s.copies)
            && (p.result == Err(NoSuchCount) <==> terminal in s.copies && s.copies[terminal].count !in s.counts)
            && (p.result == Err(CountAlreadyPosted) <==>
                  terminal in s.copies && s.copies[terminal].count in s.counts && s.copies[terminal].status == Posted)
            && (p.result.Err? ==>
                  p.state.ledger == s.ledger && p.state.levels == s.levels && p.state.counts == s.counts)
            && (p.result.Ok? ==>
                  var id := s.copies[terminal].count;
                  p.state.counts == s.counts[id := StockCount(s.counts[id].lines, Posted)]
                  && p.state.ledger == s.ledger + p.result.value)
  {
  }

  /** A terminal's copy of a count is the stored status as it is then. */
  lemma CopiesExactly(s: State, terminal: nat, count: nat)
    ensures CopyCount(s, terminal, count)
         == if count in s.counts then s.(copies := s.copies[terminal := CountCopy(count,
                                                                                  s.counts[count].status)]) else s
  {
  }
}
