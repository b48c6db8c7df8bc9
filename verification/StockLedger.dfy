/** The stock ledger (inventory/services.py). A quantity counts thousandths, a unit cost counts
    ten-thousandths; both are ints once quantized and reals before.

    A movement holds the lock on its level row and is one step. An adjustment reads the level before it
    takes that lock, and a posting judges the status of a count loaded without any; each is two steps. */
module StockLedger {
  import opened Wrappers
  import opened Rounding

  datatype Costing = WeightedAvg | Fifo

  datatype MovementType = Opening | Purchase | Sale | Waste | Adjustment | Return | Transfer | Count

  datatype Level = Level(onHand: int, cost: int)

  /** `count` names the count a movement was posted for. */
  datatype Movement = Movement(
    item: nat,
    kind: MovementType,
    delta: int,
    unitCost: int,
    balanceAfter: int,
    count: Option<nat>)

  datatype CountStatus = Draft | Counting | Review | Posted | Cancelled

  datatype CountLine = CountLine(item: nat, systemQuantity: int, counted: Option<int>)
  {
    function Variance(): int {
      if counted.Some? then counted.value - systemQuantity else 0
    }
  }

  datatype StockCount = StockCount(lines: seq<CountLine>, status: CountStatus)

  /** A count's status as a request to post it has loaded it. */
  datatype CountCopy = CountCopy(count: nat, status: CountStatus)

  /** What adjust has computed from a level it read without the row lock. */
  datatype Pending = Pending(item: nat, target: int, read: int)

  datatype State = State(
    costing: map<nat, Costing>,
    levels: map<nat, Level>,
    ledger: seq<Movement>,
    pending: map<nat, Pending>,
    counts: map<nat, StockCount>,
    copies: map<nat, CountCopy>)

  datatype Error =
    | ZeroMovement | InsufficientStock(available: int, requested: int) | InvalidQuantity
    | NotReading | NoSuchCount | CountAlreadyPosted

  datatype Move = Move(
    item: nat,
    quantity: real,
    kind: MovementType,
    unitCost: Option<real>,
    allowNegative: bool,
    count: Option<nat>)

  /** A movement that does not come from a count. */
  type PlainMove = m: Move | m.count.None? witness Move(0, 0.0, Sale, None, true, None)

  datatype Outcome = Outcome(state: State, result: Result<Option<Movement>, Error>)

  const NEW_LEVEL := Level(0, 0)

  function LevelOf(levels: map<nat, Level>, item: nat): Level {
    if item in levels then levels[item] else NEW_LEVEL
  }

  function CostingOf(costing: map<nat, Costing>, item: nat): Costing {
    if item in costing then costing[item] else WeightedAvg
  }

  /** New average cost after a receipt; the incoming cost takes over from an empty or negative stock. */
  function WeightedAverage(quantity: int, cost: int, incoming: int, incomingCost: int, policy: Costing): int
    requires incoming > 0
  {
    if policy != WeightedAvg || quantity <= 0 then incomingCost
    else HalfUp(Average(quantity * cost + incoming * incomingCost, quantity + incoming))
  }

  function Average(value: int, quantity: int): real
    requires quantity > 0
  {
    value as real / quantity as real
  }

  function CostAfter(level: Level, delta: int, unitCost: Option<real>, policy: Costing): int {
    if delta > 0 && unitCost.Some?
    then WeightedAverage(level.onHand, level.cost, delta, HalfUp(unitCost.value), policy)
    else level.cost
  }

  function LevelAfter(level: Level, delta: int, unitCost: Option<real>, policy: Costing): Level {
    Level(level.onHand + delta, CostAfter(level, delta, unitCost, policy))
  }

  /** apply_movement: one transaction under the lock of the level row. */
  function ApplyMovement(s: State, m: Move): Outcome {
    var delta := HalfUp(m.quantity);
    var level := LevelOf(s.levels, m.item);
    if delta == 0 then Outcome(s, Err(ZeroMovement))
    else if delta < 0 && !m.allowNegative && level.onHand + delta < 0 then
      Outcome(s, Err(InsufficientStock(level.onHand, -delta)))
    else
      var after := LevelAfter(level, delta, m.unitCost, CostingOf(s.costing, m.item));
      var recorded := if m.unitCost.Some? then HalfUp(m.unitCost.value) else after.cost;
      var movement := Movement(m.item, m.kind, delta, recorded, after.onHand, m.count);
      Outcome(s.(levels := s.levels[m.item := after], ledger := s.ledger + [movement]), Ok(Some(movement)))
  }

  function RecordWaste(s: State, item: nat, quantity: real): Outcome {
    if quantity <= 0.0 then Outcome(s, Err(InvalidQuantity))
    else ApplyMovement(s, Move(item, -quantity, Waste, None, true, None))
  }

  /** The unlocked half of adjust: get or create the level and work out the difference. */
  function AdjustRead(s: State, terminal: nat, item: nat, newQuantity: real): State {
    var level := LevelOf(s.levels, item);
    s.(levels := s.levels[item := level],
       pending := s.pending[terminal := Pending(item, HalfUp(newQuantity), level.onHand)])
  }

  function AdjustWrite(s: State, terminal: nat): Outcome {
    if terminal !in s.pending then Outcome(s, Err(NotReading))
    else
      var p := s.pending[terminal];
      var s' := s.(pending := s.pending - {terminal});
      if p.target == p.read then Outcome(s', Ok(None))
      else ApplyMovement(s', Move(p.item, (p.target - p.read) as real, Adjustment, None, true, None))
  }

  // ---- counts ----

  function PostLine(s: State, count: nat, line: CountLine): (r: State)
    ensures s.ledger <= r.ledger && r.counts == s.counts && r.copies == s.copies
  {
    if line.Variance() == 0 then s
    else ApplyMovement(s, Move(line.item, line.Variance() as real, Count, None, true, Some(count))).state
  }

  function PostLines(s: State, count: nat, lines: seq<CountLine>): (r: State)
    ensures s.ledger <= r.ledger && r.counts == s.counts && r.copies == s.copies
  {
    if lines == [] then s else PostLine(PostLines(s, count, lines[..|lines| - 1]), count, lines[|lines| - 1])
  }

  function CopyCount(s: State, terminal: nat, count: nat): State {
    if count !in s.counts then s
    else s.(copies := s.copies[terminal := CountCopy(count, s.counts[count].status)])
  }

  /** The posting a terminal would make is refused only if the copy it loaded was posted already. */
  predicate MayPost(s: State, terminal: nat) {
    terminal in s.copies && s.copies[terminal].count in s.counts && s.copies[terminal].status != Posted
  }

  datatype Posting = Posting(state: State, result: Result<seq<Movement>, Error>)

  function PostCopy(s: State, terminal: nat): Posting {
    if terminal !in s.copies then Posting(s, Err(NotReading))
    else
      var copy, s' := s.copies[terminal], s.(copies := s.copies - {terminal});
      if copy.count !in s.counts then Posting(s', Err(NoSuchCount))
      else if copy.status == Posted then Posting(s', Err(CountAlreadyPosted))
      else
        var count := s.counts[copy.count];
        var after := PostLines(s', copy.count, count.lines);
        Posting(after.(counts := s.counts[copy.count := count.(status := Posted)]), Ok(after.ledger[|s.ledger|..]))
  }

  // ---- reconciliation ----

  datatype Drift = Drift(item: nat, levelQuantity: int, ledgerQuantity: int)

  function SumDeltas(ledger: seq<Movement>, item: nat): int {
    if ledger == [] then 0
    else
      var last := ledger[|ledger| - 1];
      SumDeltas(ledger[..|ledger| - 1], item) + (if last.item == item then last.delta else 0)
  }

  function OnHand(s: State, item: nat): int {
    LevelOf(s.levels, item).onHand
  }

  function Drifts(s: State, items: seq<nat>): seq<Drift> {
    if items == [] then []
    else
      var rest := Drifts(s, items[..|items| - 1]);
      var item := items[|items| - 1];
      var recorded, replayed := OnHand(s, item), SumDeltas(s.ledger, item);
      if recorded != replayed then rest + [Drift(item, recorded, replayed)] else rest
  }

  // ---- runs ----

  datatype Event =
    | Apply(move: PlainMove)
    | Discard(item: nat, quantity: real)
    | ReadForAdjust(terminal: nat, item: nat, newQuantity: real)
    | WriteAdjust(terminal: nat)
    | LoadCount(terminal: nat, count: nat)
    | PostCount(terminal: nat)

  function Step(s: State, e: Event): State {
    match e
    case Apply(m) => ApplyMovement(s, m).state
    case Discard(item, quantity) => RecordWaste(s, item, quantity).state
    case ReadForAdjust(t, item, n) => AdjustRead(s, t, item, n)
    case WriteAdjust(t) => AdjustWrite(s, t).state
    case LoadCount(t, count) => CopyCount(s, t, count)
    case PostCount(t) => PostCopy(s, t).state
  }

  function Run(s: State, events: seq<Event>): State {
    if events == [] then s else Step(Run(s, events[..|events| - 1]), events[|events| - 1])
  }

  /** The stored levels and movements, updated in place. */
  class Stock {
    const costing: map<nat, Costing>
    var levels: map<nat, Level>
    var ledger: seq<Movement>
    var pending: map<nat, Pending>
    var counts: map<nat, StockCount>
    var copies: map<nat, CountCopy>

    function Contents(): State
      reads this
    {
      State(costing, levels, ledger, pending, counts, copies)
    }

    constructor (costing: map<nat, Costing>, counts: map<nat, StockCount>)
      ensures Contents() == State(costing, map[], [], map[], counts, map[])
    {
      this.costing, levels, ledger, pending := costing, map[], [], map[];
      this.counts, copies := counts, map[];
    }

    method Apply(m: Move) returns (r: Result<Option<Movement>, Error>)
      modifies this`levels, this`ledger
      ensures Outcome(Contents(), r) == ApplyMovement(old(Contents()), m)
    {
      var delta := HalfUp(m.quantity);
      if delta == 0 { return Err(ZeroMovement); }
      var level := LevelOf(levels, m.item);
      if delta < 0 && !m.allowNegative {
        if level.onHand + delta < 0 { return Err(InsufficientStock(level.onHand, -delta)); }
      }
      if delta > 0 && m.unitCost.Some? {
        var policy := CostingOf(costing, m.item);
        level := level.(cost := WeightedAverage(level.onHand, level.cost, delta, HalfUp(m.unitCost.value), policy));
      }
      level := level.(onHand := level.onHand + delta);
      levels := levels[m.item := level];
      var recorded := if m.unitCost.Some? then HalfUp(m.unitCost.value) else level.cost;
      var movement := Movement(m.item, m.kind, delta, recorded, level.onHand, m.count);
      ledger := ledger + [movement];
      return Ok(Some(movement));
    }

    method Discard(item: nat, quantity: real) returns (r: Result<Option<Movement>, Error>)
      modifies this
      ensures Outcome(Contents(), r) == RecordWaste(old(Contents()), item, quantity)
    {
      if quantity <= 0.0 { return Err(InvalidQuantity); }
      r := Apply(Move(item, -quantity, Waste, None, true, None));
    }

    method ReadForAdjust(terminal: nat, item: nat, newQuantity: real)
      modifies this
      ensures Contents() == AdjustRead(old(Contents()), terminal, item, newQuantity)
    {
      if item !in levels { levels := levels[item := NEW_LEVEL]; }
      var level := levels[item];
      assert levels == old(levels)[item := level];
      pending := pending[terminal := Pending(item, HalfUp(newQuantity), level.onHand)];
    }

    method WriteAdjust(terminal: nat) returns (r: Result<Option<Movement>, Error>)
      modifies this
      ensures Outcome(Contents(), r) == AdjustWrite(old(Contents()), terminal)
    {
      if terminal !in pending { return Err(NotReading); }
      var p := pending[terminal];
      pending := pending - {terminal};
      var delta := p.target - p.read;
      if delta == 0 { return Ok(None); }
      r := Apply(Move(p.item, delta as real, Adjustment, None, true, None));
    }

    /** With nothing in between, adjust sets the stock to the figure asked for. */
    method Adjust(terminal: nat, item: nat, newQuantity: real) returns (r: Result<Option<Movement>, Error>)
      modifies this
      ensures r.Ok? && OnHand(Contents(), item) == HalfUp(newQuantity)
      ensures r.value.None? <==> old(OnHand(Contents(), item)) == HalfUp(newQuantity)
      ensures forall other :: other != item ==> OnHand(Contents(), other) == old(OnHand(Contents(), other))
    {
      var was := OnHand(Contents(), item);
      ReadForAdjust(terminal, item, newQuantity);
      HalfUpOfInt(HalfUp(newQuantity) - was);
      r := WriteAdjust(terminal);
    }

    method SetOpeningBalance(item: nat, quantity: real, unitCost: real) returns (r: Result<Option<Movement>, Error>)
      modifies this
      ensures var opening := Move(item, HalfUp(quantity) as real, Opening, Some(unitCost), true, None);
              Outcome(Contents(), r) == ApplyMovement(old(Contents()), opening)
    {
      r := Apply(Move(item, HalfUp(quantity) as real, Opening, Some(unitCost), true, None));
    }

    method LoadCount(terminal: nat, count: nat) returns (error: Option<Error>)
      modifies this`copies
      ensures Contents() == CopyCount(old(Contents()), terminal, count)
      ensures error == if count in counts then None else Some(NoSuchCount)
    {
      if count !in counts { return Some(NoSuchCount); }
      copies := copies[terminal := CountCopy(count, counts[count].status)];
      return None;
    }

    /** Turns each variance into a movement, in line order, and marks the count posted. */
    method PostCount(terminal: nat) returns (r: Result<seq<Movement>, Error>)
      modifies this
      ensures Posting(Contents(), r) == PostCopy(old(Contents()), terminal)
    {
      if terminal !in copies { return Err(NotReading); }
      var copy := copies[terminal];
      copies := copies - {terminal};
      if copy.count !in counts { return Err(NoSuchCount); }
      if copy.status == Posted { return Err(CountAlreadyPosted); }
      var movements := PostEach(copy.count, counts[copy.count].lines);
      counts := counts[copy.count := counts[copy.count].(status := Posted)];
      return Ok(movements);
    }

    method PostEach(count: nat, lines: seq<CountLine>) returns (movements: seq<Movement>)
      modifies this`levels, this`ledger
      ensures Contents() == PostLines(old(Contents()), count, lines)
      ensures ledger == old(ledger) + movements
    {
      movements := [];
      var i := 0;
      while i < |lines|
        invariant 0 <= i <= |lines|
        invariant Contents() == PostLines(old(Contents()), count, lines[..i])
        invariant ledger == old(ledger) + movements
      {
        var line := lines[i];
        assert lines[..i + 1][..i] == lines[..i];
        if line.counted.Some? {
          var variance := line.counted.value - line.systemQuantity;
          if variance != 0 {
            HalfUpOfInt(variance);
            var moved := Apply(Move(line.item, variance as real, Count, None, true, Some(count)));
            movements := movements + [moved.value.value];
          }
        }
        i := i + 1;
      }
      assert lines[..i] == lines;
    }

    /** Replays every item's movements and reports the items whose level disagrees. */
    method Reconcile(items: seq<nat>) returns (drifts: seq<Drift>)
      ensures drifts == Drifts(Contents(), items)
    {
      drifts := [];
      var i := 0;
      while i < |items|
        invariant 0 <= i <= |items|
        invariant drifts == Drifts(Contents(), items[..i])
      {
        assert items[..i + 1][..i] == items[..i];
        var recorded := LevelOf(levels, items[i]).onHand;
        var replayed := SumDeltas(ledger, items[i]);
        if recorded != replayed {
          drifts := drifts + [Drift(items[i], recorded, replayed)];
        }
        i := i + 1;
      }
      assert items[..i] == items;
    }
  }
}
