/** What every run of stock operations keeps, however the terminals interleave. */
module StockProofs {
  import opened Wrappers
  import opened Rounding
  import opened StockLedger

  // ---- the level is the ledger's sum ----

  /** Every movement's balance is the sum of the deltas of its item up to and including it. */
  ghost predicate BalancesAreSums(ledger: seq<Movement>) {
    forall i :: 0 <= i < |ledger| ==> ledger[i].balanceAfter == SumDeltas(ledger[..i + 1], ledger[i].item)
  }

  ghost predicate LevelsAreSums(s: State) {
    forall item: nat :: OnHand(s, item) == SumDeltas(s.ledger, item)
  }

  ghost predicate Projects(s: State) {
    LevelsAreSums(s) && BalancesAreSums(s.ledger)
  }

  lemma AppendSums(ledger: seq<Movement>, m: Movement, item: nat)
    ensures SumDeltas(ledger + [m], item) == SumDeltas(ledger, item) + (if m.item == item then m.delta else 0)
  {
    assert (ledger + [m])[..|ledger|] == ledger;
  }

  lemma AppendBalance(ledger: seq<Movement>, m: Movement)
    requires BalancesAreSums(ledger) && m.balanceAfter == SumDeltas(ledger, m.item) + m.delta
    ensures BalancesAreSums(ledger + [m])
  {
    var longer := ledger + [m];
    forall i | 0 <= i < |longer| ensures longer[i].balanceAfter == SumDeltas(longer[..i + 1], longer[i].item) {
      if i < |ledger| {
        assert longer[..i + 1] == ledger[..i + 1];
      } else {
        assert longer[..i + 1] == ledger + [m];
        AppendSums(ledger, m, m.item);
      }
    }
  }

  lemma ApplyProjects(s: State, m: Move)
    requires Projects(s)
    ensures Projects(ApplyMovement(s, m).state)
  {
    var o := ApplyMovement(s, m);
    if o.result.Ok? {
      var movement := o.result.value.value;
      forall item: nat ensures OnHand(o.state, item) == SumDeltas(o.state.ledger, item) {
        AppendSums(s.ledger, movement, item);
      }
      AppendBalance(s.ledger, movement);
    }
  }

  lemma SameStock(s: State, s': State)
    requires Projects(s) && s'.ledger == s.ledger && forall item: nat :: OnHand(s', item) == OnHand(s, item)
    ensures Projects(s')
  {
    forall item: nat ensures OnHand(s', item) == SumDeltas(s'.ledger, item) {
      assert OnHand(s, item) == SumDeltas(s.ledger, item);
    }
  }

  lemma WriteProjects(s: State, t: nat)
    requires Projects(s) && t in s.pending
    ensures Projects(AdjustWrite(s, t).state)
  {
    var p, s' := s.pending[t], s.(pending := s.pending - {t});
    SameStock(s, s');
    if p.target != p.read {
      ApplyProjects(s', Move(p.item, (p.target - p.read) as real, Adjustment, None, true, None));
    }
  }

  lemma DiscardProjects(s: State, item: nat, quantity: real)
    requires Projects(s)
    ensures Projects(RecordWaste(s, item, quantity).state)
  {
    if quantity > 0.0 { ApplyProjects(s, Move(item, -quantity, Waste, None, true, None)); }
  }

  lemma {:induction false} PostLinesProjects(s: State, count: nat, lines: seq<CountLine>)
    requires Projects(s)
    ensures Projects(PostLines(s, count, lines))
  {
    if lines != [] {
      var init, last := lines[..|lines| - 1], lines[|lines| - 1];
      PostLinesProjects(s, count, init);
      if last.Variance() != 0 {
        ApplyProjects(PostLines(s, count, init),
                      Move(last.item, last.Variance() as real, Count, None, true, Some(count)));
      }
    }
  }

  lemma PostProjects(s: State, t: nat)
    requires Projects(s)
    ensures Projects(PostCopy(s, t).state)
  {
    if t in s.copies {
      var s' := s.(copies := s.copies - {t});
      SameStock(s, s');
      if MayPost(s, t) {
        var count := s.copies[t].count;
        PostLinesProjects(s', count, s.counts[count].lines);
        SameStock(PostLines(s', count, s.counts[count].lines), PostCopy(s, t).state);
      }
    }
  }

  lemma StepProjects(s: State, e: Event)
    requires Projects(s)
    ensures Projects(Step(s, e))
  {
    match e
    case Apply(m) => ApplyProjects(s, m);
    case Discard(item, quantity) => DiscardProjects(s, item, quantity);
    case ReadForAdjust(t, item, n) => SameStock(s, Step(s, e));
    case WriteAdjust(t) =>
      if t in s.pending { WriteProjects(s, t); }
    case LoadCount(_, _) => SameStock(s, Step(s, e));
    case PostCount(t) => PostProjects(s, t);
  }

  /** In every reachable state the stored levels and balances are those the ledger replays. */
  lemma {:induction false} LedgerProjects(s: State, events: seq<Event>)
    requires Projects(s)
    ensures Projects(Run(s, events))
  {
    if events != [] {
      LedgerProjects(s, events[..|events| - 1]);
      StepProjects(Run(s, events[..|events| - 1]), events[|events| - 1]);
    }
  }

  lemma EmptyProjects(costing: map<nat, Costing>, counts: map<nat, StockCount>)
    ensures Projects(State(costing, map[], [], map[], counts, map[]))
  {
  }

  /** Reconcile reports an item exactly when its level and its ledger disagree. */
  lemma {:induction false} DriftsAreDisagreements(s: State, items: seq<nat>, item: nat)
    ensures (exists d :: d in Drifts(s, items) && d.item == item)
            <==> item in items && OnHand(s, item) != SumDeltas(s.ledger, item)
  {
    if items != [] {
      var init, last := items[..|items| - 1], items[|items| - 1];
      DriftsAreDisagreements(s, init, item);
      assert items == init + [last];
      if OnHand(s, last) != SumDeltas(s.ledger, last) {
        var d := Drift(last, OnHand(s, last), SumDeltas(s.ledger, last));
        assert Drifts(s, items) == Drifts(s, init) + [d];
        assert d in Drifts(s, items);
        if exists e :: e in Drifts(s, init) && e.item == item {
          var e :| e in Drifts(s, init) && e.item == item;
          assert e in Drifts(s, items);
        }
      }
    }
  }

  lemma {:induction false} CleanDrifts(s: State, items: seq<nat>)
    requires LevelsAreSums(s)
    ensures Drifts(s, items) == []
  {
    if items != [] {
      CleanDrifts(s, items[..|items| - 1]);
      assert OnHand(s, items[|items| - 1]) == SumDeltas(s.ledger, items[|items| - 1]);
    }
  }

  /** A clean run of reconcile is what every history of operations ends in. */
  lemma ReconcilesClean(s: State, events: seq<Event>, items: seq<nat>)
    requires Projects(s)
    ensures Drifts(Run(s, events), items) == []
  {
    LedgerProjects(s, events);
    CleanDrifts(Run(s, events), items);
  }

  // ---- counts ----

  predicate DistinctItems(lines: seq<CountLine>) {
    forall i, j :: 0 <= i < j < |lines| ==> lines[i].item != lines[j].item
  }

  /** The variance a count records for an item; items it does not list have none. */
  function VarianceOf(lines: seq<CountLine>, item: nat): int {
    if lines == [] then 0
    else
      var last := lines[|lines| - 1];
      if last.item == item then last.Variance() else VarianceOf(lines[..|lines| - 1], item)
  }

  lemma {:induction false} VarianceOfUnlisted(lines: seq<CountLine>, item: nat)
    requires forall i :: 0 <= i < |lines| ==> lines[i].item != item
    ensures VarianceOf(lines, item) == 0
  {
    if lines != [] {
      VarianceOfUnlisted(lines[..|lines| - 1], item);
    }
  }

  /** Posting the lines of a count moves each item by exactly its variance and no other item at all. */
  lemma {:induction false} PostingMovesByVariance(s: State, count: nat, lines: seq<CountLine>, item: nat)
    requires DistinctItems(lines)
    ensures OnHand(PostLines(s, count, lines), item) == OnHand(s, item) + VarianceOf(lines, item)
  {
    if lines != [] {
      var init, last := lines[..|lines| - 1], lines[|lines| - 1];
      PostingMovesByVariance(s, count, init, item);
      HalfUpOfInt(last.Variance());
      if last.item == item {
        VarianceOfUnlisted(init, item);
      }
    }
  }

  /** So a counted item ends at the counted figure exactly when its level was still the one
      snapshotted on the line. */
  lemma PostingReachesCount(s: State, count: nat, lines: seq<CountLine>, i: nat)
    requires DistinctItems(lines) && i < |lines| && lines[i].counted.Some?
    ensures OnHand(PostLines(s, count, lines), lines[i].item) == lines[i].counted.value
            <==> OnHand(s, lines[i].item) == lines[i].systemQuantity
  {
    PostingMovesByVariance(s, count, lines, lines[i].item);
    VarianceOfListed(lines, i);
  }

  lemma {:induction false} VarianceOfListed(lines: seq<CountLine>, i: nat)
    requires DistinctItems(lines) && i < |lines|
    ensures VarianceOf(lines, lines[i].item) == lines[i].Variance()
  {
    if i < |lines| - 1 {
      VarianceOfListed(lines[..|lines| - 1], i);
    }
  }

  // ---- counts posted from copies ----

  /** What the movements posted for a count have moved an item by. */
  function CountMoves(ledger: seq<Movement>, count: nat, item: nat): int {
    if ledger == [] then 0
    else
      var last := ledger[|ledger| - 1];
      CountMoves(ledger[..|ledger| - 1], count, item)
        + if last.count == Some(count) && last.item == item then last.delta else 0
  }

  lemma AppendCountMoves(ledger: seq<Movement>, m: Movement, count: nat, item: nat)
    ensures CountMoves(ledger + [m], count, item)
         == CountMoves(ledger, count, item) + if m.count == Some(count) && m.item == item then m.delta else 0
  {
    assert (ledger + [m])[..|ledger|] == ledger;
  }

  lemma ApplyCountMoves(s: State, m: Move, count: nat, item: nat)
    ensures CountMoves(ApplyMovement(s, m).state.ledger, count, item)
         == CountMoves(s.ledger, count, item)
            + if m.count == Some(count) && m.item == item && ApplyMovement(s, m).result.Ok?
              then HalfUp(m.quantity) else 0
  {
    var o := ApplyMovement(s, m);
    if o.result.Ok? {
      AppendCountMoves(s.ledger, o.result.value.value, count, item);
    }
  }

  lemma {:induction false} PostLinesCountMoves(s: State, posted: nat, lines: seq<CountLine>, count: nat, item: nat)
    requires DistinctItems(lines)
    ensures CountMoves(PostLines(s, posted, lines).ledger, count, item)
         == CountMoves(s.ledger, count, item) + if posted == count then VarianceOf(lines, item) else 0
  {
    if lines != [] {
      var init, last := lines[..|lines| - 1], lines[|lines| - 1];
      PostLinesCountMoves(s, posted, init, count, item);
      HalfUpOfInt(last.Variance());
      if last.Variance() != 0 {
        ApplyCountMoves(PostLines(s, posted, init),
                        Move(last.item, last.Variance() as real, Count, None, true, Some(posted)), count, item);
      }
      if last.item == item {
        VarianceOfUnlisted(init, item);
      }
    }
  }

  predicate ItemsOnce(s: State) {
    forall count :: count in s.counts ==> DistinctItems(s.counts[count].lines)
  }

  /** The event posts this count. */
  predicate Posts(s: State, e: Event, count: nat) {
    e.PostCount? && MayPost(s, e.terminal) && s.copies[e.terminal].count == count
  }

  lemma StepKeepsLines(s: State, e: Event, count: nat)
    requires ItemsOnce(s) && count in s.counts
    ensures count in Step(s, e).counts && Step(s, e).counts[count].lines == s.counts[count].lines &&
            ItemsOnce(Step(s, e))
  {
  }

  lemma PostCountMoves(s: State, t: nat, count: nat, item: nat)
    requires ItemsOnce(s) && count in s.counts && MayPost(s, t)
    ensures CountMoves(PostCopy(s, t).state.ledger, count, item)
         == CountMoves(s.ledger, count, item)
            + if s.copies[t].count == count then VarianceOf(s.counts[count].lines, item) else 0
  {
    var posted := s.copies[t].count;
    PostLinesCountMoves(s.(copies := s.copies - {t}), posted, s.counts[posted].lines, count, item);
  }

  lemma WriteCountMoves(s: State, t: nat, count: nat, item: nat)
    ensures CountMoves(AdjustWrite(s, t).state.ledger, count, item) == CountMoves(s.ledger, count, item)
  {
    if t in s.pending {
      var p := s.pending[t];
      ApplyCountMoves(s.(pending := s.pending - {t}),
                      Move(p.item, (p.target - p.read) as real, Adjustment, None, true, None), count, item);
    }
  }

  lemma StepPosts(s: State, e: Event, count: nat, item: nat)
    requires ItemsOnce(s) && count in s.counts
    ensures CountMoves(Step(s, e).ledger, count, item)
         == CountMoves(s.ledger, count, item)
            + if Posts(s, e, count) then VarianceOf(s.counts[count].lines, item) else 0
  {
    match e
    case Apply(m) => ApplyCountMoves(s, m, count, item);
    case Discard(i, quantity) => ApplyCountMoves(s, Move(i, -quantity, Waste, None, true, None), count, item);
    case WriteAdjust(t) => WriteCountMoves(s, t, count, item);
    case PostCount(t) =>
      if MayPost(s, t) { PostCountMoves(s, t, count, item); }
    case _ =>
  }

  /** How often a run posts a count. */
  function Postings(s: State, events: seq<Event>, count: nat): nat {
    if events == [] then 0
    else
      var front := events[..|events| - 1];
      Postings(s, front, count) + if Posts(Run(s, front), events[|events| - 1], count) then 1 else 0
  }

  function Times(n: nat, x: int): int {
    n * x
  }

  lemma OneMore(n: nat, x: int)
    ensures Times(n + 1, x) == Times(n, x) + x && Times(0, x) == 0
  {
  }

  /** Over every run the movements posted for a count have moved each item by its variance once for every
      time the count was posted. */
  lemma {:induction false} PostingsAccount(s: State, events: seq<Event>, count: nat, item: nat)
    requires ItemsOnce(s) && count in s.counts
    ensures var t := Run(s, events);
            && ItemsOnce(t) && count in t.counts && t.counts[count].lines == s.counts[count].lines
            && CountMoves(t.ledger, count, item)
               == CountMoves(s.ledger, count, item)
                  + Times(Postings(s, events, count), VarianceOf(s.counts[count].lines, item))
  {
    OneMore(0, VarianceOf(s.counts[count].lines, item));
    if events != [] {
      var front := events[..|events| - 1];
      PostingsAccount(s, front, count, item);
      StepKeepsLines(Run(s, front), events[|events| - 1], count);
      StepPosts(Run(s, front), events[|events| - 1], count, item);
      OneMore(Postings(s, front, count), VarianceOf(s.counts[count].lines, item));
    }
  }

  /** A request holds a copy of the count loaded before it was posted. */
  predicate HoldsOpenCopy(s: State, terminal: nat, count: nat) {
    terminal in s.copies && s.copies[terminal].count == count && s.copies[terminal].status != Posted
  }

  lemma {:induction false} NoneHeldNonePosted(s: State, events: seq<Event>, count: nat)
    requires count in s.counts && s.counts[count].status == Posted
    requires forall t :: !HoldsOpenCopy(s, t, count)
    ensures Postings(s, events, count) == 0
    ensures count in Run(s, events).counts && Run(s, events).counts[count].status == Posted
    ensures forall t :: !HoldsOpenCopy(Run(s, events), t, count)
  {
    if events != [] {
      var before, e := Run(s, events[..|events| - 1]), events[|events| - 1];
      NoneHeldNonePosted(s, events[..|events| - 1], count);
      assert !Posts(before, e, count) by {
        if e.PostCount? { assert !HoldsOpenCopy(before, e.terminal, count); }
      }
      NoneHeldStep(before, e, count);
    }
  }

  lemma NoneHeldStep(s: State, e: Event, count: nat)
    requires count in s.counts && s.counts[count].status == Posted
    requires forall t :: !HoldsOpenCopy(s, t, count)
    ensures count in Step(s, e).counts && Step(s, e).counts[count].status == Posted
    ensures forall t :: !HoldsOpenCopy(Step(s, e), t, count)
  {
    forall t ensures !HoldsOpenCopy(Step(s, e), t, count) {
      assert !HoldsOpenCopy(s, t, count);
    }
  }

  /** From a posting on, an item with a variance has been moved by it exactly once more than before, in every
      run that may follow, if and only if no other terminal had loaded the count before it was posted. */
  lemma PostedOnceExactly(s: State, terminal: nat, count: nat, item: nat)
    requires ItemsOnce(s) && count in s.counts && HoldsOpenCopy(s, terminal, count)
    requires VarianceOf(s.counts[count].lines, item) != 0
    ensures (forall events :: CountMoves(Run(Step(s, PostCount(terminal)), events).ledger, count, item)
                           == CountMoves(s.ledger, count, item) + VarianceOf(s.counts[count].lines, item))
       <==> forall other :: other != terminal ==> !HoldsOpenCopy(s, other, count)
  {
    var s', variance := Step(s, PostCount(terminal)), VarianceOf(s.counts[count].lines, item);
    StepKeepsLines(s, PostCount(terminal), count);
    StepPosts(s, PostCount(terminal), count, item);
    OneMore(0, variance);
    forall t ensures HoldsOpenCopy(s', t, count) <==> t != terminal && HoldsOpenCopy(s, t, count) {}
    if other :| other != terminal && HoldsOpenCopy(s, other, count) {
      PostsAgain(s', other, count, item);
    } else {
      forall events
        ensures CountMoves(Run(s', events).ledger, count, item) == CountMoves(s.ledger, count, item) + variance
      {
        NoneHeldNonePosted(s', events, count);
        PostingsAccount(s', events, count, item);
      }
    }
  }

  lemma PostsAgain(s: State, terminal: nat, count: nat, item: nat)
    requires ItemsOnce(s) && count in s.counts && HoldsOpenCopy(s, terminal, count)
    ensures CountMoves(Run(s, [PostCount(terminal)]).ledger, count, item)
         == CountMoves(s.ledger, count, item) + VarianceOf(s.counts[count].lines, item)
  {
    RunOne(s, PostCount(terminal));
    StepPosts(s, PostCount(terminal), count, item);
  }

  lemma RunOne(s: State, e: Event)
    ensures Run(s, [e]) == Step(s, e)
  {
    assert [e][..0] == [];
  }

  lemma Then(s: State, events: seq<Event>, e: Event)
    ensures Run(s, events + [e]) == Step(Run(s, events), e)
  {
    assert (events + [e])[..|events|] == events;
  }

  /** Two terminals that both load a count before either posts it move every item twice. */
  lemma PostedTwice(s: State, one: nat, two: nat, count: nat, item: nat)
    requires ItemsOnce(s) && count in s.counts && s.counts[count].status != Posted && one != two
    ensures var both := [LoadCount(one, count)] + [LoadCount(two, count)] + [PostCount(one)] + [PostCount(two)];
            OnHand(Run(s, both), item) == OnHand(s, item) + 2 * VarianceOf(s.counts[count].lines, item)
  {
    var lines := s.counts[count].lines;
    var loaded := [LoadCount(one, count)] + [LoadCount(two, count)];
    RunOne(s, LoadCount(one, count));
    Then(s, [LoadCount(one, count)], LoadCount(two, count));
    Then(s, loaded, PostCount(one));
    Then(s, loaded + [PostCount(one)], PostCount(two));
    var s1 := Run(s, loaded);
    PostingMovesByVariance(s1.(copies := s1.copies - {one}), count, lines, item);
    var s2 := Run(s, loaded + [PostCount(one)]);
    PostingMovesByVariance(s2.(copies := s2.copies - {two}), count, lines, item);
  }

  // ---- adjust against the interleaving ----

  /** Completing an adjustment leaves the figure asked for exactly when the level is still the
      one that was read; otherwise it is off by what moved in between. */
  lemma AdjustExactly(s: State, terminal: nat)
    requires terminal in s.pending
    ensures var p := s.pending[terminal];
            && AdjustWrite(s, terminal).result.Ok?
            && OnHand(AdjustWrite(s, terminal).state, p.item) == p.target + (OnHand(s, p.item) - p.read)
            && (OnHand(AdjustWrite(s, terminal).state, p.item) == p.target <==> OnHand(s, p.item) == p.read)
  {
    var p := s.pending[terminal];
    HalfUpOfInt(p.target - p.read);
  }

  predicate OfOthers(e: Event, terminal: nat) {
    (e.ReadForAdjust? || e.WriteAdjust?) ==> e.terminal != terminal
  }

  /** Whatever the other terminals do between the read and the write of an adjustment, it ends at the figure
      asked for exactly when the level it writes over is the one it read. */
  lemma {:induction false} AdjustAcrossRun(s: State, terminal: nat, item: nat, newQuantity: real, events: seq<Event>)
    requires forall i :: 0 <= i < |events| ==> OfOthers(events[i], terminal)
    ensures var t := Run(AdjustRead(s, terminal, item, newQuantity), events);
            && terminal in t.pending && t.pending[terminal] == Pending(item, HalfUp(newQuantity), OnHand(s, item))
            && OnHand(AdjustWrite(t, terminal).state, item) == HalfUp(newQuantity) + (OnHand(t, item) - OnHand(s, item))
            && (OnHand(AdjustWrite(t, terminal).state, item) == HalfUp(newQuantity) <==>
                OnHand(t, item) == OnHand(s, item))
  {
    var read := AdjustRead(s, terminal, item, newQuantity);
    if events != [] {
      var init := events[..|events| - 1];
      AdjustAcrossRun(s, terminal, item, newQuantity, init);
      assert OfOthers(events[|events| - 1], terminal);
      StepKeepsPending(Run(read, init), events[|events| - 1], terminal);
    }
    AdjustExactly(Run(read, events), terminal);
  }

  lemma StepKeepsPending(s: State, e: Event, terminal: nat)
    requires OfOthers(e, terminal) && terminal in s.pending
    ensures terminal in Step(s, e).pending && Step(s, e).pending[terminal] == s.pending[terminal]
  {
    if e.PostCount? && MayPost(s, e.terminal) {
      var s' := s.(copies := s.copies - {e.terminal});
      PostLinesAside(s', s.copies[e.terminal].count, s.counts[s.copies[e.terminal].count].lines, 0);
    }
  }

  /** Posting lines leaves the adjustments in progress and every stored cost alone. */
  lemma {:induction false} PostLinesAside(s: State, count: nat, lines: seq<CountLine>, item: nat)
    ensures PostLines(s, count, lines).pending == s.pending
    ensures LevelOf(PostLines(s, count, lines).levels, item).cost == LevelOf(s.levels, item).cost
  {
    if lines != [] {
      PostLinesAside(s, count, lines[..|lines| - 1], item);
    }
  }

  /** The event moves other items only: no movement, waste, completed adjustment or posted variance of this one. */
  predicate LeavesAlone(s: State, e: Event, item: nat) {
    match e
    case Apply(m) => m.item != item
    case Discard(i, _) => i != item
    case WriteAdjust(t) => t in s.pending ==> s.pending[t].item != item
    case PostCount(t) => MayPost(s, t) ==> forall l <- s.counts[s.copies[t].count].lines :: l.item != item
    case _ => true
  }

  predicate LeftAlone(s: State, events: seq<Event>, item: nat) {
    events != [] ==>
      var front := events[..|events| - 1];
      LeftAlone(s, front, item) && LeavesAlone(Run(s, front), events[|events| - 1], item)
  }

  lemma {:induction false} UnlistedStays(s: State, count: nat, lines: seq<CountLine>, item: nat)
    requires forall l <- lines :: l.item != item
    ensures OnHand(PostLines(s, count, lines), item) == OnHand(s, item)
  {
    if lines != [] {
      UnlistedStays(s, count, lines[..|lines| - 1], item);
    }
  }

  lemma StepLeavesAlone(s: State, e: Event, item: nat)
    requires LeavesAlone(s, e, item)
    ensures OnHand(Step(s, e), item) == OnHand(s, item)
  {
    if e.PostCount? && MayPost(s, e.terminal) {
      var count := s.copies[e.terminal].count;
      UnlistedStays(s.(copies := s.copies - {e.terminal}), count, s.counts[count].lines, item);
    }
  }

  lemma {:induction false} AloneStays(s: State, events: seq<Event>, item: nat)
    requires LeftAlone(s, events, item)
    ensures OnHand(Run(s, events), item) == OnHand(s, item)
  {
    if events != [] {
      AloneStays(s, events[..|events| - 1], item);
      StepLeavesAlone(Run(s, events[..|events| - 1]), events[|events| - 1], item);
    }
  }

  /** So if meanwhile the others leave the item alone, whatever they do to other items, it ends there. */
  lemma AdjustUndisturbed(s: State, terminal: nat, item: nat, newQuantity: real, events: seq<Event>)
    requires forall i :: 0 <= i < |events| ==> OfOthers(events[i], terminal)
    requires LeftAlone(AdjustRead(s, terminal, item, newQuantity), events, item)
    ensures var t := Run(AdjustRead(s, terminal, item, newQuantity), events);
            OnHand(AdjustWrite(t, terminal).state, item) == HalfUp(newQuantity)
  {
    AloneStays(AdjustRead(s, terminal, item, newQuantity), events, item);
    AdjustAcrossRun(s, terminal, item, newQuantity, events);
  }

  // ---- weighted-average cost ----

  lemma AverageBetween(q: int, c: int, dq: int, dc: int, lo: int, hi: int)
    requires q > 0 && dq > 0 && lo <= c <= hi && lo <= dc <= hi
    ensures lo as real <= Average(q * c + dq * dc, q + dq) <= hi as real
  {
    var value, quantity := q * c + dq * dc, q + dq;
    var a := Average(value, quantity);
    assert Product(a, quantity as real) == value as real;
    assert lo * quantity <= value <= hi * quantity by {
      assert q * (c - lo) >= 0 && dq * (dc - lo) >= 0 && q * (hi - c) >= 0 && dq * (hi - dc) >= 0;
    }
    DivideBounds(value, quantity, lo, hi);
  }

  lemma DivideBounds(value: int, quantity: int, lo: int, hi: int)
    requires quantity > 0 && lo * quantity <= value <= hi * quantity
    ensures lo as real <= Average(value, quantity) <= hi as real
  {
    var a, n := Average(value, quantity), quantity as real;
    assert a * n == value as real;
    assert (lo * quantity) as real == lo as real * n && (hi * quantity) as real == hi as real * n;
    NotBelow(lo as real, a, n);
    NotBelow(a, hi as real, n);
  }

  lemma NotBelow(x: real, y: real, n: real)
    requires n > 0.0 && x * n <= y * n
    ensures x <= y
  {
    StrictlyScaled(y, x, n);
  }

  lemma StrictlyScaled(x: real, y: real, n: real)
    requires n > 0.0
    ensures x < y ==> x * n < y * n
  {
    if x < y {
      assert (y - x) * n > 0.0;
    }
  }

  /** A costed receipt onto stock gives a cost between the old and the incoming one. */
  lemma CostBetween(q: int, c: int, dq: int, dc: int)
    requires q > 0 && dq > 0
    ensures var cost := WeightedAverage(q, c, dq, dc, WeightedAvg);
            (c <= cost <= dc) || (dc <= cost <= c)
  {
    var lo, hi := if c <= dc then c else dc, if c <= dc then dc else c;
    AverageBetween(q, c, dq, dc, lo, hi);
    HalfUpOfInt(lo);
    HalfUpOfInt(hi);
    HalfUpMonotone(lo as real, Average(q * c + dq * dc, q + dq));
    HalfUpMonotone(Average(q * c + dq * dc, q + dq), hi as real);
  }

  /** The value of the stock is kept to within half a cost unit for each unit in stock. */
  lemma ValuePreserved(q: int, c: int, dq: int, dc: int)
    requires q > 0 && dq > 0
    ensures var cost := WeightedAverage(q, c, dq, dc, WeightedAvg);
            -(q + dq) <= 2 * (cost * (q + dq) - (q * c + dq * dc)) <= q + dq
  {
    var value, quantity := q * c + dq * dc, q + dq;
    var a, n := Average(value, quantity), quantity as real;
    var cost := HalfUp(a);
    assert Product(a, n) == value as real;
    Scale(cost as real - a, 0.5, n);
    Scale(-0.5, cost as real - a, n);
    assert Product(cost as real - a, n) == (cost * quantity) as real - value as real;
  }

  predicate CostWithin(s: State, item: nat, bound: int) {
    0 <= LevelOf(s.levels, item).cost <= bound
  }

  /** A costed movement of the item has a quantized cost between zero and the bound. */
  predicate MoveWithin(m: Move, item: nat, bound: int) {
    m.item == item && m.unitCost.Some? ==> 0 <= HalfUp(m.unitCost.value) <= bound
  }

  predicate ReceiptWithin(e: Event, item: nat, bound: int) {
    e.Apply? ==> MoveWithin(e.move, item, bound)
  }

  lemma PostKeepsCost(s: State, terminal: nat, item: nat)
    ensures LevelOf(PostCopy(s, terminal).state.levels, item).cost == LevelOf(s.levels, item).cost
  {
    if MayPost(s, terminal) {
      var count := s.copies[terminal].count;
      PostLinesAside(s.(copies := s.copies - {terminal}), count, s.counts[count].lines, item);
    }
  }

  lemma ApplyCostWithin(s: State, m: Move, item: nat, bound: int)
    requires CostWithin(s, item, bound) && MoveWithin(m, item, bound)
    ensures CostWithin(ApplyMovement(s, m).state, item, bound)
  {
    var delta := HalfUp(m.quantity);
    var level := LevelOf(s.levels, item);
    if m.item == item && delta > 0 && m.unitCost.Some? && level.onHand > 0 {
      CostBetween(level.onHand, level.cost, delta, HalfUp(m.unitCost.value));
    }
  }

  /** Over every run the stored cost stays between zero and the largest receipt cost. */
  lemma {:induction false} CostStaysWithin(s: State, events: seq<Event>, item: nat, bound: int)
    requires CostWithin(s, item, bound)
    requires forall i :: 0 <= i < |events| ==> ReceiptWithin(events[i], item, bound)
    ensures CostWithin(Run(s, events), item, bound)
  {
    if events != [] {
      var init, last := events[..|events| - 1], events[|events| - 1];
      CostStaysWithin(s, init, item, bound);
      var t := Run(s, init);
      match last
      case Apply(m) => ApplyCostWithin(t, m, item, bound);
      case Discard(i, quantity) => ApplyCostWithin(t, Move(i, -quantity, Waste, None, true, None), item, bound);
      case ReadForAdjust(_, _, _) =>
      case WriteAdjust(w) =>
        if w in t.pending {
          var p := t.pending[w];
          ApplyCostWithin(t.(pending := t.pending - {w}),
                          Move(p.item, (p.target - p.read) as real, Adjustment, None, true, None), item, bound);
        }
      case LoadCount(_, _) =>
      case PostCount(w) => PostKeepsCost(t, w, item);
    }
  }

  /** The cost changes only on a costed receipt of that item: never on anything going out. */
  lemma OnlyReceiptsReprice(s: State, e: Event, item: nat)
    requires LevelOf(Step(s, e).levels, item).cost != LevelOf(s.levels, item).cost
    ensures e.Apply? && e.move.item == item && e.move.unitCost.Some? && HalfUp(e.move.quantity) > 0
  {
    if e.PostCount? {
      PostKeepsCost(s, e.terminal, item);
    }
  }
}
