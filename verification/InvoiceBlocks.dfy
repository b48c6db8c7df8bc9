/** Invoice numbers of one branch: blocks reserved to devices (licensing/services.py), numbers drawn
    from them and numbers given to orders without a device (payments/services.py).

    An allocation holds the lock on the branch row over three steps: reading the highest block,
    reading the highest invoice, creating the block. Draws and orders without a device do not take
    that lock and may happen in between; an order without a device reads the highest number in one
    statement and stores its invoice in another. */
module InvoiceBlocks {
  import opened Wrappers

  datatype Block = Block(device: nat, rangeStart: nat, rangeEnd: nat, nextUnused: nat, exhausted: bool)
  {
    function Size(): int { rangeEnd - rangeStart + 1 }

    function Remaining(): int { rangeEnd - nextUnused + 1 }

    predicate IsExhausted() { nextUnused > rangeEnd }
  }

  /** An allocation holding the branch lock, with what it has read. */
  datatype Allocation = Allocation(device: nat, size: int, highestBlock: nat, highestInvoice: Option<nat>)
  {
    predicate ReadyToCreate() { highestInvoice.Some? && size >= 1 }

    function NewBlock(): Block
      requires ReadyToCreate()
    {
      var start := Max(highestBlock, highestInvoice.value) + 1;
      Block(device, start, start + size - 1, start, false)
    }
  }

  /** Invoices are listed in the order their numbers were taken. */
  datatype Invoice = Drawn(block: nat, number: nat) | Unblocked(number: nat)

  /** `numbered` holds, by order, the numbers read for orders without a device and not stored yet. */
  datatype State = State(
    blocks: seq<Block>,
    invoices: seq<Invoice>,
    branchLock: Option<Allocation>,
    numbered: map<nat, nat>)

  const EMPTY := State([], [], None, map[])

  const BLOCK_SIZE := 500

  datatype Error = Blocked | NotAllocating | RangeNotOrdered | NoOpenBlock | NotNumbered

  function Max(a: nat, b: nat): nat {
    if a >= b then a else b
  }

  function HighestEnd(blocks: seq<Block>): nat {
    if blocks == [] then 0 else Max(HighestEnd(blocks[..|blocks| - 1]), blocks[|blocks| - 1].rangeEnd)
  }

  function HighestNumber(invoices: seq<Invoice>): nat {
    if invoices == [] then 0 else Max(HighestNumber(invoices[..|invoices| - 1]), invoices[|invoices| - 1].number)
  }

  /** The position of a device's first open block; blocks are in the order of their ranges. */
  function OpenBlock(blocks: seq<Block>, device: nat): (k: nat)
    ensures k <= |blocks|
    ensures k < |blocks| ==> blocks[k].device == device && !blocks[k].exhausted
    ensures forall i :: 0 <= i < k ==> blocks[i].device != device || blocks[i].exhausted
  {
    if blocks == [] then 0
    else if blocks[0].device == device && !blocks[0].exhausted then 0
    else 1 + OpenBlock(blocks[1..], device)
  }

  datatype Outcome = Outcome(state: State, error: Option<Error>)

  function Begin(s: State, device: nat, size: int): Outcome {
    if s.branchLock.Some? then Outcome(s, Some(Blocked))
    else Outcome(s.(branchLock := Some(Allocation(device, size, HighestEnd(s.blocks), None))), None)
  }

  function ReadInvoices(s: State): Outcome {
    if s.branchLock.None? || s.branchLock.value.highestInvoice.Some? then Outcome(s, Some(NotAllocating))
    else
      var read := s.branchLock.value.(highestInvoice := Some(HighestNumber(s.invoices)));
      Outcome(s.(branchLock := Some(read)), None)
  }

  /** The database refuses a range that ends before it starts. */
  function Create(s: State): Outcome {
    if s.branchLock.None? || s.branchLock.value.highestInvoice.None? then Outcome(s, Some(NotAllocating))
    else
      var a := s.branchLock.value;
      if a.size < 1 then Outcome(s.(branchLock := None), Some(RangeNotOrdered))
      else Outcome(s.(branchLock := None, blocks := s.blocks + [a.NewBlock()]), None)
  }

  function Draw(s: State, device: nat): Outcome {
    var k := OpenBlock(s.blocks, device);
    if k == |s.blocks| then Outcome(s, Some(NoOpenBlock))
    else
      var b := s.blocks[k];
      var next := b.nextUnused + 1;
      Outcome(s.(blocks := s.blocks[k := b.(nextUnused := next, exhausted := next > b.rangeEnd)],
                 invoices := s.invoices + [Drawn(k, b.nextUnused)]), None)
  }

  /** One more than the highest number stored, whatever the blocks hold. */
  function ReadUnblocked(s: State, order: nat): State {
    s.(numbered := s.numbered[order := HighestNumber(s.invoices) + 1])
  }

  function StoreUnblocked(s: State, order: nat): Outcome {
    if order !in s.numbered then Outcome(s, Some(NotNumbered))
    else Outcome(s.(numbered := s.numbered - {order}, invoices := s.invoices + [Unblocked(s.numbered[order])]), None)
  }

  datatype Gap = Gap(from: nat, to: nat, count: int)

  /** block_gaps: blocks marked exhausted that still have unused numbers. */
  function Gaps(blocks: seq<Block>): seq<Gap> {
    if blocks == [] then []
    else
      var rest, b := Gaps(blocks[..|blocks| - 1]), blocks[|blocks| - 1];
      if b.nextUnused <= b.rangeEnd && b.exhausted then rest + [Gap(b.nextUnused, b.rangeEnd, b.Remaining())] else rest
  }

  class Branch {
    var blocks: seq<Block>
    var invoices: seq<Invoice>
    var branchLock: Option<Allocation>
    var numbered: map<nat, nat>

    function Contents(): State
      reads this
    {
      State(blocks, invoices, branchLock, numbered)
    }

    constructor ()
      ensures Contents() == EMPTY
    {
      blocks, invoices, branchLock, numbered := [], [], None, map[];
    }

    method BeginAllocation(device: nat, size: int) returns (error: Option<Error>)
      modifies this`branchLock
      ensures Outcome(Contents(), error) == Begin(old(Contents()), device, size)
    {
      if branchLock.Some? { return Some(Blocked); }
      branchLock := Some(Allocation(device, size, HighestEnd(blocks), None));
      return None;
    }

    method ReadHighestInvoice() returns (error: Option<Error>)
      modifies this`branchLock
      ensures Outcome(Contents(), error) == ReadInvoices(old(Contents()))
    {
      if branchLock.None? || branchLock.value.highestInvoice.Some? { return Some(NotAllocating); }
      branchLock := Some(branchLock.value.(highestInvoice := Some(HighestNumber(invoices))));
      return None;
    }

    method CreateBlock() returns (error: Option<Error>)
      modifies this`branchLock, this`blocks
      ensures Outcome(Contents(), error) == Create(old(Contents()))
    {
      if branchLock.None? || branchLock.value.highestInvoice.None? { return Some(NotAllocating); }
      var a := branchLock.value;
      branchLock := None;
      if a.size < 1 { return Some(RangeNotOrdered); }
      var start := Max(a.highestBlock, a.highestInvoice.value) + 1;
      blocks := blocks + [Block(a.device, start, start + a.size - 1, start, false)];
      return None;
    }

    method DrawNumber(device: nat) returns (error: Option<Error>)
      modifies this`blocks, this`invoices
      ensures Outcome(Contents(), error) == Draw(old(Contents()), device)
    {
      var k := OpenBlock(blocks, device);
      if k == |blocks| { return Some(NoOpenBlock); }
      var b := blocks[k];
      invoices := invoices + [Drawn(k, b.nextUnused)];
      b := b.(nextUnused := b.nextUnused + 1);
      if b.nextUnused > b.rangeEnd { b := b.(exhausted := true); }
      blocks := blocks[k := b];
      return None;
    }

    method ReadNumberWithoutBlock(order: nat)
      modifies this`numbered
      ensures Contents() == ReadUnblocked(old(Contents()), order)
    {
      numbered := numbered[order := HighestNumber(invoices) + 1];
    }

    method StoreNumberWithoutBlock(order: nat) returns (error: Option<Error>)
      modifies this`numbered, this`invoices
      ensures Outcome(Contents(), error) == StoreUnblocked(old(Contents()), order)
    {
      if order !in numbered { return Some(NotNumbered); }
      invoices := invoices + [Unblocked(numbered[order])];
      numbered := numbered - {order};
      return None;
    }

    method BlockGaps() returns (gaps: seq<Gap>)
      ensures gaps == Gaps(blocks)
    {
      gaps := [];
      var i := 0;
      while i < |blocks|
        invariant 0 <= i <= |blocks|
        invariant gaps == Gaps(blocks[..i])
      {
        var block := blocks[i];
        assert blocks[..i + 1][..i] == blocks[..i];
        if block.nextUnused <= block.rangeEnd && block.exhausted {
          gaps := gaps + [Gap(block.nextUnused, block.rangeEnd, block.rangeEnd - block.nextUnused + 1)];
        }
        i := i + 1;
      }
      assert blocks[..i] == blocks;
    }
  }

  // ---- runs ----

  datatype Event =
    | BeginAllocation(device: nat, size: int)
    | ReadHighest
    | CreateBlock
    | DrawNumber(device: nat)
    | ReadDeviceless(order: nat)
    | StoreDeviceless(order: nat)

  function Step(s: State, e: Event): State {
    match e
    case BeginAllocation(d, size) => Begin(s, d, size).state
    case ReadHighest => ReadInvoices(s).state
    case CreateBlock => Create(s).state
    case DrawNumber(d) => Draw(s, d).state
    case ReadDeviceless(order) => ReadUnblocked(s, order)
    case StoreDeviceless(order) => StoreUnblocked(s, order).state
  }

  function Run(s: State, events: seq<Event>): State {
    if events == [] then s else Step(Run(s, events[..|events| - 1]), events[|events| - 1])
  }

  /** Each block lies strictly above every block allocated before it. */
  predicate Above(blocks: seq<Block>) {
    forall i, j :: 0 <= i < j < |blocks| ==> blocks[i].rangeEnd < blocks[j].rangeStart
  }

  predicate WellFormed(b: Block) {
    b.rangeStart <= b.rangeEnd && b.rangeStart <= b.nextUnused <= b.rangeEnd + 1 && (b.exhausted <==> b.IsExhausted())
  }

  predicate DrawnInside(s: State) {
    forall i :: 0 <= i < |s.invoices| && s.invoices[i].Drawn? ==>
      && s.invoices[i].block < |s.blocks|
      && s.blocks[s.invoices[i].block].rangeStart <= s.invoices[i].number < s.blocks[s.invoices[i].block].nextUnused
  }

  predicate DrawnDistinct(invoices: seq<Invoice>) {
    forall i, j :: 0 <= i < j < |invoices| && invoices[i].Drawn? && invoices[j].Drawn? ==>
        invoices[i].number != invoices[j].number
  }

  predicate Invariant(s: State) {
    && Above(s.blocks)
    && (forall i :: 0 <= i < |s.blocks| ==> WellFormed(s.blocks[i]))
    && DrawnInside(s) && DrawnDistinct(s.invoices)
    && (s.branchLock.Some? ==> s.branchLock.value.highestBlock == HighestEnd(s.blocks))
  }

  lemma {:induction false} HighestEndIsHighest(blocks: seq<Block>)
    ensures forall i :: 0 <= i < |blocks| ==> blocks[i].rangeEnd <= HighestEnd(blocks)
  {
    if blocks != [] {
      HighestEndIsHighest(blocks[..|blocks| - 1]);
    }
  }

  lemma {:induction false} HighestNumberIsHighest(invoices: seq<Invoice>)
    ensures forall i :: 0 <= i < |invoices| ==> invoices[i].number <= HighestNumber(invoices)
  {
    if invoices != [] {
      HighestNumberIsHighest(invoices[..|invoices| - 1]);
    }
  }

  lemma {:induction false} SameEnds(a: seq<Block>, b: seq<Block>)
    requires |a| == |b| && forall i :: 0 <= i < |a| ==> a[i].rangeEnd == b[i].rangeEnd
    ensures HighestEnd(a) == HighestEnd(b)
  {
    if a != [] {
      SameEnds(a[..|a| - 1], b[..|b| - 1]);
    }
  }

  lemma CreateKeeps(s: State)
    requires Invariant(s)
    ensures Invariant(Create(s).state)
  {
    HighestEndIsHighest(s.blocks);
  }

  lemma DrawIsNew(s: State, device: nat, i: nat)
    requires Invariant(s) && i < |s.invoices| && s.invoices[i].Drawn?
    requires OpenBlock(s.blocks, device) < |s.blocks|
    ensures s.invoices[i].number != s.blocks[OpenBlock(s.blocks, device)].nextUnused
  {
    var k, b := OpenBlock(s.blocks, device), s.invoices[i].block;
    assert WellFormed(s.blocks[k]) && WellFormed(s.blocks[b]);
    assert b < k ==> s.blocks[b].rangeEnd < s.blocks[k].rangeStart;
    assert k < b ==> s.blocks[k].rangeEnd < s.blocks[b].rangeStart;
  }

  lemma DrawKeepsBlocks(s: State, device: nat)
    requires Invariant(s)
    ensures var s' := Draw(s, device).state;
            && Above(s'.blocks) && (forall i :: 0 <= i < |s'.blocks| ==> WellFormed(s'.blocks[i]))
            && HighestEnd(s'.blocks) == HighestEnd(s.blocks)
  {
    SameEnds(s.blocks, Draw(s, device).state.blocks);
  }

  lemma DrawnApart(invoices: seq<Invoice>, last: Invoice)
    requires DrawnDistinct(invoices)
    requires forall i :: 0 <= i < |invoices| && invoices[i].Drawn? ==> invoices[i].number != last.number
    ensures DrawnDistinct(invoices + [last])
  {
  }

  lemma DrawStaysInside(s: State, device: nat)
    requires Invariant(s)
    ensures DrawnInside(Draw(s, device).state)
  {
    var k := OpenBlock(s.blocks, device);
    if k < |s.blocks| {
      assert WellFormed(s.blocks[k]);
    }
  }

  lemma DrawKeeps(s: State, device: nat)
    requires Invariant(s)
    ensures Invariant(Draw(s, device).state)
  {
    var k := OpenBlock(s.blocks, device);
    DrawKeepsBlocks(s, device);
    DrawStaysInside(s, device);
    if k < |s.blocks| {
      var last := Drawn(k, s.blocks[k].nextUnused);
      forall i | 0 <= i < |s.invoices| && s.invoices[i].Drawn? ensures s.invoices[i].number != last.number {
        DrawIsNew(s, device, i);
      }
      DrawnApart(s.invoices, last);
    }
  }

  lemma StepKeeps(s: State, e: Event)
    requires Invariant(s)
    ensures Invariant(Step(s, e))
  {
    match e
    case CreateBlock => CreateKeeps(s);
    case DrawNumber(d) => DrawKeeps(s, d);
    case _ =>
  }

  /** Over every interleaving blocks are pairwise disjoint, each above the ones before it, and no two
      numbers drawn from blocks are equal, whichever devices drew them. */
  lemma {:induction false} NumbersNeverCoincide(s: State, events: seq<Event>)
    requires Invariant(s)
    ensures Invariant(Run(s, events)) && Above(Run(s, events).blocks) && DrawnDistinct(Run(s, events).invoices)
  {
    if events != [] {
      NumbersNeverCoincide(s, events[..|events| - 1]);
      StepKeeps(Run(s, events[..|events| - 1]), events[|events| - 1]);
    }
  }

  lemma FromEmpty(events: seq<Event>)
    ensures Invariant(Run(EMPTY, events))
  {
    NumbersNeverCoincide(EMPTY, events);
  }

  predicate LockFree(e: Event) {
    e.DrawNumber? || e.ReadDeviceless? || e.StoreDeviceless?
  }

  /** A block created, with anything but another allocation in between, starts above every block and
      above every invoice number there was when the invoices were read. */
  lemma NewBlockAboveAll(s: State, events: seq<Event>)
    requires Invariant(s) && s.branchLock.Some? && s.branchLock.value.highestInvoice.None? &&
             s.branchLock.value.size >= 1
    requires forall i :: 0 <= i < |events| ==> LockFree(events[i])
    ensures var t := Run(Step(s, ReadHighest), events);
            var blocks := Step(t, CreateBlock).blocks;
            && |blocks| == |t.blocks| + 1
            && (forall i :: 0 <= i < |t.blocks| ==> t.blocks[i].rangeEnd < blocks[|t.blocks|].rangeStart)
            && (forall i :: 0 <= i < |s.invoices| ==> s.invoices[i].number < blocks[|t.blocks|].rangeStart)
            && blocks[|t.blocks|].Size() == s.branchLock.value.size
  {
    var read := Step(s, ReadHighest);
    LockSurvives(read, events);
    NumbersNeverCoincide(read, events);
    HighestNumberIsHighest(s.invoices);
    HighestEndIsHighest(Run(read, events).blocks);
  }

  lemma {:induction false} LockSurvives(s: State, events: seq<Event>)
    requires forall i :: 0 <= i < |events| ==> LockFree(events[i])
    ensures Run(s, events).branchLock == s.branchLock
  {
    if events != [] {
      LockSurvives(s, events[..|events| - 1]);
      assert LockFree(events[|events| - 1]);
    }
  }

  // ---- the gap report ----

  /** Nothing reachable is both marked exhausted and part unused, so the gap report is always empty. */
  lemma {:induction false} NoGapsReported(blocks: seq<Block>)
    requires forall i :: 0 <= i < |blocks| ==> WellFormed(blocks[i])
    ensures Gaps(blocks) == []
  {
    if blocks != [] {
      NoGapsReported(blocks[..|blocks| - 1]);
      assert WellFormed(blocks[|blocks| - 1]);
    }
  }

  lemma GapReportAlwaysEmpty(events: seq<Event>)
    ensures Gaps(Run(EMPTY, events).blocks) == []
  {
    NumbersNeverCoincide(EMPTY, events);
    NoGapsReported(Run(EMPTY, events).blocks);
  }

  // ---- numbers taken outside a block ----

  predicate AllDistinct(invoices: seq<Invoice>) {
    forall i, j :: 0 <= i < j < |invoices| ==> invoices[i].number != invoices[j].number
  }

  predicate Waiting(b: Block, n: nat) {
    b.nextUnused <= n <= b.rangeEnd
  }

  predicate Issued(s: State, n: nat) {
    exists i :: 0 <= i < |s.invoices| && s.invoices[i].number == n
  }

  predicate Reserved(s: State, n: nat) {
    exists k :: 0 <= k < |s.blocks| && Waiting(s.blocks[k], n)
  }

  /** No two invoices share a number, and none has a number still waiting in a block. */
  predicate Promised(s: State) {
    AllDistinct(s.invoices) && forall i :: 0 <= i < |s.invoices| ==> !Reserved(s, s.invoices[i].number)
  }

  /** An order without a device stores a number that was issued or reserved since, or a block is created
      over a number issued since its allocation read the highest one. */
  predicate Breaks(s: State, e: Event) {
    match e
    case StoreDeviceless(order) =>
      order in s.numbered && (Issued(s, s.numbered[order]) || Reserved(s, s.numbered[order]))
    case CreateBlock =>
      && s.branchLock.Some? && s.branchLock.value.ReadyToCreate()
      && exists i :: 0 <= i < |s.invoices| && Waiting(s.branchLock.value.NewBlock(), s.invoices[i].number)
    case _ => false
  }

  /** A number drawn is reserved before and issued after, and reserved no more. */
  lemma DrawMoves(s: State, device: nat)
    requires Invariant(s) && OpenBlock(s.blocks, device) < |s.blocks|
    ensures var n := s.blocks[OpenBlock(s.blocks, device)].nextUnused;
            var s' := Draw(s, device).state;
            && Reserved(s, n)
            && s'.invoices == s.invoices + [Drawn(OpenBlock(s.blocks, device), n)]
            && forall m: nat :: Reserved(s', m) <==> Reserved(s, m) && m != n
  {
    var k := OpenBlock(s.blocks, device);
    var s', n := Draw(s, device).state, s.blocks[k].nextUnused;
    assert WellFormed(s.blocks[k]) && Waiting(s.blocks[k], n);
    forall m: nat ensures Reserved(s', m) <==> Reserved(s, m) && m != n {
      if b :| 0 <= b < |s'.blocks| && Waiting(s'.blocks[b], m) {
        assert WellFormed(s.blocks[b]) && Waiting(s.blocks[b], m);
        assert b < k ==> s.blocks[b].rangeEnd < s.blocks[k].rangeStart;
        assert k < b ==> s.blocks[k].rangeEnd < s.blocks[b].rangeStart;
      }
      if b :| 0 <= b < |s.blocks| && Waiting(s.blocks[b], m) && m != n {
        assert Waiting(s'.blocks[b], m);
      }
    }
  }

  lemma DrawPromises(s: State, device: nat)
    requires Invariant(s)
    ensures Promised(Draw(s, device).state) <==> Promised(s)
  {
    if OpenBlock(s.blocks, device) < |s.blocks| {
      DrawMoves(s, device);
      var s', n := Draw(s, device).state, |s.invoices|;
      assert forall i :: 0 <= i < n ==> s'.invoices[i] == s.invoices[i];
      if Promised(s') {
        forall i | 0 <= i < n ensures !Reserved(s, s.invoices[i].number) {
          assert s'.invoices[i].number != s'.invoices[n].number && !Reserved(s', s'.invoices[i].number);
        }
      }
    }
  }

  lemma CreatePromises(s: State)
    ensures Promised(Create(s).state) <==> Promised(s) && !Breaks(s, CreateBlock)
  {
    if s.branchLock.Some? && s.branchLock.value.ReadyToCreate() {
      var s', b, n := Create(s).state, s.branchLock.value.NewBlock(), |s.blocks|;
      assert s'.blocks[n] == b && forall k :: 0 <= k < n ==> s'.blocks[k] == s.blocks[k];
      forall m: nat ensures Reserved(s', m) <==> Reserved(s, m) || Waiting(b, m) {
        if k :| 0 <= k < n && Waiting(s.blocks[k], m) {
          assert Waiting(s'.blocks[k], m);
        }
        if Waiting(b, m) {
          assert Waiting(s'.blocks[n], m);
        }
      }
    }
  }

  lemma StorePromises(s: State, order: nat)
    ensures Promised(StoreUnblocked(s, order).state) <==> Promised(s) && !Breaks(s, StoreDeviceless(order))
  {
    if order in s.numbered {
      var s', n := StoreUnblocked(s, order).state, |s.invoices|;
      assert forall i :: 0 <= i < n ==> s'.invoices[i] == s.invoices[i];
      assert forall m: nat :: Reserved(s', m) <==> Reserved(s, m);
      assert s'.invoices[n].number == s.numbered[order];
    }
  }

  /** A step keeps the promise exactly when it is not such a store or creation, and none repairs it. */
  lemma PromiseStepExactly(s: State, e: Event)
    requires Invariant(s)
    ensures Promised(Step(s, e)) <==> Promised(s) && !Breaks(s, e)
  {
    match e
    case DrawNumber(d) => DrawPromises(s, d);
    case CreateBlock => CreatePromises(s);
    case StoreDeviceless(order) => StorePromises(s, order);
    case _ => assert Step(s, e).blocks == s.blocks && Step(s, e).invoices == s.invoices;
  }

  predicate Unbroken(events: seq<Event>) {
    events != [] ==>
      Unbroken(events[..|events| - 1]) && !Breaks(Run(EMPTY, events[..|events| - 1]), events[|events| - 1])
  }

  /** Over whole runs: the numbers are distinct and the blocks untouched if and only if no step of the run
      was one of those. */
  lemma {:induction false} PromiseExactly(events: seq<Event>)
    ensures Promised(Run(EMPTY, events)) <==> Unbroken(events)
  {
    if events != [] {
      var front := events[..|events| - 1];
      PromiseExactly(front);
      FromEmpty(front);
      PromiseStepExactly(Run(EMPTY, front), events[|events| - 1]);
    }
  }

  /** An order without a device stores no number issued or reserved, and none at all between an allocation's
      reading of the invoices and its creation of the block. */
  predicate QuietStep(s: State, e: Event) {
    e.StoreDeviceless? ==> !Breaks(s, e) && (s.branchLock.Some? ==> s.branchLock.value.highestInvoice.None?)
  }

  predicate Quiet(events: seq<Event>) {
    events != [] ==>
      Quiet(events[..|events| - 1]) && QuietStep(Run(EMPTY, events[..|events| - 1]), events[|events| - 1])
  }

  /** What the allocation has read still bounds every number issued. */
  predicate ReadIsCurrent(s: State) {
    s.branchLock.Some? && s.branchLock.value.highestInvoice.Some? ==>
      forall i :: 0 <= i < |s.invoices| ==>
        s.invoices[i].number <= Max(s.branchLock.value.highestBlock, s.branchLock.value.highestInvoice.value)
  }

  lemma StepKeepsRead(s: State, e: Event)
    requires Invariant(s) && ReadIsCurrent(s)
    requires QuietStep(s, e)
    ensures !Breaks(s, e)
    ensures ReadIsCurrent(Step(s, e))
  {
    match e
    case ReadHighest => HighestNumberIsHighest(s.invoices);
    case DrawNumber(d) =>
      var k := OpenBlock(s.blocks, d);
      HighestEndIsHighest(s.blocks);
      assert k < |s.blocks| ==> WellFormed(s.blocks[k]);
    case _ =>
  }

  /** In a quiet run no creation breaks the promise, so all invoice numbers are distinct, drawn or not. */
  lemma {:induction false} QuietRunsPromise(events: seq<Event>)
    requires Quiet(events)
    ensures ReadIsCurrent(Run(EMPTY, events)) && Unbroken(events)
    ensures Promised(Run(EMPTY, events)) && AllDistinct(Run(EMPTY, events).invoices)
  {
    PromiseExactly(events);
    if events != [] {
      var front, e := events[..|events| - 1], events[|events| - 1];
      QuietRunsPromise(front);
      FromEmpty(front);
      StepKeepsRead(Run(EMPTY, front), e);
    }
  }

  lemma Then(events: seq<Event>, e: Event)
    ensures Run(EMPTY, events + [e]) == Step(Run(EMPTY, events), e)
  {
    assert (events + [e])[..|events|] == events;
  }

  lemma AfterReading()
    ensures Run(EMPTY, [BeginAllocation(7, BLOCK_SIZE), ReadHighest])
         == State([], [], Some(Allocation(7, BLOCK_SIZE, 0, Some(0))), map[])
  {
    Then([], BeginAllocation(7, BLOCK_SIZE));
    Then([BeginAllocation(7, BLOCK_SIZE)], ReadHighest);
    assert [] + [BeginAllocation(7, BLOCK_SIZE)] == [BeginAllocation(7, BLOCK_SIZE)];
  }

  /** Both breaks happen. An order without a device takes the number a block has waiting, and the device
      draws it again. */
  lemma ReservedNumberTaken() returns (events: seq<Event>)
    ensures Run(EMPTY, events).invoices == [Unblocked(1), Drawn(0, 1)]
  {
    AfterReading();
    var e2 := [BeginAllocation(7, BLOCK_SIZE), ReadHighest];
    var e3 := e2 + [CreateBlock];
    var e4 := e3 + [ReadDeviceless(1)];
    var e5 := e4 + [StoreDeviceless(1)];
    events := e5 + [DrawNumber(7)];
    Then(e2, CreateBlock);
    Then(e3, ReadDeviceless(1));
    Then(e4, StoreDeviceless(1));
    Then(e5, DrawNumber(7));
    assert Run(EMPTY, e5) == State([Block(7, 1, BLOCK_SIZE, 1, false)], [Unblocked(1)], None, map[]);
  }

  lemma UnbrokenThen(events: seq<Event>, e: Event)
    requires Unbroken(events) && !Breaks(Run(EMPTY, events), e)
    ensures Unbroken(events + [e])
  {
    assert (events + [e])[..|events|] == events;
  }

  /** Or it stores its number while the block that will hold it is being allocated. */
  lemma NumberLandsInNewBlock() returns (events: seq<Event>)
    ensures Run(EMPTY, events).invoices == [Unblocked(1), Drawn(0, 1)]
    ensures |events| == 6 && events[4] == CreateBlock && Unbroken(events[..4])
  {
    AfterReading();
    var e2 := [BeginAllocation(7, BLOCK_SIZE), ReadHighest];
    var e3 := e2 + [ReadDeviceless(1)];
    var e4 := e3 + [StoreDeviceless(1)];
    var e5 := e4 + [CreateBlock];
    events := e5 + [DrawNumber(7)];
    Then(e2, ReadDeviceless(1));
    Then(e3, StoreDeviceless(1));
    Then(e4, CreateBlock);
    Then(e5, DrawNumber(7));
    UnbrokenThen([], BeginAllocation(7, BLOCK_SIZE));
    UnbrokenThen([BeginAllocation(7, BLOCK_SIZE)], ReadHighest);
    UnbrokenThen(e2, ReadDeviceless(1));
    assert !Issued(Run(EMPTY, e3), 1) && !Reserved(Run(EMPTY, e3), 1);
    UnbrokenThen(e3, StoreDeviceless(1));
    assert [] + [BeginAllocation(7, BLOCK_SIZE)] == [BeginAllocation(7, BLOCK_SIZE)];
    assert [BeginAllocation(7, BLOCK_SIZE)] + [ReadHighest] == e2;
    assert events[..4] == e4;
    assert Run(EMPTY, e5) == State([Block(7, 1, BLOCK_SIZE, 1, false)], [Unblocked(1)], None, map[]);
  }

  /** Two orders without a device also collide when both read before either stores. */
  lemma TwoUnblockedCollide() returns (events: seq<Event>)
    ensures Run(EMPTY, events).invoices == [Unblocked(1), Unblocked(1)]
  {
    var e1 := [ReadDeviceless(1)];
    var e2 := e1 + [ReadDeviceless(2)];
    var e3 := e2 + [StoreDeviceless(1)];
    events := e3 + [StoreDeviceless(2)];
    Then([], ReadDeviceless(1));
    assert [] + [ReadDeviceless(1)] == e1;
    Then(e1, ReadDeviceless(2));
    Then(e2, StoreDeviceless(1));
    Then(e3, StoreDeviceless(2));
    assert Run(EMPTY, e2) == State([], [], None, map[1 := 1, 2 := 1]);
  }

  // ---- what each operation does, number by number ----

  /** The highest number stored, zero without one. */
  predicate IsHighest(numbers: seq<nat>, n: nat) {
    if numbers == [] then n == 0 else n in numbers && forall m <- numbers :: m <= n
  }

  function Numbers(invoices: seq<Invoice>): seq<nat> {
    seq(|invoices|, i requires 0 <= i < |invoices| => invoices[i].number)
  }

  function Ends(blocks: seq<Block>): seq<nat> {
    seq(|blocks|, i requires 0 <= i < |blocks| => blocks[i].rangeEnd)
  }

  lemma {:induction false} HighestNumberExactly(invoices: seq<Invoice>)
    ensures IsHighest(Numbers(invoices), HighestNumber(invoices))
  {
    if invoices != [] {
      var init, last := invoices[..|invoices| - 1], invoices[|invoices| - 1];
      HighestNumberExactly(init);
      assert Numbers(invoices) == Numbers(init) + [last.number];
    }
  }

  lemma {:induction false} HighestEndExactly(blocks: seq<Block>)
    ensures IsHighest(Ends(blocks), HighestEnd(blocks))
  {
    if blocks != [] {
      var init, last := blocks[..|blocks| - 1], blocks[|blocks| - 1];
      HighestEndExactly(init);
      assert Ends(blocks) == Ends(init) + [last.rangeEnd];
    }
  }

  /** An order without a device reads one more than the highest number stored, and stores its invoice under it. */
  lemma UnblockedExactly(s: State, order: nat, highest: nat)
    requires IsHighest(Numbers(s.invoices), highest)
    ensures var read := ReadUnblocked(s, order);
            && read == s.(numbered := s.numbered[order := highest + 1])
            && StoreUnblocked(read, order).error.None?
            && StoreUnblocked(read, order).state
               == read.(numbered := read.numbered - {order}, invoices := s.invoices + [Unblocked(highest + 1)])
    ensures order !in s.numbered ==> StoreUnblocked(s, order) == Outcome(s, Some(NotNumbered))
  {
    HighestNumberExactly(s.invoices);
  }

  /** An allocation with nothing in between adds one unused block of the size asked for, for that device, starting one
      above the highest end of a block and the highest number stored; none of size below one. */
  lemma AllocatesExactly(s: State, device: nat, size: int, end: nat, number: nat)
    requires s.branchLock.None? && IsHighest(Ends(s.blocks), end) && IsHighest(Numbers(s.invoices), number)
    ensures var s' := Step(Step(Step(s, BeginAllocation(device, size)), ReadHighest), CreateBlock);
            var start := 1 + if end >= number then end else number;
            s' == if size < 1 then s
                  else s.(blocks := s.blocks + [Block(device, start, start + size - 1, start, false)])
  {
    HighestNumberExactly(s.invoices);
    HighestEndExactly(s.blocks);
  }

  /** An allocation waits while another holds the branch, and creates nothing it has not read for. */
  lemma AllocationRefusals(s: State, device: nat, size: int)
    ensures Begin(s, device, size).error == Some(Blocked) <==> s.branchLock.Some?
    ensures Begin(s, device, size).error.Some? ==> Begin(s, device, size).state == s
    ensures ReadInvoices(s).error.Some? ==> ReadInvoices(s).state == s
    ensures Create(s).error == Some(NotAllocating) <==> s.branchLock.None? || s.branchLock.value.highestInvoice.None?
    ensures Create(s).error == Some(RangeNotOrdered)
       <==> s.branchLock.Some? && s.branchLock.value.highestInvoice.Some? && s.branchLock.value.size < 1
    ensures Create(s).error.Some? ==> Create(s).state.blocks == s.blocks
  {
  }

  /** A draw takes the next unused number of the device's first block not exhausted, which is exhausted by its last;
      without such a block it takes none. */
  lemma DrawsExactly(s: State, device: nat, k: nat)
    requires k < |s.blocks| && s.blocks[k].device == device && !s.blocks[k].exhausted
    requires forall i :: 0 <= i < k ==> s.blocks[i].device != device || s.blocks[i].exhausted
    ensures var b, o := s.blocks[k], Draw(s, device);
            && o.error.None?
            && o.state == s.(invoices := s.invoices + [Drawn(k, b.nextUnused)],
                             blocks := s.blocks[k := Block(b.device, b.rangeStart, b.rangeEnd, b.nextUnused + 1,
                                                           b.nextUnused + 1 > b.rangeEnd)])
  {
    var open := OpenBlock(s.blocks, device);
    assert open == k;
  }

  lemma DrawRefusedExactly(s: State, device: nat)
    ensures Draw(s, device) == Outcome(s, Some(NoOpenBlock))
       <==> forall i :: 0 <= i < |s.blocks| ==> s.blocks[i].device != device || s.blocks[i].exhausted
  {
    var k := OpenBlock(s.blocks, device);
    if k < |s.blocks| {
      assert Draw(s, device).error.None?;
    }
  }

  /** Every number of a block below its next unused one has been drawn from it. */
  predicate NoneSkipped(s: State) {
    forall k, n :: 0 <= k < |s.blocks| && s.blocks[k].rangeStart <= n < s.blocks[k].nextUnused ==>
        Drawn(k, n) in s.invoices
  }

  lemma StepSkipsNone(s: State, e: Event)
    requires NoneSkipped(s)
    ensures NoneSkipped(Step(s, e))
  {
    var s' := Step(s, e);
    assert s.invoices <= s'.invoices;
    if e.DrawNumber? {
      var k := OpenBlock(s.blocks, e.device);
      if k < |s.blocks| {
        assert s'.invoices[|s.invoices|] == Drawn(k, s.blocks[k].nextUnused);
      }
    }
  }

  /** Over every run a block's numbers are drawn one after the other from its start, none skipped and none twice. */
  lemma {:induction false} DrawnWithoutGaps(events: seq<Event>)
    ensures var s := Run(EMPTY, events); NoneSkipped(s) && DrawnInside(s) && DrawnDistinct(s.invoices)
  {
    if events != [] {
      DrawnWithoutGaps(events[..|events| - 1]);
      StepSkipsNone(Run(EMPTY, events[..|events| - 1]), events[|events| - 1]);
    }
    FromEmpty(events);
  }

  /** In any state whatever, a gap is reported exactly for a block marked exhausted that has numbers unused: those from
      its next unused to its last. */
  lemma {:induction false} GapsExactly(blocks: seq<Block>, g: Gap)
    ensures g in Gaps(blocks)
       <==> exists b <- blocks :: b.exhausted && b.nextUnused <= b.rangeEnd
                                  && g == Gap(b.nextUnused, b.rangeEnd, b.rangeEnd - b.nextUnused + 1)
  {
    if blocks != [] {
      var init, last := blocks[..|blocks| - 1], blocks[|blocks| - 1];
      GapsExactly(init, g);
      assert blocks == init + [last];
    }
  }
}
