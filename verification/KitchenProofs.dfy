/** What firing and the ticket lifecycle guarantee over whole runs of one order. */
module KitchenProofs {
  import opened Wrappers
  import OrderState
  import opened Kitchen

  function FiringOf(e: Event): Firing
    requires e.action.FireOrder?
  {
    Firing(e.action.autoAccept, e.at, e.action.delays)
  }

  /** The ticket an action moves, and where to. */
  function Moved(s: State, a: Action): Option<(nat, TicketStatus)> {
    match a
    case TransitionTicket(k, target) => Some((k, target))
    case RecallTicket(request, _, _) =>
      if request in s.recalls then Some((s.recalls[request].ticket, PREPARING)) else None
    case _ => None
  }

  /** A ticket event either moves its ticket or leaves the order as it was. */
  lemma MovedOrSame(s: State, e: Event)
    requires OnTickets(e.action)
    ensures var s' := Step(s, e).state;
            && s'.items == s.items
            && if Moved(s, e.action).Some? && Step(s, e).error.None?
               then var (k, target) := Moved(s, e.action).value;
                    var t := Transition(s, k, target, e.at);
                    t.error.None? && k < |s.tickets| && s'.tickets == t.state.tickets && s'.status == t.state.status
               else s'.tickets == s.tickets && s'.status == s.status
  {
  }

  predicate OnTickets(a: Action) {
    a.TransitionTicket? || a.LoadTicket? || a.RecallTicket?
  }

  // ---- fire-once routing ----

  function Occurs(ids: seq<nat>, i: nat): nat {
    if ids == [] then 0 else Occurs(ids[..|ids| - 1], i) + if ids[|ids| - 1] == i then 1 else 0
  }

  function LinesFor(lines: seq<Line>, i: nat): nat {
    if lines == [] then 0 else LinesFor(lines[..|lines| - 1], i) + if lines[|lines| - 1].item == i then 1 else 0
  }

  /** How many ticket lines name item i. */
  function Count(tickets: seq<Ticket>, i: nat): nat {
    if tickets == [] then 0 else Count(tickets[..|tickets| - 1], i) + LinesFor(tickets[|tickets| - 1].lines, i)
  }

  lemma {:induction false} OccursPending(items: seq<Item>, n: nat, i: nat)
    requires n <= |items|
    ensures Occurs(Pending(items, n), i) == if i < n && items[i].IsPending() then 1 else 0
  {
    if n > 0 {
      OccursPending(items, n - 1, i);
      var rest := Pending(items, n - 1);
      assert (rest + [n - 1])[..|rest|] == rest;
    }
  }

  lemma {:induction false} OccursItemsAt(items: seq<Item>, ids: seq<nat>, station: Option<nat>, i: nat)
    requires Within(items, ids) && i < |items|
    ensures Occurs(ItemsAt(items, ids, station), i) == if items[i].station == station then Occurs(ids, i) else 0
  {
    if ids != [] {
      var rest := ItemsAt(items, ids[..|ids| - 1], station);
      OccursItemsAt(items, ids[..|ids| - 1], station, i);
      assert (rest + [ids[|ids| - 1]])[..|rest|] == rest;
    }
  }

  lemma {:induction false} LinesForLinesOf(items: seq<Item>, ids: seq<nat>, i: nat)
    requires Within(items, ids)
    ensures LinesFor(LinesOf(items, ids), i) == Occurs(ids, i)
  {
    if ids != [] {
      LinesForLinesOf(items, ids[..|ids| - 1], i);
      var rest := LinesOf(items, ids[..|ids| - 1]);
      assert (rest + [LineOf(items, ids[|ids| - 1])])[..|rest|] == rest;
    }
  }

  lemma {:induction false} CountAppend(a: seq<Ticket>, b: seq<Ticket>, i: nat)
    ensures Count(a + b, i) == Count(a, i) + Count(b, i)
  {
    if b == [] {
      assert a + b == a;
    } else {
      assert (a + b)[..|a + b| - 1] == a + b[..|b| - 1];
      CountAppend(a, b[..|b| - 1], i);
    }
  }

  lemma {:induction false} CountUpdate(a: seq<Ticket>, k: nat, t: Ticket, i: nat)
    requires k < |a| && t.lines == a[k].lines
    ensures Count(a[k := t], i) == Count(a, i)
  {
    var n := |a| - 1;
    if k == n {
      assert a[k := t][..n] == a[..n];
    } else {
      assert a[k := t][..n] == a[..n][k := t];
      CountUpdate(a[..n], k, t, i);
    }
  }

  predicate Distinct(s: seq<nat>) {
    forall j, k :: 0 <= j < k < |s| ==> s[j] != s[k]
  }

  lemma {:induction false} StationsDistinct(items: seq<Item>, ids: seq<nat>)
    requires Within(items, ids)
    ensures Distinct(StationsOf(items, ids))
  {
    if ids != [] {
      StationsDistinct(items, ids[..|ids| - 1]);
    }
  }

  /** A station is listed exactly when one of the items is made there. */
  lemma {:induction false} StationListed(items: seq<Item>, ids: seq<nat>, station: nat)
    requires Within(items, ids)
    ensures station in StationsOf(items, ids) <==> ItemsAt(items, ids, Some(station)) != []
  {
    if ids != [] {
      StationListed(items, ids[..|ids| - 1], station);
    }
  }

  lemma {:induction false} CountTicketsFor(items: seq<Item>, ids: seq<nat>, stations: seq<nat>, f: Firing, i: nat)
    requires Within(items, ids) && Distinct(stations) && i < |items|
    ensures Count(TicketsFor(items, ids, stations, f), i)
         == if items[i].station.Some? && items[i].station.value in stations then Occurs(ids, i) else 0
  {
    if stations != [] {
      var n := |stations| - 1;
      var front, at := stations[..n], ItemsAt(items, ids, Some(stations[n]));
      CountTicketsFor(items, ids, front, f, i);
      LinesForLinesOf(items, at, i);
      OccursItemsAt(items, ids, Some(stations[n]), i);
      var rest := TicketsFor(items, ids, front, f);
      var tickets := TicketsFor(items, ids, stations, f);
      assert tickets[..|tickets| - 1] == rest;
      assert stations == front + [stations[n]];
    }
  }

  lemma {:induction false} OccursMeansIn(ids: seq<nat>, i: nat)
    ensures Occurs(ids, i) > 0 <==> i in ids
  {
    if ids != [] {
      OccursMeansIn(ids[..|ids| - 1], i);
      assert ids == ids[..|ids| - 1] + [ids[|ids| - 1]];
    }
  }

  lemma LinesForBeyond(items: seq<Item>, f: Firing, i: nat)
    requires i >= |items|
    ensures Count(Route(items, f).tickets, i) == 0
  {
    var ids := Pending(items, |items|);
    CountBeyond(items, ids, StationsOf(items, ids), f, i);
  }

  lemma {:induction false} CountBeyond(items: seq<Item>, ids: seq<nat>, stations: seq<nat>, f: Firing, i: nat)
    requires Within(items, ids) && i >= |items|
    ensures Count(TicketsFor(items, ids, stations, f), i) == 0
  {
    if stations != [] {
      var n := |stations| - 1;
      CountBeyond(items, ids, stations[..n], f, i);
      var at := ItemsAt(items, ids, Some(stations[n]));
      LinesForLinesOf(items, at, i);
      OccursMeansIn(at, i);
      var tickets := TicketsFor(items, ids, stations, f);
      assert tickets[..|tickets| - 1] == TicketsFor(items, ids, stations[..n], f);
    }
  }

  /** One firing splits the items not yet sent exactly into ticketed and reported: each is on one new
      line if it has a station and among the reported ones if not, and no other item is touched. */
  lemma FiringSplits(items: seq<Item>, f: Firing, i: nat)
    requires i < |items|
    ensures var reported := ItemsAt(items, Pending(items, |items|), None);
            && Count(Route(items, f).tickets, i) == (if items[i].IsPending() && items[i].station.Some? then 1 else 0)
            && Occurs(reported, i) == (if items[i].IsPending() && items[i].station.None? then 1 else 0)
            && |Route(items, f).unrouted| == |reported|
            && forall k :: 0 <= k < |reported| ==> Route(items, f).unrouted[k] == items[reported[k]].name
  {
    var ids := Pending(items, |items|);
    OccursPending(items, |items|, i);
    OccursItemsAt(items, ids, None, i);
    StationsDistinct(items, ids);
    CountTicketsFor(items, ids, StationsOf(items, ids), f, i);
    if items[i].IsPending() && items[i].station.Some? {
      var station := items[i].station.value;
      StationListed(items, ids, station);
      OccursItemsAt(items, ids, Some(station), i);
      OccursMeansIn(ItemsAt(items, ids, Some(station)), i);
    }
  }

  lemma {:induction false} TicketsForAt(items: seq<Item>, ids: seq<nat>, stations: seq<nat>, f: Firing, k: nat)
    requires Within(items, ids) && k < |stations|
    ensures |TicketsFor(items, ids, stations, f)| == |stations|
    ensures TicketsFor(items, ids, stations, f)[k]
         == NewTicket(stations[k], f, LinesOf(items, ItemsAt(items, ids, Some(stations[k]))))
  {
    var n := |stations| - 1;
    if n > 0 {
      TicketsForAt(items, ids, stations[..n], f, if k < n then k else 0);
    }
  }

  lemma {:induction false} LinesOfAt(items: seq<Item>, ids: seq<nat>, j: nat)
    requires Within(items, ids) && j < |ids|
    ensures |LinesOf(items, ids)| == |ids| && LinesOf(items, ids)[j] == LineOf(items, ids[j])
  {
    var n := |ids| - 1;
    if n > 0 {
      LinesOfAt(items, ids[..n], if j < n then j else 0);
    }
  }

  /** A new ticket is one station's: no two share a station, none is empty, and each line copies the
      name and quantity of an item made there. */
  lemma OneTicketPerStation(items: seq<Item>, f: Firing, k: nat)
    requires k < |Route(items, f).tickets|
    ensures var tickets := Route(items, f).tickets;
            var t := tickets[k];
            && (forall j :: 0 <= j < |tickets| && j != k ==> tickets[j].station != t.station)
            && t.lines != []
            && (forall l <- t.lines ::
                  l.item < |items| && l == LineOf(items, l.item) && items[l.item].station == Some(t.station))
            && t == NewTicket(t.station, f, t.lines) && f.now <= t.createdAt
            && t.status == (if t.station in f.autoAccept then ACCEPTED else NEW)
            && t.acceptedAt == (if t.station in f.autoAccept then Some(f.now) else None)
  {
    var ids := Pending(items, |items|);
    var stations := StationsOf(items, ids);
    var tickets := Route(items, f).tickets;
    TicketCount(items, ids, stations, f);
    TicketsForAt(items, ids, stations, f, k);
    StationsDistinct(items, ids);
    forall j | 0 <= j < |tickets| && j != k ensures tickets[j].station != tickets[k].station {
      TicketsForAt(items, ids, stations, f, j);
    }
    StationListed(items, ids, stations[k]);
    var at := ItemsAt(items, ids, Some(stations[k]));
    LinesOfAt(items, at, 0);
    forall l | l in tickets[k].lines
      ensures l.item < |items| && l == LineOf(items, l.item) && items[l.item].station == Some(tickets[k].station)
    {
      var j :| 0 <= j < |tickets[k].lines| && tickets[k].lines[j] == l;
      LinesOfAt(items, at, j);
    }
  }

  lemma {:induction false} TicketCount(items: seq<Item>, ids: seq<nat>, stations: seq<nat>, f: Firing)
    requires Within(items, ids)
    ensures |TicketsFor(items, ids, stations, f)| == |stations|
  {
    if stations != [] {
      TicketsForAt(items, ids, stations, f, 0);
    }
  }

  /** Item i is on exactly one ticket line if it was sent and has a station, and on none otherwise. */
  predicate SentOnce(s: State, i: nat) {
    Count(s.tickets, i) == if i < |s.items| && s.items[i].firedAt.Some? && s.items[i].station.Some? then 1 else 0
  }

  predicate OwnStation(s: State) {
    forall k :: 0 <= k < |s.tickets| ==> LinesBelong(s.items, s.tickets[k])
  }

  predicate LinesBelong(items: seq<Item>, t: Ticket) {
    forall l <- t.lines :: l.item < |items| && items[l.item].station == Some(t.station)
  }

  lemma FirePending(s: State, i: nat)
    requires i < |s.items|
    ensures i in Pending(s.items, |s.items|) <==> s.items[i].IsPending()
  {
    OccursPending(s.items, |s.items|, i);
    OccursMeansIn(Pending(s.items, |s.items|), i);
  }

  lemma RoutingSendsOnce(s: State, f: Firing, i: nat)
    requires SentOnce(s, i)
    ensures SentOnce(Routed(s, f), i)
  {
    CountAppend(s.tickets, Route(s.items, f).tickets, i);
    if i < |s.items| {
      FiringSplits(s.items, f, i);
      FirePending(s, i);
    } else {
      LinesForBeyond(s.items, f, i);
    }
  }

  lemma ItemsSendOnce(s: State, s': State, i: nat)
    requires SentOnce(s, i) && s'.tickets == s.tickets && |s.items| <= |s'.items|
    requires forall j :: 0 <= j < |s.items| ==>
             s'.items[j].firedAt == s.items[j].firedAt && s'.items[j].station == s.items[j].station
    requires forall j :: |s.items| <= j < |s'.items| ==> s'.items[j].firedAt.None?
    ensures SentOnce(s', i)
  {
  }

  lemma FiringSendsOnce(s: State, f: Firing, i: nat)
    requires SentOnce(s, i)
    ensures SentOnce(Fire(s, f).state, i)
  {
    RoutingSendsOnce(s, f, i);
  }

  lemma StepSendsOnce(s: State, e: Event, i: nat)
    requires SentOnce(s, i)
    ensures SentOnce(Step(s, e).state, i)
  {
    if e.action.FireOrder? {
      FiringSendsOnce(s, FiringOf(e), i);
    } else if OnTickets(e.action) {
      MovedOrSame(s, e);
      if Moved(s, e.action).Some? && Step(s, e).error.None? {
        var (k, target) := Moved(s, e.action).value;
        MoveCounts(s, k, target, e.at, i);
      }
    } else {
      ItemsSendOnce(s, Step(s, e).state, i);
    }
  }

  lemma MoveCounts(s: State, k: nat, target: TicketStatus, now: int, i: nat)
    ensures Count(Transition(s, k, target, now).state.tickets, i) == Count(s.tickets, i)
  {
    if k < |s.tickets| && Move(s.tickets[k], target, now).Ok? {
      CountUpdate(s.tickets, k, Move(s.tickets[k], target, now).value, i);
    }
  }

  lemma FiringKeepsStations(s: State, f: Firing)
    requires OwnStation(s)
    ensures OwnStation(Routed(s, f))
  {
    var s', made := Routed(s, f), Route(s.items, f).tickets;
    forall k | 0 <= k < |s'.tickets| ensures LinesBelong(s'.items, s'.tickets[k]) {
      if k < |s.tickets| {
        assert LinesBelong(s.items, s.tickets[k]);
      } else {
        OneTicketPerStation(s.items, f, k - |s.tickets|);
      }
    }
  }

  lemma StepKeepsStations(s: State, e: Event)
    requires OwnStation(s)
    ensures OwnStation(Step(s, e).state)
  {
    if e.action.FireOrder? {
      FiringKeepsStations(s, FiringOf(e));
    } else {
      var s' := Step(s, e).state;
      forall k | 0 <= k < |s'.tickets| ensures LinesBelong(s'.items, s'.tickets[k]) {
        assert LinesBelong(s.items, s.tickets[k]);
      }
    }
  }

  /** Over every run of item changes, firings, ticket moves and payments, an item is on exactly one ticket
      line once sent with a station, on none before or without one, and only on its own station's. */
  lemma {:induction false} EachItemSentOnce(s: State, events: seq<Event>, i: nat)
    requires SentOnce(s, i) && OwnStation(s)
    ensures SentOnce(Run(s, events), i) && OwnStation(Run(s, events))
  {
    if events != [] {
      var before := Run(s, events[..|events| - 1]);
      EachItemSentOnce(s, events[..|events| - 1], i);
      StepSendsOnce(before, events[|events| - 1], i);
      StepKeepsStations(before, events[|events| - 1]);
    }
  }

  lemma {:induction false} NothingPending(items: seq<Item>, n: nat)
    requires n <= |items| && forall i :: 0 <= i < n ==> !items[i].IsPending()
    ensures Pending(items, n) == []
  {
    if n > 0 {
      NothingPending(items, n - 1);
    }
  }

  /** A second firing makes no ticket, reports nothing and changes nothing, whenever it comes, as long as
      no item was added in between: voiding items, changing quantities, moving tickets and payments
      leave nothing to send. */
  lemma {:induction false} SecondFiringEmpty(s: State, f: Firing, between: seq<Event>, again: Firing)
    requires Fire(s, f).error.None?
    requires forall j :: 0 <= j < |between| ==> !between[j].action.AddItem?
    ensures var t := Run(Fire(s, f).state, between);
            && Route(t.items, again) == Routing([], [])
            && Routed(t, again) == t
            && Fire(t, again).error.Some? && Fire(t, again).state == t
  {
    var t := Run(Fire(s, f).state, between);
    forall i | 0 <= i < |s.items| ensures !Fire(s, f).state.items[i].IsPending() {
      FirePending(s, i);
    }
    StaysSent(Fire(s, f).state, between);
    NothingPending(t.items, |t.items|);
    assert MarkFired(t.items, [], again.now) == t.items;
  }

  lemma {:induction false} StaysSent(s: State, events: seq<Event>)
    requires forall i :: 0 <= i < |s.items| ==> !s.items[i].IsPending()
    requires forall j :: 0 <= j < |events| ==> !events[j].action.AddItem?
    ensures forall i :: 0 <= i < |Run(s, events).items| ==> !Run(s, events).items[i].IsPending()
  {
    if events != [] {
      StaysSent(s, events[..|events| - 1]);
      assert !events[|events| - 1].action.AddItem?;
    }
  }

  // ---- the ticket lifecycle ----

  /** What a ticket's stamps say about its status. */
  predicate Dated(t: Ticket) {
    && (t.readyAt.Some? <==> t.IsDone()) && (t.prepSeconds.Some? <==> t.IsDone())
    && (t.IsDone() ==> 0 <= t.prepSeconds.value == Seconds(t.readyAt.value - t.createdAt))
    && (t.status == NEW ==> t.acceptedAt.None?) && (t.status == ACCEPTED ==> t.acceptedAt.Some?)
    && (t.status in {NEW, ACCEPTED} ==> t.startedAt.None?)
    && (t.status in {PREPARING, READY, SERVED} ==> t.startedAt.Some?)
    && (t.status == SERVED ==> t.servedAt.Some?)
  }

  predicate AllDated(s: State) {
    forall k :: 0 <= k < |s.tickets| ==> Dated(s.tickets[k])
  }

  lemma TransitionDates(s: State, k: nat, target: TicketStatus, now: int)
    requires AllDated(s)
    ensures AllDated(Transition(s, k, target, now).state)
  {
    assert k < |s.tickets| ==> Dated(s.tickets[k]);
  }

  lemma FireDates(s: State, f: Firing)
    requires AllDated(s)
    ensures AllDated(Fire(s, f).state)
  {
    var ids := Pending(s.items, |s.items|);
    var stations := StationsOf(s.items, ids);
    TicketCount(s.items, ids, stations, f);
    forall k | 0 <= k < |stations| ensures Dated(TicketsFor(s.items, ids, stations, f)[k]) {
      TicketsForAt(s.items, ids, stations, f, k);
    }
  }

  lemma StepDates(s: State, e: Event)
    requires AllDated(s)
    ensures AllDated(Step(s, e).state)
  {
    if e.action.FireOrder? {
      FireDates(s, FiringOf(e));
    } else if OnTickets(e.action) {
      MovedOrSame(s, e);
      if Moved(s, e.action).Some? && Step(s, e).error.None? {
        var (k, target) := Moved(s, e.action).value;
        TransitionDates(s, k, target, e.at);
      }
    } else {
      assert Step(s, e).state.tickets == s.tickets;
    }
  }

  /** In every run, even under a clock that jumps, the ready time and the preparation time are set exactly
      while a ticket is READY or SERVED, and the latter is the whole seconds from creation to readiness. */
  lemma {:induction false} StampsTellTheStatus(s: State, events: seq<Event>)
    requires AllDated(s)
    ensures AllDated(Run(s, events))
  {
    if events != [] {
      StampsTellTheStatus(s, events[..|events| - 1]);
      StepDates(Run(s, events[..|events| - 1]), events[|events| - 1]);
    }
  }

  /** The same with the stamps in the order of the ticket's life, none later than the clock. */
  predicate Stamped(t: Ticket, clock: int) {
    && Dated(t)
    && (t.status == SERVED ==> t.readyAt.value <= t.servedAt.value)
    && t.createdAt <= clock
    && (t.acceptedAt.Some? ==> t.acceptedAt.value <= clock)
    && (t.startedAt.Some? ==> t.createdAt <= t.startedAt.value <= clock)
    && (t.startedAt.Some? && t.acceptedAt.Some? ==> t.acceptedAt.value <= t.startedAt.value)
    && (t.servedAt.Some? ==> t.startedAt.Some? && t.startedAt.value <= t.servedAt.value <= clock)
    && (t.IsDone() ==> t.startedAt.value <= t.readyAt.value <= clock)
  }

  predicate AllStamped(s: State, clock: int) {
    forall k :: 0 <= k < |s.tickets| ==> Stamped(s.tickets[k], clock)
  }

  /** An event reads the clock at its start and stamps nothing later than its end. */
  predicate Spans(e: Event) {
    e.at <= e.until &&
    (e.action.FireOrder? ==> forall station <- e.action.delays :: e.at + e.action.delays[station] <= e.until)
  }

  /** Each event begins when the one before it has ended, the first no earlier than the clock. */
  predicate Timely(events: seq<Event>, clock: int) {
    events != [] ==>
      var front, e := events[..|events| - 1], events[|events| - 1];
      Timely(front, clock) && LastTime(front, clock) <= e.at && Spans(e)
  }

  function LastTime(events: seq<Event>, clock: int): int {
    if events == [] then clock else events[|events| - 1].until
  }

  lemma MoveStamps(t: Ticket, clock: int, target: TicketStatus, now: int)
    requires Stamped(t, clock) && clock <= now
    ensures target in AllowedTransitions(t.status) <==> Move(t, target, now).Ok?
    ensures Move(t, target, now).Ok? ==> Stamped(Move(t, target, now).value, now)
  {
  }

  lemma TransitionStamps(s: State, clock: int, k: nat, target: TicketStatus, now: int)
    requires AllStamped(s, clock) && clock <= now
    ensures AllStamped(Transition(s, k, target, now).state, now)
    ensures k < |s.tickets| ==> Transition(s, k, target, now).error != Some(NegativePrepTime)
  {
    if k < |s.tickets| {
      MoveStamps(s.tickets[k], clock, target, now);
    }
    Later(s, clock, now);
  }

  lemma FireStamps(s: State, clock: int, f: Firing, until: int)
    requires AllStamped(s, clock) && clock <= f.now <= until
    requires forall station <- f.delays :: f.now + f.delays[station] <= until
    ensures AllStamped(Fire(s, f).state, until)
  {
    var ids := Pending(s.items, |s.items|);
    var stations := StationsOf(s.items, ids);
    var made := TicketsFor(s.items, ids, stations, f);
    TicketCount(s.items, ids, stations, f);
    forall k | 0 <= k < |made| ensures Stamped(made[k], until) {
      TicketsForAt(s.items, ids, stations, f, k);
      assert f.CreatedAt(stations[k]) <= until;
    }
    Later(s, clock, until);
  }

  lemma Later(s: State, clock: int, now: int)
    requires AllStamped(s, clock) && clock <= now
    ensures AllStamped(s, now)
  {
    forall j | 0 <= j < |s.tickets| ensures Stamped(s.tickets[j], now) {
      assert Stamped(s.tickets[j], clock);
    }
  }

  lemma StepStamps(s: State, clock: int, e: Event)
    requires AllStamped(s, clock) && clock <= e.at && Spans(e)
    ensures AllStamped(Step(s, e).state, e.until)
    ensures Step(s, e).error != Some(NegativePrepTime)
  {
    if e.action.FireOrder? {
      FireStamps(s, clock, FiringOf(e), e.until);
    } else if e.action.TransitionTicket? {
      TransitionStamps(s, clock, e.action.ticket, e.action.target, e.at);
      Later(Step(s, e).state, e.at, e.until);
    } else if e.action.RecallTicket? && e.action.recalling in s.recalls {
      var copy, s' := s.recalls[e.action.recalling], s.(recalls := s.recalls - {e.action.recalling});
      assert AllStamped(s', clock);
      TransitionStamps(s', clock, copy.ticket, PREPARING, e.at);
      Later(s', clock, e.at);
      Later(Step(s, e).state, e.at, e.until);
    } else {
      Later(s, clock, e.until);
      assert Step(s, e).state.tickets == s.tickets;
    }
  }

  /** While the clock does not go back, every ticket's stamps are in the order of its life, and no move the
      table allows is refused for a negative preparation time. */
  lemma {:induction false} StampsInOrder(s: State, clock: int, events: seq<Event>)
    requires AllStamped(s, clock) && Timely(events, clock)
    ensures AllStamped(Run(s, events), LastTime(events, clock))
    ensures events != [] ==> Step(Run(s, events[..|events| - 1]), events[|events| - 1]).error != Some(NegativePrepTime)
  {
    if events != [] {
      var front := events[..|events| - 1];
      StampsInOrder(s, clock, front);
      StepStamps(Run(s, front), LastTime(front, clock), events[|events| - 1]);
    }
  }

  /** An acceptance is stamped once; one stamped later is stamped no earlier than the ticket's creation. */
  predicate Accepts(t: Ticket, t': Ticket) {
    && (t.acceptedAt.Some? ==> t'.acceptedAt == t.acceptedAt)
    && (t.acceptedAt.None? && t'.acceptedAt.Some? ==> t.createdAt <= t'.acceptedAt.value)
  }

  lemma StepAccepts(s: State, clock: int, e: Event, k: nat)
    requires AllStamped(s, clock) && clock <= e.at && k < |s.tickets|
    ensures k < |Step(s, e).state.tickets| && Accepts(s.tickets[k], Step(s, e).state.tickets[k])
  {
    assert Stamped(s.tickets[k], clock);
    if OnTickets(e.action) {
      MovedOrSame(s, e);
    }
  }

  lemma {:induction false} RunAccepts(s: State, clock: int, events: seq<Event>, k: nat)
    requires AllStamped(s, clock) && Timely(events, clock) && k < |s.tickets|
    ensures k < |Run(s, events).tickets| && Accepts(s.tickets[k], Run(s, events).tickets[k])
  {
    if events != [] {
      var front := events[..|events| - 1];
      RunAccepts(s, clock, front, k);
      StampsInOrder(s, clock, front);
      TicketsAreRecords(s, front);
      StepAccepts(Run(s, front), LastTime(front, clock), events[|events| - 1], k);
    }
  }

  /** Whatever follows a firing, a ticket of a station that accepts by itself was accepted at or before its
      creation; any other is accepted, if it ever is, at or after it. */
  lemma AcceptedAroundCreation(s: State, clock: int, e: Event, events: seq<Event>, k: nat)
    requires AllStamped(s, clock) && Timely([e] + events, clock)
    requires e.action.FireOrder? && Step(s, e).error.None? && |s.tickets| <= k < |Step(s, e).state.tickets|
    ensures var tickets := Run(Step(s, e).state, events).tickets;
            && k < |tickets|
            && if tickets[k].station in e.action.autoAccept
               then tickets[k].acceptedAt == Some(e.at) && e.at <= tickets[k].createdAt
               else tickets[k].acceptedAt.Some? ==> tickets[k].createdAt <= tickets[k].acceptedAt.value
  {
    TimelyTail(e, events, clock);
    StepStamps(s, clock, e);
    OneTicketPerStation(s.items, FiringOf(e), k - |s.tickets|);
    RunAccepts(Step(s, e).state, e.until, events, k);
    TicketsAreRecords(Step(s, e).state, events);
  }

  lemma {:induction false} TimelyTail(e: Event, events: seq<Event>, clock: int)
    requires Timely([e] + events, clock)
    ensures clock <= e.at && Spans(e) && Timely(events, e.until)
  {
    if events == [] {
      assert [e] + events == [e] && [e][..0] == [];
    } else {
      assert ([e] + events)[..|events|] == [e] + events[..|events| - 1];
      TimelyTail(e, events[..|events| - 1], clock);
    }
  }

  predicate SameOrigin(t: Ticket, t': Ticket) {
    && t'.station == t.station && t'.createdAt == t.createdAt && t'.lines == t.lines
    && (t.startedAt.Some? ==> t'.startedAt == t.startedAt)
  }

  /** A ticket's station, lines and creation never change, whatever happens to the order's items, and
      its start is fixed from the first PREPARING on. */
  lemma {:induction false} TicketsAreRecords(s: State, events: seq<Event>)
    ensures |s.tickets| <= |Run(s, events).tickets|
    ensures forall k :: 0 <= k < |s.tickets| ==> SameOrigin(s.tickets[k], Run(s, events).tickets[k])
  {
    if events != [] {
      TicketsAreRecords(s, events[..|events| - 1]);
    }
  }

  /** A recall is accepted exactly when the ticket it loaded, if it was ever served, was last served within
      the window, or got ready within it if never served, and the stored ticket is neither being prepared
      nor cancelled. */
  lemma RecallExactly(s: State, request: nat, window: int, checkedAt: int, now: int)
    requires request in s.recalls && s.recalls[request].ticket < |s.tickets|
    ensures Recall(s, request, window, checkedAt, now).error.None?
       <==> && s.tickets[s.recalls[request].ticket].status !in {PREPARING, CANCELLED}
            && InWindow(s.recalls[request].row, window, checkedAt)
  {
  }

  /** Counted from the last serving or, never served, from readiness; a ticket with neither is always in time. */
  predicate InWindow(row: Ticket, window: int, at: int) {
    && (row.servedAt.Some? ==> at <= row.servedAt.value + window)
    && (row.servedAt.None? && row.readyAt.Some? ==> at <= row.readyAt.value + window)
  }

  /** The copy decides as the stored ticket would, for every window and at every moment, exactly when the
      stamp the window is counted from has not changed since it was loaded. */
  lemma CopyJudgesExactly(copy: Ticket, stored: Ticket)
    ensures (forall window: nat, at: int :: WindowElapsed(copy, window, at) == WindowElapsed(stored, window, at))
       <==> Reference(copy) == Reference(stored)
  {
    var r, r' := Reference(copy), Reference(stored);
    if r != r' {
      var later := if r.None? then r'.value + 1 else if r'.None? then r.value + 1 else Larger(r.value, r'.value);
      assert WindowElapsed(copy, 0, later) != WindowElapsed(stored, 0, later);
    }
  }

  function Larger(x: int, y: int): int {
    if x >= y then x else y
  }

  // ---- the order follows its tickets ----

  lemma GoalMeans(tickets: seq<Ticket>)
    ensures Goal(tickets) == Some(OrderState.SERVED)
       <==> && (exists t <- tickets :: t.status != CANCELLED)
            && forall t <- tickets :: t.status == CANCELLED || t.status == SERVED
    ensures Goal(tickets) in {Some(OrderState.READY), Some(OrderState.SERVED)}
       <==> (exists t <- tickets :: t.status != CANCELLED) && forall t <- tickets :: t.status == CANCELLED || t.IsDone()
    ensures Goal(tickets) == Some(OrderState.IN_KITCHEN) <==> exists t <- tickets :: t.IsOpen()
  {
  }

  /** A void that was judged on a status the order has left for one without an edge to CANCELLED. */
  predicate LateVoid(s: State, e: Event) {
    && e.action.VoidOrder? && e.action.voiding in s.voids && Voidable(s.voids[e.action.voiding])
    && s.status in {OrderState.SERVED, OrderState.PAID, OrderState.REFUNDED}
  }

  predicate TableFollowed(s: State, e: Event) {
    var status := Step(s, e).state.status;
    status == s.status || OrderState.CanTransition(s.status, status)
  }

  /** The status written follows the table exactly when it is not a late void's. */
  lemma TableExactly(s: State, e: Event)
    ensures TableFollowed(s, e) <==> !LateVoid(s, e)
  {
    if OnTickets(e.action) {
      MovedOrSame(s, e);
      assert Step(s, e).state.status in {s.status, Synced(s.status, Step(s, e).state.tickets)};
    }
  }

  /** Moving a ticket never changes a paid, cancelled or refunded order and never makes one; it makes an order
      READY only when every ticket not cancelled is READY or SERVED, SERVED only when every one is SERVED,
      and there is one. */
  lemma StatusFollowsTickets(s: State, e: Event)
    requires OnTickets(e.action)
    ensures var status := Step(s, e).state.status;
            var tickets := Step(s, e).state.tickets;
            && (s.status in OrderState.TERMINAL || status in OrderState.TERMINAL ==> status == s.status)
            && (status != s.status && status == OrderState.READY ==>
                  && (exists t <- tickets :: t.status != CANCELLED)
                  && forall t <- tickets :: t.status == CANCELLED || t.status == READY || t.status == SERVED)
            && (status != s.status && status == OrderState.SERVED ==>
                  && (exists t <- tickets :: t.status != CANCELLED)
                  && forall t <- tickets :: t.status == CANCELLED || t.status == SERVED)
  {
    var tickets := Step(s, e).state.tickets;
    GoalMeans(tickets);
    MovedOrSame(s, e);
    assert Step(s, e).state.status in {s.status, Synced(s.status, tickets)};
  }

  lemma StepNeverReopens(s: State, e: Event)
    ensures var status := Step(s, e).state.status;
            && OrderState.Rank(s.status) <= OrderState.Rank(status)
            && (status in {OrderState.DRAFT, OrderState.OPEN} ==> status == s.status)
            && (s.status in OrderState.TERMINAL ==> status in OrderState.TERMINAL)
            && (s.status == OrderState.CANCELLED ==> status == OrderState.CANCELLED)
  {
    TableExactly(s, e);
    if OnTickets(e.action) {
      MovedOrSame(s, e);
    }
  }

  /** Over every run, late voids included, the status never ranks lower: an order fired is never OPEN again, a
      closed order stays closed and a cancelled one cancelled. */
  lemma {:induction false} NeverReopened(s: State, events: seq<Event>)
    ensures var status := Run(s, events).status;
            && OrderState.Rank(s.status) <= OrderState.Rank(status)
            && (status in {OrderState.DRAFT, OrderState.OPEN} ==> status == s.status)
            && (s.status in OrderState.TERMINAL ==> status in OrderState.TERMINAL)
            && (s.status == OrderState.CANCELLED ==> status == OrderState.CANCELLED)
  {
    if events != [] {
      NeverReopened(s, events[..|events| - 1]);
      StepNeverReopens(Run(s, events[..|events| - 1]), events[|events| - 1]);
    }
  }

  predicate NeverVoidedLate(s: State, events: seq<Event>) {
    events != [] ==>
      var front := events[..|events| - 1];
      NeverVoidedLate(s, front) && !LateVoid(Run(s, front), events[|events| - 1])
  }

  /** In a run without late voids a paid order can only be refunded and a refunded one stays so. */
  lemma {:induction false} PaidOnlyRefunded(s: State, events: seq<Event>)
    requires NeverVoidedLate(s, events)
    ensures s.status == OrderState.PAID ==> Run(s, events).status in {OrderState.PAID, OrderState.REFUNDED}
    ensures s.status == OrderState.REFUNDED ==> Run(s, events).status == OrderState.REFUNDED
  {
    if events != [] {
      PaidOnlyRefunded(s, events[..|events| - 1]);
      TableExactly(Run(s, events[..|events| - 1]), events[|events| - 1]);
    }
  }

  /** A request to void has loaded a status that could be voided and has not written yet. */
  predicate VoidOutstanding(s: State) {
    exists request :: request in s.voids && Voidable(s.voids[request])
  }

  lemma {:induction false} NoVoidComesUp(s: State, events: seq<Event>)
    requires s.status in {OrderState.PAID, OrderState.REFUNDED} && !VoidOutstanding(s)
    ensures Run(s, events).status in {OrderState.PAID, OrderState.REFUNDED} && !VoidOutstanding(Run(s, events))
  {
    if events != [] {
      var before, e := Run(s, events[..|events| - 1]), events[|events| - 1];
      NoVoidComesUp(s, events[..|events| - 1]);
      TableExactly(before, e);
      forall request | request in Step(before, e).state.voids
        ensures !Voidable(Step(before, e).state.voids[request])
      {
        if request in before.voids {
          assert !Voidable(before.voids[request]);
        }
      }
    }
  }

  lemma RunOne(s: State, e: Event)
    ensures Run(s, [e]) == Step(s, e).state
  {
    assert [e][..0] == [];
  }

  lemma Then(s: State, events: seq<Event>, e: Event)
    ensures Run(s, events + [e]) == Step(Run(s, events), e).state
  {
    assert (events + [e])[..|events|] == events;
  }

  /** A paid or refunded order is so for good, whatever happens, if and only if no void judged before the
      payment is still to be written. */
  lemma PaidForGoodExactly(s: State)
    requires s.status in {OrderState.PAID, OrderState.REFUNDED}
    ensures (forall events :: Run(s, events).status in {OrderState.PAID, OrderState.REFUNDED})
       <==> !VoidOutstanding(s)
  {
    if VoidOutstanding(s) {
      var request :| request in s.voids && Voidable(s.voids[request]);
      RunOne(s, Event(0, 0, VoidOrder(request)));
      assert Run(s, [Event(0, 0, VoidOrder(request))]).status == OrderState.CANCELLED;
    } else {
      forall events ensures Run(s, events).status in {OrderState.PAID, OrderState.REFUNDED} {
        NoVoidComesUp(s, events);
      }
    }
  }

  /** Such a void happens: loaded while the order is OPEN, written after it is paid. */
  lemma PaidThenVoided(load: Event, pay: Event, void: Event)
    requires load.action == LoadOrder(1) && pay.action == PayOrder && void.action == VoidOrder(1)
    ensures Run(OPENED, [load] + [pay]).status == OrderState.PAID
    ensures Run(OPENED, [load] + [pay] + [void]).status == OrderState.CANCELLED
  {
    RunOne(OPENED, load);
    Then(OPENED, [load], pay);
    Then(OPENED, [load] + [pay], void);
    assert Run(OPENED, [load]) == OPENED.(voids := map[1 := OrderState.OPEN]);
  }

  /** READY only if every ticket not cancelled is done, SERVED only if every one is served. */
  predicate Honest(s: State) {
    && (s.status == OrderState.READY ==> forall t <- s.tickets :: t.status == CANCELLED || t.IsDone())
    && (s.status == OrderState.SERVED ==> forall t <- s.tickets :: t.status == CANCELLED || t.status == SERVED)
  }

  /** A ticket goes back to PREPARING under an order already READY or SERVED. */
  predicate Reworks(s: State, e: Event) {
    && Moved(s, e.action).Some? && Step(s, e).error.None?
    && Moved(s, e.action).value.1 == PREPARING && s.status in {OrderState.READY, OrderState.SERVED}
  }

  /** The last ticket not served is cancelled, beside one that was served. */
  predicate CancelsTheRest(s: State, e: Event) {
    && Moved(s, e.action).Some? && Step(s, e).error.None? && s.status !in OrderState.TERMINAL
    && var (k, target) := Moved(s, e.action).value;
    && target == CANCELLED
    && (exists j :: 0 <= j < |s.tickets| && j != k && s.tickets[j].status == SERVED)
    && (forall j :: 0 <= j < |s.tickets| && j != k ==>
        s.tickets[j].status == CANCELLED || s.tickets[j].status == SERVED)
  }

  /** The order's status is the one its tickets ask for. */
  predicate Follows(s: State) {
    s.status in OrderState.TERMINAL || Goal(s.tickets).None? || Goal(s.tickets) == Some(s.status)
  }

  /** A step keeps the order following its tickets exactly when it neither reworks a READY or SERVED order
      nor cancels the last ticket not served: the table has no edge from IN_KITCHEN to SERVED either. */
  lemma FollowsExactly(s: State, e: Event)
    requires Follows(s)
    ensures Follows(Step(s, e).state) <==> !Reworks(s, e) && !CancelsTheRest(s, e)
  {
    if OnTickets(e.action) {
      MovedOrSame(s, e);
      if Moved(s, e.action).Some? && Step(s, e).error.None? {
        var (k, target) := Moved(s, e.action).value;
        FollowsMove(s, k, target, e.at);
      }
    } else if e.action.FireOrder? && Step(s, e).error.None? {
      FollowsFire(s, FiringOf(e));
    } else {
      assert Step(s, e).state.tickets == s.tickets;
    }
  }

  lemma FollowsFire(s: State, f: Firing)
    requires Follows(s) && Fire(s, f).error.None?
    ensures Follows(Fire(s, f).state)
  {
    var made := Route(s.items, f).tickets;
    var s' := Fire(s, f).state;
    GoalMeans(s.tickets);
    GoalMeans(s'.tickets);
    if made == [] {
      assert s'.tickets == s.tickets;
    } else {
      OneTicketPerStation(s.items, f, 0);
      assert s'.tickets[|s.tickets|] == made[0];
    }
  }

  predicate OthersServed(tickets: seq<Ticket>, k: nat) {
    forall j :: 0 <= j < |tickets| && j != k ==> tickets[j].status == CANCELLED || tickets[j].status == SERVED
  }

  predicate OthersDone(tickets: seq<Ticket>, k: nat) {
    forall j :: 0 <= j < |tickets| && j != k ==> tickets[j].status == CANCELLED || tickets[j].IsDone()
  }

  predicate OthersCancelled(tickets: seq<Ticket>, k: nat) {
    forall j :: 0 <= j < |tickets| && j != k ==> tickets[j].status == CANCELLED
  }

  /** The status asked for by a ticket and what the others are: all cancelled, all served or cancelled, all
      done or cancelled. */
  function GoalFrom(status: TicketStatus, cancelled: bool, served: bool, done: bool): Option<OrderStatus> {
    if status == CANCELLED && cancelled then None
    else if status in {CANCELLED, SERVED} && served then Some(OrderState.SERVED)
    else if status in {CANCELLED, SERVED, READY} && done then Some(OrderState.READY)
    else Some(OrderState.IN_KITCHEN)
  }

  lemma GoalOf(tickets: seq<Ticket>, k: nat)
    requires k < |tickets|
    ensures Goal(tickets) == GoalFrom(tickets[k].status, OthersCancelled(tickets, k), OthersServed(tickets, k),
                                      OthersDone(tickets, k))
    ensures OthersCancelled(tickets, k) ==> OthersServed(tickets, k)
    ensures OthersServed(tickets, k) ==> OthersDone(tickets, k)
  {
    assert tickets[k] in tickets;
  }

  lemma OthersStay(tickets: seq<Ticket>, k: nat, t: Ticket)
    requires k < |tickets|
    ensures OthersServed(tickets[k := t], k) == OthersServed(tickets, k)
    ensures OthersDone(tickets[k := t], k) == OthersDone(tickets, k)
    ensures OthersCancelled(tickets[k := t], k) == OthersCancelled(tickets, k)
  {
    assert forall j :: 0 <= j < |tickets| && j != k ==> tickets[k := t][j] == tickets[j];
  }

  lemma OneServed(tickets: seq<Ticket>, k: nat)
    requires OthersServed(tickets, k)
    ensures OthersCancelled(tickets, k) <==> !exists j :: 0 <= j < |tickets| && j != k && tickets[j].status == SERVED
  {
  }

  /** The table of the cases: an order that follows its tickets, one of which moves. */
  lemma FollowsCases(status: OrderStatus, was: TicketStatus, target: TicketStatus, cancelled: bool, served: bool,
                     done: bool)
    requires (cancelled ==> served) && (served ==> done) && target in AllowedTransitions(was)
    requires status !in OrderState.TERMINAL && GoalFrom(was, cancelled, served, done) == Some(status)
    ensures var goal := GoalFrom(target, cancelled, served, done);
            && (goal.None? || goal.value == status || OrderState.CanTransition(status, goal.value)
                <==> !(target == PREPARING && status in {OrderState.READY, OrderState.SERVED})
                     && !(target == CANCELLED && served && !cancelled))
  {
  }

  lemma CancelsCases(s: State, k: nat, target: TicketStatus, now: int)
    requires k < |s.tickets| && Transition(s, k, target, now).error.None?
    ensures CancelsTheRest(s, Event(now, now, TransitionTicket(k, target)))
       <==> && s.status !in OrderState.TERMINAL && target == CANCELLED
            && OthersServed(s.tickets, k) && !OthersCancelled(s.tickets, k)
  {
    if OthersServed(s.tickets, k) {
      OneServed(s.tickets, k);
    }
  }

  lemma FollowsMove(s: State, k: nat, target: TicketStatus, now: int)
    requires Follows(s) && Transition(s, k, target, now).error.None?
    ensures var e := Event(now, now, TransitionTicket(k, target));
            Follows(Transition(s, k, target, now).state) <==> !Reworks(s, e) && !CancelsTheRest(s, e)
  {
    var moved := Move(s.tickets[k], target, now).value;
    GoalOf(s.tickets, k);
    GoalOf(s.tickets[k := moved], k);
    OthersStay(s.tickets, k, moved);
    CancelsCases(s, k, target, now);
    if s.status !in OrderState.TERMINAL {
      FollowsCases(s.status, s.tickets[k].status, target, OthersCancelled(s.tickets, k), OthersServed(s.tickets, k),
                   OthersDone(s.tickets, k));
    }
  }

  lemma HonestOf(s: State, k: nat)
    requires k < |s.tickets|
    ensures var status := s.tickets[k].status;
            Honest(s) <==> && (s.status == OrderState.READY ==>
                               status in {CANCELLED, SERVED, READY} && OthersDone(s.tickets, k))
                           && (s.status == OrderState.SERVED ==>
                               status in {CANCELLED, SERVED} && OthersServed(s.tickets, k))
  {
    assert s.tickets[k] in s.tickets;
  }

  lemma HonestMove(s: State, k: nat, target: TicketStatus, now: int)
    requires Honest(s) && Transition(s, k, target, now).error.None?
    ensures var e := Event(now, now, TransitionTicket(k, target));
            Honest(Transition(s, k, target, now).state) <==> !Reworks(s, e)
  {
    var moved := Move(s.tickets[k], target, now).value;
    GoalOf(s.tickets[k := moved], k);
    OthersStay(s.tickets, k, moved);
    HonestOf(s, k);
    HonestOf(Transition(s, k, target, now).state, k);
  }

  /** A step keeps READY and SERVED true of the tickets exactly when it is not a rework: the table has no edge
      back to IN_KITCHEN. */
  lemma HonestExactly(s: State, e: Event)
    requires Honest(s)
    ensures Honest(Step(s, e).state) <==> !Reworks(s, e)
  {
    if OnTickets(e.action) {
      MovedOrSame(s, e);
      if Moved(s, e.action).Some? && Step(s, e).error.None? {
        var (k, target) := Moved(s, e.action).value;
        HonestMove(s, k, target, e.at);
      }
    }
  }

  /** No step of the run is one of those. */
  predicate Undisturbed(s: State, events: seq<Event>) {
    events != [] ==>
      var front, e := events[..|events| - 1], events[|events| - 1];
      Undisturbed(s, front) && !Reworks(Run(s, front), e) && !CancelsTheRest(Run(s, front), e)
  }

  /** So in every run without them the order follows its tickets throughout. */
  lemma {:induction false} OrderFollowsTickets(s: State, events: seq<Event>)
    requires Follows(s) && Undisturbed(s, events)
    ensures Follows(Run(s, events))
  {
    if events != [] {
      var front := events[..|events| - 1];
      OrderFollowsTickets(s, front);
      FollowsExactly(Run(s, front), events[|events| - 1]);
    }
  }

  /** The status asked for by two tickets. */
  function BesideOne(status: TicketStatus, other: TicketStatus): Option<OrderStatus> {
    GoalFrom(status, other == CANCELLED, other in {CANCELLED, SERVED}, other in {CANCELLED, SERVED, READY})
  }

  lemma PairGoal(tickets: seq<Ticket>)
    requires |tickets| == 2
    ensures Goal(tickets) == BesideOne(tickets[0].status, tickets[1].status)
  {
    GoalOf(tickets, 0);
    assert OthersCancelled(tickets, 0) <==> tickets[1].status == CANCELLED;
    assert OthersServed(tickets, 0) <==> tickets[1].status in {CANCELLED, SERVED};
    assert OthersDone(tickets, 0) <==> tickets[1].status in {CANCELLED, SERVED, READY};
  }

  /** An order in the kitchen with two tickets in the given states. */
  predicate Pair(s: State, status: OrderStatus, first: TicketStatus, second: TicketStatus, now: int) {
    && s.status == status && |s.tickets| == 2 && s.tickets[0].status == first && s.tickets[1].status == second
    && s.tickets[0].createdAt <= now && s.tickets[1].createdAt <= now
  }

  lemma MoveFirst(s: State, status: OrderStatus, first: TicketStatus, second: TicketStatus, now: int,
                  target: TicketStatus)
    requires Pair(s, status, first, second, now) && target in AllowedTransitions(first)
    ensures var s' := Transition(s, 0, target, now).state;
            && Pair(s', Synced(status, s'.tickets), target, second, now)
            && Goal(s'.tickets) == BesideOne(target, second)
            && s'.tickets[1] == s.tickets[1]
  {
    PairGoal(Transition(s, 0, target, now).state.tickets);
  }

  lemma MoveSecond(s: State, status: OrderStatus, first: TicketStatus, second: TicketStatus, now: int,
                   target: TicketStatus)
    requires Pair(s, status, first, second, now) && target in AllowedTransitions(second)
    ensures var s' := Transition(s, 1, target, now).state;
            && Pair(s', Synced(status, s'.tickets), first, target, now)
            && Goal(s'.tickets) == BesideOne(first, target)
            && s'.tickets[0] == s.tickets[0]
  {
    PairGoal(Transition(s, 1, target, now).state.tickets);
  }

  /** Such a cancellation happens in any order with two new tickets: one is prepared and served, the other
      cancelled, and the order is still IN_KITCHEN with nothing left to make. */
  lemma CancelLeavesInKitchen(s: State, now: int)
    requires Pair(s, OrderState.IN_KITCHEN, NEW, NEW, now)
    ensures var s1 := Transition(s, 0, PREPARING, now).state;
            var s2 := Transition(s1, 0, READY, now).state;
            var s3 := Transition(s2, 0, SERVED, now).state;
            Pair(Transition(s3, 1, CANCELLED, now).state, OrderState.IN_KITCHEN, SERVED, CANCELLED, now)
  {
    var s1 := Transition(s, 0, PREPARING, now).state;
    var s2 := Transition(s1, 0, READY, now).state;
    var s3 := Transition(s2, 0, SERVED, now).state;
    MoveFirst(s, OrderState.IN_KITCHEN, NEW, NEW, now, PREPARING);
    MoveFirst(s1, OrderState.IN_KITCHEN, PREPARING, NEW, now, READY);
    MoveFirst(s2, OrderState.IN_KITCHEN, READY, NEW, now, SERVED);
    MoveSecond(s3, OrderState.IN_KITCHEN, SERVED, NEW, now, CANCELLED);
  }

  /** And so does the rework: both tickets get ready, the first is loaded and recalled, and the order stays
      READY with the first being prepared. */
  lemma RecallLeavesReady(s: State, request: nat, now: int, window: nat)
    requires Pair(s, OrderState.IN_KITCHEN, PREPARING, PREPARING, now) && s.tickets[0].servedAt.None?
    ensures var s1 := Transition(s, 0, READY, now).state;
            var s2 := Transition(s1, 1, READY, now).state;
            var s3 := LoadForRecall(s2, request, 0).state;
            && s2.status == OrderState.READY
            && Pair(Recall(s3, request, window, now, now).state, OrderState.READY, PREPARING, READY, now)
  {
    var s1 := Transition(s, 0, READY, now).state;
    var s2 := Transition(s1, 1, READY, now).state;
    var s3 := LoadForRecall(s2, request, 0).state;
    MoveFirst(s, OrderState.IN_KITCHEN, PREPARING, PREPARING, now, READY);
    MoveSecond(s1, OrderState.IN_KITCHEN, READY, PREPARING, now, READY);
    MoveFirst(s3.(recalls := s3.recalls - {request}), OrderState.READY, READY, READY, now, PREPARING);
  }

  lemma OpenedOrder(clock: int, i: nat)
    ensures SentOnce(OPENED, i) && OwnStation(OPENED) && AllDated(OPENED) && AllStamped(OPENED, clock)
    ensures Honest(OPENED) && Follows(OPENED)
  {
  }
}
