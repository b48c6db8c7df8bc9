/** What each kitchen and order operation writes, or why it is refused. */
module KitchenSteps {
  import opened Wrappers
  import OrderState
  import opened Kitchen
  import opened KitchenProofs

  predicate Mutable(s: State) {
    s.status in {OrderState.DRAFT, OrderState.OPEN, OrderState.IN_KITCHEN, OrderState.READY}
  }

  predicate IsPendingAt(s: State, i: nat) {
    i < |s.items| && s.items[i].active && s.items[i].firedAt.None?
  }

  // ---- firing ----

  /** A firing stamps every pending item, ticketed or only reported, with its instant, and no other item. */
  lemma FiringStamps(s: State, f: Firing, i: nat)
    requires i < |s.items|
    ensures var items := Routed(s, f).items;
            && |items| == |s.items|
            && items[i] == if IsPendingAt(s, i) then s.items[i].(firedAt := Some(f.now)) else s.items[i]
  {
    FirePending(s, i);
  }

  /** Firing succeeds exactly when something is pending and the order is OPEN or already IN_KITCHEN, and leaves it
      IN_KITCHEN with its earlier tickets as they were; otherwise nothing changes. */
  lemma FiresExactly(s: State, f: Firing)
    ensures var o := Fire(s, f);
            if (exists i :: IsPendingAt(s, i)) && s.status in {OrderState.OPEN, OrderState.IN_KITCHEN}
            then && o.error.None? && o.state.status == OrderState.IN_KITCHEN
                 && o.state.items == Routed(s, f).items && o.state.tickets == s.tickets + Route(s.items, f).tickets
                 && o.state.voids == s.voids && o.state.recalls == s.recalls
            else o.error.Some? && o.state == s
    ensures Fire(s, f).error == Some(NothingToFire) <==> Mutable(s) && !exists i :: IsPendingAt(s, i)
    ensures Fire(s, f).error == Some(NotMutable) <==> !Mutable(s)
  {
    var ids := Pending(s.items, |s.items|);
    if i :| IsPendingAt(s, i) {
      FirePending(s, i);
      assert ids != [];
    }
    if ids != [] {
      assert IsPendingAt(s, ids[0]);
    }
  }

  // ---- items on their way to the kitchen ----

  lemma {:induction false} LineFound(lines: seq<Line>, i: nat)
    requires LinesFor(lines, i) > 0
    ensures exists l <- lines :: l.item == i
  {
    if lines[|lines| - 1].item != i {
      LineFound(lines[..|lines| - 1], i);
    }
  }

  lemma {:induction false} TicketFound(tickets: seq<Ticket>, i: nat)
    requires Count(tickets, i) > 0
    ensures exists t <- tickets :: LinesFor(t.lines, i) > 0
  {
    if LinesFor(tickets[|tickets| - 1].lines, i) == 0 {
      TicketFound(tickets[..|tickets| - 1], i);
    }
  }

  /** A new ticket of this station carries this item under this name in this quantity. */
  predicate Carries(tickets: seq<Ticket>, station: nat, i: nat, name: string, quantity: real) {
    exists t <- tickets :: t.station == station && Line(i, name, quantity) in t.lines
  }

  /** A pending item goes out as it stands: on a ticket of its station under its name and in its quantity, or, without a
      station, by name among the reported. */
  lemma SentAsItStands(s: State, f: Firing, i: nat)
    requires IsPendingAt(s, i)
    ensures var item, routing := s.items[i], Route(s.items, f);
            if item.station.Some? then Carries(routing.tickets, item.station.value, i, item.name, item.quantity)
            else item.name in routing.unrouted
  {
    FiringSplits(s.items, f, i);
    var routing := Route(s.items, f);
    if s.items[i].station.Some? {
      TicketFound(routing.tickets, i);
      var t :| t in routing.tickets && LinesFor(t.lines, i) > 0;
      LineFound(t.lines, i);
      var k :| 0 <= k < |routing.tickets| && routing.tickets[k] == t;
      OneTicketPerStation(s.items, f, k);
    } else {
      var reported := ItemsAt(s.items, Pending(s.items, |s.items|), None);
      OccursMeansIn(reported, i);
      var k :| 0 <= k < |reported| && reported[k] == i;
      assert routing.unrouted[k] == s.items[i].name;
    }
  }

  /** An item added to an order on the floor is sent by the next firing, in the quantity last given to it. */
  lemma AddedThenSent(s: State, name: string, quantity: real, station: Option<nat>, changed: real, f: Firing)
    requires s.status in {OrderState.OPEN, OrderState.IN_KITCHEN} && quantity > 0.0 && changed > 0.0
    ensures var s1 := Requantify(Add(s, name, quantity, station).state, |s.items|, changed).state;
            && Fire(s1, f).error.None?
            && Fire(s1, f).state.items[|s.items|] == Item(name, changed, station, true, Some(f.now))
            && if station.Some? then Carries(Route(s1.items, f).tickets, station.value, |s.items|, name, changed)
               else name in Route(s1.items, f).unrouted
  {
    var s1 := Requantify(Add(s, name, quantity, station).state, |s.items|, changed).state;
    assert IsPendingAt(s1, |s.items|);
    SentAsItStands(s1, f, |s.items|);
    FiringStamps(s1, f, |s.items|);
    FiresExactly(s1, f);
  }

  /** An item voided before it was sent is never sent. */
  lemma VoidedNotSent(s: State, i: nat, f: Firing)
    requires Strike(s, i).error.None? && s.items[i].firedAt.None?
    ensures var s1 := Strike(s, i).state;
            && Count(Route(s1.items, f).tickets, i) == 0 && Routed(s1, f).items[i].firedAt.None?
            && forall j :: 0 <= j < |s.items| && j != i ==> s1.items[j] == s.items[j]
  {
    var s1 := Strike(s, i).state;
    FiringSplits(s1.items, f, i);
    FiringStamps(s1, f, i);
  }

  /** An order closed or served takes no change, and neither does one that is asked for a missing item or for a quantity
      that is not positive. */
  lemma ItemRefusals(s: State, i: nat, name: string, quantity: real, station: Option<nat>)
    ensures Add(s, name, quantity, station).error.None? <==> Mutable(s) && quantity > 0.0
    ensures Requantify(s, i, quantity).error.None? <==> Mutable(s) && i < |s.items| && quantity > 0.0
    ensures Strike(s, i).error.None? <==> Mutable(s) && i < |s.items|
    ensures Add(s, name, quantity, station).error.Some? ==> Add(s, name, quantity, station).state == s
    ensures Requantify(s, i, quantity).error.Some? ==> Requantify(s, i, quantity).state == s
    ensures Strike(s, i).error.Some? ==> Strike(s, i).state == s
  {
  }

  // ---- tickets ----

  /** Which moves of a ticket are allowed. */
  predicate MayMove(from: TicketStatus, to: TicketStatus) {
    || (from == NEW && to in {ACCEPTED, PREPARING, CANCELLED})
    || (from == ACCEPTED && to in {PREPARING, CANCELLED})
    || (from == PREPARING && to in {READY, CANCELLED})
    || (from == READY && to in {SERVED, PREPARING})
    || (from == SERVED && to == PREPARING)
  }

  /** The whole seconds in some microseconds, none in a negative number of them. */
  predicate IsPrepTime(seconds: int, microseconds: int) {
    seconds >= 0 && seconds * 1_000_000 <= Larger(microseconds, 0) < (seconds + 1) * 1_000_000
  }

  /** An allowed move sets the status and the stamp that goes with it to this instant; only going back to PREPARING
      takes anything away, the readiness, and it keeps the first start. */
  predicate MovedTo(t: Ticket, t': Ticket, to: TicketStatus, now: int) {
    && t'.status == to && t'.station == t.station && t'.createdAt == t.createdAt && t'.lines == t.lines
    && t'.acceptedAt == (if to == ACCEPTED then Some(now) else t.acceptedAt)
    && t'.startedAt == (if to == PREPARING && t.startedAt.None? then Some(now) else t.startedAt)
    && t'.readyAt == (if to == READY then Some(now) else if to == PREPARING then None else t.readyAt)
    && t'.servedAt == (if to == SERVED then Some(now) else t.servedAt)
    && (to == PREPARING ==> t'.prepSeconds.None?)
    && (to == READY ==> t'.prepSeconds.Some? && IsPrepTime(t'.prepSeconds.value, now - t.createdAt))
    && (to != PREPARING && to != READY ==> t'.prepSeconds == t.prepSeconds)
  }

  /** A ticket moves exactly when it exists, the move is allowed and readiness does not come a second or more before
      creation; it is then so written, and no other ticket or item is. */
  lemma TransitionsExactly(s: State, k: nat, to: TicketStatus, now: int)
    ensures var o := Transition(s, k, to, now);
            if k < |s.tickets| && MayMove(s.tickets[k].status, to) &&
                (to == READY ==> now > s.tickets[k].createdAt - 1_000_000)
            then && o.error.None? && |o.state.tickets| == |s.tickets|
                 && MovedTo(s.tickets[k], o.state.tickets[k], to, now)
                 && (forall j :: 0 <= j < |s.tickets| && j != k ==> o.state.tickets[j] == s.tickets[j])
                 && o.state.items == s.items && o.state.voids == s.voids && o.state.recalls == s.recalls
            else o.error.Some? && o.state == s
  {
  }

  predicate AllServed(tickets: seq<Ticket>) {
    forall t <- tickets :: t.status == CANCELLED || t.status == SERVED
  }

  predicate AllDone(tickets: seq<Ticket>) {
    forall t <- tickets :: t.status == CANCELLED || t.status == READY || t.status == SERVED
  }

  predicate AllCancelled(tickets: seq<Ticket>) {
    forall t <- tickets :: t.status == CANCELLED
  }

  /** After a move the order is SERVED if it was READY and all its tickets not cancelled are served, READY if it was
      IN_KITCHEN and they are all done but not all served, IN_KITCHEN if it was OPEN and one is open, and otherwise
      what it was. */
  lemma SyncsExactly(s: State, k: nat, to: TicketStatus, now: int)
    requires Transition(s, k, to, now).error.None?
    ensures var o := Transition(s, k, to, now).state;
            o.status == if AllCancelled(o.tickets) then s.status
                        else if s.status == OrderState.READY && AllServed(o.tickets) then OrderState.SERVED
                        else if s.status == OrderState.IN_KITCHEN && AllDone(o.tickets) && !AllServed(o.tickets)
                        then OrderState.READY
                        else if s.status == OrderState.OPEN && !AllDone(o.tickets) then OrderState.IN_KITCHEN
                        else s.status
  {
  }

  /** A recall with nothing between loading and moving is a move to PREPARING judged on the stored ticket. */
  lemma RecallsAtOnce(s: State, request: nat, k: nat, window: int, checkedAt: int, now: int)
    requires k < |s.tickets|
    ensures var loaded := LoadForRecall(s, request, k).state;
            && loaded == s.(recalls := s.recalls[request := Copy(k, s.tickets[k])])
            && (InWindow(s.tickets[k], window, checkedAt) ==>
                  var o := Recall(loaded, request, window, checkedAt, now);
                  && o.error == Transition(s, k, PREPARING, now).error
                  && o.state == Transition(s, k, PREPARING, now).state.(recalls := s.recalls - {request}))
            && (!InWindow(s.tickets[k], window, checkedAt) ==>
                  Recall(loaded, request, window, checkedAt, now)
                  == Outcome(s.(recalls := s.recalls - {request}), Some(RecallWindowElapsed)))
  {
    assert s.recalls[request := Copy(k, s.tickets[k])] - {request} == s.recalls - {request};
  }

  // ---- closing ----

  /** A settled payment makes an OPEN, IN_KITCHEN, READY or SERVED order PAID, a full refund a PAID one REFUNDED, and
      neither does anything else. */
  lemma ClosesExactly(s: State)
    ensures Close(s, OrderState.PAID)
         == if s.status in {OrderState.OPEN, OrderState.IN_KITCHEN, OrderState.READY, OrderState.SERVED}
            then Outcome(s.(status := OrderState.PAID), None) else Outcome(s, Some(InvalidTransition))
    ensures Close(s, OrderState.REFUNDED)
         == if s.status == OrderState.PAID then Outcome(s.(status := OrderState.REFUNDED), None)
            else Outcome(s, Some(InvalidTransition))
  {
  }

  /** A void cancels whatever is stored exactly when the status it loaded is DRAFT, OPEN, IN_KITCHEN or READY. */
  lemma VoidsExactly(s: State, request: nat)
    ensures LoadForVoid(s, request) == s.(voids := s.voids[request := s.status])
    ensures request in s.voids ==>
              Void(s, request)
              == if s.voids[request] in {OrderState.DRAFT, OrderState.OPEN, OrderState.IN_KITCHEN, OrderState.READY}
                 then Outcome(s.(voids := s.voids - {request}, status := OrderState.CANCELLED), None)
                 else Outcome(s.(voids := s.voids - {request}), Some(InvalidTransition))
  {
  }
}
