/** Firing an order to the kitchen and moving its tickets (kitchen/services.py, kitchen/models.py), with
    the order events, payments and voids that act on the same rows (orders/services.py,
    payments/services.py).

    Order events, payments, refunds and ticket moves lock the order row before they read it and are one
    step. A void judges the status of an order loaded without a lock and writes later; a recall judges
    its window on a ticket loaded without one before it moves the ticket. Each of these is two steps.

    Instants are in microseconds. Items and tickets are named by their position. */
module Kitchen {
  import opened Wrappers
  import OrderState

  type OrderStatus = OrderState.OrderStatus

  datatype Item = Item(name: string, quantity: real, station: Option<nat>, active: bool, firedAt: Option<int>)
  {
    predicate IsPending() { active && firedAt.None? }
  }

  datatype TicketStatus = NEW | ACCEPTED | PREPARING | READY | SERVED | CANCELLED

  datatype Line = Line(item: nat, name: string, quantity: real)

  datatype Ticket = Ticket(station: nat, status: TicketStatus, createdAt: int, acceptedAt: Option<int>,
                           startedAt: Option<int>, readyAt: Option<int>, servedAt: Option<int>,
                           prepSeconds: Option<int>, lines: seq<Line>)
  {
    predicate IsOpen() { status in OPEN_STATUSES }

    predicate IsDone() { status == READY || status == SERVED }
  }

  /** A ticket as it was when a recall loaded it. */
  datatype Copy = Copy(ticket: nat, row: Ticket)

  /** With the order and its rows go the statuses and tickets that requests to void and to recall have loaded. */
  datatype State = State(
    status: OrderStatus,
    items: seq<Item>,
    tickets: seq<Ticket>,
    voids: map<nat, OrderStatus>,
    recalls: map<nat, Copy>)

  datatype Error = NotMutable | NothingToFire | InvalidTransition | RecallWindowElapsed | NoSuchRow | NotLoaded
                 | InvalidQuantity | NegativePrepTime

  const OPEN_STATUSES := {NEW, ACCEPTED, PREPARING}

  function AllowedTransitions(status: TicketStatus): set<TicketStatus> {
    match status
    case NEW => {ACCEPTED, PREPARING, CANCELLED}
    case ACCEPTED => {PREPARING, CANCELLED}
    case PREPARING => {READY, CANCELLED}
    case READY => {SERVED, PREPARING}
    case SERVED => {PREPARING}
    case CANCELLED => {}
  }

  // ---- routing ----

  /** The positions among the first n items of those not yet sent. */
  function Pending(items: seq<Item>, n: nat): (r: seq<nat>)
    requires n <= |items|
    ensures forall k :: 0 <= k < |r| ==> r[k] < n && items[r[k]].IsPending()
  {
    if n == 0 then []
    else if items[n - 1].IsPending() then Pending(items, n - 1) + [n - 1]
    else Pending(items, n - 1)
  }

  predicate Within(items: seq<Item>, ids: seq<nat>) {
    forall k :: 0 <= k < |ids| ==> ids[k] < |items|
  }

  /** The stations of some items, each once, in the order they first appear. */
  function StationsOf(items: seq<Item>, ids: seq<nat>): seq<nat>
    requires Within(items, ids)
  {
    if ids == [] then []
    else
      var rest, item := StationsOf(items, ids[..|ids| - 1]), items[ids[|ids| - 1]];
      if item.station.None? || item.station.value in rest then rest else rest + [item.station.value]
  }

  function ItemsAt(items: seq<Item>, ids: seq<nat>, station: Option<nat>): (r: seq<nat>)
    requires Within(items, ids)
    ensures forall k :: 0 <= k < |r| ==> r[k] < |items| && items[r[k]].station == station
  {
    if ids == [] then []
    else
      var rest, id := ItemsAt(items, ids[..|ids| - 1], station), ids[|ids| - 1];
      if items[id].station == station then rest + [id] else rest
  }

  function NamesOf(items: seq<Item>, ids: seq<nat>): seq<string>
    requires Within(items, ids)
  {
    seq(|ids|, k requires 0 <= k < |ids| => items[ids[k]].name)
  }

  function LineOf(items: seq<Item>, id: nat): Line
    requires id < |items|
  {
    Line(id, items[id].name, items[id].quantity)
  }

  function LinesOf(items: seq<Item>, ids: seq<nat>): seq<Line>
    requires Within(items, ids)
  {
    if ids == [] then [] else LinesOf(items, ids[..|ids| - 1]) + [LineOf(items, ids[|ids| - 1])]
  }

  /** One firing: the stations that accept by themselves, the clock it reads, and how much later the database
      stamps the creation of each station's ticket. */
  datatype Firing = Firing(autoAccept: set<nat>, now: int, delays: map<nat, nat>)
  {
    function CreatedAt(station: nat): int {
      now + if station in delays then delays[station] else 0
    }
  }

  function NewTicket(station: nat, f: Firing, lines: seq<Line>): Ticket {
    var accepted := station in f.autoAccept;
    Ticket(station, if accepted then ACCEPTED else NEW, f.CreatedAt(station), if accepted then Some(f.now) else None,
           None, None, None, None, lines)
  }

  function TicketsFor(items: seq<Item>, ids: seq<nat>, stations: seq<nat>, f: Firing): seq<Ticket>
    requires Within(items, ids)
  {
    if stations == [] then []
    else
      var station := stations[|stations| - 1];
      TicketsFor(items, ids, stations[..|stations| - 1], f)
        + [NewTicket(station, f, LinesOf(items, ItemsAt(items, ids, Some(station))))]
  }

  function MarkFired(items: seq<Item>, ids: seq<nat>, now: int): seq<Item> {
    seq(|items|, i requires 0 <= i < |items| =>
      if i in ids then items[i].(firedAt := Some(now)) else items[i])
  }

  datatype Routing = Routing(tickets: seq<Ticket>, unrouted: seq<string>)

  /** What one firing makes of the items not yet sent. */
  function Route(items: seq<Item>, f: Firing): Routing {
    var ids := Pending(items, |items|);
    Routing(TicketsFor(items, ids, StationsOf(items, ids), f), NamesOf(items, ItemsAt(items, ids, None)))
  }

  function Routed(s: State, f: Firing): State {
    s.(items := MarkFired(s.items, Pending(s.items, |s.items|), f.now),
       tickets := s.tickets + Route(s.items, f).tickets)
  }

  datatype Outcome = Outcome(state: State, error: Option<Error>)

  /** The order event around routing: refused as a whole, tickets included, when the order's status
      cannot become IN_KITCHEN. */
  function Fire(s: State, f: Firing): Outcome {
    if s.status !in OrderState.MUTABLE then Outcome(s, Some(NotMutable))
    else if Pending(s.items, |s.items|) == [] then Outcome(s, Some(NothingToFire))
    else if s.status != OrderState.IN_KITCHEN && !OrderState.CanTransition(s.status, OrderState.IN_KITCHEN) then
      Outcome(s, Some(InvalidTransition))
    else Outcome(Routed(s, f).(status := OrderState.IN_KITCHEN), None)
  }

  // ---- the items of an order ----

  function Add(s: State, name: string, quantity: real, station: Option<nat>): Outcome {
    if s.status !in OrderState.MUTABLE then Outcome(s, Some(NotMutable))
    else if quantity <= 0.0 then Outcome(s, Some(InvalidQuantity))
    else Outcome(s.(items := s.items + [Item(name, quantity, station, true, None)]), None)
  }

  function Requantify(s: State, item: nat, quantity: real): Outcome {
    if s.status !in OrderState.MUTABLE then Outcome(s, Some(NotMutable))
    else if item >= |s.items| then Outcome(s, Some(NoSuchRow))
    else if quantity <= 0.0 then Outcome(s, Some(InvalidQuantity))
    else Outcome(s.(items := s.items[item := s.items[item].(quantity := quantity)]), None)
  }

  function Strike(s: State, item: nat): Outcome {
    if s.status !in OrderState.MUTABLE then Outcome(s, Some(NotMutable))
    else if item >= |s.items| then Outcome(s, Some(NoSuchRow))
    else Outcome(s.(items := s.items[item := s.items[item].(active := false)]), None)
  }

  /** Payment and refund move the status of the locked row by the table. */
  function Close(s: State, target: OrderStatus): Outcome {
    if OrderState.CanTransition(s.status, target) then Outcome(s.(status := target), None)
    else Outcome(s, Some(InvalidTransition))
  }

  function LoadForVoid(s: State, request: nat): State {
    s.(voids := s.voids[request := s.status])
  }

  predicate Voidable(status: OrderStatus) {
    status !in OrderState.TERMINAL && OrderState.CanTransition(status, OrderState.CANCELLED)
  }

  /** The status that was loaded decides; the status that is stored is overwritten. */
  function Void(s: State, request: nat): Outcome {
    if request !in s.voids then Outcome(s, Some(NotLoaded))
    else
      var s' := s.(voids := s.voids - {request});
      if Voidable(s.voids[request]) then Outcome(s'.(status := OrderState.CANCELLED), None)
      else Outcome(s', Some(InvalidTransition))
  }

  // ---- tickets ----

  /** int() of a number of seconds truncates toward zero. */
  function Seconds(microseconds: int): int {
    if microseconds >= 0 then microseconds / 1_000_000 else -(-microseconds / 1_000_000)
  }

  function Or(stamp: Option<int>, other: Option<int>): Option<int> {
    if stamp.Some? then stamp else other
  }

  /** A ticket moved to `target`; the column for the preparation time takes no negative number. */
  function Move(t: Ticket, target: TicketStatus, now: int): Result<Ticket, Error> {
    if target !in AllowedTransitions(t.status) then Err(InvalidTransition)
    else
      match target
      case ACCEPTED => Ok(t.(status := target, acceptedAt := Some(now)))
      case PREPARING =>
        Ok(t.(status := target, startedAt := Or(t.startedAt, Some(now)), readyAt := None, prepSeconds := None))
      case READY =>
        var seconds := Seconds(now - t.createdAt);
        if seconds < 0 then Err(NegativePrepTime)
        else Ok(t.(status := target, readyAt := Some(now), prepSeconds := Some(seconds)))
      case SERVED => Ok(t.(status := target, servedAt := Some(now)))
      case _ => Ok(t.(status := target))
  }

  /** The status the tickets ask of their order; nothing when all are cancelled. */
  function Goal(tickets: seq<Ticket>): Option<OrderStatus> {
    if forall t <- tickets :: t.status == CANCELLED then None
    else if forall t <- tickets :: t.status == CANCELLED || t.status == SERVED then Some(OrderState.SERVED)
    else if forall t <- tickets :: t.status == CANCELLED || t.IsDone() then Some(OrderState.READY)
    else Some(OrderState.IN_KITCHEN)
  }

  function Synced(status: OrderStatus, tickets: seq<Ticket>): OrderStatus {
    var goal := Goal(tickets);
    if goal.None? || status in OrderState.TERMINAL || !OrderState.CanTransition(status, goal.value) then status
    else goal.value
  }

  function Transition(s: State, k: nat, target: TicketStatus, now: int): Outcome {
    if k >= |s.tickets| then Outcome(s, Some(NoSuchRow))
    else
      match Move(s.tickets[k], target, now)
      case Err(error) => Outcome(s, Some(error))
      case Ok(moved) =>
        var tickets := s.tickets[k := moved];
        Outcome(s.(status := Synced(s.status, tickets), tickets := tickets), None)
  }

  /** What the window of a recall is counted from. */
  function Reference(t: Ticket): Option<int> {
    Or(t.servedAt, t.readyAt)
  }

  predicate WindowElapsed(t: Ticket, window: int, at: int) {
    Reference(t).Some? && at - Reference(t).value > window
  }

  function LoadForRecall(s: State, request: nat, k: nat): Outcome {
    if k >= |s.tickets| then Outcome(s, Some(NoSuchRow))
    else Outcome(s.(recalls := s.recalls[request := Copy(k, s.tickets[k])]), None)
  }

  /** The window is judged on the copy at one instant, the move made on the stored ticket at another. */
  function Recall(s: State, request: nat, window: int, checkedAt: int, now: int): Outcome {
    if request !in s.recalls then Outcome(s, Some(NotLoaded))
    else
      var copy, s' := s.recalls[request], s.(recalls := s.recalls - {request});
      if WindowElapsed(copy.row, window, checkedAt) then Outcome(s', Some(RecallWindowElapsed))
      else Transition(s', copy.ticket, PREPARING, now)
  }

  // ---- the stored order ----

  class Order {
    var status: OrderStatus
    var items: seq<Item>
    var tickets: seq<Ticket>
    var voids: map<nat, OrderStatus>
    var recalls: map<nat, Copy>

    function Contents(): State
      reads this
    {
      State(status, items, tickets, voids, recalls)
    }

    constructor ()
      ensures Contents() == OPENED
    {
      status, items, tickets, voids, recalls := OrderState.OPEN, [], [], map[], map[];
    }

    /** Groups some items by station, keeping the order in which stations first appear. */
    method GroupByStation(pending: seq<nat>)
      returns (stations: seq<nat>, byStation: map<nat, seq<nat>>, unrouted: seq<string>)
      requires Within(items, pending)
      ensures stations == StationsOf(items, pending)
      ensures unrouted == NamesOf(items, ItemsAt(items, pending, None))
      ensures forall st <- stations :: st in byStation && byStation[st] == ItemsAt(items, pending, Some(st))
    {
      stations, byStation, unrouted := [], map[], [];
      var i := 0;
      while i < |pending|
        invariant 0 <= i <= |pending|
        invariant stations == StationsOf(items, pending[..i])
        invariant unrouted == NamesOf(items, ItemsAt(items, pending[..i], None))
        invariant forall st :: st in stations <==> st in byStation
        invariant forall st <- byStation :: byStation[st] == ItemsAt(items, pending[..i], Some(st))
        invariant forall st :: st !in byStation ==> ItemsAt(items, pending[..i], Some(st)) == []
      {
        assert pending[..i + 1][..i] == pending[..i];
        var item := items[pending[i]];
        if item.station.None? {
          unrouted := unrouted + [item.name];
        } else {
          var st := item.station.value;
          if st !in byStation {
            stations, byStation := stations + [st], byStation[st := []];
          }
          byStation := byStation[st := byStation[st] + [pending[i]]];
        }
        i := i + 1;
      }
      assert pending[..i] == pending;
    }

    method CreateTicket(station: nat, f: Firing, ids: seq<nat>) returns (ticket: Ticket)
      requires Within(items, ids)
      ensures ticket == NewTicket(station, f, LinesOf(items, ids))
    {
      ticket := NewTicket(station, f, []);
      var i := 0;
      while i < |ids|
        invariant 0 <= i <= |ids|
        invariant ticket == NewTicket(station, f, LinesOf(items, ids[..i]))
      {
        assert ids[..i + 1][..i] == ids[..i];
        ticket := ticket.(lines := ticket.lines + [LineOf(items, ids[i])]);
        i := i + 1;
      }
      assert ids[..i] == ids;
    }

    method CreateTickets(pending: seq<nat>, stations: seq<nat>, byStation: map<nat, seq<nat>>, f: Firing)
      returns (created: seq<Ticket>)
      requires Within(items, pending)
      requires forall st <- stations :: st in byStation && byStation[st] == ItemsAt(items, pending, Some(st))
      ensures created == TicketsFor(items, pending, stations, f)
    {
      created := [];
      var i := 0;
      while i < |stations|
        invariant 0 <= i <= |stations|
        invariant created == TicketsFor(items, pending, stations[..i], f)
      {
        var station := stations[i];
        assert stations[..i + 1][..i] == stations[..i];
        var ticket := CreateTicket(station, f, byStation[station]);
        created := created + [ticket];
        i := i + 1;
      }
      assert stations[..i] == stations;
    }

    method RouteOrder(f: Firing) returns (result: Routing)
      modifies this`items, this`tickets
      ensures result == Route(old(items), f)
      ensures Contents() == Routed(old(Contents()), f)
    {
      var pending := Pending(items, |items|);
      if pending == [] {
        assert MarkFired(items, pending, f.now) == items;
        return Routing([], []);
      }
      var stations, byStation, unrouted := GroupByStation(pending);
      var created := CreateTickets(pending, stations, byStation, f);
      tickets := tickets + created;
      items := MarkFired(items, pending, f.now);
      return Routing(created, unrouted);
    }

    method FireOrder(f: Firing) returns (error: Option<Error>)
      modifies this`status, this`items, this`tickets
      ensures Outcome(Contents(), error) == Fire(old(Contents()), f)
    {
      if status !in OrderState.MUTABLE { return Some(NotMutable); }
      if Pending(items, |items|) == [] { return Some(NothingToFire); }
      var itemsBefore, ticketsBefore := items, tickets;
      var result := RouteOrder(f);
      if status != OrderState.IN_KITCHEN {
        if !OrderState.CanTransition(status, OrderState.IN_KITCHEN) {
          items, tickets := itemsBefore, ticketsBefore;
          return Some(InvalidTransition);
        }
        status := OrderState.IN_KITCHEN;
      }
      return None;
    }

    method AddItem(name: string, quantity: real, station: Option<nat>) returns (error: Option<Error>)
      modifies this`items
      ensures Outcome(Contents(), error) == Add(old(Contents()), name, quantity, station)
    {
      if status !in OrderState.MUTABLE { return Some(NotMutable); }
      if quantity <= 0.0 { return Some(InvalidQuantity); }
      items := items + [Item(name, quantity, station, true, None)];
      return None;
    }

    method ChangeQuantity(item: nat, quantity: real) returns (error: Option<Error>)
      modifies this`items
      ensures Outcome(Contents(), error) == Requantify(old(Contents()), item, quantity)
    {
      if status !in OrderState.MUTABLE { return Some(NotMutable); }
      if item >= |items| { return Some(NoSuchRow); }
      if quantity <= 0.0 { return Some(InvalidQuantity); }
      items := items[item := items[item].(quantity := quantity)];
      return None;
    }

    method VoidItem(item: nat) returns (error: Option<Error>)
      modifies this`items
      ensures Outcome(Contents(), error) == Strike(old(Contents()), item)
    {
      if status !in OrderState.MUTABLE { return Some(NotMutable); }
      if item >= |items| { return Some(NoSuchRow); }
      items := items[item := items[item].(active := false)];
      return None;
    }

    method SyncOrderStatus()
      modifies this`status
      ensures Contents() == old(Contents()).(status := Synced(old(status), tickets))
    {
      var open, served, done := false, true, true;
      var none, i := true, 0;
      while i < |tickets|
        invariant 0 <= i <= |tickets|
        invariant none <==> forall j :: 0 <= j < i ==> tickets[j].status == CANCELLED
        invariant served <==> forall j :: 0 <= j < i ==> tickets[j].status == CANCELLED || tickets[j].status == SERVED
        invariant done <==> forall j :: 0 <= j < i ==> tickets[j].status == CANCELLED || tickets[j].IsDone()
        invariant open <==> exists j :: 0 <= j < i && tickets[j].IsOpen()
      {
        var ticket := tickets[i];
        if ticket.status != CANCELLED {
          none := false;
          served := served && ticket.status == SERVED;
          done := done && ticket.IsDone();
          open := open || ticket.IsOpen();
        }
        i := i + 1;
      }
      if none || status in OrderState.TERMINAL { return; }
      var target := if served then Some(OrderState.SERVED) else if done then Some(OrderState.READY)
                    else if open then Some(OrderState.IN_KITCHEN) else None;
      if target.Some? && target.value != status && OrderState.CanTransition(status, target.value) {
        status := target.value;
      }
    }

    method TransitionTicket(k: nat, target: TicketStatus, now: int) returns (error: Option<Error>)
      modifies this`status, this`tickets
      ensures Outcome(Contents(), error) == Transition(old(Contents()), k, target, now)
    {
      if k >= |tickets| { return Some(NoSuchRow); }
      var locked := tickets[k];
      if target !in AllowedTransitions(locked.status) { return Some(InvalidTransition); }
      locked := locked.(status := target);
      if target == ACCEPTED {
        locked := locked.(acceptedAt := Some(now));
      } else if target == PREPARING {
        if locked.startedAt.None? { locked := locked.(startedAt := Some(now)); }
        locked := locked.(readyAt := None, prepSeconds := None);
      } else if target == READY {
        var seconds := Seconds(now - locked.createdAt);
        if seconds < 0 { return Some(NegativePrepTime); }
        locked := locked.(readyAt := Some(now), prepSeconds := Some(seconds));
      } else if target == SERVED {
        locked := locked.(servedAt := Some(now));
      }
      tickets := tickets[k := locked];
      SyncOrderStatus();
      return None;
    }

    method LoadTicket(request: nat, k: nat) returns (error: Option<Error>)
      modifies this`recalls
      ensures Outcome(Contents(), error) == LoadForRecall(old(Contents()), request, k)
    {
      if k >= |tickets| { return Some(NoSuchRow); }
      recalls := recalls[request := Copy(k, tickets[k])];
      return None;
    }

    method RecallTicket(request: nat, window: int, checkedAt: int, now: int) returns (error: Option<Error>)
      modifies this`status, this`tickets, this`recalls
      ensures Outcome(Contents(), error) == Recall(old(Contents()), request, window, checkedAt, now)
    {
      if request !in recalls { return Some(NotLoaded); }
      var copy := recalls[request];
      recalls := recalls - {request};
      var reference := if copy.row.servedAt.Some? then copy.row.servedAt else copy.row.readyAt;
      if reference.Some? && checkedAt - reference.value > window { return Some(RecallWindowElapsed); }
      error := TransitionTicket(copy.ticket, PREPARING, now);
    }

    method CloseOrder(target: OrderStatus) returns (error: Option<Error>)
      requires target in {OrderState.PAID, OrderState.REFUNDED}
      modifies this`status
      ensures Outcome(Contents(), error) == Close(old(Contents()), target)
    {
      if !OrderState.CanTransition(status, target) { return Some(InvalidTransition); }
      status := target;
      return None;
    }

    method LoadOrder(request: nat)
      modifies this`voids
      ensures Contents() == LoadForVoid(old(Contents()), request)
    {
      voids := voids[request := status];
    }

    method VoidOrder(request: nat) returns (error: Option<Error>)
      modifies this`status, this`voids
      ensures Outcome(Contents(), error) == Void(old(Contents()), request)
    {
      if request !in voids { return Some(NotLoaded); }
      var loaded := voids[request];
      voids := voids - {request};
      if loaded in OrderState.TERMINAL { return Some(InvalidTransition); }
      if !OrderState.CanTransition(loaded, OrderState.CANCELLED) { return Some(InvalidTransition); }
      status := OrderState.CANCELLED;
      return None;
    }
  }

  // ---- runs ----

  datatype Action =
    | AddItem(name: string, quantity: real, station: Option<nat>)
    | ChangeQuantity(item: nat, newQuantity: real)
    | VoidItem(voided: nat)
    | FireOrder(autoAccept: set<nat>, delays: map<nat, nat>)
    | TransitionTicket(ticket: nat, target: TicketStatus)
    | LoadTicket(loading: nat, loaded: nat)
    | RecallTicket(recalling: nat, window: int, checkedAt: int)
    | PayOrder
    | RefundOrder
    | LoadOrder(request: nat)
    | VoidOrder(voiding: nat)

  /** An action with the clock it reads and the time by which it is done. */
  datatype Event = Event(at: int, until: int, action: Action)

  function Step(s: State, e: Event): Outcome {
    match e.action
    case AddItem(name, quantity, station) => Add(s, name, quantity, station)
    case ChangeQuantity(item, quantity) => Requantify(s, item, quantity)
    case VoidItem(item) => Strike(s, item)
    case FireOrder(autoAccept, delays) => Fire(s, Firing(autoAccept, e.at, delays))
    case TransitionTicket(k, target) => Transition(s, k, target, e.at)
    case LoadTicket(request, k) => LoadForRecall(s, request, k)
    case RecallTicket(request, window, checkedAt) => Recall(s, request, window, checkedAt, e.at)
    case PayOrder => Close(s, OrderState.PAID)
    case RefundOrder => Close(s, OrderState.REFUNDED)
    case LoadOrder(request) => Outcome(LoadForVoid(s, request), None)
    case VoidOrder(request) => Void(s, request)
  }

  function Run(s: State, events: seq<Event>): State {
    if events == [] then s else Step(Run(s, events[..|events| - 1]), events[|events| - 1]).state
  }

  const OPENED := State(OrderState.OPEN, [], [], map[], map[])
}
