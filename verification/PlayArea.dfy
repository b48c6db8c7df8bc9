/** Check-in, the overdue flag, tariff changes and check-out of one play area
    (kids/services.py), as the statements of several terminals interleave.

    A check-in holds the lock on the area row from its occupancy read to its insert, so it is
    three steps with other terminals' steps in between. A check-out locks and re-reads its
    session and is one step. A tariff change works on a copy of the session read earlier. */
module PlayArea {
  import opened Wrappers
  import opened Rounding
  import opened PlayPricing

  datatype Status = Active | Overdue | CheckedOut | Cancelled

  datatype Session = Session(
    tag: string,
    guardian: nat,
    status: Status,
    checkedInAt: int,
    expectedEnd: Option<int>,
    checkedOutAt: Option<int>,
    releasedTo: Option<nat>,
    tariff: Tariff,
    rounding: string,
    grace: int,
    billableMinutes: int,
    computedCharge: int)
  {
    predicate IsOpen() {
      status.Active? || status.Overdue?
    }
  }

  /** A tariff row as it stands in the database; without its own grace it uses the branch's. */
  datatype PlayTariff = PlayTariff(pricing: Tariff, ownGrace: Option<int>)

  datatype AgePolicy = Off | Warn | Block

  datatype CheckIn = CheckIn(
    id: nat,
    tag: string,
    guardian: nat,
    enabled: bool,
    phoneMissing: bool,
    ageMonths: int,
    agePolicy: AgePolicy,
    tariff: Option<PlayTariff>,
    rounding: string,
    branchGrace: int,
    now: int)

  datatype CheckOut = CheckOut(
    id: nat,
    releasedTo: Option<nat>,
    verified: bool,
    approved: bool,
    verificationRequired: bool,
    approvalRequired: bool,
    now: int)

  /** What a check-in transaction holding the area lock has established so far. */
  datatype Admission = Admission(terminal: nat, request: CheckIn, tagFree: bool)

  datatype Copy = Copy(id: nat, session: Session)

  datatype State = State(
    maxCapacity: nat,
    minAge: int,
    maxAge: int,
    sessions: map<nat, Session>,
    areaLock: Option<Admission>,
    copies: map<nat, Copy>)

  datatype Error =
    | KidsDisabled | AreaFull | GuardianPhoneRequired | AgeNotAllowed | TagInUse | NoTariff
    | DuplicateId | NoSuchSession | SessionClosed | GuardianNotVerified | ReleaseApprovalRequired
    | TariffNotAvailable | UnknownRounding | Blocked | NotHolding

  datatype Event =
    | LockArea(terminal: nat, request: CheckIn)
    | CheckTag(terminal: nat)
    | Insert(terminal: nat)
    | Leave(checkOut: CheckOut)
    | RefreshOverdue(now: int, alertMinutes: int)
    | LoadCopy(terminal: nat, id: nat)
    | SaveTariff(terminal: nat, row: PlayTariff, sameArea: bool, branchGrace: int)
    | SetCapacity(capacity: nat)

  datatype Outcome = Outcome(state: State, error: Option<Error>)

  function OpenIds(sessions: map<nat, Session>): set<nat> {
    set id | id in sessions && sessions[id].IsOpen()
  }

  function Occupancy(s: State): nat {
    |OpenIds(s.sessions)|
  }

  predicate TagTaken(sessions: map<nat, Session>, tag: string) {
    exists id :: id in sessions && sessions[id].IsOpen() && sessions[id].tag == tag
  }

  function ToPricing(row: PlayTariff, branchGrace: int): Tariff {
    row.pricing.(graceMinutes := match row.ownGrace case Some(g) => g case None => branchGrace)
  }

  function Fail(s: State, e: Error): Outcome {
    Outcome(s, Some(e))
  }

  /** A transaction that fails releases the area lock and leaves nothing else behind. */
  function Abort(s: State, e: Error): Outcome {
    Fail(s.(areaLock := None), e)
  }

  function LockAreaStep(s: State, terminal: nat, r: CheckIn): Outcome {
    if !r.enabled then Fail(s, KidsDisabled)
    else if s.areaLock.Some? then Fail(s, Blocked)
    else if Occupancy(s) >= s.maxCapacity then Fail(s, AreaFull)
    else Outcome(s.(areaLock := Some(Admission(terminal, r, false))), None)
  }

  predicate AgeBlocks(s: State, r: CheckIn) {
    r.agePolicy.Block? && !(s.minAge <= r.ageMonths <= s.maxAge)
  }

  function CheckTagStep(s: State, terminal: nat): Outcome {
    if s.areaLock.None? || s.areaLock.value.terminal != terminal || s.areaLock.value.tagFree then Fail(s, NotHolding)
    else
      var r := s.areaLock.value.request;
      if r.phoneMissing then Abort(s, GuardianPhoneRequired)
      else if AgeBlocks(s, r) then Abort(s, AgeNotAllowed)
      else if TagTaken(s.sessions, r.tag) then Abort(s, TagInUse)
      else Outcome(s.(areaLock := Some(Admission(terminal, r, true))), None)
  }

  function NewSession(r: CheckIn, row: PlayTariff): Session {
    var pricing := ToPricing(row, r.branchGrace);
    Session(r.tag, r.guardian, Active, r.now, ExpectedEnd(pricing, r.now), None, None,
            pricing, r.rounding, pricing.graceMinutes, 0, 0)
  }

  function InsertStep(s: State, terminal: nat): Outcome {
    if s.areaLock.None? || s.areaLock.value.terminal != terminal || !s.areaLock.value.tagFree then Fail(s, NotHolding)
    else
      var r := s.areaLock.value.request;
      if r.tariff.None? then Abort(s, NoTariff)
      else if r.id in s.sessions then Abort(s, DuplicateId)
      else Outcome(s.(areaLock := None, sessions := s.sessions[r.id := NewSession(r, r.tariff.value)]), None)
  }

  /** What a session costs at a given instant, from its snapshots alone. */
  function Quote(session: Session, at: int): Result<PlayCharge, PricingError> {
    var until := match session.checkedOutAt case Some(t) => t case None => at;
    ComputeCharge(
      session.tariff,
      ElapsedMinutes(session.checkedInAt, until),
      if session.rounding == "" then "up_to_block" else session.rounding,
      Some(session.grace))
  }

  function Closed(session: Session, recipient: nat, charge: PlayCharge, now: int): Session {
    session.(checkedOutAt := Some(now), releasedTo := Some(recipient), billableMinutes := charge.billableMinutes,
             computedCharge := charge.charge, status := CheckedOut)
  }

  function LeaveStep(s: State, c: CheckOut): Outcome {
    if c.id !in s.sessions then Fail(s, NoSuchSession)
    else
      var session := s.sessions[c.id];
      var recipient := match c.releasedTo case Some(g) => g case None => session.guardian;
      if !session.IsOpen() then Fail(s, SessionClosed)
      else if c.verificationRequired && !c.verified then Fail(s, GuardianNotVerified)
      else if recipient != session.guardian && c.approvalRequired && !c.approved then Fail(s, ReleaseApprovalRequired)
      else
        match Quote(session.(checkedOutAt := None), c.now)
        case Err(_) => Fail(s, Error.UnknownRounding)
        case Ok(charge) => Outcome(s.(sessions := s.sessions[c.id := Closed(session, recipient, charge, c.now)]), None)
  }

  predicate PastDue(session: Session, cutoff: int) {
    session.status.Active? && session.expectedEnd.Some? && session.expectedEnd.value < cutoff
  }

  function RefreshStep(s: State, now: int, alertMinutes: int): Outcome {
    var cutoff := now - alertMinutes * MICROSECONDS_PER_MINUTE;
    Outcome(s.(sessions := map id | id in s.sessions ::
      if PastDue(s.sessions[id], cutoff) then s.sessions[id].(status := Overdue) else s.sessions[id]), None)
  }

  function LoadCopyStep(s: State, terminal: nat, id: nat): Outcome {
    if id !in s.sessions then Fail(s, NoSuchSession)
    else Outcome(s.(copies := s.copies[terminal := Copy(id, s.sessions[id])]), None)
  }

  /** Only the tariff columns are written, whatever became of the row since it was read. */
  function SaveTariffStep(s: State, terminal: nat, row: PlayTariff, sameArea: bool, branchGrace: int): Outcome {
    if terminal !in s.copies || s.copies[terminal].id !in s.sessions then Fail(s, NotHolding)
    else
      var copy := s.copies[terminal];
      if !copy.session.IsOpen() then Fail(s, SessionClosed)
      else if !sameArea then Fail(s, TariffNotAvailable)
      else
        var pricing := ToPricing(row, branchGrace);
        var saved := s.sessions[copy.id].(
          tariff := pricing,
          grace := pricing.graceMinutes,
          expectedEnd := ExpectedEnd(pricing, copy.session.checkedInAt));
        Outcome(s.(sessions := s.sessions[copy.id := saved]), None)
  }

  function SetCapacityStep(s: State, capacity: nat): Outcome {
    if s.areaLock.Some? then Fail(s, Blocked) else Outcome(s.(maxCapacity := capacity), None)
  }

  function Step(s: State, e: Event): Outcome {
    match e
    case LockArea(t, r) => LockAreaStep(s, t, r)
    case CheckTag(t) => CheckTagStep(s, t)
    case Insert(t) => InsertStep(s, t)
    case Leave(c) => LeaveStep(s, c)
    case RefreshOverdue(now, m) => RefreshStep(s, now, m)
    case LoadCopy(t, id) => LoadCopyStep(s, t, id)
    case SaveTariff(t, row, same, g) => SaveTariffStep(s, t, row, same, g)
    case SetCapacity(c) => SetCapacityStep(s, c)
  }

  function Run(s: State, events: seq<Event>): State
    decreases |events|
  {
    if events == [] then s else Run(Step(s, events[0]).state, events[1..])
  }

  /** The stored rows, updated in place by the steps of the services. */
  class Store {
    var maxCapacity: nat
    const minAge: int
    const maxAge: int
    var sessions: map<nat, Session>
    var areaLock: Option<Admission>
    var copies: map<nat, Copy>

    function Contents(): State
      reads this
    {
      State(maxCapacity, minAge, maxAge, sessions, areaLock, copies)
    }

    constructor (maxCapacity: nat, minAge: int, maxAge: int)
      ensures Contents() == State(maxCapacity, minAge, maxAge, map[], None, map[])
    {
      this.maxCapacity, this.minAge, this.maxAge := maxCapacity, minAge, maxAge;
      sessions, areaLock, copies := map[], None, map[];
    }

    method LockArea(terminal: nat, request: CheckIn) returns (error: Option<Error>)
      modifies this
      ensures Outcome(Contents(), error) == LockAreaStep(old(Contents()), terminal, request)
    {
      if !request.enabled { return Some(KidsDisabled); }
      if areaLock.Some? { return Some(Blocked); }
      var occupancy := |OpenIds(sessions)|;
      if occupancy >= maxCapacity { return Some(AreaFull); }
      areaLock := Some(Admission(terminal, request, false));
      return None;
    }

    method CheckTag(terminal: nat) returns (error: Option<Error>)
      modifies this
      ensures Outcome(Contents(), error) == CheckTagStep(old(Contents()), terminal)
    {
      if areaLock.None? || areaLock.value.terminal != terminal || areaLock.value.tagFree { return Some(NotHolding); }
      var request := areaLock.value.request;
      areaLock := None;
      if request.phoneMissing { return Some(GuardianPhoneRequired); }
      if request.agePolicy.Block? && (request.ageMonths < minAge || request.ageMonths > maxAge) {
        return Some(AgeNotAllowed);
      }
      if TagTaken(sessions, request.tag) { return Some(TagInUse); }
      areaLock := Some(Admission(terminal, request, true));
      return None;
    }

    method Insert(terminal: nat) returns (error: Option<Error>)
      modifies this
      ensures Outcome(Contents(), error) == InsertStep(old(Contents()), terminal)
    {
      if areaLock.None? || areaLock.value.terminal != terminal || !areaLock.value.tagFree { return Some(NotHolding); }
      var request := areaLock.value.request;
      areaLock := None;
      if request.tariff.None? { return Some(NoTariff); }
      if request.id in sessions { return Some(DuplicateId); }
      sessions := sessions[request.id := NewSession(request, request.tariff.value)];
      return None;
    }

    method Leave(c: CheckOut) returns (error: Option<Error>)
      modifies this
      ensures Outcome(Contents(), error) == LeaveStep(old(Contents()), c)
    {
      if c.id !in sessions { return Some(NoSuchSession); }
      var locked := sessions[c.id];
      if !locked.IsOpen() { return Some(SessionClosed); }
      var recipient := match c.releasedTo case Some(g) => g case None => locked.guardian;
      if c.verificationRequired && !c.verified { return Some(GuardianNotVerified); }
      if recipient != locked.guardian && c.approvalRequired && !c.approved { return Some(ReleaseApprovalRequired); }
      var charge := Quote(locked.(checkedOutAt := None), c.now);
      if charge.Err? { return Some(Error.UnknownRounding); }
      sessions := sessions[c.id := Closed(locked, recipient, charge.value, c.now)];
      return None;
    }

    method RefreshOverdue(now: int, alertMinutes: int)
      modifies this
      ensures Outcome(Contents(), None) == RefreshStep(old(Contents()), now, alertMinutes)
    {
      var cutoff := now - alertMinutes * MICROSECONDS_PER_MINUTE;
      sessions := map id | id in sessions ::
        if PastDue(sessions[id], cutoff) then sessions[id].(status := Overdue) else sessions[id];
    }

    method LoadCopy(terminal: nat, id: nat) returns (error: Option<Error>)
      modifies this
      ensures Outcome(Contents(), error) == LoadCopyStep(old(Contents()), terminal, id)
    {
      if id !in sessions { return Some(NoSuchSession); }
      copies := copies[terminal := Copy(id, sessions[id])];
      return None;
    }

    method SaveTariff(terminal: nat, row: PlayTariff, sameArea: bool, branchGrace: int) returns (error: Option<Error>)
      modifies this
      ensures Outcome(Contents(), error) == SaveTariffStep(old(Contents()), terminal, row, sameArea, branchGrace)
    {
      if terminal !in copies || copies[terminal].id !in sessions { return Some(NotHolding); }
      var copy := copies[terminal];
      if !copy.session.IsOpen() { return Some(SessionClosed); }
      if !sameArea { return Some(TariffNotAvailable); }
      var pricing := ToPricing(row, branchGrace);
      var stored := sessions[copy.id];
      sessions := sessions[copy.id := stored.(
        tariff := pricing,
        grace := pricing.graceMinutes,
        expectedEnd := ExpectedEnd(pricing, copy.session.checkedInAt))];
      return None;
    }
  }

  // ---- safety over every interleaving ----

  predicate TagsDistinct(sessions: map<nat, Session>) {
    forall a, b :: a in sessions && b in sessions && a != b && sessions[a].IsOpen() && sessions[b].IsOpen() ==>
      sessions[a].tag != sessions[b].tag
  }

  predicate Safe(s: State) {
    Occupancy(s) <= s.maxCapacity && TagsDistinct(s.sessions)
  }

  /** Safe, and what a check-in in progress has read is still true. */
  predicate Invariant(s: State) {
    && Safe(s)
    && (s.areaLock.Some? ==>
          && Occupancy(s) < s.maxCapacity
          && (s.areaLock.value.tagFree ==> !TagTaken(s.sessions, s.areaLock.value.request.tag)))
  }

  predicate NeverLowers(s: State, e: Event) {
    e.SetCapacity? ==> e.capacity >= s.maxCapacity
  }

  predicate CapacityKept(s: State, events: seq<Event>)
    decreases |events|
  {
    events != [] ==> NeverLowers(s, events[0]) && CapacityKept(Step(s, events[0]).state, events[1..])
  }

  /** Every open session was open before, under the same tag. */
  predicate NoneOpened(before: map<nat, Session>, after: map<nat, Session>) {
    forall id :: id in after && after[id].IsOpen() ==>
        id in before && before[id].IsOpen() && before[id].tag == after[id].tag
  }

  lemma OpenShrinks(before: map<nat, Session>, after: map<nat, Session>)
    requires NoneOpened(before, after)
    ensures |OpenIds(after)| <= |OpenIds(before)|
    ensures TagsDistinct(before) ==> TagsDistinct(after)
    ensures forall tag :: !TagTaken(before, tag) ==> !TagTaken(after, tag)
  {
    assert OpenIds(after) <= OpenIds(before);
    SubsetCardinality(OpenIds(after), OpenIds(before));
  }

  lemma SubsetCardinality<T>(a: set<T>, b: set<T>)
    requires a <= b
    ensures |a| <= |b|
  {
    assert b == a + (b - a);
  }

  lemma InsertKeeps(s: State, terminal: nat)
    requires Invariant(s)
    ensures Invariant(InsertStep(s, terminal).state)
  {
    var s' := InsertStep(s, terminal).state;
    if s'.sessions != s.sessions {
      var id := s.areaLock.value.request.id;
      assert s'.sessions == s.sessions[id := s'.sessions[id]] && s'.areaLock.None?;
      assert OpenIds(s'.sessions) == OpenIds(s.sessions) + {id};
    }
  }

  lemma LockKeeps(s: State, e: Event)
    requires Invariant(s) && NeverLowers(s, e)
    requires e.LockArea? || e.CheckTag? || e.SetCapacity? || e.LoadCopy?
    ensures Invariant(Step(s, e).state)
  {
    assert Step(s, e).state.sessions == s.sessions;
  }

  lemma UpdateKeeps(s: State, e: Event)
    requires Invariant(s) && (e.Leave? || e.RefreshOverdue? || e.SaveTariff?)
    ensures Invariant(Step(s, e).state)
  {
    UpdateOpensNone(s, e);
    OpenShrinks(s.sessions, Step(s, e).state.sessions);
  }

  lemma UpdateOpensNone(s: State, e: Event)
    requires e.Leave? || e.RefreshOverdue? || e.SaveTariff?
    ensures NoneOpened(s.sessions, Step(s, e).state.sessions)
    ensures Step(s, e).state.areaLock == s.areaLock && Step(s, e).state.maxCapacity == s.maxCapacity
  {
  }

  lemma StepKeepsInvariant(s: State, e: Event)
    requires Invariant(s) && NeverLowers(s, e)
    ensures Invariant(Step(s, e).state)
  {
    if e.Insert? {
      InsertKeeps(s, e.terminal);
    } else if e.Leave? || e.RefreshOverdue? || e.SaveTariff? {
      UpdateKeeps(s, e);
    } else {
      LockKeeps(s, e);
    }
  }

  /** However the terminals' steps interleave, the area is never over capacity and no two
      children inside wear the same tag. */
  lemma {:induction false} AlwaysSafe(s: State, events: seq<Event>)
    requires Invariant(s) && CapacityKept(s, events)
    ensures Safe(Run(s, events)) && Invariant(Run(s, events))
    decreases |events|
  {
    if events != [] {
      StepKeepsInvariant(s, events[0]);
      AlwaysSafe(Step(s, events[0]).state, events[1..]);
    }
  }

  lemma EmptyAreaIsSafe(capacity: nat, minAge: int, maxAge: int)
    ensures Invariant(State(capacity, minAge, maxAge, map[], None, map[]))
  {
    assert OpenIds(map[]) == {};
  }

  // ---- who may close a session ----

  /** A session stops being open only by a check-out naming it that reported no error, and the
      charge it then records is the quote at that instant. */
  lemma OnlyCheckOutCloses(s: State, e: Event, id: nat)
    requires id in s.sessions && s.sessions[id].IsOpen()
    ensures var s' := Step(s, e).state;
            && id in s'.sessions
            && (!s'.sessions[id].IsOpen() <==> e.Leave? && e.checkOut.id == id && Step(s, e).error.None?)
    ensures var s' := Step(s, e).state;
            !s'.sessions[id].IsOpen() ==>
              && s'.sessions[id].checkedOutAt == Some(e.checkOut.now)
              && Quote(s.sessions[id].(checkedOutAt := None), e.checkOut.now).Ok?
              && s'.sessions[id].computedCharge == Quote(s.sessions[id].(checkedOutAt := None),
                                                         e.checkOut.now).value.charge
  {
  }

  /** What no step changes once a session is closed. */
  predicate SameClosure(a: Session, b: Session) {
    && a.status == b.status && a.tag == b.tag && a.checkedInAt == b.checkedInAt && a.checkedOutAt == b.checkedOutAt
    && a.releasedTo == b.releasedTo && a.billableMinutes == b.billableMinutes && a.computedCharge == b.computedCharge
  }

  lemma {:induction false} ClosedStaysClosed(s: State, events: seq<Event>, id: nat)
    requires id in s.sessions && !s.sessions[id].IsOpen()
    ensures id in Run(s, events).sessions && SameClosure(s.sessions[id], Run(s, events).sessions[id])
    decreases |events|
  {
    if events != [] {
      var s' := Step(s, events[0]).state;
      assert id in s'.sessions && SameClosure(s.sessions[id], s'.sessions[id]);
      ClosedStaysClosed(s', events[1..], id);
    }
  }

  // ---- snapshot pricing ----

  predicate Retariffs(s: State, e: Event, id: nat) {
    e.SaveTariff? && e.terminal in s.copies && s.copies[e.terminal].id == id
  }

  predicate NeverRetariffed(s: State, events: seq<Event>, id: nat)
    decreases |events|
  {
    events != [] ==> !Retariffs(s, events[0], id) && NeverRetariffed(Step(s, events[0]).state, events[1..], id)
  }

  predicate SameTerms(a: Session, b: Session) {
    a.tariff == b.tariff && a.rounding == b.rounding && a.grace == b.grace && a.checkedInAt == b.checkedInAt
  }

  /** Unless a tariff change names it, a session keeps the terms it was opened under, whatever
      happens to the live tariff rows; once closed it has been charged the quote on those terms. */
  lemma {:induction false} ChargedOnOpeningTerms(s: State, events: seq<Event>, id: nat)
    requires id in s.sessions && s.sessions[id].IsOpen() && s.sessions[id].checkedOutAt.None?
    requires NeverRetariffed(s, events, id)
    ensures id in Run(s, events).sessions
    ensures var before, after := s.sessions[id], Run(s, events).sessions[id];
            && SameTerms(before, after)
            && (!after.IsOpen() ==>
                  && after.checkedOutAt.Some?
                  && Quote(before, after.checkedOutAt.value).Ok?
                  && after.computedCharge == Quote(before, after.checkedOutAt.value).value.charge)
    decreases |events|
  {
    if events != [] {
      var s' := Step(s, events[0]).state;
      OnlyCheckOutCloses(s, events[0], id);
      assert SameTerms(s.sessions[id], s'.sessions[id]);
      if s'.sessions[id].IsOpen() {
        ChargedOnOpeningTerms(s', events[1..], id);
        var at := Run(s', events[1..]).sessions[id].checkedOutAt;
        if at.Some? {
          assert Quote(s.sessions[id], at.value) == Quote(s'.sessions[id], at.value);
        }
      } else {
        assert s.sessions[id].(checkedOutAt := None) == s.sessions[id];
        ClosedStaysClosed(s', events[1..], id);
        TermsOutlive(s', events[1..], id);
      }
    }
  }

  lemma {:induction false} TermsOutlive(s: State, events: seq<Event>, id: nat)
    requires id in s.sessions && NeverRetariffed(s, events, id)
    ensures id in Run(s, events).sessions && SameTerms(s.sessions[id], Run(s, events).sessions[id])
    decreases |events|
  {
    if events != [] {
      TermsOutlive(Step(s, events[0]).state, events[1..], id);
    }
  }

  /** The running meter only goes up while the terms stand. */
  lemma QuoteNeverFalls(session: Session, at: int, later: int)
    requires at <= later && session.checkedOutAt.None? && Quote(session, at).Ok?
    ensures Quote(session, later).Ok? && Quote(session, at).value.charge <= Quote(session, later).value.charge
  {
    var name := if session.rounding == "" then "up_to_block" else session.rounding;
    ElapsedGrows(session.checkedInAt, at, later);
    ChargeMonotone(session.tariff, ElapsedMinutes(session.checkedInAt, at), ElapsedMinutes(session.checkedInAt, later),
      ParseRounding(name).value, Grace(session.tariff, Some(session.grace)));
  }

  lemma ElapsedGrows(start: int, at: int, later: int)
    requires at <= later
    ensures ElapsedMinutes(start, at) <= ElapsedMinutes(start, later)
  {
  }

  // ---- a tariff change racing a check-out ----

  /** A closed session whose recorded charge is the price of its recorded terms. */
  predicate Explained(session: Session) {
    session.IsOpen() ||
    (Quote(session, 0).Ok? && session.checkedOutAt.Some? && session.computedCharge == Quote(session, 0).value.charge)
  }

  predicate AllExplained(s: State) {
    forall id :: id in s.sessions ==> Explained(s.sessions[id])
  }

  /** The one step that can leave a recorded charge unexplained: a tariff saved over a row that
      was open when it was read and is closed by now. */
  predicate LateSave(s: State, e: Event) {
    && e.SaveTariff? && e.terminal in s.copies && s.copies[e.terminal].id in s.sessions
    && s.copies[e.terminal].session.IsOpen() && e.sameArea
    && !s.sessions[s.copies[e.terminal].id].IsOpen()
  }

  lemma CheckOutExplains(s: State, e: Event, id: nat)
    requires id in s.sessions && s.sessions[id].IsOpen() && s.sessions[id].checkedOutAt.None?
    requires var s' := Step(s, e).state; id in s'.sessions && !s'.sessions[id].IsOpen()
    ensures Explained(Step(s, e).state.sessions[id])
  {
    OnlyCheckOutCloses(s, e, id);
    assert Quote(Step(s, e).state.sessions[id], 0) == Quote(s.sessions[id], e.checkOut.now);
  }

  lemma StepExplains(s: State, e: Event)
    requires AllExplained(s) && OpenUnstamped(s) && !LateSave(s, e)
    ensures AllExplained(Step(s, e).state)
  {
    var s' := Step(s, e).state;
    forall id | id in s'.sessions ensures Explained(s'.sessions[id]) {
      if id in s.sessions && !s'.sessions[id].IsOpen() {
        if s.sessions[id].IsOpen() {
          CheckOutExplains(s, e, id);
        } else {
          assert s'.sessions[id] == s.sessions[id];
        }
      }
    }
  }

  /** A late save of terms on which the finished visit costs something else than was charged. */
  predicate Misprices(s: State, e: Event) {
    LateSave(s, e) &&
      var closed, pricing := s.sessions[s.copies[e.terminal].id], ToPricing(e.row, e.branchGrace);
      var price := Quote(closed.(tariff := pricing, grace := pricing.graceMinutes), 0);
      price.Err? || price.value.charge != closed.computedCharge
  }

  /** A step keeps every recorded charge the price of its recorded terms exactly when it is not such a save. */
  lemma StepExplainsExactly(s: State, e: Event)
    requires AllExplained(s) && OpenUnstamped(s)
    ensures AllExplained(Step(s, e).state) <==> !Misprices(s, e)
  {
    if LateSave(s, e) {
      LateSaveExplains(s, e);
    } else {
      StepExplains(s, e);
    }
  }

  lemma LateSaveExplains(s: State, e: Event)
    requires AllExplained(s) && LateSave(s, e)
    ensures AllExplained(Step(s, e).state) <==> !Misprices(s, e)
  {
    var s', id := Step(s, e).state, s.copies[e.terminal].id;
    var closed, saved := s.sessions[id], s'.sessions[id];
    assert Explained(closed);
    assert Quote(saved, 0) == Quote(closed.(tariff := saved.tariff, grace := saved.grace), 0);
    assert forall other :: other in s.sessions && other != id ==> s'.sessions[other] == s.sessions[other];
  }

  /** From a copy read while the session was open, every tariff may be saved without harm if and only if the
      session is still open: over a closed one some tariff always contradicts the charge. */
  lemma SavesHarmlessExactly(s: State, terminal: nat)
    requires AllExplained(s) && OpenUnstamped(s) && terminal in s.copies
    requires s.copies[terminal].session.IsOpen() && s.copies[terminal].id in s.sessions
    ensures (forall row, grace :: AllExplained(SaveTariffStep(s, terminal, row, true, grace).state))
       <==> s.sessions[s.copies[terminal].id].IsOpen()
  {
    var stored := s.sessions[s.copies[terminal].id];
    if stored.IsOpen() {
      forall row, grace ensures AllExplained(SaveTariffStep(s, terminal, row, true, grace).state) {
        StepExplains(s, SaveTariff(terminal, row, true, grace));
      }
    } else {
      DearerTariffMisprices(s, terminal);
    }
  }

  lemma DearerTariffMisprices(s: State, terminal: nat)
    requires AllExplained(s) && terminal in s.copies
    requires s.copies[terminal].session.IsOpen() && s.copies[terminal].id in s.sessions
    requires !s.sessions[s.copies[terminal].id].IsOpen()
    ensures var dearer := FlatFee((s.sessions[s.copies[terminal].id].computedCharge + 1) as real);
            !AllExplained(SaveTariffStep(s, terminal, dearer, true, 0).state)
  {
    var closed := s.sessions[s.copies[terminal].id];
    var dearer := FlatFee((closed.computedCharge + 1) as real);
    assert Explained(closed);
    var saved := SaveTariffStep(s, terminal, dearer, true, 0).state.sessions[s.copies[terminal].id];
    FlatFeeQuote(saved, closed.computedCharge + 1, 0);
    assert !Explained(saved);
  }

  predicate OpenUnstamped(s: State) {
    forall id :: id in s.sessions && s.sessions[id].IsOpen() ==> s.sessions[id].checkedOutAt.None?
  }

  predicate NeverMispriced(s: State, events: seq<Event>)
    decreases |events|
  {
    events != [] ==> !Misprices(s, events[0]) && NeverMispriced(Step(s, events[0]).state, events[1..])
  }

  predicate ExplainedThroughout(s: State, events: seq<Event>)
    decreases |events|
  {
    AllExplained(s) && (events != [] ==> ExplainedThroughout(Step(s, events[0]).state, events[1..]))
  }

  lemma StepLeavesOpenUnstamped(s: State, e: Event)
    requires OpenUnstamped(s)
    ensures OpenUnstamped(Step(s, e).state)
  {
  }

  /** Over whole runs: every recorded charge is the price of the recorded terms throughout if and only if no
      step is such a save. */
  lemma {:induction false} ChargesExplained(s: State, events: seq<Event>)
    requires AllExplained(s) && OpenUnstamped(s)
    ensures ExplainedThroughout(s, events) <==> NeverMispriced(s, events)
    decreases |events|
  {
    if events != [] {
      var s' := Step(s, events[0]).state;
      StepExplainsExactly(s, events[0]);
      StepLeavesOpenUnstamped(s, events[0]);
      if AllExplained(s') {
        ChargesExplained(s', events[1..]);
      } else {
        assert !ExplainedThroughout(s', events[1..]);
      }
    }
  }

  function FlatFee(cents: real): PlayTariff {
    PlayTariff(Tariff(OpenDay, cents, 0, 0, 0, 0.0, 0, 0.0), None)
  }

  lemma FlatFeeQuote(session: Session, cents: int, at: int)
    requires session.tariff == ToPricing(FlatFee(cents as real), 0)
    requires session.rounding == "" || ParseRounding(session.rounding).Some?
    ensures Quote(session, at).Ok? && Quote(session, at).value.charge == cents
  {
    HalfUpOfInt(cents);
  }

  /** Such a save happens: the terminal read the session while it was open, the child left and
      paid 50.00, and the new 90.00 tariff was then written under the 50.00 charge. */
  lemma LateSaveExample() returns (events: seq<Event>)
    ensures CapacityKept(State(1, 0, 0, map[], None, map[]), events)
    ensures !AllExplained(Run(State(1, 0, 0, map[], None, map[]), events))
  {
    var empty := State(1, 0, 0, map[], None, map[]);
    var request := CheckIn(7, "A", 0, true, false, 0, Off, Some(FlatFee(5000.0)), "", 0, 0);
    var leave := CheckOut(7, None, true, true, true, true, 0);
    var check, insert, load, late := CheckTag(1), Insert(1), LoadCopy(2, 7), SaveTariff(2, FlatFee(9000.0), true, 0);
    EmptyAreaIsSafe(1, 0, 0);
    var child := NewSession(request, FlatFee(5000.0));
    var s1 := Step(empty, LockArea(1, request)).state;
    var s2 := Step(s1, check).state;
    var s3 := Step(s2, insert).state;
    var s4 := Step(s3, load).state;
    assert s4 == State(1, 0, 0, map[7 := child], None, map[2 := Copy(7, child)]);
    FlatFeeQuote(child, 5000, 0);
    var s5 := Step(s4, Leave(leave)).state;
    assert s5.sessions[7].computedCharge == 5000 && !s5.sessions[7].IsOpen();
    var s6 := Step(s5, late).state;
    FlatFeeQuote(s6.sessions[7], 9000, 0);
    assert !Explained(s6.sessions[7]);
    events := Prepend(s5, late, []);
    events := Prepend(s4, Leave(leave), events);
    events := Prepend(s3, load, events);
    events := Prepend(s2, insert, events);
    events := Prepend(s1, check, events);
    events := Prepend(empty, LockArea(1, request), events);
  }

  lemma Prepend(s: State, e: Event, rest: seq<Event>) returns (events: seq<Event>)
    requires NeverLowers(s, e) && CapacityKept(Step(s, e).state, rest)
    ensures CapacityKept(s, events) && Run(s, events) == Run(Step(s, e).state, rest)
  {
    events := [e] + rest;
    assert events[1..] == rest;
  }
}
