/** A visit from the request to the charge, operation by operation. */
module PlayVisits {
  import opened Wrappers
  import opened Rounding
  import opened PlayPricing
  import opened PlayArea

  // ---- check-in ----

  predicate TagInside(s: State, tag: string) {
    exists id :: id in s.sessions && (s.sessions[id].status == Active || s.sessions[id].status == Overdue)
                 && s.sessions[id].tag == tag
  }

  function Inside(s: State): set<nat> {
    set id | id in s.sessions && (s.sessions[id].status == Active || s.sessions[id].status == Overdue)
  }

  /** What a check-in must meet. */
  predicate Admissible(s: State, r: CheckIn) {
    && r.enabled && s.areaLock.None? && |Inside(s)| < s.maxCapacity && !r.phoneMissing
    && (r.agePolicy == Block ==> s.minAge <= r.ageMonths <= s.maxAge)
    && !TagInside(s, r.tag) && r.tariff.Some? && r.id !in s.sessions
  }

  /** The grace in a session's snapshot: the tariff's own, or else the branch's. */
  function SnapshotGrace(r: CheckIn): int
    requires r.tariff.Some?
  {
    if r.tariff.value.ownGrace.Some? then r.tariff.value.ownGrace.value else r.branchGrace
  }

  function SnapshotTariff(r: CheckIn): Tariff
    requires r.tariff.Some?
  {
    r.tariff.value.pricing.(graceMinutes := SnapshotGrace(r))
  }

  function CheckedIn(s: State, terminal: nat, r: CheckIn): State {
    Step(Step(Step(s, LockArea(terminal, r)).state, CheckTag(terminal)).state, Insert(terminal)).state
  }

  lemma TagInsideIs(s: State, tag: string)
    ensures TagInside(s, tag) == TagTaken(s.sessions, tag) && Inside(s) == OpenIds(s.sessions)
  {
  }

  /** A check-in with nothing in between succeeds exactly when it is admissible, and then adds this one session under
      the terms of its tariff; otherwise it adds none. */
  lemma AdmitsExactly(s: State, terminal: nat, r: CheckIn)
    requires s.areaLock.None?
    ensures var s' := CheckedIn(s, terminal, r);
            if Admissible(s, r)
            then s' == s.(sessions := s.sessions[r.id :=
                   Session(r.tag, r.guardian, Active, r.now, ExpectedEnd(SnapshotTariff(r), r.now), None, None,
                           SnapshotTariff(r), r.rounding, SnapshotGrace(r), 0, 0)])
            else s' == s
  {
    TagInsideIs(s, r.tag);
  }

  /** Which refusal a check-in meets first. */
  lemma RefusesInOrder(s: State, terminal: nat, r: CheckIn)
    ensures var locked := Step(s, LockArea(terminal, r));
            && (locked.error == Some(KidsDisabled) <==> !r.enabled)
            && (locked.error == Some(Blocked) <==> r.enabled && s.areaLock.Some?)
            && (locked.error == Some(AreaFull) <==> r.enabled && s.areaLock.None? && |Inside(s)| >= s.maxCapacity)
            && (locked.error.None? ==>
                  var checked := Step(locked.state, CheckTag(terminal));
                  && (checked.error == Some(GuardianPhoneRequired) <==> r.phoneMissing)
                  && (checked.error == Some(AgeNotAllowed) <==>
                        !r.phoneMissing && r.agePolicy == Block && !(s.minAge <= r.ageMonths <= s.maxAge))
                  && (checked.error == Some(TagInUse) <==>
                        !r.phoneMissing && (r.agePolicy == Block ==> s.minAge <= r.ageMonths <= s.maxAge)
                        && TagInside(s, r.tag))
                  && (checked.error.None? ==>
                        var inserted := Step(checked.state, Insert(terminal));
                        && (inserted.error == Some(NoTariff) <==> r.tariff.None?)
                        && (inserted.error == Some(DuplicateId) <==> r.tariff.Some? && r.id in s.sessions)))
  {
    TagInsideIs(s, r.tag);
  }

  // ---- check-out ----

  function Recipient(s: State, c: CheckOut): nat
    requires c.id in s.sessions
  {
    if c.releasedTo.Some? then c.releasedTo.value else s.sessions[c.id].guardian
  }

  function RoundingOf(session: Session): string {
    if session.rounding == "" then "up_to_block" else session.rounding
  }

  predicate KnownRounding(session: Session) {
    RoundingOf(session) in {"up_to_block", "nearest_block", "exact_minutes"}
  }

  /** What a session costs at an instant on the terms it carries. */
  function Priced(session: Session, at: int): Result<PlayCharge, PricingError> {
    ComputeCharge(session.tariff, ElapsedMinutes(session.checkedInAt, at), RoundingOf(session), Some(session.grace))
  }

  /** A check-out closes the session exactly when it is open, the guardian is verified and another recipient approved
      where that is required, and its rounding is known; it then writes recipient, instant and price, and nothing
      else of this session or of any other. */
  lemma LeavesExactly(s: State, c: CheckOut)
    ensures var o := Step(s, Leave(c));
            if && c.id in s.sessions && s.sessions[c.id].status in {Active, Overdue}
               && (c.verificationRequired ==> c.verified)
               && (Recipient(s, c) != s.sessions[c.id].guardian && c.approvalRequired ==> c.approved)
               && KnownRounding(s.sessions[c.id])
            then
              var price := Priced(s.sessions[c.id], c.now);
              && o.error.None? && price.Ok?
              && o.state == s.(sessions := s.sessions[c.id := s.sessions[c.id].(
                   status := CheckedOut, checkedOutAt := Some(c.now), releasedTo := Some(Recipient(s, c)),
                   billableMinutes := price.value.billableMinutes, computedCharge := price.value.charge)])
            else o.error.Some? && o.state == s
  {
  }

  lemma LeaveRefusesInOrder(s: State, c: CheckOut)
    ensures var o := Step(s, Leave(c));
            && (o.error == Some(NoSuchSession) <==> c.id !in s.sessions)
            && (c.id in s.sessions ==>
                  var session := s.sessions[c.id];
                  var open, seen := session.status in {Active, Overdue}, c.verificationRequired ==> c.verified;
                  var released := Recipient(s, c) == session.guardian || !c.approvalRequired || c.approved;
                  && (o.error == Some(SessionClosed) <==> !open)
                  && (o.error == Some(GuardianNotVerified) <==> open && !seen)
                  && (o.error == Some(ReleaseApprovalRequired) <==> open && seen && !released)
                  && (o.error == Some(Error.UnknownRounding) <==> open && seen && released && !KnownRounding(session)))
  {
  }

  /** The whole visit: checked in on a request and checked out at some instant of any run that never changes its
      tariff, a child is charged what the request's tariff, grace and rounding make of the minutes between. */
  lemma VisitCharged(s: State, terminal: nat, r: CheckIn, events: seq<Event>)
    requires Admissible(s, r) && NeverRetariffed(CheckedIn(s, terminal, r), events, r.id)
    ensures var after := Run(CheckedIn(s, terminal, r), events);
            && r.id in after.sessions
            && (after.sessions[r.id].status !in {Active, Overdue} ==>
                  && after.sessions[r.id].checkedOutAt.Some?
                  && var minutes := ElapsedMinutes(r.now, after.sessions[r.id].checkedOutAt.value);
                     var rounding := if r.rounding == "" then "up_to_block" else r.rounding;
                     var price := ComputeCharge(SnapshotTariff(r), minutes, rounding, Some(SnapshotGrace(r)));
                     price.Ok? && after.sessions[r.id].computedCharge == price.value.charge)
  {
    AdmitsExactly(s, terminal, r);
    var began := CheckedIn(s, terminal, r);
    ChargedOnOpeningTerms(began, events, r.id);
    var at := Run(began, events).sessions[r.id].checkedOutAt;
    if at.Some? {
      assert Quote(began.sessions[r.id], at.value) == Priced(began.sessions[r.id], at.value);
    }
  }

  // ---- the board and tariff changes ----

  /** The refresh makes overdue exactly the active sessions whose end lies further back than the alert, and changes
      nothing else. */
  lemma RefreshExactly(s: State, now: int, alertMinutes: int, id: nat)
    requires id in s.sessions
    ensures var after := Step(s, RefreshOverdue(now, alertMinutes)).state;
            && after == s.(sessions := after.sessions) && after.sessions.Keys == s.sessions.Keys
            && after.sessions[id] == s.sessions[id].(status := after.sessions[id].status)
            && after.sessions[id].status
               == if s.sessions[id].status == Active && s.sessions[id].expectedEnd.Some?
                     && s.sessions[id].expectedEnd.value + alertMinutes * 60_000_000 < now
                  then Overdue else s.sessions[id].status
  {
  }

  /** A tariff change is judged on the copy and writes the new terms, and only them, over the stored session, which
      is then priced on them from its check-in. */
  lemma SavesExactly(s: State, terminal: nat, row: PlayTariff, sameArea: bool, branchGrace: int, at: int)
    requires terminal in s.copies && s.copies[terminal].id in s.sessions
    requires s.copies[terminal].session.checkedInAt == s.sessions[s.copies[terminal].id].checkedInAt
    ensures var id, o := s.copies[terminal].id, Step(s, SaveTariff(terminal, row, sameArea, branchGrace));
            var grace := if row.ownGrace.Some? then row.ownGrace.value else branchGrace;
            var tariff := row.pricing.(graceMinutes := grace);
            if s.copies[terminal].session.status in {Active, Overdue} && sameArea
            then
              && o.error.None?
              && o.state == s.(sessions := s.sessions[id := s.sessions[id].(
                   tariff := tariff, grace := grace, expectedEnd := ExpectedEnd(tariff, s.sessions[id].checkedInAt))])
              && (s.sessions[id].checkedOutAt.None? ==>
                    Quote(o.state.sessions[id], at)
                    == ComputeCharge(tariff, ElapsedMinutes(s.sessions[id].checkedInAt, at),
                                     RoundingOf(s.sessions[id]), Some(grace)))
            else o.error.Some? && o.state == s
  {
  }

  /** A terminal's copy is the stored session as it is then. */
  lemma CopiesExactly(s: State, terminal: nat, id: nat)
    ensures Step(s, LoadCopy(terminal, id))
         == if id in s.sessions then Outcome(s.(copies := s.copies[terminal := Copy(id, s.sessions[id])]), None)
            else Outcome(s, Some(NoSuchSession))
  {
  }
}
