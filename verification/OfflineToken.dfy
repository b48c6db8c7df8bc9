/** The client side of offline licence tokens (licensing/offline_token.py, accept). A token
    reaches this module as the outcome of its ideal signature check; times are instants. */
module OfflineToken {
  import opened Wrappers

  datatype Payload = Payload(seqNumber: int, serverTime: int, expiresAt: int)

  datatype Ratchet = Ratchet(highestServerTime: Option<int>, highestSeq: int)

  const FRESH := Ratchet(None, -1)

  datatype Error = TokenMalformed | TokenSignatureInvalid | TokenReplayed | ClockRolledBack | TokenExpired

  function Max(a: int, b: int): int {
    if a >= b then a else b
  }

  function Accept(verified: Result<Payload, Error>, state: Ratchet, now: int): Result<Ratchet, Error> {
    match verified
    case Err(e) => Err(e)
    case Ok(p) =>
      if p.seqNumber < state.highestSeq then Err(TokenReplayed)
      else if state.highestServerTime.Some? && now < state.highestServerTime.value then Err(ClockRolledBack)
      else if now > p.expiresAt then Err(TokenExpired)
      else
        var newest := match state.highestServerTime case Some(t) => Max(p.serverTime, t) case None => p.serverTime;
        Ok(Ratchet(Some(newest), Max(p.seqNumber, state.highestSeq)))
  }

  // ---- runs ----

  datatype Attempt = Attempt(verified: Result<Payload, Error>, now: int)

  datatype Accepted = Accepted(payload: Payload, now: int)

  /** The persisted state and everything accepted so far. A refusal persists nothing. */
  datatype Device = Device(state: Ratchet, accepted: seq<Accepted>)

  function Try(d: Device, a: Attempt): Device {
    match Accept(a.verified, d.state, a.now)
    case Err(_) => d
    case Ok(state) => Device(state, d.accepted + [Accepted(a.verified.value, a.now)])
  }

  function Run(d: Device, attempts: seq<Attempt>): Device {
    if attempts == [] then d else Try(Run(d, attempts[..|attempts| - 1]), attempts[|attempts| - 1])
  }

  /** The state is the high-water mark of what was accepted, no more and no less. */
  predicate HighWater(d: Device) {
    && (forall i :: 0 <= i < |d.accepted| ==> d.accepted[i].payload.seqNumber <= d.state.highestSeq)
    && (d.state.highestSeq == -1
        || exists i :: 0 <= i < |d.accepted| && d.accepted[i].payload.seqNumber == d.state.highestSeq)
    && (d.state.highestServerTime.None? <==> d.accepted == [])
    && (d.state.highestServerTime.Some? ==>
          && (forall i :: 0 <= i < |d.accepted| ==> d.accepted[i].payload.serverTime <= d.state.highestServerTime.value)
          && exists i :: 0 <= i < |d.accepted| && d.accepted[i].payload.serverTime == d.state.highestServerTime.value)
  }

  predicate InOrder(accepted: seq<Accepted>) {
    forall i, j :: 0 <= i < j < |accepted| ==>
      accepted[i].payload.seqNumber <= accepted[j].payload.seqNumber &&
          accepted[i].payload.serverTime <= accepted[j].now
  }

  predicate NotBehind(a: Ratchet, b: Ratchet) {
    && a.highestSeq <= b.highestSeq
    && (a.highestServerTime.Some? ==>
        b.highestServerTime.Some? && a.highestServerTime.value <= b.highestServerTime.value)
  }

  lemma TryKeeps(d: Device, a: Attempt)
    requires HighWater(d) && InOrder(d.accepted)
    ensures HighWater(Try(d, a)) && InOrder(Try(d, a).accepted) && NotBehind(d.state, Try(d, a).state)
    ensures d.accepted <= Try(d, a).accepted
  {
    var d' := Try(d, a);
    var n := |d.accepted|;
    if |d'.accepted| > n {
      assert d'.accepted[n] == Accepted(a.verified.value, a.now);
      assert forall i :: 0 <= i < n ==> d'.accepted[i] == d.accepted[i];
      if d'.state.highestSeq == d.state.highestSeq && d.state.highestSeq != -1 {
        var i :| 0 <= i < n && d.accepted[i].payload.seqNumber == d.state.highestSeq;
        assert d'.accepted[i].payload.seqNumber == d'.state.highestSeq;
      }
      if d'.state.highestServerTime == d.state.highestServerTime {
        var i :| 0 <= i < n && d.accepted[i].payload.serverTime == d.state.highestServerTime.value;
        assert d'.accepted[i].payload.serverTime == d'.state.highestServerTime.value;
      }
    }
  }

  /** Along every run the marks only move forward, accepted sequence numbers never go down, and each
      acceptance happens at a clock no earlier than any server time accepted before. */
  lemma {:induction false} RatchetHolds(d: Device, attempts: seq<Attempt>)
    requires HighWater(d) && InOrder(d.accepted)
    ensures var d' := Run(d, attempts);
            HighWater(d') && InOrder(d'.accepted) && NotBehind(d.state, d'.state) && d.accepted <= d'.accepted
  {
    if attempts != [] {
      RatchetHolds(d, attempts[..|attempts| - 1]);
      TryKeeps(Run(d, attempts[..|attempts| - 1]), attempts[|attempts| - 1]);
    }
  }

  lemma FreshDevice()
    ensures HighWater(Device(FRESH, [])) && InOrder([])
  {
  }

  /** What a device decides is a function of what it accepted: a genuine token passes exactly when no
      accepted token is newer, no accepted server time is ahead of the clock, and it has not run out. */
  lemma AcceptsExactly(attempts: seq<Attempt>, p: Payload, now: int)
    requires p.seqNumber >= 0
    ensures var d := Run(Device(FRESH, []), attempts);
            Accept(Ok(p), d.state, now).Ok? <==>
              && (forall i :: 0 <= i < |d.accepted| ==> d.accepted[i].payload.seqNumber <= p.seqNumber)
              && (forall i :: 0 <= i < |d.accepted| ==> d.accepted[i].payload.serverTime <= now)
              && now <= p.expiresAt
  {
    RatchetHolds(Device(FRESH, []), attempts);
  }

  // ---- no false alarms ----

  predicate NeverBelow(attempts: seq<Attempt>) {
    && (forall i :: 0 <= i < |attempts| && attempts[i].verified.Ok? ==> attempts[i].verified.value.seqNumber >= 0)
    && (forall i, j :: 0 <= i < j < |attempts| && attempts[i].verified.Ok? && attempts[j].verified.Ok? ==>
          attempts[i].verified.value.seqNumber <= attempts[j].verified.value.seqNumber)
  }

  lemma {:induction false} AcceptedWerePresented(attempts: seq<Attempt>, i: nat)
    requires i < |Run(Device(FRESH, []), attempts).accepted|
    ensures exists k ::
              0 <= k < |attempts| && attempts[k].verified == Ok(Run(Device(FRESH, []), attempts).accepted[i].payload)
  {
    if attempts != [] {
      var init := attempts[..|attempts| - 1];
      var before := Run(Device(FRESH, []), init).accepted;
      if i < |before| {
        AcceptedWerePresented(init, i);
        var k :| 0 <= k < |init| && init[k].verified == Ok(before[i].payload);
        assert attempts[k].verified == Ok(before[i].payload);
      }
    }
  }

  /** A device shown tokens in an order in which their numbers never go down, whatever their
      server times, its clock and other refusals, never takes one for a replay. */
  lemma NoFalseReplay(attempts: seq<Attempt>)
    requires attempts != [] && NeverBelow(attempts)
    ensures var init, last := attempts[..|attempts| - 1], attempts[|attempts| - 1];
            last.verified.Ok? ==>
              Accept(last.verified, Run(Device(FRESH, []), init).state, last.now) != Err(TokenReplayed)
  {
    var init, last := attempts[..|attempts| - 1], attempts[|attempts| - 1];
    var d := Run(Device(FRESH, []), init);
    RatchetHolds(Device(FRESH, []), init);
    if last.verified.Ok? && d.state.highestSeq != -1 {
      var i :| 0 <= i < |d.accepted| && d.accepted[i].payload.seqNumber == d.state.highestSeq;
      AcceptedWerePresented(init, i);
      var k :| 0 <= k < |init| && init[k].verified == Ok(d.accepted[i].payload);
      assert attempts[k] == init[k];
    }
  }

  /** And which refusal it meets: a replay if anything newer was accepted, else a clock gone back if it is behind a
      server time accepted, else its own expiry; a token that is not genuine is refused for that. */
  lemma RefusesExactly(attempts: seq<Attempt>, p: Payload, now: int, reason: Error)
    requires p.seqNumber >= 0
    ensures var d := Run(Device(FRESH, []), attempts);
            var newer := exists i :: 0 <= i < |d.accepted| && d.accepted[i].payload.seqNumber > p.seqNumber;
            var behind := exists i :: 0 <= i < |d.accepted| && d.accepted[i].payload.serverTime > now;
            && (Accept(Ok(p), d.state, now) == Err(TokenReplayed) <==> newer)
            && (Accept(Ok(p), d.state, now) == Err(ClockRolledBack) <==> !newer && behind)
            && (Accept(Ok(p), d.state, now) == Err(TokenExpired) <==> !newer && !behind && now > p.expiresAt)
            && Accept(Err(reason), d.state, now) == Err(reason)
  {
    FreshDevice();
    RatchetHolds(Device(FRESH, []), attempts);
  }
}
