/** Refresh-token families (accounts/tokens.py): one family per sign-in, one current token per
    family, and revocation of everything when a superseded token turns up. Signatures are ideal
    and a new jti is one never used before. */
module TokenFamilies {
  import opened Wrappers

  datatype Reason = Logout | ReuseDetected | PasswordChanged

  /** user is None for a device session. */
  datatype Family = Family(user: Option<nat>, currentJti: nat, rotations: nat, revoked: Option<Reason>)

  datatype TokenType = Access | Refresh

  datatype Presented =
    | Garbage
    | Token(kind: TokenType, family: nat, jti: nat, expires: int)

  datatype Pair = Pair(family: nat, jti: nat)

  datatype Error = TokenInvalid | TokenExpired | SessionRevoked | TokenReuseDetected | AccountInactive

  datatype State = State(families: map<nat, Family>, nextFamily: nat, nextJti: nat)

  const EMPTY := State(map[], 0, 0)

  datatype Outcome = Outcome(state: State, result: Result<Pair, Error>)

  function Decode(token: Presented, now: int): Result<Pair, Error> {
    match token
    case Garbage => Err(TokenInvalid)
    case Token(kind, family, jti, expires) =>
      if expires <= now then Err(TokenExpired)
      else if kind != Refresh then Err(TokenInvalid)
      else Ok(Pair(family, jti))
  }

  function IssuePair(s: State, user: Option<nat>): Outcome {
    Outcome(
      State(s.families[s.nextFamily := Family(user, s.nextJti, 0, None)], s.nextFamily + 1, s.nextJti + 1),
      Ok(Pair(s.nextFamily, s.nextJti)))
  }

  function Revoked(f: Family, reason: Reason): Family {
    if f.revoked.None? then f.(revoked := Some(reason)) else f
  }

  function RevokeAllForUser(families: map<nat, Family>, user: Option<nat>, reason: Reason): map<nat, Family> {
    map id | id in families :: if families[id].user == user then Revoked(families[id], reason) else families[id]
  }

  /** The account check comes last: a superseded token revokes even an inactive user's sessions. */
  function Rotate(s: State, token: Presented, now: int, userActive: bool): Outcome {
    match Decode(token, now)
    case Err(e) => Outcome(s, Err(e))
    case Ok(p) =>
      if p.family !in s.families then Outcome(s, Err(TokenInvalid))
      else
        var f := s.families[p.family];
        if f.revoked.Some? then Outcome(s, Err(SessionRevoked))
        else if f.currentJti != p.jti then
          Outcome(s.(families := RevokeAllForUser(s.families, f.user, ReuseDetected)), Err(TokenReuseDetected))
        else if f.user.Some? && !userActive then Outcome(s, Err(AccountInactive))
        else
          var f' := f.(currentJti := s.nextJti, rotations := f.rotations + 1);
          Outcome(s.(families := s.families[p.family := f'], nextJti := s.nextJti + 1), Ok(Pair(p.family, s.nextJti)))
  }

  function Revoke(s: State, token: Presented, now: int): State {
    match Decode(token, now)
    case Err(_) => s
    case Ok(p) =>
      if p.family in s.families
      then s.(families := s.families[p.family := Revoked(s.families[p.family], Logout)]) else s
  }

  class TokenStore {
    var families: map<nat, Family>
    var nextFamily: nat
    var nextJti: nat

    function Contents(): State
      reads this
    {
      State(families, nextFamily, nextJti)
    }

    constructor ()
      ensures Contents() == EMPTY
    {
      families, nextFamily, nextJti := map[], 0, 0;
    }

    method Issue(user: Option<nat>) returns (r: Result<Pair, Error>)
      modifies this
      ensures Outcome(Contents(), r) == IssuePair(old(Contents()), user)
    {
      r := Ok(Pair(nextFamily, nextJti));
      families := families[nextFamily := Family(user, nextJti, 0, None)];
      nextFamily, nextJti := nextFamily + 1, nextJti + 1;
    }

    method RevokeUser(user: Option<nat>, reason: Reason)
      modifies this`families
      ensures families == RevokeAllForUser(old(families), user, reason)
    {
      families := map id | id in families ::
        if families[id].user == user && families[id].revoked.None?
        then families[id].(revoked := Some(reason)) else families[id];
    }

    method RotateToken(token: Presented, now: int, userActive: bool) returns (r: Result<Pair, Error>)
      modifies this
      ensures Outcome(Contents(), r) == Rotate(old(Contents()), token, now, userActive)
    {
      var decoded := Decode(token, now);
      if decoded.Err? { return Err(decoded.error); }
      var id := decoded.value.family;
      if id !in families { return Err(TokenInvalid); }
      var family := families[id];
      if family.revoked.Some? { return Err(SessionRevoked); }
      if family.currentJti != decoded.value.jti {
        RevokeUser(family.user, ReuseDetected);
        return Err(TokenReuseDetected);
      }
      if family.user.Some? && !userActive { return Err(AccountInactive); }
      family := family.(currentJti := nextJti);
      family := family.(rotations := family.rotations + 1);
      families := families[id := family];
      r := Ok(Pair(id, nextJti));
      nextJti := nextJti + 1;
    }

    method RevokeToken(token: Presented, now: int)
      modifies this`families
      ensures Contents() == Revoke(old(Contents()), token, now)
    {
      var decoded := Decode(token, now);
      if decoded.Ok? && decoded.value.family in families && families[decoded.value.family].revoked.None? {
        var id := decoded.value.family;
        families := families[id := families[id].(revoked := Some(Logout))];
      } else if decoded.Ok? && decoded.value.family in families {
        assert families[decoded.value.family := families[decoded.value.family]] == families;
      }
    }
  }

  // ---- one rotation ----

  /** A rotation succeeds exactly for the current, unexpired refresh token of a live family. */
  lemma RotatesExactly(s: State, token: Presented, now: int, userActive: bool)
    ensures Rotate(s, token, now, userActive).result.Ok? <==>
              && token.Token? && token.kind == Refresh && token.expires > now
              && token.family in s.families
              && s.families[token.family].revoked.None?
              && s.families[token.family].currentJti == token.jti
              && (s.families[token.family].user.Some? ==> userActive)
  {
  }

  /** A superseded token on a live family revokes every session of its user and touches nobody else's. */
  lemma ReuseRevokesUser(s: State, token: Presented, now: int, userActive: bool, id: nat)
    requires token.Token? && token.kind == Refresh && token.expires > now && token.family in s.families
    requires s.families[token.family].revoked.None? && s.families[token.family].currentJti != token.jti
    requires id in s.families
    ensures var o, user := Rotate(s, token, now, userActive), s.families[token.family].user;
            && o.result == Err(TokenReuseDetected)
            && id in o.state.families
            && (s.families[id].user == user ==> o.state.families[id].revoked.Some?)
            && (s.families[id].user != user ==> o.state.families[id] == s.families[id])
  {
  }

  // ---- runs ----

  datatype Event =
    | SignIn(user: Option<nat>)
    | Present(token: Presented, now: int, userActive: bool)
    | SignOut(token: Presented, now: int)
    | EndAll(user: Option<nat>, reason: Reason)

  /** The state, every refresh token redeemed so far and every one handed out so far, in order. */
  datatype History = History(state: State, redeemed: seq<Pair>, handed: seq<Pair>)

  const START := History(EMPTY, [], [])

  function HandedOut(handed: seq<Pair>, result: Result<Pair, Error>): seq<Pair> {
    match result
    case Ok(pair) => handed + [pair]
    case Err(_) => handed
  }

  function Step(h: History, e: Event): History {
    match e
    case SignIn(user) =>
      var o := IssuePair(h.state, user);
      h.(state := o.state, handed := HandedOut(h.handed, o.result))
    case Present(token, now, active) =>
      var o := Rotate(h.state, token, now, active);
      History(o.state,
              if o.result.Ok? then h.redeemed + [Pair(token.family, token.jti)] else h.redeemed,
              HandedOut(h.handed, o.result))
    case SignOut(token, now) => h.(state := Revoke(h.state, token, now))
    case EndAll(user, reason) => h.(state := h.state.(families := RevokeAllForUser(h.state.families, user, reason)))
  }

  function Run(h: History, events: seq<Event>): History {
    if events == [] then h else Step(Run(h, events[..|events| - 1]), events[|events| - 1])
  }

  predicate Redeemed(h: History, jti: nat) {
    exists i :: 0 <= i < |h.redeemed| && h.redeemed[i].jti == jti
  }

  function CountRedeemed(redeemed: seq<Pair>, family: nat): nat {
    if redeemed == [] then 0
    else CountRedeemed(redeemed[..|redeemed| - 1], family) + if redeemed[|redeemed| - 1].family == family then 1 else 0
  }

  predicate DistinctJtis(redeemed: seq<Pair>) {
    forall i, j :: 0 <= i < j < |redeemed| ==> redeemed[i].jti != redeemed[j].jti
  }

  predicate Invariant(h: History) {
    && DistinctJtis(h.redeemed)
    && (forall i :: 0 <= i < |h.redeemed| ==>
        h.redeemed[i].jti < h.state.nextJti && h.redeemed[i].family < h.state.nextFamily)
    && (forall id :: id in h.state.families ==>
        id < h.state.nextFamily && h.state.families[id].currentJti < h.state.nextJti)
    && (forall id :: id in h.state.families ==> !Redeemed(h, h.state.families[id].currentJti))
    && (forall a, b :: a in h.state.families && b in h.state.families && a != b ==>
          h.state.families[a].currentJti != h.state.families[b].currentJti)
  }

  predicate CountsAgree(h: History) {
    forall id :: id in h.state.families ==> h.state.families[id].rotations == CountRedeemed(h.redeemed, id)
  }

  lemma RotationKeepsInvariant(h: History, e: Event)
    requires Invariant(h) && e.Present? && Rotate(h.state, e.token, e.now, e.userActive).result.Ok?
    ensures Invariant(Step(h, e))
  {
    var h' := Step(h, e);
    var last := Pair(e.token.family, e.token.jti);
    assert h'.redeemed == h.redeemed + [last];
    forall i | 0 <= i < |h.redeemed| ensures h.redeemed[i].jti != last.jti {
      assert Redeemed(h, h.redeemed[i].jti);
    }
    forall id | id in h'.state.families ensures !Redeemed(h', h'.state.families[id].currentJti) {
      RedeemedAppend(h, h', last, h'.state.families[id].currentJti);
    }
  }

  lemma RedeemedAppend(h: History, h': History, last: Pair, jti: nat)
    requires Invariant(h) && h'.redeemed == h.redeemed + [last]
    ensures Redeemed(h', jti) <==> Redeemed(h, jti) || jti == last.jti
    ensures Redeemed(h, jti) ==> jti < h.state.nextJti
  {
    assert h'.redeemed[|h.redeemed|] == last;
    if i :| 0 <= i < |h.redeemed| && h.redeemed[i].jti == jti {
      assert h'.redeemed[i].jti == jti;
    }
  }

  predicate NothingRedeemed(h: History, h': History) {
    && h'.redeemed == h.redeemed && h'.state.nextJti == h.state.nextJti && h'.state.nextFamily == h.state.nextFamily
    && h'.state.families.Keys == h.state.families.Keys
    && forall id :: id in h.state.families ==>
         && h'.state.families[id].currentJti == h.state.families[id].currentJti
         && h'.state.families[id].rotations == h.state.families[id].rotations
         && h'.state.families[id].user == h.state.families[id].user
         && (h.state.families[id].revoked.Some? ==> h'.state.families[id].revoked.Some?)
  }

  lemma QuietKeepsInvariant(h: History, h': History)
    requires Invariant(h) && NothingRedeemed(h, h')
    ensures Invariant(h')
    ensures CountsAgree(h) ==> CountsAgree(h')
  {
    forall id | id in h'.state.families ensures !Redeemed(h', h'.state.families[id].currentJti) {
      assert !Redeemed(h, h.state.families[id].currentJti);
    }
  }

  lemma SignInKeepsInvariant(h: History, user: Option<nat>)
    requires Invariant(h)
    ensures Invariant(Step(h, SignIn(user)))
    ensures CountsAgree(h) ==> CountsAgree(Step(h, SignIn(user)))
  {
    var h' := Step(h, SignIn(user));
    NeverRedeemed(h.redeemed, h.state.nextFamily);
    forall id | id in h'.state.families ensures !Redeemed(h', h'.state.families[id].currentJti) {
      if id != h.state.nextFamily {
        assert !Redeemed(h, h.state.families[id].currentJti);
      }
    }
  }

  lemma {:induction false} NeverRedeemed(redeemed: seq<Pair>, family: nat)
    requires forall i :: 0 <= i < |redeemed| ==> redeemed[i].family != family
    ensures CountRedeemed(redeemed, family) == 0
  {
    if redeemed != [] {
      NeverRedeemed(redeemed[..|redeemed| - 1], family);
    }
  }

  lemma RotationCounts(h: History, e: Event)
    requires CountsAgree(h) && e.Present? && Rotate(h.state, e.token, e.now, e.userActive).result.Ok?
    ensures CountsAgree(Step(h, e))
  {
    var h' := Step(h, e);
    assert h'.redeemed[..|h'.redeemed| - 1] == h.redeemed;
  }

  predicate Rotates(h: History, e: Event) {
    e.Present? && Rotate(h.state, e.token, e.now, e.userActive).result.Ok?
  }

  /** Every event that is neither a sign-in nor a successful rotation can only revoke. */
  lemma OthersOnlyRevoke(h: History, e: Event)
    requires !e.SignIn? && !Rotates(h, e)
    ensures NothingRedeemed(h, Step(h, e))
  {
  }

  lemma StepKeepsInvariant(h: History, e: Event)
    requires Invariant(h) && CountsAgree(h)
    ensures Invariant(Step(h, e)) && CountsAgree(Step(h, e))
  {
    if e.SignIn? {
      SignInKeepsInvariant(h, e.user);
    } else if Rotates(h, e) {
      RotationKeepsInvariant(h, e);
      RotationCounts(h, e);
    } else {
      OthersOnlyRevoke(h, e);
      QuietKeepsInvariant(h, Step(h, e));
    }
  }

  /** In every run each refresh token is redeemed at most once, and a family's rotation count is
      the number of its tokens redeemed. */
  lemma {:induction false} EachTokenOnce(h: History, events: seq<Event>)
    requires Invariant(h) && CountsAgree(h)
    ensures Invariant(Run(h, events)) && CountsAgree(Run(h, events)) && DistinctJtis(Run(h, events).redeemed)
  {
    if events != [] {
      EachTokenOnce(h, events[..|events| - 1]);
      StepKeepsInvariant(Run(h, events[..|events| - 1]), events[|events| - 1]);
    }
  }

  lemma EmptyIsFine()
    ensures Invariant(START) && CountsAgree(START)
  {
  }

  lemma RevokedStays(h: History, e: Event, id: nat)
    requires Invariant(h) && id in h.state.families && h.state.families[id].revoked.Some?
    ensures id in Step(h, e).state.families
    ensures var f, f' := h.state.families[id], Step(h, e).state.families[id];
            f'.revoked.Some? && f'.currentJti == f.currentJti && f'.rotations == f.rotations
  {
    if !e.SignIn? && !Rotates(h, e) {
      OthersOnlyRevoke(h, e);
    }
  }

  /** A revoked family is revoked for good: its current token and count never change again. */
  lemma {:induction false} RevokedForGood(h: History, events: seq<Event>, id: nat)
    requires Invariant(h) && CountsAgree(h)
    requires id in h.state.families && h.state.families[id].revoked.Some?
    ensures id in Run(h, events).state.families
    ensures var f, f' := h.state.families[id], Run(h, events).state.families[id];
            f'.revoked.Some? && f'.currentJti == f.currentJti && f'.rotations == f.rotations
  {
    if events != [] {
      var init := events[..|events| - 1];
      RevokedForGood(h, init, id);
      EachTokenOnce(h, init);
      RevokedStays(Run(h, init), events[|events| - 1], id);
    }
  }

  /** Once a token has been redeemed, whoever presents it again while it is still unexpired is
      turned away, and its family does not survive that. */
  lemma {:induction false} ReplayEndsFamily(h: History, events: seq<Event>, token: Presented, now: int, active: bool)
    requires Invariant(h) && CountsAgree(h)
    requires token.Token? && Pair(token.family, token.jti) in h.redeemed && token.family in h.state.families
    requires token.kind == Refresh && token.expires > now
    ensures var h' := Run(h, events);
            var o := Rotate(h'.state, token, now, active);
            && o.result in {Err(SessionRevoked), Err(TokenReuseDetected)}
            && token.family in o.state.families && o.state.families[token.family].revoked.Some?
  {
    EachTokenOnce(h, events);
    RedeemedStays(h, events, token);
    var h' := Run(h, events);
    assert Redeemed(h', token.jti);
    assert h'.state.families[token.family].currentJti != token.jti;
  }

  lemma {:induction false} RedeemedStays(h: History, events: seq<Event>, token: Presented)
    requires token.Token? && Pair(token.family, token.jti) in h.redeemed && token.family in h.state.families
    ensures Pair(token.family, token.jti) in Run(h, events).redeemed && token.family in Run(h, events).state.families
    ensures Redeemed(Run(h, events), token.jti)
  {
    if events != [] {
      RedeemedStays(h, events[..|events| - 1], token);
      StepRemembers(Run(h, events[..|events| - 1]), events[|events| - 1], token);
    }
    InRedeemed(Run(h, events), Pair(token.family, token.jti));
  }

  lemma StepRemembers(h: History, e: Event, token: Presented)
    requires token.Token? && Pair(token.family, token.jti) in h.redeemed && token.family in h.state.families
    ensures Pair(token.family, token.jti) in Step(h, e).redeemed && token.family in Step(h, e).state.families
  {
    if !e.SignIn? && !Rotates(h, e) {
      OthersOnlyRevoke(h, e);
    }
  }

  lemma InRedeemed(h: History, p: Pair)
    requires p in h.redeemed
    ensures Redeemed(h, p.jti)
  {
  }

  // ---- the tokens handed out ----

  /** The last pair handed out for a family. */
  function LastHanded(handed: seq<Pair>, family: nat): Option<Pair> {
    if handed == [] then None
    else
      var last := handed[|handed| - 1];
      if last.family == family then Some(last) else LastHanded(handed[..|handed| - 1], family)
  }

  predicate HandedAgree(h: History) {
    && (forall id :: id in h.state.families ==>
          id < h.state.nextFamily && LastHanded(h.handed, id) == Some(Pair(id, h.state.families[id].currentJti)))
    && (forall i :: 0 <= i < |h.handed| ==> h.handed[i].family in h.state.families && h.handed[i].jti < h.state.nextJti)
    && DistinctJtis(h.handed)
  }

  lemma HandOneMore(handed: seq<Pair>, pair: Pair, family: nat)
    ensures LastHanded(handed + [pair], family) == if pair.family == family then Some(pair) else LastHanded(handed,
                                                                                                            family)
  {
    assert (handed + [pair])[..|handed|] == handed;
  }

  /** A sign-in opens a live family of that user that did not exist, and touches no other. */
  lemma SignInOpens(s: State, user: Option<nat>, id: nat)
    ensures var o := IssuePair(s, user);
            && o.result.Ok?
            && o.result.value.family in o.state.families
            && o.state.families[o.result.value.family] == Family(user, o.result.value.jti, 0, None)
            && (id != o.result.value.family ==>
                  && (id in o.state.families <==> id in s.families)
                  && (id in s.families ==> o.state.families[id] == s.families[id]))
  {
  }

  /** A rotation hands out the family's new current token, leaves its user alone and touches no other family; a
      refusal hands out nothing. */
  lemma RotationHandsCurrent(s: State, token: Presented, now: int, userActive: bool, id: nat)
    ensures var o := Rotate(s, token, now, userActive);
            o.result.Ok? ==>
              && o.result.value.family == token.family && token.family in s.families && token.family in o.state.families
              && o.state.families[token.family]
                 == s.families[token.family].(currentJti := o.result.value.jti,
                                              rotations := s.families[token.family].rotations + 1)
              && o.state.nextFamily == s.nextFamily && o.result.value.jti == s.nextJti &&
                   o.state.nextJti == s.nextJti + 1
              && o.state.families.Keys == s.families.Keys
              && (id in s.families && id != token.family ==> o.state.families[id] == s.families[id])
  {
  }

  lemma SignInHands(h: History, user: Option<nat>)
    requires HandedAgree(h) && Invariant(h)
    ensures HandedAgree(Step(h, SignIn(user)))
  {
    var o := IssuePair(h.state, user);
    var h' := Step(h, SignIn(user));
    forall id | id in h'.state.families
      ensures LastHanded(h'.handed, id) == Some(Pair(id, h'.state.families[id].currentJti))
    {
      SignInOpens(h.state, user, id);
      HandOneMore(h.handed, o.result.value, id);
    }
  }

  lemma RotationHands(h: History, e: Event)
    requires HandedAgree(h) && Rotates(h, e)
    ensures HandedAgree(Step(h, e))
  {
    var o := Rotate(h.state, e.token, e.now, e.userActive);
    var h' := Step(h, e);
    forall id | id in h'.state.families
      ensures LastHanded(h'.handed, id) == Some(Pair(id, h'.state.families[id].currentJti))
    {
      RotationHandsCurrent(h.state, e.token, e.now, e.userActive, id);
      HandOneMore(h.handed, o.result.value, id);
    }
  }

  lemma StepHands(h: History, e: Event)
    requires HandedAgree(h) && Invariant(h)
    ensures HandedAgree(Step(h, e))
  {
    if e.SignIn? {
      SignInHands(h, e.user);
    } else if Rotates(h, e) {
      RotationHands(h, e);
    } else {
      OthersOnlyRevoke(h, e);
      assert Step(h, e).handed == h.handed;
    }
  }

  /** Over every run the last pair handed out for a family, by its sign-in or by a rotation, names its current
      token, and no token is handed out twice. */
  lemma {:induction false} LastHandedIsCurrent(events: seq<Event>)
    ensures HandedAgree(Run(START, events)) && Invariant(Run(START, events)) && CountsAgree(Run(START, events))
  {
    if events != [] {
      var before := Run(START, events[..|events| - 1]);
      LastHandedIsCurrent(events[..|events| - 1]);
      StepHands(before, events[|events| - 1]);
      StepKeepsInvariant(before, events[|events| - 1]);
    } else {
      EmptyIsFine();
    }
  }

  /** So the last token handed out for a live family, presented before it expires by a device or an active user,
      always rotates, and what it is exchanged for was never handed out before. */
  lemma LastHandedRotates(events: seq<Event>, family: nat, expires: int, now: int, userActive: bool)
    requires family in Run(START, events).state.families && now < expires
    requires var f := Run(START, events).state.families[family]; f.revoked.None? && (f.user.Some? ==> userActive)
    ensures var h := Run(START, events);
            && LastHanded(h.handed, family).Some?
            && var last := LastHanded(h.handed, family).value;
               var o := Rotate(h.state, Token(Refresh, last.family, last.jti, expires), now, userActive);
               && last.family == family && o.result.Ok? && o.result.value.family == family
               && forall i :: 0 <= i < |h.handed| ==> h.handed[i].jti != o.result.value.jti
  {
    LastHandedIsCurrent(events);
    var h := Run(START, events);
    var last := LastHanded(h.handed, family).value;
    RotatesExactly(h.state, Token(Refresh, last.family, last.jti, expires), now, userActive);
    RotationHandsCurrent(h.state, Token(Refresh, last.family, last.jti, expires), now, userActive, family);
  }

  /** And any earlier token of a live family ends every session of its user. */
  lemma EarlierHandedReuses(events: seq<Event>, i: nat, expires: int, now: int, userActive: bool)
    requires i < |Run(START, events).handed| && now < expires
    requires var h := Run(START, events); h.handed[i].family in h.state.families
    requires var h := Run(START, events);
             h.state.families[h.handed[i].family].revoked.None? &&
                 LastHanded(h.handed, h.handed[i].family) != Some(h.handed[i])
    ensures var h := Run(START, events);
            Rotate(h.state, Token(Refresh, h.handed[i].family, h.handed[i].jti, expires), now, userActive).result
              == Err(TokenReuseDetected)
  {
    LastHandedIsCurrent(events);
    var h := Run(START, events);
    ReuseRevokesUser(h.state, Token(Refresh, h.handed[i].family, h.handed[i].jti, expires), now, userActive,
                     h.handed[i].family);
  }

  // ---- refusals and sign-out ----

  /** What a presented token is told, refusal by refusal; a refusal other than of a reuse changes nothing. */
  lemma RefusesExactly(s: State, token: Presented, now: int, userActive: bool)
    ensures var o := Rotate(s, token, now, userActive);
            && (o.result == Err(TokenExpired) <==> token.Token? && token.expires <= now)
            && (o.result == Err(TokenInvalid) <==>
                  token.Garbage? || (token.expires > now && (token.kind != Refresh || token.family !in s.families)))
            && (o.result == Err(SessionRevoked) <==> Knows(s, token, now) && s.families[token.family].revoked.Some?)
            && (o.result == Err(TokenReuseDetected) <==>
                  Knows(s, token, now) && s.families[token.family].revoked.None? &&
                      s.families[token.family].currentJti != token.jti)
            && (o.result.Err? && o.result.error != TokenReuseDetected ==> o.state == s)
  {
  }

  /** The token is an unexpired refresh token of a stored family. */
  predicate Knows(s: State, token: Presented, now: int) {
    token.Token? && token.expires > now && token.kind == Refresh && token.family in s.families
  }

  /** Signing out revokes the family of an unexpired refresh token, for the first reason given, and nothing else;
      any other token is ignored. */
  lemma SignOutExactly(s: State, token: Presented, now: int, id: nat)
    ensures Revoke(s, token, now).families.Keys == s.families.Keys
    ensures id in s.families ==>
              Revoke(s, token, now).families[id]
              == if Knows(s, token, now) && token.family == id && s.families[id].revoked.None?
                 then s.families[id].(revoked := Some(Logout)) else s.families[id]
    ensures Revoke(s, token, now).nextJti == s.nextJti && Revoke(s, token, now).nextFamily == s.nextFamily
  {
  }
}
