/** The sign-in lockout (accounts/services.py): a failure counter and a lock flag in a cache
    whose entries expire. Times are in seconds; each cache call of a request has its own. */
module Lockout {
  import opened Wrappers

  datatype Scope = Terminal(device: nat) | Pin(user: nat, device: nat)

  datatype Key = Attempts(scope: Scope) | Locked(scope: Scope)

  /** An entry answers until the moment it expires. */
  datatype Entry = Entry(value: int, expires: int)

  type Entries = map<Key, Entry>

  datatype Policy = Policy(maxAttempts: int, lockoutSeconds: int)

  /** When the cache calls of one request happen: the lock check, the add, the increment, the
      reset used when the increment finds nothing, and the setting of the lock. */
  datatype Times = Times(check: int, add: int, incr: int, reset: int, lock: int)
  {
    predicate Ordered() {
      check <= add <= incr <= reset <= lock
    }
  }

  predicate Live(c: Entries, key: Key, now: int) {
    key in c && now < c[key].expires
  }

  predicate IsLocked(c: Entries, scope: Scope, now: int) {
    Live(c, Locked(scope), now)
  }

  function Add(c: Entries, key: Key, value: int, ttl: int, now: int): Entries {
    if Live(c, key, now) then c else c[key := Entry(value, now + ttl)]
  }

  /** Adds one and keeps the expiry; finds nothing when the entry has expired. */
  function Incr(c: Entries, key: Key, now: int): Option<Entries> {
    if Live(c, key, now) then Some(c[key := Entry(c[key].value + 1, c[key].expires)]) else None
  }

  function Set(c: Entries, key: Key, value: int, ttl: int, now: int): Entries {
    c[key := Entry(value, now + ttl)]
  }

  function CountFailure(c: Entries, scope: Scope, policy: Policy, t: Times): (r: (Entries, int)) {
    var key := Attempts(scope);
    var added := Add(c, key, 0, policy.lockoutSeconds, t.add);
    match Incr(added, key, t.incr)
    case Some(c') => (c', c'[key].value)
    case None => (Set(added, key, 1, policy.lockoutSeconds, t.reset), 1)
  }

  function FailureRecorded(c: Entries, scope: Scope, policy: Policy, t: Times): (Entries, int) {
    var (counted, attempts) := CountFailure(c, scope, policy, t);
    if attempts >= policy.maxAttempts
    then (Set(counted, Locked(scope), 1, policy.lockoutSeconds, t.lock), attempts)
    else (counted, attempts)
  }

  function Cleared(c: Entries, scope: Scope): Entries {
    c - {Attempts(scope), Locked(scope)}
  }

  datatype Refusal = AccountLocked | AuthenticationFailed

  /** verify_pin: true or false, or refused outright while the scope is locked. */
  function PinCheck(c: Entries, scope: Scope, ok: bool, policy: Policy, t: Times): (Entries, Result<bool, Refusal>) {
    if IsLocked(c, scope, t.check) then (c, Err(AccountLocked))
    else if ok then (Cleared(c, scope), Ok(true))
    else (FailureRecorded(c, scope, policy, t).0, Ok(false))
  }

  datatype Candidate = Candidate(user: nat, active: bool, pinMatches: bool)

  function FirstMatch(candidates: seq<Candidate>): Option<nat> {
    if candidates == [] then None
    else if candidates[0].active && candidates[0].pinMatches then Some(candidates[0].user)
    else FirstMatch(candidates[1..])
  }

  function SignIn(c: Entries, device: nat, pinGiven: bool, candidates: seq<Candidate>, policy: Policy, t: Times)
    : (Entries, Result<nat, Refusal>)
  {
    if !pinGiven then (c, Err(AuthenticationFailed))
    else if IsLocked(c, Terminal(device), t.check) then (c, Err(AccountLocked))
    else
      match FirstMatch(candidates)
      case Some(user) => (Cleared(Cleared(c, Terminal(device)), Pin(user, device)), Ok(user))
      case None => (FailureRecorded(c, Terminal(device), policy, t).0, Err(AuthenticationFailed))
  }

  class Cache {
    var entries: Entries

    constructor ()
      ensures entries == map[]
    {
      entries := map[];
    }

    method RecordFailure(scope: Scope, policy: Policy, t: Times) returns (attempts: int)
      modifies this
      ensures (entries, attempts) == FailureRecorded(old(entries), scope, policy, t)
    {
      var key := Attempts(scope);
      if !Live(entries, key, t.add) {
        entries := entries[key := Entry(0, t.add + policy.lockoutSeconds)];
      }
      if Live(entries, key, t.incr) {
        attempts := entries[key].value + 1;
        entries := entries[key := Entry(attempts, entries[key].expires)];
      } else {
        entries := entries[key := Entry(1, t.reset + policy.lockoutSeconds)];
        attempts := 1;
      }
      if attempts >= policy.maxAttempts {
        entries := entries[Locked(scope) := Entry(1, t.lock + policy.lockoutSeconds)];
      }
    }

    method ClearFailures(scope: Scope)
      modifies this
      ensures entries == Cleared(old(entries), scope)
    {
      entries := entries - {Attempts(scope), Locked(scope)};
    }

    method VerifyPin(scope: Scope, ok: bool, policy: Policy, t: Times) returns (r: Result<bool, Refusal>)
      modifies this
      ensures (entries, r) == PinCheck(old(entries), scope, ok, policy, t)
    {
      if IsLocked(entries, scope, t.check) { return Err(AccountLocked); }
      if ok {
        ClearFailures(scope);
      } else {
        var _ := RecordFailure(scope, policy, t);
      }
      return Ok(ok);
    }

    /** Tries every candidate at the branch; one entry counts once, against the terminal. */
    method SignInAtTerminal(device: nat, pinGiven: bool, candidates: seq<Candidate>, policy: Policy, t: Times)
      returns (r: Result<nat, Refusal>)
      modifies this
      ensures (entries, r) == SignIn(old(entries), device, pinGiven, candidates, policy, t)
    {
      if !pinGiven { return Err(AuthenticationFailed); }
      if IsLocked(entries, Terminal(device), t.check) { return Err(AccountLocked); }
      var i := 0;
      while i < |candidates|
        invariant 0 <= i <= |candidates|
        invariant FirstMatch(candidates) == FirstMatch(candidates[i..])
        invariant entries == old(entries)
      {
        if candidates[i].active && candidates[i].pinMatches {
          ClearFailures(Terminal(device));
          ClearFailures(Pin(candidates[i].user, device));
          return Ok(candidates[i].user);
        }
        i := i + 1;
      }
      var _ := RecordFailure(Terminal(device), policy, t);
      return Err(AuthenticationFailed);
    }
  }

  // ---- what one request touches ----

  predicate SameScope(a: Entries, b: Entries, scope: Scope) {
    && (Attempts(scope) in a <==> Attempts(scope) in b)
    && (Locked(scope) in a <==> Locked(scope) in b)
    && (Attempts(scope) in a ==> a[Attempts(scope)] == b[Attempts(scope)])
    && (Locked(scope) in a ==> a[Locked(scope)] == b[Locked(scope)])
  }

  /** A wrong PIN at the till costs the terminal one failure and no colleague anything. */
  lemma WrongPinTouchesTerminalOnly(c: Entries, device: nat, candidates: seq<Candidate>, policy: Policy, t: Times,
                                    other: Scope)
    requires FirstMatch(candidates).None? && other != Terminal(device)
    ensures SameScope(c, SignIn(c, device, true, candidates, policy, t).0, other)
  {
  }

  /** Nor can a colleague's lockout stop anybody: only the terminal's own entries decide. */
  lemma OnlyTerminalDecides(c: Entries, c': Entries, device: nat, candidates: seq<Candidate>, policy: Policy, t: Times)
    requires SameScope(c, c', Terminal(device))
    ensures SignIn(c, device, true, candidates, policy, t).1 == SignIn(c', device, true, candidates, policy, t).1
  {
  }

  lemma {:induction false} MatchIsFirst(candidates: seq<Candidate>)
    ensures match FirstMatch(candidates)
            case None => forall i :: 0 <= i < |candidates| ==> !(candidates[i].active && candidates[i].pinMatches)
            case Some(user) => exists i :: 0 <= i < |candidates| && candidates[i] == Candidate(user, true, true)
                                 && forall j :: 0 <= j < i ==> !(candidates[j].active && candidates[j].pinMatches)
  {
    if candidates != [] && !(candidates[0].active && candidates[0].pinMatches) {
      MatchIsFirst(candidates[1..]);
      if FirstMatch(candidates).Some? {
        var rest := candidates[1..];
        var user := FirstMatch(candidates).value;
        var i :| 0 <= i < |rest| && rest[i] == Candidate(user, true, true)
          && forall j :: 0 <= j < i ==> !(rest[j].active && rest[j].pinMatches);
        assert candidates[i + 1] == Candidate(user, true, true);
        forall j | 0 <= j < i + 1 ensures !(candidates[j].active && candidates[j].pinMatches) {
          assert j == 0 || candidates[j] == rest[j - 1];
        }
      }
    }
  }

  // ---- the rate bound ----

  /** One life of the counter: when it was opened and how many failures it has counted. */
  datatype Window = Window(openedAt: int, failures: nat)

  datatype History = History(entries: Entries, windows: seq<Window>)

  /** One failing check on the scope, with the window it is counted in. */
  function FailingCheck(h: History, scope: Scope, policy: Policy, t: Times): History {
    if IsLocked(h.entries, scope, t.check) then h
    else
      var n := |h.windows|;
      History(
        FailureRecorded(h.entries, scope, policy, t).0,
        if Continues(h.entries, scope, t) && n > 0
        then Bumped(h.windows)
        else h.windows + [Window(OpenedAt(h.entries, scope, policy, t), 1)])
  }

  function Checks(scope: Scope, policy: Policy, ts: seq<Times>): History {
    if ts == [] then History(map[], [])
    else FailingCheck(Checks(scope, policy, ts[..|ts| - 1]), scope, policy, ts[|ts| - 1])
  }

  /** How many of the checks were let through and failed. */
  function Failures(scope: Scope, policy: Policy, ts: seq<Times>): nat {
    if ts == [] then 0
    else
      var before := Checks(scope, policy, ts[..|ts| - 1]);
      Failures(scope, policy, ts[..|ts| - 1]) + if IsLocked(before.entries, scope, ts[|ts| - 1].check) then 0 else 1
  }

  function TotalFailures(ws: seq<Window>): nat {
    if ws == [] then 0 else TotalFailures(ws[..|ws| - 1]) + ws[|ws| - 1].failures
  }

  predicate Sequential(ts: seq<Times>) {
    && (forall i :: 0 <= i < |ts| ==> ts[i].Ordered())
    && (forall i, j :: 0 <= i < j < |ts| ==> ts[i].lock <= ts[j].check)
  }

  /** Each window opens only after the one before it has run its length, and admits a limited number. */
  predicate Books(ws: seq<Window>, policy: Policy) {
    ws == [] ||
    (var init, last := ws[..|ws| - 1], ws[|ws| - 1];
     && Books(init, policy)
     && 1 <= last.failures <= policy.maxAttempts
     && (init != [] ==> init[|init| - 1].openedAt + policy.lockoutSeconds <= last.openedAt))
  }

  /** The cache holds the last window, and the lock once that is full. */
  predicate Recorded(c: Entries, scope: Scope, ws: seq<Window>, policy: Policy) {
    if ws == [] then Attempts(scope) !in c && Locked(scope) !in c
    else
      var last := ws[|ws| - 1];
      && Attempts(scope) in c
      && c[Attempts(scope)] == Entry(last.failures, last.openedAt + policy.lockoutSeconds)
      && (if last.failures >= policy.maxAttempts
          then Locked(scope) in c && c[Locked(scope)].expires >= last.openedAt + policy.lockoutSeconds
          else !IsLocked(c, scope, last.openedAt))
  }

  predicate Invariant(h: History, scope: Scope, policy: Policy) {
    Books(h.windows, policy) && Recorded(h.entries, scope, h.windows, policy)
  }

  /** Windows never overlap and none admits more failures than the policy allows. */
  lemma {:induction false} BooksBalance(ws: seq<Window>, policy: Policy, i: nat, j: nat)
    requires Books(ws, policy) && i < j < |ws| && policy.lockoutSeconds >= 0
    ensures ws[i].openedAt + policy.lockoutSeconds <= ws[j].openedAt
    ensures ws[i].failures <= policy.maxAttempts && ws[j].failures <= policy.maxAttempts
  {
    var init := ws[..|ws| - 1];
    if j < |init| {
      BooksBalance(init, policy, i, j);
    } else if i < |init| - 1 {
      BooksBalance(init, policy, i, |init| - 1);
    }
  }

  predicate Sane(policy: Policy) {
    policy.maxAttempts >= 1 && policy.lockoutSeconds > 0
  }

  /** What one counted failure does to the counter and the lock of its scope. */
  lemma FailureEffect(c: Entries, scope: Scope, policy: Policy, t: Times)
    requires Sane(policy) && t.Ordered()
    ensures var key, (c', attempts) := Attempts(scope), FailureRecorded(c, scope, policy, t);
            && key in c'
            && (if Live(c, key, t.add) && Live(c, key, t.incr)
                then attempts == c[key].value + 1 && c'[key] == Entry(attempts, c[key].expires)
                else attempts == 1 && c'[key] == Entry(1, OpenedAt(c, scope, policy, t) + policy.lockoutSeconds))
            && (if attempts >= policy.maxAttempts
                then Locked(scope) in c' && c'[Locked(scope)].expires == t.lock + policy.lockoutSeconds
                else forall now :: IsLocked(c', scope, now) <==> IsLocked(c, scope, now))
  {
  }

  /** When the window of a failure that does not continue one was opened. */
  function OpenedAt(c: Entries, scope: Scope, policy: Policy, t: Times): int {
    if Live(Add(c, Attempts(scope), 0, policy.lockoutSeconds, t.add), Attempts(scope), t.incr) then t.add else t.reset
  }

  predicate Continues(c: Entries, scope: Scope, t: Times) {
    Live(c, Attempts(scope), t.add) && Live(c, Attempts(scope), t.incr)
  }

  lemma AppendWindow(ws: seq<Window>, w: Window, policy: Policy)
    requires Books(ws, policy) && 1 <= w.failures <= policy.maxAttempts
    requires ws != [] ==> ws[|ws| - 1].openedAt + policy.lockoutSeconds <= w.openedAt
    ensures Books(ws + [w], policy) && TotalFailures(ws + [w]) == TotalFailures(ws) + w.failures
  {
    assert (ws + [w])[..|ws|] == ws;
  }

  function Bumped(ws: seq<Window>): seq<Window>
    requires ws != []
  {
    ws[..|ws| - 1] + [ws[|ws| - 1].(failures := ws[|ws| - 1].failures + 1)]
  }

  lemma BumpLast(ws: seq<Window>, policy: Policy)
    requires ws != [] && Books(ws, policy) && ws[|ws| - 1].failures < policy.maxAttempts
    ensures Books(Bumped(ws), policy) && TotalFailures(Bumped(ws)) == TotalFailures(ws) + 1
  {
    assert Bumped(ws)[..|ws| - 1] == ws[..|ws| - 1];
  }

  /** A full window is still locked while its counter lives. */
  lemma ContinuedHasRoom(h: History, scope: Scope, policy: Policy, t: Times)
    requires Invariant(h, scope, policy) && t.Ordered()
    requires !IsLocked(h.entries, scope, t.check) && Continues(h.entries, scope, t)
    ensures h.windows != [] && h.windows[|h.windows| - 1].failures < policy.maxAttempts
  {
  }

  lemma ContinueKeeps(h: History, scope: Scope, policy: Policy, t: Times)
    requires Invariant(h, scope, policy) && Sane(policy) && t.Ordered()
    requires !IsLocked(h.entries, scope, t.check) && Continues(h.entries, scope, t)
    requires h.windows != [] ==> h.windows[|h.windows| - 1].openedAt <= t.check
    ensures var h' := FailingCheck(h, scope, policy, t);
            && Invariant(h', scope, policy)
            && h'.windows[|h'.windows| - 1].openedAt <= t.lock
            && TotalFailures(h'.windows) == TotalFailures(h.windows) + 1
  {
    FailureEffect(h.entries, scope, policy, t);
    ContinuedHasRoom(h, scope, policy, t);
    BumpLast(h.windows, policy);
  }

  lemma OpenKeeps(h: History, scope: Scope, policy: Policy, t: Times)
    requires Invariant(h, scope, policy) && Sane(policy) && t.Ordered()
    requires !IsLocked(h.entries, scope, t.check) && !Continues(h.entries, scope, t)
    ensures var h' := FailingCheck(h, scope, policy, t);
            && Invariant(h', scope, policy)
            && h'.windows[|h'.windows| - 1].openedAt <= t.lock
            && TotalFailures(h'.windows) == TotalFailures(h.windows) + 1
  {
    FailureEffect(h.entries, scope, policy, t);
    AppendWindow(h.windows, Window(OpenedAt(h.entries, scope, policy, t), 1), policy);
  }

  /** After any sequence of failing checks the windows account for every failure let through. */
  lemma {:induction false} WindowsBounded(scope: Scope, policy: Policy, ts: seq<Times>)
    requires Sane(policy) && Sequential(ts)
    ensures var h := Checks(scope, policy, ts);
            && Invariant(h, scope, policy)
            && TotalFailures(h.windows) == Failures(scope, policy, ts)
            && (h.windows != [] ==> ts != [] && h.windows[|h.windows| - 1].openedAt <= ts[|ts| - 1].lock)
  {
    if ts != [] {
      var init, t := ts[..|ts| - 1], ts[|ts| - 1];
      WindowsBounded(scope, policy, init);
      var h := Checks(scope, policy, init);
      if !IsLocked(h.entries, scope, t.check) {
        if Continues(h.entries, scope, t) {
          ContinueKeeps(h, scope, policy, t);
        } else {
          OpenKeeps(h, scope, policy, t);
        }
      }
    }
  }

  /** The scope is locked only once the current window is full, never before. */
  lemma LockedOnlyWhenFull(scope: Scope, policy: Policy, ts: seq<Times>, now: int)
    requires Sane(policy) && Sequential(ts) && forall i :: 0 <= i < |ts| ==> ts[i].lock <= now
    requires IsLocked(Checks(scope, policy, ts).entries, scope, now)
    ensures var ws := Checks(scope, policy, ts).windows;
            ws != [] && ws[|ws| - 1].failures == policy.maxAttempts
  {
    WindowsBounded(scope, policy, ts);
  }

  lemma {:induction false} AtMostPerWindow(ws: seq<Window>, policy: Policy)
    requires Books(ws, policy)
    ensures TotalFailures(ws) <= policy.maxAttempts * |ws|
  {
    if ws != [] {
      AtMostPerWindow(ws[..|ws| - 1], policy);
      assert policy.maxAttempts * |ws| == policy.maxAttempts * (|ws| - 1) + policy.maxAttempts;
    }
  }

  lemma {:induction false} WindowsSpread(ws: seq<Window>, policy: Policy)
    requires ws != [] && Books(ws, policy)
    ensures ws[0].openedAt + policy.lockoutSeconds * (|ws| - 1) <= ws[|ws| - 1].openedAt
  {
    if |ws| > 1 {
      WindowsSpread(ws[..|ws| - 1], policy);
      assert policy.lockoutSeconds * (|ws| - 1) == policy.lockoutSeconds * (|ws| - 2) + policy.lockoutSeconds;
    }
  }

  lemma {:induction false} FirstWindowAfterStart(scope: Scope, policy: Policy, ts: seq<Times>, start: int)
    requires Sane(policy) && Sequential(ts) && forall i :: 0 <= i < |ts| ==> start <= ts[i].add
    ensures var ws := Checks(scope, policy, ts).windows; ws != [] ==> start <= ws[0].openedAt
  {
    if ts != [] {
      FirstWindowAfterStart(scope, policy, ts[..|ts| - 1], start);
    }
  }

  lemma FewMultiples(n: nat, length: int, span: int)
    requires n >= 1 && length > 0 && length * (n - 1) <= span
    ensures n <= span / length + 1
  {
    var q := span / length;
    assert span < length * (q + 1);
    SmallerFactor(length, n - 1, q + 1);
  }

  lemma SmallerFactor(length: int, a: int, b: int)
    requires length > 0 && length * a < length * b
    ensures a < b
  {
    if b <= a {
      MultiplesGrow(length, b, a);
    }
  }

  lemma MultiplesGrow(length: int, a: int, b: int)
    requires length > 0 && a <= b
    ensures length * a <= length * b
  {
    assert length * (b - a) >= 0;
  }

  /** Counting from a clean scope, with no success or unlock: of the checks that fall within a
      span of T seconds at most maxAttempts * (T / lockoutSeconds + 1) are let through to fail. */
  lemma RateBound(scope: Scope, policy: Policy, ts: seq<Times>, start: int, span: nat)
    requires Sane(policy) && Sequential(ts)
    requires forall i :: 0 <= i < |ts| ==> start <= ts[i].add && ts[i].lock <= start + span
    ensures Failures(scope, policy, ts) <= policy.maxAttempts * (span / policy.lockoutSeconds + 1)
  {
    WindowsBounded(scope, policy, ts);
    FirstWindowAfterStart(scope, policy, ts, start);
    BooksWithinSpan(Checks(scope, policy, ts).windows, policy, start, span);
  }

  lemma BooksWithinSpan(ws: seq<Window>, policy: Policy, start: int, span: nat)
    requires Sane(policy) && Books(ws, policy)
    requires ws != [] ==> start <= ws[0].openedAt && ws[|ws| - 1].openedAt <= start + span
    ensures TotalFailures(ws) <= policy.maxAttempts * (span / policy.lockoutSeconds + 1)
  {
    var n, m := |ws|, span / policy.lockoutSeconds + 1;
    AtMostPerWindow(ws, policy);
    if ws != [] {
      WindowsSpread(ws, policy);
      FewMultiples(n, policy.lockoutSeconds, span);
    }
    MultiplesGrow(policy.maxAttempts, n, m);
  }

  /** The failure that uses up the policy closes the scope for exactly lockoutSeconds, however
      many refused checks follow. */
  lemma {:induction false} LockedUntil(c: Entries, scope: Scope, policy: Policy, t: Times, ts: seq<Times>, now: int)
    requires Sane(policy) && t.Ordered() && FailureRecorded(c, scope, policy, t).1 >= policy.maxAttempts
    requires forall i :: 0 <= i < |ts| ==> ts[i].check < t.lock + policy.lockoutSeconds
    ensures var c' := After(FailureRecorded(c, scope, policy, t).0, scope, policy, ts);
            && c' == FailureRecorded(c, scope, policy, t).0
            && (IsLocked(c', scope, now) <==> now < t.lock + policy.lockoutSeconds)
  {
    if ts != [] {
      LockedUntil(c, scope, policy, t, ts[..|ts| - 1], now);
    }
  }

  function After(c: Entries, scope: Scope, policy: Policy, ts: seq<Times>): Entries {
    if ts == [] then c
    else PinCheck(After(c, scope, policy, ts[..|ts| - 1]), scope, false, policy, ts[|ts| - 1]).0
  }
}
