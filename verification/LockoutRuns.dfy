/** What the two sign-in operations answer over runs of wrong entries, and after a right one. */
module LockoutRuns {
  import opened Wrappers
  import opened Lockout

  /** The answers of a till sign-in and of a PIN check, on one scale. */
  datatype Answer = Refused | Wrong | Right

  /** One entry with its instants; at a till it is tried against every candidate. */
  datatype Entered = Entered(candidates: seq<Candidate>, t: Times)

  predicate Matches(c: Candidate) {
    c.active && c.pinMatches
  }

  /** The operation that guards a scope: a till sign-in at the terminal, or a PIN check that fails. */
  function Call(c: Entries, scope: Scope, e: Entered, policy: Policy): (Entries, Answer) {
    match scope
    case Terminal(device) =>
      var (c', r) := SignIn(c, device, true, e.candidates, policy, e.t);
      (c', match r case Ok(_) => Right case Err(AccountLocked) => Refused case Err(AuthenticationFailed) => Wrong)
    case Pin(_, _) =>
      var (c', r) := PinCheck(c, scope, false, policy, e.t);
      (c', match r case Err(_) => Refused case Ok(ok) => if ok then Right else Wrong)
  }

  predicate NobodyMatches(es: seq<Entered>) {
    forall k :: 0 <= k < |es| ==> forall x <- es[k].candidates :: !Matches(x)
  }

  function After(c: Entries, scope: Scope, es: seq<Entered>, policy: Policy): Entries {
    if es == [] then c
    else Call(After(c, scope, es[..|es| - 1], policy), scope, es[|es| - 1], policy).0
  }

  /** How many entries of a run were answered as wrong. */
  function WrongAnswers(c: Entries, scope: Scope, es: seq<Entered>, policy: Policy): nat {
    if es == [] then 0
    else
      var front := es[..|es| - 1];
      WrongAnswers(c, scope, front, policy)
        + if Call(After(c, scope, front, policy), scope, es[|es| - 1], policy).1 == Wrong then 1 else 0
  }

  function TimesOf(es: seq<Entered>): seq<Times> {
    if es == [] then [] else TimesOf(es[..|es| - 1]) + [es[|es| - 1].t]
  }

  /** A wrong entry is refused while the scope is locked, and otherwise counted and answered as wrong. */
  lemma CallIsCheck(c: Entries, scope: Scope, e: Entered, policy: Policy)
    requires forall x <- e.candidates :: !Matches(x)
    ensures Call(c, scope, e, policy)
         == if IsLocked(c, scope, e.t.check) then (c, Refused) else (FailureRecorded(c, scope, policy, e.t).0, Wrong)
  {
    NoMatch(e.candidates);
  }

  lemma {:induction false} NoMatch(candidates: seq<Candidate>)
    requires forall x <- candidates :: !Matches(x)
    ensures FirstMatch(candidates) == None
  {
    if candidates != [] {
      assert candidates[0] in candidates;
      NoMatch(candidates[1..]);
    }
  }

  lemma {:induction false} RunIsChecks(scope: Scope, es: seq<Entered>, policy: Policy)
    requires NobodyMatches(es)
    ensures After(map[], scope, es, policy) == Checks(scope, policy, TimesOf(es)).entries
    ensures WrongAnswers(map[], scope, es, policy) == Failures(scope, policy, TimesOf(es))
  {
    if es != [] {
      var front, last := es[..|es| - 1], es[|es| - 1];
      RunIsChecks(scope, front, policy);
      CallIsCheck(After(map[], scope, front, policy), scope, last, policy);
      assert TimesOf(es)[..|TimesOf(es)| - 1] == TimesOf(front);
    }
  }

  lemma {:induction false} TimesOfAt(es: seq<Entered>)
    ensures |TimesOf(es)| == |es| && forall k :: 0 <= k < |es| ==> TimesOf(es)[k] == es[k].t
  {
    if es != [] {
      TimesOfAt(es[..|es| - 1]);
    }
  }

  predicate InTurn(es: seq<Entered>) {
    && (forall k :: 0 <= k < |es| ==> es[k].t.Ordered())
    && (forall j, k :: 0 <= j < k < |es| ==> es[j].t.lock <= es[k].t.check)
  }

  /** From a clean cache, of wrong entries at one till, or of wrong PINs of one user there, at most
      maxAttempts * (T / lockoutSeconds + 1) are answered as wrong within T seconds; the rest are refused. */
  lemma WrongAnswersBounded(scope: Scope, es: seq<Entered>, policy: Policy, start: int, span: nat)
    requires Sane(policy) && InTurn(es) && NobodyMatches(es)
    requires forall k :: 0 <= k < |es| ==> start <= es[k].t.add && es[k].t.lock <= start + span
    ensures WrongAnswers(map[], scope, es, policy) <= policy.maxAttempts * (span / policy.lockoutSeconds + 1)
  {
    TimesOfAt(es);
    RunIsChecks(scope, es, policy);
    RateBound(scope, policy, TimesOf(es), start, span);
  }

  /** Neither counter nor lock of the scope is live. */
  predicate Clean(c: Entries, scope: Scope, t: Times) {
    !Live(c, Attempts(scope), t.add) && !IsLocked(c, scope, t.check)
  }

  /** Where a run of wrong entries within one window stands. */
  predicate Standing(c: Entries, scope: Scope, policy: Policy, failures: nat, first: Times) {
    && Attempts(scope) in c
    && c[Attempts(scope)].expires == first.add + policy.lockoutSeconds
    && c[Attempts(scope)].value == failures
    && (if failures >= policy.maxAttempts
        then Locked(scope) in c && c[Locked(scope)].expires >= first.add + policy.lockoutSeconds
        else Locked(scope) in c ==> c[Locked(scope)].expires <= first.check)
  }

  function Fewer(a: nat, b: nat): nat {
    if a <= b then a else b
  }

  predicate WithinWindow(es: seq<Entered>, policy: Policy) {
    forall k :: 0 <= k < |es| ==> es[k].t.lock < es[0].t.add + policy.lockoutSeconds
  }

  lemma FirstStands(c: Entries, scope: Scope, policy: Policy, e: Entered)
    requires Sane(policy) && e.t.Ordered() && e.t.lock < e.t.add + policy.lockoutSeconds
    requires forall x <- e.candidates :: !Matches(x)
    requires Clean(c, scope, e.t)
    ensures Call(c, scope, e, policy).1 == Wrong && Standing(Call(c, scope, e, policy).0, scope, policy, 1, e.t)
  {
    CallIsCheck(c, scope, e, policy);
    FailureEffect(c, scope, policy, e.t);
  }

  lemma NextStands(c: Entries, scope: Scope, policy: Policy, failures: nat, first: Times, e: Entered)
    requires Sane(policy) && e.t.Ordered() && first.Ordered() && first.lock <= e.t.check
    requires e.t.lock < first.add + policy.lockoutSeconds && forall x <- e.candidates :: !Matches(x)
    requires 1 <= failures <= policy.maxAttempts && Standing(c, scope, policy, failures, first)
    ensures Call(c, scope, e, policy).1 == if failures < policy.maxAttempts then Wrong else Refused
    ensures Standing(Call(c, scope, e, policy).0, scope, policy, Fewer(failures + 1, policy.maxAttempts), first)
  {
    CallIsCheck(c, scope, e, policy);
    FailureEffect(c, scope, policy, e.t);
  }

  lemma {:induction false} RunStands(c: Entries, scope: Scope, es: seq<Entered>, policy: Policy)
    requires Sane(policy) && InTurn(es) && NobodyMatches(es) && WithinWindow(es, policy)
    requires es != [] && Clean(c, scope, es[0].t)
    ensures Standing(After(c, scope, es, policy), scope, policy, Fewer(|es|, policy.maxAttempts), es[0].t)
  {
    var front, last := es[..|es| - 1], es[|es| - 1];
    assert forall x <- last.candidates :: !Matches(x);
    if front == [] {
      FirstStands(c, scope, policy, last);
    } else {
      RunStands(c, scope, front, policy);
      NextStands(After(c, scope, front, policy), scope, policy, Fewer(|front|, policy.maxAttempts), es[0].t, last);
    }
  }

  /** From a scope with neither counter nor lock, the first maxAttempts wrong entries within one window are answered
      as wrong and every further one is refused. */
  lemma AnswersExactly(c: Entries, scope: Scope, es: seq<Entered>, policy: Policy)
    requires Sane(policy) && InTurn(es) && NobodyMatches(es) && WithinWindow(es, policy)
    requires es != [] && Clean(c, scope, es[0].t)
    ensures var front := es[..|es| - 1];
            Call(After(c, scope, front, policy), scope, es[|es| - 1], policy).1
            == if |front| < policy.maxAttempts then Wrong else Refused
  {
    var front, last := es[..|es| - 1], es[|es| - 1];
    assert forall x <- last.candidates :: !Matches(x);
    if front == [] {
      FirstStands(c, scope, policy, last);
    } else {
      RunStands(c, scope, front, policy);
      NextStands(After(c, scope, front, policy), scope, policy, Fewer(|front|, policy.maxAttempts), es[0].t, last);
    }
  }

  /** The same for any later window of a run from a clean cache: while it is full and has not run its length, the
      next entry, even one that matches somebody, is refused and changes nothing. */
  lemma FullWindowRefuses(scope: Scope, es: seq<Entered>, policy: Policy, next: Entered)
    requires Sane(policy) && InTurn(es) && NobodyMatches(es)
    requires var ws := Checks(scope, policy, TimesOf(es)).windows;
             && ws != [] && ws[|ws| - 1].failures == policy.maxAttempts
             && next.t.check < ws[|ws| - 1].openedAt + policy.lockoutSeconds
    ensures Call(After(map[], scope, es, policy), scope, next, policy) == (After(map[], scope, es, policy), Refused)
  {
    TimesOfAt(es);
    RunIsChecks(scope, es, policy);
    WindowsBounded(scope, policy, TimesOf(es));
  }

  // ---- a right entry ----

  /** A till sign-in succeeds exactly when a PIN is given, the terminal is not locked and some active candidate's PIN
      matches, and then for the first such candidate. */
  lemma SignInExactly(c: Entries, device: nat, given: bool, candidates: seq<Candidate>, policy: Policy, t: Times,
                      user: nat)
    ensures SignIn(c, device, given, candidates, policy, t).1 == Ok(user)
       <==> && given && !IsLocked(c, Terminal(device), t.check)
            && exists i :: 0 <= i < |candidates| && Matches(candidates[i]) && candidates[i].user == user
                 && forall j :: 0 <= j < i ==> !Matches(candidates[j])
    ensures SignIn(c, device, given, candidates, policy, t).1 == Err(AccountLocked)
       <==> given && IsLocked(c, Terminal(device), t.check)
    ensures !given ==> SignIn(c, device, given, candidates, policy, t).0 == c
  {
    MatchIsFirst(candidates);
    if i :| 0 <= i < |candidates| && Matches(candidates[i]) && forall j :: 0 <= j < i ==> !Matches(candidates[j]) {
      FirstMatchAt(candidates, i);
    }
  }

  lemma {:induction false} FirstMatchAt(candidates: seq<Candidate>, i: nat)
    requires i < |candidates| && Matches(candidates[i]) && forall j :: 0 <= j < i ==> !Matches(candidates[j])
    ensures FirstMatch(candidates) == Some(candidates[i].user)
  {
    if i > 0 {
      FirstMatchAt(candidates[1..], i - 1);
    }
  }

  /** No failure of the scope is remembered, at any time. */
  predicate Forgotten(c: Entries, scope: Scope) {
    Attempts(scope) !in c && Locked(scope) !in c
  }

  /** A right entry wipes the terminal's failures and the user's own there, a right PIN those of its scope, and
      neither anything else. */
  lemma SuccessForgets(c: Entries, device: nat, candidates: seq<Candidate>, policy: Policy, t: Times, user: nat,
                       other: Scope)
    ensures var (c', r) := SignIn(c, device, true, candidates, policy, t);
            r == Ok(user) ==>
              && Forgotten(c', Terminal(device)) && Forgotten(c', Pin(user, device))
              && (other != Terminal(device) && other != Pin(user, device) ==> SameScope(c, c', other))
    ensures var (c', r) := PinCheck(c, Pin(user, device), true, policy, t);
            && (r == Err(AccountLocked) <==> IsLocked(c, Pin(user, device), t.check))
            && (r.Err? ==> c' == c)
            && (r.Ok? ==> r.value && Forgotten(c', Pin(user, device)))
            && (other != Pin(user, device) ==> SameScope(c, c', other))
  {
  }
}
