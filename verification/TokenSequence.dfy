/** The sequence stamped on offline tokens (licensing/services.py, issue_offline_token): the
    counter is incremented in the database by one statement and read back by another, so two
    issues can interleave between the two. */
module TokenSequence {
  import opened Wrappers
  import opened OfflineToken

  datatype Event = Increment(issue: nat) | ReadBack(issue: nat)

  datatype Stamp = Stamp(issue: nat, value: int)

  datatype State = State(counter: int, waiting: set<nat>, stamps: seq<Stamp>)

  function Step(s: State, e: Event): State {
    match e
    case Increment(i) => State(s.counter + 1, s.waiting + {i}, s.stamps)
    case ReadBack(i) =>
      if i in s.waiting then State(s.counter, s.waiting - {i}, s.stamps + [Stamp(i, s.counter)]) else s
  }

  function Run(s: State, events: seq<Event>): State {
    if events == [] then s else Step(Run(s, events[..|events| - 1]), events[|events| - 1])
  }

  /** The stored counter of one licence, shared by every request that issues a token for it. */
  class License {
    var tokenSeq: int
    var waiting: set<nat>
    var stamps: seq<Stamp>

    function Contents(): State
      reads this
    {
      State(tokenSeq, waiting, stamps)
    }

    constructor ()
      ensures Contents() == State(0, {}, [])
    {
      tokenSeq, waiting, stamps := 0, {}, [];
    }

    method IncrementSeq(issue: nat)
      modifies this
      ensures Contents() == Step(old(Contents()), Increment(issue))
    {
      tokenSeq := tokenSeq + 1;
      waiting := waiting + {issue};
    }

    method ReadSeq(issue: nat) returns (stamp: Option<int>)
      modifies this
      ensures Contents() == Step(old(Contents()), ReadBack(issue))
      ensures stamp == if issue in old(waiting) then Some(old(tokenSeq)) else None
    {
      if issue !in waiting { return None; }
      waiting := waiting - {issue};
      stamps := stamps + [Stamp(issue, tokenSeq)];
      return Some(tokenSeq);
    }

    /** Alone, an issue gets a number nobody had. */
    method Issue(issue: nat) returns (stamp: int)
      modifies this
      ensures stamp == old(tokenSeq) + 1 == tokenSeq
      ensures stamps == old(stamps) + [Stamp(issue, stamp)]
    {
      IncrementSeq(issue);
      var read := ReadSeq(issue);
      stamp := read.value;
    }
  }

  function Increments(events: seq<Event>): nat {
    if events == [] then 0
    else Increments(events[..|events| - 1]) + if events[|events| - 1].Increment? then 1 else 0
  }

  lemma {:induction false} CounterCounts(s: State, events: seq<Event>)
    ensures Run(s, events).counter == s.counter + Increments(events)
  {
    if events != [] {
      CounterCounts(s, events[..|events| - 1]);
    }
  }

  function LastStamp(s: State): Stamp
    requires s.stamps != []
  {
    s.stamps[|s.stamps| - 1]
  }

  /** Two issues read numbers that differ by the increments between their reads: they tie exactly
      when there is none, and an issue that begins after another has finished gets a larger one. */
  lemma StampGap(s: State, first: nat, between: seq<Event>, second: nat)
    requires first in s.waiting && second in Run(Step(s, ReadBack(first)), between).waiting
    ensures var done := Step(s, ReadBack(first));
            var later := Step(Run(done, between), ReadBack(second));
            && LastStamp(done).issue == first && LastStamp(later).issue == second
            && LastStamp(later).value - LastStamp(done).value == Increments(between)
            && (LastStamp(later).value == LastStamp(done).value <==> Increments(between) == 0)
            && (Increment(second) in between ==> LastStamp(done).value < LastStamp(later).value)
  {
    CounterCounts(Step(s, ReadBack(first)), between);
    if Increment(second) in between {
      SomeIncrement(between, second);
    }
  }

  lemma {:induction false} SomeIncrement(events: seq<Event>, issue: nat)
    requires Increment(issue) in events
    ensures Increments(events) >= 1
  {
    if events[|events| - 1] != Increment(issue) {
      SomeIncrement(events[..|events| - 1], issue);
    }
  }

  /** Overlapping issues do tie: both increment before either reads. */
  lemma OverlappingIssuesTie()
    ensures Run(State(0, {}, []), [Increment(1), Increment(2), ReadBack(1), ReadBack(2)]).stamps
         == [Stamp(1, 2), Stamp(2, 2)]
  {
    var s := State(0, {}, []);
    var e0: seq<Event> := [];
    var e1 := e0 + [Increment(1)];
    var e2 := e1 + [Increment(2)];
    var e3 := e2 + [ReadBack(1)];
    var e4 := e3 + [ReadBack(2)];
    Snoc(s, e0, Increment(1));
    Snoc(s, e1, Increment(2));
    Snoc(s, e2, ReadBack(1));
    Snoc(s, e3, ReadBack(2));
    assert e4 == [Increment(1), Increment(2), ReadBack(1), ReadBack(2)];
  }

  lemma Snoc(s: State, events: seq<Event>, e: Event)
    ensures Run(s, events + [e]) == Step(Run(s, events), e)
  {
    assert (events + [e])[..|events|] == events;
  }

  predicate Rising(stamps: seq<Stamp>) {
    forall i, j :: 0 <= i < j < |stamps| ==> stamps[i].value <= stamps[j].value
  }

  predicate Invariant(s: State) {
    && s.counter >= 0 && Rising(s.stamps)
    && forall i :: 0 <= i < |s.stamps| ==> 0 <= s.stamps[i].value <= s.counter
  }

  lemma {:induction false} StampsRise(s: State, events: seq<Event>)
    requires Invariant(s)
    ensures Invariant(Run(s, events))
  {
    if events != [] {
      StampsRise(s, events[..|events| - 1]);
    }
  }

  predicate Increasing(ks: seq<nat>, below: nat) {
    && (forall i :: 0 <= i < |ks| ==> ks[i] < below)
    && forall i, j :: 0 <= i < j < |ks| ==> ks[i] <= ks[j]
  }

  /** A device that is shown its licence's tokens in the order they were read back, some of them or
      all, repeated or not, is never told that one is a replay. */
  lemma ReadBackOrderNeverReplays(events: seq<Event>, ks: seq<nat>, attempts: seq<Attempt>)
    requires var stamps := Run(State(0, {}, []), events).stamps;
             && Increasing(ks, |stamps|) && |ks| == |attempts| > 0
             && forall i :: 0 <= i < |attempts| && attempts[i].verified.Ok? ==>
                  attempts[i].verified.value.seqNumber == stamps[ks[i]].value
    ensures var init, last := attempts[..|attempts| - 1], attempts[|attempts| - 1];
            last.verified.Ok? ==>
              Accept(last.verified, OfflineToken.Run(Device(FRESH, []), init).state, last.now) != Err(TokenReplayed)
  {
    StampsRise(State(0, {}, []), events);
    NoFalseReplay(attempts);
  }
}
