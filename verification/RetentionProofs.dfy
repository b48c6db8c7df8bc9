/** What pruning guarantees over whole histories of backups. */
module RetentionProofs {
  import opened Calendar
  import opened Retention

  predicate Ascending(rs: seq<Record>) {
    forall i, j :: 0 <= i < j < |rs| ==> rs[i].startedAt < rs[j].startedAt
  }

  /** No record of the same month started earlier. */
  predicate FirstOfMonth(rs: seq<Record>, r: Record) {
    r in rs && forall x :: x in rs && MonthOf(x.startedAt) == MonthOf(r.startedAt) ==> r.startedAt <= x.startedAt
  }

  function NewerMonths(rs: seq<Record>, month: nat): set<nat> {
    set r | r in rs && MonthOf(r.startedAt) > month :: MonthOf(r.startedAt)
  }

  /** The retention policy as documented, without reference to how prune lists the records. */
  predicate Wanted(completed: seq<Record>, r: Record, now: nat, keepDaily: nat, keepMonthly: nat) {
    now - r.startedAt <= keepDaily * 86_400_000_000 || (FirstOfMonth(completed, r) &&
                                                        |NewerMonths(completed, MonthOf(r.startedAt))| < keepMonthly)
  }

  // ---- listings of an ascending table ----

  lemma InsertLargest(r: Record, rs: seq<Record>)
    requires forall i :: 0 <= i < |rs| ==> rs[i].startedAt < r.startedAt
    ensures InsertByStart(r, rs) == rs + [r]
  {
  }

  lemma {:induction false} OldestFirstSorted(rs: seq<Record>)
    requires Ascending(rs)
    ensures OldestFirst(rs) == rs
  {
    if rs != [] {
      OldestFirstSorted(rs[..|rs| - 1]);
      InsertLargest(rs[|rs| - 1], rs[..|rs| - 1]);
      assert rs == rs[..|rs| - 1] + [rs[|rs| - 1]];
    }
  }

  lemma {:induction false} InsertSmallest(r: Record, rs: seq<Record>)
    requires forall i :: 0 <= i < |rs| ==> r.startedAt < rs[i].startedAt
    ensures InsertByStart(r, rs) == [r] + rs
  {
    if rs != [] {
      InsertSmallest(r, rs[..|rs| - 1]);
      assert [r] + rs == [r] + rs[..|rs| - 1] + [rs[|rs| - 1]];
    }
  }

  lemma {:induction false} OldestFirstReversed(rs: seq<Record>)
    requires Ascending(rs)
    ensures OldestFirst(Reversed(rs)) == rs
  {
    if rs != [] {
      var rest := Reversed(rs[1..]);
      OldestFirstReversed(rs[1..]);
      assert (rest + [rs[0]])[..|rest|] == rest;
      InsertSmallest(rs[0], rs[1..]);
    }
  }

  lemma {:induction false} ReversedAt(rs: seq<Record>, i: nat)
    requires i < |rs|
    ensures |Reversed(rs)| == |rs| && Reversed(rs)[i] == rs[|rs| - 1 - i]
  {
    if |rs| > 1 {
      ReversedAt(rs[1..], if i < |rs| - 1 then i else 0);
    }
  }

  lemma {:induction false} CompleteAscending(rs: seq<Record>)
    requires Ascending(rs)
    ensures Ascending(CompleteOf(rs))
  {
    if rs != [] {
      var init, last := rs[..|rs| - 1], rs[|rs| - 1];
      CompleteAscending(init);
      forall i | 0 <= i < |CompleteOf(init)| ensures CompleteOf(init)[i].startedAt < last.startedAt {
        InCompleteOf(init, CompleteOf(init)[i]);
      }
    }
  }

  lemma {:induction false} RetainedAscending(rs: seq<Record>, keep: set<nat>)
    requires Ascending(rs)
    ensures Ascending(Retained(rs, keep))
  {
    if rs != [] {
      var init, last := rs[..|rs| - 1], rs[|rs| - 1];
      RetainedAscending(init, keep);
      forall i | 0 <= i < |Retained(init, keep)| ensures Retained(init, keep)[i].startedAt < last.startedAt {
        InRetained(init, keep, Retained(init, keep)[i]);
      }
    }
  }

  // ---- the first record of each month ----

  predicate MonthsAscending(rs: seq<Record>) {
    forall i, j :: 0 <= i < j < |rs| ==> rs[i].Month() < rs[j].Month()
  }

  lemma Split(rs: seq<Record>) returns (init: seq<Record>, last: Record)
    requires rs != [] && Ascending(rs)
    ensures init == rs[..|rs| - 1] && last == rs[|rs| - 1] && rs == init + [last] && Ascending(init)
    ensures forall x :: x in init ==> x.startedAt < last.startedAt
  {
    init, last := rs[..|rs| - 1], rs[|rs| - 1];
  }

  lemma {:induction false} ListedFirstsOccur(rs: seq<Record>, r: Record)
    requires r in FirstPerMonth(rs)
    ensures r in rs
  {
    if r != rs[|rs| - 1] {
      ListedFirstsOccur(rs[..|rs| - 1], r);
    }
  }

  lemma {:induction false} EveryMonthListed(rs: seq<Record>, r: Record)
    requires r in rs
    ensures MonthListed(FirstPerMonth(rs), r.Month())
  {
    var init, last := rs[..|rs| - 1], rs[|rs| - 1];
    assert rs == init + [last];
    ListedAppend(FirstPerMonth(init), last);
    if r != last {
      EveryMonthListed(init, r);
    }
  }

  /** The records listed are exactly the first ones of their months. */
  lemma {:induction false} ListedIsFirst(rs: seq<Record>, r: Record)
    requires Ascending(rs)
    ensures r in FirstPerMonth(rs) <==> FirstOfMonth(rs, r)
  {
    if rs != [] {
      var init, last := Split(rs);
      ListedIsFirst(init, r);
      if r == last {
        LastIsFirst(rs, init, last);
      } else if r in init && FirstOfMonth(init, r) {
        assert FirstOfMonth(rs, r);
      } else if r in init {
        var x :| x in init && x.Month() == r.Month() && x.startedAt < r.startedAt;
        assert x in rs;
      }
    }
  }

  lemma LastIsFirst(rs: seq<Record>, init: seq<Record>, last: Record)
    requires rs == init + [last] && forall x :: x in init ==> x.startedAt < last.startedAt
    ensures last in FirstPerMonth(rs) <==> FirstOfMonth(rs, last)
  {
    var firsts := FirstPerMonth(init);
    assert rs[..|rs| - 1] == init;
    if last in firsts {
      ListedFirstsOccur(init, last);
    }
    if MonthListed(firsts, last.Month()) {
      var i :| 0 <= i < |firsts| && firsts[i].Month() == last.Month();
      ListedFirstsOccur(init, firsts[i]);
      assert firsts[i] in rs;
    } else {
      forall x | x in init ensures x.Month() != last.Month() {
        EveryMonthListed(init, x);
      }
    }
  }

  lemma {:induction false} FirstsInMonthOrder(rs: seq<Record>)
    requires Ascending(rs)
    ensures MonthsAscending(FirstPerMonth(rs))
  {
    if rs != [] {
      var init, last := Split(rs);
      var firsts := FirstPerMonth(init);
      FirstsInMonthOrder(init);
      if !MonthListed(firsts, last.Month()) {
        AppendInMonthOrder(init, last);
      }
    }
  }

  lemma AppendInMonthOrder(init: seq<Record>, last: Record)
    requires MonthsAscending(FirstPerMonth(init)) && !MonthListed(FirstPerMonth(init), last.Month())
    requires forall x :: x in init ==> x.startedAt < last.startedAt
    ensures MonthsAscending(FirstPerMonth(init) + [last])
  {
    var firsts := FirstPerMonth(init);
    forall i | 0 <= i < |firsts| ensures firsts[i].Month() < last.Month() {
      ListedFirstsOccur(init, firsts[i]);
      MonthOfMonotone(firsts[i].startedAt, last.startedAt);
    }
  }

  function MonthsOf(rs: seq<Record>): set<nat> {
    set r | r in rs :: r.Month()
  }

  lemma {:induction false} DistinctMonthsCount(rs: seq<Record>)
    requires MonthsAscending(rs)
    ensures |MonthsOf(rs)| == |rs|
  {
    if rs == [] {
      assert MonthsOf(rs) == {};
    } else {
      var init, last := rs[..|rs| - 1], rs[|rs| - 1];
      DistinctMonthsCount(init);
      assert rs == init + [last];
      assert MonthsOf(rs) == MonthsOf(init) + {last.Month()};
      assert last.Month() !in MonthsOf(init);
    }
  }

  /** The months newer than a listed first are those of the firsts listed after it. */
  lemma RankIsNewerMonths(rs: seq<Record>, i: nat)
    requires Ascending(rs) && i < |FirstPerMonth(rs)|
    ensures |NewerMonths(rs, FirstPerMonth(rs)[i].Month())| == |FirstPerMonth(rs)| - 1 - i
  {
    var firsts := FirstPerMonth(rs);
    FirstsInMonthOrder(rs);
    var later := firsts[i + 1..];
    DistinctMonthsCount(later);
    var month := firsts[i].Month();
    forall m | m in NewerMonths(rs, month) ensures m in MonthsOf(later) {
      var r :| r in rs && r.Month() == m;
      EveryMonthListed(rs, r);
      var j :| 0 <= j < |firsts| && firsts[j].Month() == m;
      assert j > i;
      assert firsts[j] == later[j - i - 1];
    }
    forall m | m in MonthsOf(later) ensures m in NewerMonths(rs, month) {
      var r :| r in later && r.Month() == m;
      ListedFirstsOccur(rs, r);
    }
    assert MonthsOf(later) == NewerMonths(rs, month);
  }

  lemma InTakeReversed(rs: seq<Record>, n: nat, i: nat)
    requires i < |rs| && forall k :: 0 <= k < |rs| && rs[k] == rs[i] ==> k == i
    ensures rs[i] in Take(Reversed(rs), n) <==> |rs| - 1 - i < n
  {
    var taken := Take(Reversed(rs), n);
    ReversedAt(rs, |rs| - 1 - i);
    if |rs| - 1 - i < n {
      assert taken[|rs| - 1 - i] == rs[i];
    } else if rs[i] in taken {
      var k :| 0 <= k < |taken| && taken[k] == rs[i];
      ReversedAt(rs, k);
    }
  }

  lemma TakenOccurs(rs: seq<Record>, n: nat, r: Record)
    requires r in Take(Reversed(rs), n)
    ensures r in rs
  {
    InReversed(rs, r);
  }

  lemma MonthlyIsNewestFirsts(completed: seq<Record>, n: nat, r: Record)
    requires Ascending(completed)
    ensures r in Monthly(Reversed(completed), n)
            <==> FirstOfMonth(completed, r) && |NewerMonths(completed, r.Month())| < n
  {
    OldestFirstReversed(completed);
    var firsts := FirstPerMonth(completed);
    FirstsInMonthOrder(completed);
    FirstsAscending(firsts);
    OldestFirstSorted(firsts);
    ListedIsFirst(completed, r);
    if r in firsts {
      var i :| 0 <= i < |firsts| && firsts[i] == r;
      RankIsNewerMonths(completed, i);
      InTakeReversed(firsts, n, i);
    } else if r in Take(Reversed(firsts), n) {
      TakenOccurs(firsts, n, r);
    }
  }

  lemma FirstsAscending(firsts: seq<Record>)
    requires MonthsAscending(firsts)
    ensures Ascending(firsts)
  {
    forall i, j | 0 <= i < j < |firsts| ensures firsts[i].startedAt < firsts[j].startedAt {
      if firsts[j].startedAt <= firsts[i].startedAt {
        MonthOfMonotone(firsts[j].startedAt, firsts[i].startedAt);
      }
    }
  }

  lemma KeptIffWanted(completed: seq<Record>, now: nat, keepDaily: nat, keepMonthly: nat, r: Record)
    requires Ascending(completed) && r in completed
    requires forall x :: x in completed && x.id == r.id ==> x == r
    ensures r.id in KeptIds(NewestFirst(completed), now, keepDaily, keepMonthly)
            <==> Wanted(completed, r, now, keepDaily, keepMonthly)
  {
    OldestFirstSorted(completed);
    var listed := NewestFirst(completed);
    var monthly := Monthly(listed, keepMonthly);
    InReversed(completed, r);
    MonthlyIsNewestFirsts(completed, keepMonthly, r);
    if r.id in Ids(monthly) {
      var x :| x in monthly && x.id == r.id;
      MonthlyIsNewestFirsts(completed, keepMonthly, x);
    } else if r.id in KeptIds(listed, now, keepDaily, keepMonthly) {
      var x :| x in listed && Recent(x, now, keepDaily) && x.id == r.id;
      InReversed(completed, x);
    }
  }

  /** A finished backup survives a prune exactly when the policy wants it; the rest of the table is untouched. */
  lemma PruneKeepsExactly(records: seq<Record>, now: nat, keepDaily: nat, keepMonthly: nat, r: Record)
    requires Ascending(records) && DistinctIds(records)
    ensures r in Pruned(records, now, keepDaily, keepMonthly)
            <==> r in records && (!r.complete || Wanted(CompleteOf(records), r, now, keepDaily, keepMonthly))
  {
    var completed := CompleteOf(records);
    CompleteAscending(records);
    InRetained(records, KeptIds(NewestFirst(completed), now, keepDaily, keepMonthly), r);
    if r in records && r.complete {
      InCompleteOf(records, r);
      forall x | x in completed && x.id == r.id ensures x == r {
        InCompleteOf(records, x);
      }
      KeptIffWanted(completed, now, keepDaily, keepMonthly, r);
    }
  }

  /** The records a prune deletes, in the order in which it names their files. */
  function RemovedBy(records: seq<Record>, now: nat, keepDaily: nat, keepMonthly: nat): seq<Record> {
    var completed := NewestFirst(CompleteOf(records));
    Removed(completed, KeptIds(completed, now, keepDaily, keepMonthly))
  }

  predicate Descending(rs: seq<Record>) {
    forall i, j :: 0 <= i < j < |rs| ==> rs[j].startedAt < rs[i].startedAt
  }

  lemma {:induction false} RemovedDescending(rs: seq<Record>, keep: set<nat>)
    requires Descending(rs)
    ensures Descending(Removed(rs, keep))
  {
    if rs != [] {
      var init, last := rs[..|rs| - 1], rs[|rs| - 1];
      RemovedDescending(init, keep);
      var kept := Removed(init, keep);
      forall i | 0 <= i < |kept| ensures last.startedAt < kept[i].startedAt {
        InRemoved(init, keep, kept[i]);
      }
    }
  }

  lemma ReversedDescending(rs: seq<Record>)
    requires Ascending(rs)
    ensures Descending(Reversed(rs))
  {
    ReversedLength(rs);
    var n := |rs|;
    forall i, j | 0 <= i < j < n ensures Reversed(rs)[j].startedAt < Reversed(rs)[i].startedAt {
      ReversedAt(rs, i);
      ReversedAt(rs, j);
    }
  }

  lemma RemovedNewestFirst(records: seq<Record>, now: nat, keepDaily: nat, keepMonthly: nat)
    requires Ascending(records)
    ensures Descending(RemovedBy(records, now, keepDaily, keepMonthly))
  {
    var completed := CompleteOf(records);
    CompleteAscending(records);
    OldestFirstSorted(completed);
    ReversedDescending(completed);
    RemovedDescending(NewestFirst(completed), KeptIds(NewestFirst(completed), now, keepDaily, keepMonthly));
  }

  lemma SameIdSame(records: seq<Record>, r: Record)
    requires DistinctIds(records) && r in CompleteOf(records)
    ensures forall x :: x in CompleteOf(records) && x.id == r.id ==> x == r
  {
    InCompleteOf(records, r);
    forall x | x in CompleteOf(records) && x.id == r.id ensures x == r {
      InCompleteOf(records, x);
    }
  }

  /** A prune deletes exactly the finished backups the policy does not want, newest first. */
  lemma RemovedExactly(records: seq<Record>, now: nat, keepDaily: nat, keepMonthly: nat, r: Record)
    requires Ascending(records) && DistinctIds(records)
    ensures r in RemovedBy(records, now, keepDaily, keepMonthly)
       <==> r in records && r.complete && !Wanted(CompleteOf(records), r, now, keepDaily, keepMonthly)
    ensures Descending(RemovedBy(records, now, keepDaily, keepMonthly))
  {
    var completed := CompleteOf(records);
    RemovedNewestFirst(records, now, keepDaily, keepMonthly);
    InCompleteOf(records, r);
    InNewestFirst(completed, r);
    InRemoved(NewestFirst(completed), KeptIds(NewestFirst(completed), now, keepDaily, keepMonthly), r);
    if r in completed {
      CompleteAscending(records);
      SameIdSame(records, r);
      KeptIffWanted(completed, now, keepDaily, keepMonthly, r);
    }
  }

  lemma {:induction false} ReversedLength(rs: seq<Record>)
    ensures |Reversed(rs)| == |rs|
  {
    if rs != [] {
      ReversedLength(rs[1..]);
    }
  }

  /** The names returned are theirs, one by one. */
  lemma {:induction false} FilenamesAt(rs: seq<Record>, i: nat)
    requires i < |rs|
    ensures |Filenames(rs)| == |rs| && Filenames(rs)[i] == rs[i].filename
  {
    var n := |rs| - 1;
    if n > 0 {
      FilenamesAt(rs[..n], if i < n then i else 0);
    }
  }

  // ---- histories ----

  /** The table, every successful backup there ever was, the next row id and the clock. */
  datatype History = History(records: seq<Record>, ever: seq<Record>, nextId: nat, clock: nat)

  datatype Event =
    | Backup(at: nat, succeeded: bool, filename: string)
    | Prune(at: nat, keepDaily: nat, keepMonthly: nat)

  const EMPTY := History([], [], 0, 0)

  function Step(h: History, e: Event): History {
    match e
    case Backup(at, succeeded, filename) =>
      var r := Record(h.nextId, filename, at, succeeded);
      History(h.records + [r], if succeeded then h.ever + [r] else h.ever, h.nextId + 1, at)
    case Prune(at, keepDaily, keepMonthly) =>
      h.(records := Pruned(h.records, at, keepDaily, keepMonthly), clock := at)
  }

  function Run(events: seq<Event>): History {
    if events == [] then EMPTY else Step(Run(events[..|events| - 1]), events[|events| - 1])
  }

  /** Backups start at increasing times, prunes happen at non-decreasing ones and keep at least
      so many days and months. */
  predicate Timely(h: History, e: Event, keepDaily: nat, keepMonthly: nat) {
    match e
    case Backup(at, _, _) => at >= h.clock && forall i :: 0 <= i < |h.records| ==> h.records[i].startedAt < at
    case Prune(at, d, m) => at >= h.clock && d >= keepDaily && m >= keepMonthly
  }

  predicate TimelyRun(events: seq<Event>, keepDaily: nat, keepMonthly: nat) {
    events == [] ||
    (TimelyRun(events[..|events| - 1], keepDaily, keepMonthly)
     && Timely(Run(events[..|events| - 1]), events[|events| - 1], keepDaily, keepMonthly)
     && (events[|events| - 1].Backup? ==>
           forall r :: r in Run(events[..|events| - 1]).ever ==> r.startedAt < events[|events| - 1].at))
  }

  /** Every successful backup the policy wants, judged against all that ever succeeded, is there. */
  predicate Guarantee(h: History, keepDaily: nat, keepMonthly: nat) {
    forall r :: r in h.ever && Wanted(h.ever, r, h.clock, keepDaily, keepMonthly) ==> r in h.records
  }

  predicate Consistent(h: History) {
    && Ascending(h.records) && DistinctIds(h.records)
    && (forall r :: r in h.records ==> r.id < h.nextId)
    && (forall r :: r in h.records && r.complete ==> r in h.ever)
    && (forall r :: r in h.ever ==> r.complete)
  }

  lemma FewerNewerMonths(fewer: seq<Record>, more: seq<Record>, month: nat)
    requires forall r :: r in fewer ==> r in more
    ensures |NewerMonths(fewer, month)| <= |NewerMonths(more, month)|
  {
    var a, b := NewerMonths(fewer, month), NewerMonths(more, month);
    assert a <= b;
    assert b == a + (b - a);
  }

  /** Fewer rivals and an earlier clock can only make a backup more wanted. */
  lemma WantedAmongFewer(fewer: seq<Record>, more: seq<Record>, r: Record, now: nat, later: nat,
                         d: nat, m: nat, d': nat, m': nat)
    requires r in fewer && (forall x :: x in fewer ==> x in more)
    requires now <= later && d <= d' && m <= m' && Wanted(more, r, later, d, m)
    ensures Wanted(fewer, r, now, d', m')
  {
    FewerNewerMonths(fewer, more, r.Month());
  }

  lemma PruneStep(h: History, at: nat, d: nat, m: nat, keepDaily: nat, keepMonthly: nat)
    requires Consistent(h) && Guarantee(h, keepDaily, keepMonthly) && at >= h.clock && d >= keepDaily &&
             m >= keepMonthly
    ensures var h' := Step(h, Prune(at, d, m)); Consistent(h') && Guarantee(h', keepDaily, keepMonthly)
  {
    var h' := Step(h, Prune(at, d, m));
    var keep := KeptIds(NewestFirst(CompleteOf(h.records)), at, d, m);
    RetainedAscending(h.records, keep);
    RetainedDistinct(h.records, keep);
    forall r | r in h'.records ensures r in h.records {
      InRetained(h.records, keep, r);
    }
    forall r | r in h.ever && Wanted(h.ever, r, at, keepDaily, keepMonthly) ensures r in h'.records {
      WantedAmongFewer(h.ever, h.ever, r, h.clock, at, keepDaily, keepMonthly, keepDaily, keepMonthly);
      InCompleteOf(h.records, r);
      forall x | x in CompleteOf(h.records) ensures x in h.ever {
        InCompleteOf(h.records, x);
      }
      WantedAmongFewer(CompleteOf(h.records), h.ever, r, at, at, keepDaily, keepMonthly, d, m);
      PruneKeepsExactly(h.records, at, d, m, r);
    }
  }

  lemma BackupStep(h: History, e: Event, keepDaily: nat, keepMonthly: nat)
    requires e.Backup? && Consistent(h) && Guarantee(h, keepDaily, keepMonthly) && Timely(h, e, keepDaily, keepMonthly)
    requires forall r :: r in h.ever ==> r.startedAt < e.at
    ensures Consistent(Step(h, e)) && Guarantee(Step(h, e), keepDaily, keepMonthly)
  {
    var h' := Step(h, e);
    forall i | 0 <= i < |h.records| ensures h.records[i].id < h.nextId {
      assert h.records[i] in h.records;
    }
    forall r | r in h'.ever && Wanted(h'.ever, r, h'.clock, keepDaily, keepMonthly) ensures r in h'.records {
      if r in h.ever {
        WantedAmongFewer(h.ever, h'.ever, r, h.clock, e.at, keepDaily, keepMonthly, keepDaily, keepMonthly);
      }
    }
  }

  /** Whatever the interleaving of backups and prunes: every successful backup inside the daily
      window is present, and so is the first one of each of the newest months that ever had one. */
  lemma {:induction false} RetentionHolds(events: seq<Event>, keepDaily: nat, keepMonthly: nat)
    requires TimelyRun(events, keepDaily, keepMonthly)
    ensures Consistent(Run(events)) && Guarantee(Run(events), keepDaily, keepMonthly)
  {
    if events != [] {
      var init, last := events[..|events| - 1], events[|events| - 1];
      RetentionHolds(init, keepDaily, keepMonthly);
      match last
      case Backup(_, _, _) => BackupStep(Run(init), last, keepDaily, keepMonthly);
      case Prune(at, d, m) => PruneStep(Run(init), at, d, m, keepDaily, keepMonthly);
    }
  }

  /** The same guarantee read at any later moment. */
  lemma StillThere(events: seq<Event>, keepDaily: nat, keepMonthly: nat, now: nat, r: Record)
    requires TimelyRun(events, keepDaily, keepMonthly) && now >= Run(events).clock
    requires r in Run(events).ever && Wanted(Run(events).ever, r, now, keepDaily, keepMonthly)
    ensures r in Run(events).records
  {
    var h := Run(events);
    RetentionHolds(events, keepDaily, keepMonthly);
    WantedAmongFewer(h.ever, h.ever, r, h.clock, now, keepDaily, keepMonthly, keepDaily, keepMonthly);
  }

  /** Pruning twice at one moment removes nothing the second time. */
  lemma PruneIdempotent(records: seq<Record>, now: nat, keepDaily: nat, keepMonthly: nat)
    requires Ascending(records) && DistinctIds(records)
    ensures var once := Pruned(records, now, keepDaily, keepMonthly);
            Pruned(once, now, keepDaily, keepMonthly) == once
  {
    var completed := CompleteOf(records);
    var keep := KeptIds(NewestFirst(completed), now, keepDaily, keepMonthly);
    var once := Retained(records, keep);
    RetainedAscending(records, keep);
    RetainedDistinct(records, keep);
    var keep' := KeptIds(NewestFirst(CompleteOf(once)), now, keepDaily, keepMonthly);
    forall i | 0 <= i < |once| ensures Stays(once[i], keep') {
      var r := once[i];
      assert r in once;
      PruneKeepsExactly(records, now, keepDaily, keepMonthly, r);
      if r.complete {
        InCompleteOf(once, r);
        forall x | x in CompleteOf(once) ensures x in completed {
          InCompleteOf(once, x);
          InRetained(records, keep, x);
          InCompleteOf(records, x);
        }
        WantedAmongFewer(CompleteOf(once), completed, r, now, now, keepDaily, keepMonthly, keepDaily, keepMonthly);
        PruneKeepsExactly(once, now, keepDaily, keepMonthly, r);
        InRetained(once, keep', r);
      }
    }
    RetainedAll(once, keep');
  }

  lemma {:induction false} RetainedAll(records: seq<Record>, keep: set<nat>)
    requires forall i :: 0 <= i < |records| ==> Stays(records[i], keep)
    ensures Retained(records, keep) == records
  {
    if records != [] {
      RetainedAll(records[..|records| - 1], keep);
    }
  }
}
