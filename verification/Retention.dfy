/** Backup retention (ops/backups.py, prune): every recent backup, and the first successful
    backup of each of the newest months. */
module Retention {
  import opened Calendar

  datatype Record = Record(id: nat, filename: string, startedAt: nat, complete: bool)
  {
    function Month(): nat {
      MonthOf(startedAt)
    }
  }

  // ---- the orders the records are listed in ----

  function CompleteOf(rs: seq<Record>): seq<Record> {
    if rs == [] then []
    else
      var rest, last := CompleteOf(rs[..|rs| - 1]), rs[|rs| - 1];
      if last.complete then rest + [last] else rest
  }

  function InsertByStart(r: Record, rs: seq<Record>): seq<Record> {
    if rs == [] || rs[|rs| - 1].startedAt <= r.startedAt then rs + [r]
    else InsertByStart(r, rs[..|rs| - 1]) + [rs[|rs| - 1]]
  }

  /** Oldest first, keeping the order of ties. */
  function OldestFirst(rs: seq<Record>): seq<Record> {
    if rs == [] then [] else InsertByStart(rs[|rs| - 1], OldestFirst(rs[..|rs| - 1]))
  }

  function Reversed(rs: seq<Record>): seq<Record> {
    if rs == [] then [] else Reversed(rs[1..]) + [rs[0]]
  }

  function NewestFirst(rs: seq<Record>): seq<Record> {
    Reversed(OldestFirst(rs))
  }

  predicate MonthListed(rs: seq<Record>, month: nat) {
    exists i :: 0 <= i < |rs| && rs[i].Month() == month
  }

  /** The first record of each month, in the order of first appearance. */
  function FirstPerMonth(rs: seq<Record>): seq<Record> {
    if rs == [] then []
    else
      var firsts, last := FirstPerMonth(rs[..|rs| - 1]), rs[|rs| - 1];
      if MonthListed(firsts, last.Month()) then firsts else firsts + [last]
  }

  function Take(rs: seq<Record>, n: nat): seq<Record> {
    if n <= |rs| then rs[..n] else rs
  }

  function Monthly(completed: seq<Record>, keepMonthly: nat): seq<Record> {
    Take(NewestFirst(FirstPerMonth(OldestFirst(completed))), keepMonthly)
  }

  predicate Recent(r: Record, now: nat, keepDaily: nat) {
    r.startedAt >= now - keepDaily * MICROSECONDS_PER_DAY
  }

  function Ids(rs: seq<Record>): set<nat> {
    set r | r in rs :: r.id
  }

  function KeptIds(completed: seq<Record>, now: nat, keepDaily: nat, keepMonthly: nat): set<nat> {
    (set r | r in completed && Recent(r, now, keepDaily) :: r.id) + Ids(Monthly(completed, keepMonthly))
  }

  /** Unfinished and failed runs are never touched. */
  predicate Stays(r: Record, keep: set<nat>) {
    !r.complete || r.id in keep
  }

  function Retained(records: seq<Record>, keep: set<nat>): seq<Record> {
    if records == [] then []
    else
      var rest, last := Retained(records[..|records| - 1], keep), records[|records| - 1];
      if Stays(last, keep) then rest + [last] else rest
  }

  function Removed(completed: seq<Record>, keep: set<nat>): seq<Record> {
    if completed == [] then []
    else
      var rest, last := Removed(completed[..|completed| - 1], keep), completed[|completed| - 1];
      if last.id in keep then rest else rest + [last]
  }

  /** The records left when those with the given ids are deleted. */
  function Without(records: seq<Record>, ids: set<nat>): seq<Record> {
    if records == [] then []
    else
      var rest, last := Without(records[..|records| - 1], ids), records[|records| - 1];
      if last.id in ids then rest else rest + [last]
  }

  function Filenames(rs: seq<Record>): seq<string> {
    if rs == [] then [] else Filenames(rs[..|rs| - 1]) + [rs[|rs| - 1].filename]
  }

  function NameSet(names: seq<string>): set<string> {
    set f | f in names
  }

  /** What one prune leaves of the table. */
  function Pruned(records: seq<Record>, now: nat, keepDaily: nat, keepMonthly: nat): seq<Record> {
    Retained(records, KeptIds(NewestFirst(CompleteOf(records)), now, keepDaily, keepMonthly))
  }

  predicate DistinctIds(records: seq<Record>) {
    forall i, j :: 0 <= i < j < |records| ==> records[i].id != records[j].id
  }

  // ---- prune itself ----

  class BackupStore {
    var records: seq<Record>
    var files: set<string>

    ghost predicate Valid()
      reads this
    {
      DistinctIds(records)
    }

    constructor ()
      ensures Valid() && records == [] && files == {}
    {
      records, files := [], {};
    }

    method Prune(now: nat, keepDaily: nat, keepMonthly: nat) returns (removed: seq<string>)
      requires Valid()
      modifies this
      ensures Valid()
      ensures records == Pruned(old(records), now, keepDaily, keepMonthly)
      ensures var completed := NewestFirst(CompleteOf(old(records)));
              removed == Filenames(Removed(completed, KeptIds(completed, now, keepDaily, keepMonthly)))
      ensures files == old(files) - NameSet(removed)
    {
      var completed := NewestFirst(CompleteOf(records));
      var keep := set r | r in completed && Recent(r, now, keepDaily) :: r.id;
      var firsts := CollectFirsts(OldestFirst(completed));
      var newest := Take(NewestFirst(firsts), keepMonthly);
      keep := AddIds(keep, newest);
      removed := Delete(completed, keep);
      DeletedLeavesRetained(old(records), keep);
      RetainedDistinct(old(records), keep);
    }

    /** Deletes row and file of each listed record that is not kept. */
    method Delete(completed: seq<Record>, keep: set<nat>) returns (removed: seq<string>)
      modifies this
      ensures records == Without(old(records), Ids(Removed(completed, keep)))
      ensures removed == Filenames(Removed(completed, keep))
      ensures files == old(files) - NameSet(removed)
    {
      removed := [];
      var i := 0;
      WithoutNone(records);
      assert Ids([]) == {} && NameSet([]) == {};
      while i < |completed|
        invariant 0 <= i <= |completed|
        invariant removed == Filenames(Removed(completed[..i], keep))
        invariant files == old(files) - NameSet(removed)
        invariant records == Without(old(records), Ids(Removed(completed[..i], keep)))
      {
        var record := completed[i];
        DeleteStep(old(records), completed, i, keep);
        if record.id !in keep {
          NameSetAppend(removed, record.filename);
          files := files - {record.filename};
          removed := removed + [record.filename];
          records := Without(records, {record.id});
        }
        i := i + 1;
      }
      assert completed[..i] == completed;
    }
  }

  lemma NameSetAppend(names: seq<string>, name: string)
    ensures NameSet(names + [name]) == NameSet(names) + {name}
  {
  }

  lemma DeleteStep(all: seq<Record>, completed: seq<Record>, i: nat, keep: set<nat>)
    requires i < |completed|
    ensures var before, after, record := Removed(completed[..i], keep), Removed(completed[..i + 1], keep), completed[i];
            if record.id in keep then after == before
            else
              && Filenames(after) == Filenames(before) + [record.filename]
              && Without(all, Ids(after)) == Without(Without(all, Ids(before)), {record.id})
  {
    var record := completed[i];
    var before := Removed(completed[..i], keep);
    assert completed[..i + 1][..i] == completed[..i];
    if record.id !in keep {
      assert Removed(completed[..i + 1], keep) == before + [record];
      assert (before + [record])[..|before|] == before;
      assert Ids(before + [record]) == Ids(before) + {record.id};
      WithoutMore(all, Ids(before), record.id);
    }
  }

  method AddIds(ids: set<nat>, rs: seq<Record>) returns (keep: set<nat>)
    ensures keep == ids + Ids(rs)
  {
    keep := ids;
    var i := 0;
    while i < |rs|
      invariant 0 <= i <= |rs|
      invariant keep == ids + Ids(rs[..i])
    {
      assert rs[..i + 1] == rs[..i] + [rs[i]];
      keep := keep + {rs[i].id};
      i := i + 1;
    }
    assert rs[..i] == rs;
  }

  method CollectFirsts(sorted: seq<Record>) returns (firsts: seq<Record>)
    ensures firsts == FirstPerMonth(sorted)
  {
    var monthly: map<nat, Record> := map[];
    firsts := [];
    var i := 0;
    while i < |sorted|
      invariant 0 <= i <= |sorted|
      invariant firsts == FirstPerMonth(sorted[..i])
      invariant forall m: nat :: m in monthly <==> MonthListed(firsts, m)
    {
      var record := sorted[i];
      assert sorted[..i + 1][..i] == sorted[..i];
      if record.Month() !in monthly {
        monthly := monthly[record.Month() := record];
        ListedAppend(firsts, record);
        firsts := firsts + [record];
      }
      i := i + 1;
    }
    assert sorted[..i] == sorted;
  }

  lemma ListedAppend(rs: seq<Record>, r: Record)
    ensures forall m :: MonthListed(rs + [r], m) <==> MonthListed(rs, m) || r.Month() == m
  {
    forall m ensures MonthListed(rs + [r], m) <==> MonthListed(rs, m) || r.Month() == m {
      if MonthListed(rs, m) {
        var i :| 0 <= i < |rs| && rs[i].Month() == m;
        assert (rs + [r])[i].Month() == m;
      }
      if r.Month() == m {
        assert (rs + [r])[|rs|].Month() == m;
      }
    }
  }

  lemma {:induction false} WithoutNone(records: seq<Record>)
    ensures Without(records, {}) == records
  {
    if records != [] {
      WithoutNone(records[..|records| - 1]);
    }
  }

  lemma {:induction false} WithoutMore(records: seq<Record>, ids: set<nat>, id: nat)
    ensures Without(Without(records, ids), {id}) == Without(records, ids + {id})
  {
    if records != [] {
      var init, last := records[..|records| - 1], records[|records| - 1];
      WithoutMore(init, ids, id);
      if last.id !in ids {
        var left := Without(init, ids);
        assert Without(records, ids) == left + [last];
        assert (left + [last])[..|left|] == left;
        assert Without(left + [last], {id})
            == if last.id == id then Without(left, {id}) else Without(left, {id}) + [last];
      }
    }
  }

  // ---- what the listings contain ----

  lemma {:induction false} InCompleteOf(rs: seq<Record>, r: Record)
    ensures r in CompleteOf(rs) <==> r in rs && r.complete
  {
    if rs != [] {
      InCompleteOf(rs[..|rs| - 1], r);
      assert rs == rs[..|rs| - 1] + [rs[|rs| - 1]];
    }
  }

  lemma {:induction false} InInsertByStart(x: Record, rs: seq<Record>, r: Record)
    ensures r in InsertByStart(x, rs) <==> r == x || r in rs
  {
    if !(rs == [] || rs[|rs| - 1].startedAt <= x.startedAt) {
      InInsertByStart(x, rs[..|rs| - 1], r);
      assert rs == rs[..|rs| - 1] + [rs[|rs| - 1]];
    }
  }

  lemma {:induction false} InOldestFirst(rs: seq<Record>, r: Record)
    ensures r in OldestFirst(rs) <==> r in rs
  {
    if rs != [] {
      InOldestFirst(rs[..|rs| - 1], r);
      InInsertByStart(rs[|rs| - 1], OldestFirst(rs[..|rs| - 1]), r);
      assert rs == rs[..|rs| - 1] + [rs[|rs| - 1]];
    }
  }

  lemma {:induction false} InReversed(rs: seq<Record>, r: Record)
    ensures r in Reversed(rs) <==> r in rs
  {
    if rs != [] {
      InReversed(rs[1..], r);
    }
  }

  lemma InNewestFirst(rs: seq<Record>, r: Record)
    ensures r in NewestFirst(rs) <==> r in rs
  {
    InOldestFirst(rs, r);
    InReversed(OldestFirst(rs), r);
  }

  lemma {:induction false} InRemoved(rs: seq<Record>, keep: set<nat>, r: Record)
    ensures r in Removed(rs, keep) <==> r in rs && r.id !in keep
  {
    if rs != [] {
      InRemoved(rs[..|rs| - 1], keep, r);
      assert rs == rs[..|rs| - 1] + [rs[|rs| - 1]];
    }
  }

  lemma {:induction false} InRetained(rs: seq<Record>, keep: set<nat>, r: Record)
    ensures r in Retained(rs, keep) <==> r in rs && Stays(r, keep)
  {
    if rs != [] {
      InRetained(rs[..|rs| - 1], keep, r);
      assert rs == rs[..|rs| - 1] + [rs[|rs| - 1]];
    }
  }

  lemma {:induction false} WithoutIsRetained(records: seq<Record>, gone: set<nat>, keep: set<nat>)
    requires forall i :: 0 <= i < |records| ==> (records[i].id !in gone <==> Stays(records[i], keep))
    ensures Without(records, gone) == Retained(records, keep)
  {
    if records != [] {
      assert records[|records| - 1].id !in gone <==> Stays(records[|records| - 1], keep);
      WithoutIsRetained(records[..|records| - 1], gone, keep);
    }
  }

  lemma DeletedLeavesRetained(records: seq<Record>, keep: set<nat>)
    requires DistinctIds(records)
    ensures Without(records, Ids(Removed(NewestFirst(CompleteOf(records)), keep))) == Retained(records, keep)
  {
    var completed := NewestFirst(CompleteOf(records));
    var gone := Ids(Removed(completed, keep));
    forall i | 0 <= i < |records| ensures records[i].id !in gone <==> Stays(records[i], keep) {
      var r := records[i];
      InCompleteOf(records, r);
      InNewestFirst(CompleteOf(records), r);
      InRemoved(completed, keep, r);
      if r.id in gone {
        var x :| x in Removed(completed, keep) && x.id == r.id;
        InRemoved(completed, keep, x);
        InNewestFirst(CompleteOf(records), x);
        InCompleteOf(records, x);
      }
    }
    WithoutIsRetained(records, gone, keep);
  }

  lemma {:induction false} RetainedDistinct(records: seq<Record>, keep: set<nat>)
    requires DistinctIds(records)
    ensures DistinctIds(Retained(records, keep))
  {
    if records != [] {
      var init, last := records[..|records| - 1], records[|records| - 1];
      RetainedDistinct(init, keep);
      var kept := Retained(init, keep);
      forall i | 0 <= i < |kept| ensures kept[i].id != last.id {
        InRetained(init, keep, kept[i]);
      }
    }
  }
}
