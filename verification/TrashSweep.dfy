/**
 The nightly sweep of expired trash: batches of at most a hundred rows, object first and
 then row, with files for which storage or the row delete keeps failing. The database
 may return any rows of the right kind in a batch. The cutoff is read once, before the
 first batch.
 */
module TrashSweep {
  import opened Wrappers
  import opened FileLifecycle

  const BATCH_SIZE := 100

  function Expired(rows: map<FileId, File>, cutoff: int): set<FileId> {
    set f | f in rows && rows[f].deletedAt.Some? && rows[f].deletedAt.value < cutoff
  }

  /** What trash lists, and what a restore accepts. */
  function Listed(rows: map<FileId, File>, cutoff: int): set<FileId> {
    set f | f in rows && rows[f].deletedAt.Some? && rows[f].deletedAt.value >= cutoff
  }

  /** At one moment a file is active, listed or expired, never two of them; it is counted
      against the quota exactly until it is expired. */
  lemma SweepSparesWhatCounts(rows: map<FileId, File>, now: int, f: FileId)
    requires f in rows
    ensures var cutoff := now - TRASH_RETENTION_MS;
      && (Counts(rows[f], now) <==> f !in Expired(rows, cutoff))
      && (f in Expired(rows, cutoff) <==>
            rows[f].deletedAt.Some? && now - rows[f].deletedAt.value > 2592000000)
      && (f in Listed(rows, cutoff) <==> rows[f].deletedAt.Some? && f !in Expired(rows, cutoff))
      && (f in Listed(rows, cutoff) <==>
            Enabled(State(rows, {}, now, map[], {}, {}, map[]), BeginRestore(0, f)))
  {
  }

  // ---- When the sweep ends ----

  /** What is left of `expired` after a batch in which only `failing` files survive. */
  function Left(expired: set<FileId>, failing: set<FileId>, batch: set<FileId>): set<FileId> {
    expired - (batch - failing)
  }

  /** Rounds that keep the loop going: each finds a full batch. */
  ghost predicate FullRounds(expired: set<FileId>, failing: set<FileId>, batches: seq<set<FileId>>)
    decreases |batches|
  {
    batches != [] ==>
      batches[0] <= expired && |batches[0]| == BATCH_SIZE
      && FullRounds(Left(expired, failing, batches[0]), failing, batches[1..])
  }

  lemma FullBatchProgresses(expired: set<FileId>, failing: set<FileId>, batch: set<FileId>)
    requires batch <= expired && |batch| == BATCH_SIZE && |expired * failing| < BATCH_SIZE
    ensures |Left(expired, failing, batch) - failing| < |expired - failing|
    ensures Left(expired, failing, batch) * failing == expired * failing
  {
    if batch <= failing {
      SubsetCardinality(batch, expired * failing);
      assert false;
    }
    var f :| f in batch && f !in failing;
    SubsetCardinality(Left(expired, failing, batch) - failing, (expired - failing) - {f});
  }

  lemma {:induction false} FullRoundsAreFew(expired: set<FileId>, failing: set<FileId>, batches: seq<set<FileId>>)
    requires FullRounds(expired, failing, batches) && |expired * failing| < BATCH_SIZE
    ensures |batches| <= |expired - failing|
    decreases |batches|
  {
    if batches != [] {
      FullBatchProgresses(expired, failing, batches[0]);
      FullRoundsAreFew(Left(expired, failing, batches[0]), failing, batches[1..]);
    }
  }

  lemma {:induction false} Choose(s: set<FileId>, n: nat) returns (t: set<FileId>)
    requires n <= |s|
    ensures t <= s && |t| == n
    decreases n
  {
    if n == 0 {
      t := {};
    } else {
      var x :| x in s;
      t := Choose(s - {x}, n - 1);
      t := t + {x};
    }
  }

  lemma {:induction false} StuckRounds(expired: set<FileId>, failing: set<FileId>, batch: set<FileId>, n: nat)
    returns (batches: seq<set<FileId>>)
    requires batch <= expired * failing && |batch| == BATCH_SIZE
    ensures FullRounds(expired, failing, batches) && |batches| == n
  {
    if n == 0 {
      batches := [];
    } else {
      var rest := StuckRounds(expired, failing, batch, n - 1);
      batches := [batch] + rest;
      assert Left(expired, failing, batch) == expired;
      assert batches[1..] == rest;
    }
  }

  ghost predicate RoundsBoundedBy(expired: set<FileId>, failing: set<FileId>, bound: nat) {
    forall batches :: FullRounds(expired, failing, batches) ==> |batches| <= bound
  }

  /** The number of rounds is bounded, for every order in which the database may answer,
      exactly when fewer files keep failing than fit in a batch. */
  lemma SweepEndsIff(expired: set<FileId>, failing: set<FileId>)
    ensures (exists bound: nat :: RoundsBoundedBy(expired, failing, bound)) <==> |expired * failing| < 100
  {
    if |expired * failing| < BATCH_SIZE {
      forall batches | FullRounds(expired, failing, batches) ensures |batches| <= |expired - failing| {
        FullRoundsAreFew(expired, failing, batches);
      }
      assert RoundsBoundedBy(expired, failing, |expired - failing|);
    } else {
      var batch := Choose(expired * failing, BATCH_SIZE);
      forall bound: nat ensures !RoundsBoundedBy(expired, failing, bound) {
        var batches := StuckRounds(expired, failing, batch, bound + 1);
      }
    }
  }

  // ---- The sweep ----

  /** Files whose object delete, or whose row delete, keeps failing. */
  datatype Faults = Faults(storage: set<FileId>, database: set<FileId>) {
    function All(): set<FileId> { storage + database }
  }

  datatype Stores = Stores(rows: map<FileId, File>, objects: set<FileId>)

  /** Both stores once the files of `done` have been tried. */
  function Purged(s: Stores, done: set<FileId>, faults: Faults): Stores {
    Stores(s.rows - (done - faults.All()), s.objects - (done - faults.storage))
  }

  lemma PurgedMore(s: Stores, done: set<FileId>, more: set<FileId>, faults: Faults)
    ensures Purged(Purged(s, done, faults), more, faults) == Purged(s, done + more, faults)
  {
    assert s.rows - (done - faults.All()) - (more - faults.All()) == s.rows - ((done + more) - faults.All());
  }

  lemma PurgedNothing(s: Stores, faults: Faults)
    ensures Purged(s, {}, faults) == s
  {
    assert s.rows - {} == s.rows;
  }

  lemma ExpiredLeft(s: Stores, cutoff: int, done: set<FileId>, faults: Faults)
    requires done <= Expired(s.rows, cutoff)
    ensures Expired(Purged(s, done, faults).rows, cutoff) == Left(Expired(s.rows, cutoff), faults.All(), done)
  {
  }

  lemma LeftMore(all: set<FileId>, failing: set<FileId>, done: set<FileId>, more: set<FileId>)
    ensures Left(all, failing, done + more) == Left(Left(all, failing, done), failing, more)
    ensures Left(all, failing, done) * failing == all * failing
  {
  }

  lemma SameSize(a: set<FileId>, b: set<FileId>)
    requires a <= b && |a| == |b|
    ensures a == b
  {
    assert b == a + (b - a);
  }

  /** A batch that is not full holds everything that is left. */
  lemma LastBatch(all: set<FileId>, failing: set<FileId>, done: set<FileId>, b: set<FileId>)
    requires done <= all && b <= Left(all, failing, done) && |b| == |Left(all, failing, done)|
    ensures done + b == all && b * failing == all * failing
  {
    SameSize(b, Left(all, failing, done));
  }

  lemma OneMore(batch: seq<FileId>, i: nat)
    requires Distinct(batch) && i <= |batch|
    ensures i == |batch| ==> Elements(batch[..i]) == Elements(batch)
    ensures i < |batch| ==>
              batch[i] !in Elements(batch[..i]) && Elements(batch[..i + 1]) == Elements(batch[..i]) + {batch[i]}
  {
    if i < |batch| {
      assert batch[..i + 1] == batch[..i] + [batch[i]];
    } else {
      assert batch[..i] == batch;
    }
  }

  lemma CountMore(done: set<FileId>, b: set<FileId>, failing: set<FileId>)
    requires b !! (done - failing)
    ensures |(done + b) - failing| == |done - failing| + |b - failing|
  {
    assert (done + b) - failing == (done - failing) + (b - failing);
  }

  lemma CountOne(done: set<FileId>, f: FileId, failing: set<FileId>)
    requires f !in done
    ensures |(done + {f}) - failing| == |done - failing| + (if f in failing then 0 else 1)
    ensures |(done + {f}) * failing| == |done * failing| + (if f in failing then 1 else 0)
  {
    if f in failing {
      assert (done + {f}) - failing == done - failing && (done + {f}) * failing == (done * failing) + {f};
    } else {
      assert (done + {f}) - failing == (done - failing) + {f} && (done + {f}) * failing == done * failing;
    }
  }

  /** The files of `done` have been tried, and `purged` of them are gone. */
  ghost predicate Swept(start: Stores, s: Stores, cutoff: int, faults: Faults, done: set<FileId>, purged: nat) {
    && done <= Expired(start.rows, cutoff) && purged == |done - faults.All()|
    && s == Purged(start, done, faults)
  }

  /** Each full round so far got rid of a file, unless too many fail. */
  ghost predicate InTime(start: Stores, cutoff: int, faults: Faults, done: set<FileId>, rounds: nat) {
    var all, failing := Expired(start.rows, cutoff), faults.All();
    |all * failing| < BATCH_SIZE ==> rounds + |Left(all, failing, done) - failing| <= |all - failing|
  }

  lemma SweptMore(start: Stores, s: Stores, s': Stores, cutoff: int, faults: Faults, done: set<FileId>, purged: nat,
                  b: set<FileId>, p: nat)
    requires Swept(start, s, cutoff, faults, done, purged) && b <= Expired(s.rows, cutoff)
    requires s' == Purged(s, b, faults) && p == |b - faults.All()|
    ensures Swept(start, s', cutoff, faults, done + b, purged + p)
  {
    ExpiredLeft(start, cutoff, done, faults);
    PurgedMore(start, done, b, faults);
    CountMore(done, b, faults.All());
  }

  lemma FullRound(start: Stores, s: Stores, cutoff: int, faults: Faults, done: set<FileId>, purged: nat,
                  b: set<FileId>, rounds: nat)
    requires Swept(start, s, cutoff, faults, done, purged) && b <= Expired(s.rows, cutoff) && |b| == BATCH_SIZE
    requires InTime(start, cutoff, faults, done, rounds)
    ensures InTime(start, cutoff, faults, done + b, rounds + 1)
  {
    var all, failing := Expired(start.rows, cutoff), faults.All();
    ExpiredLeft(start, cutoff, done, faults);
    LeftMore(all, failing, done, b);
    if |all * failing| < BATCH_SIZE { FullBatchProgresses(Left(all, failing, done), failing, b); }
  }

  lemma LastRound(start: Stores, s: Stores, cutoff: int, faults: Faults, done: set<FileId>, purged: nat, b: set<FileId>)
    requires Swept(start, s, cutoff, faults, done, purged) && b <= Expired(s.rows, cutoff)
    requires |b| == |Expired(s.rows, cutoff)|
    ensures done + b == Expired(start.rows, cutoff)
    ensures b * faults.All() == Expired(start.rows, cutoff) * faults.All()
  {
    ExpiredLeft(start, cutoff, done, faults);
    LastBatch(Expired(start.rows, cutoff), faults.All(), done, b);
  }

  class CleanupService {
    var rows: map<FileId, File>
    var objects: set<FileId>
    var now: int

    /** `take: 100` of the expired rows, in no promised order. */
    method FindExpired(cutoff: int) returns (batch: seq<FileId>)
      ensures Distinct(batch) && Elements(batch) <= Expired(rows, cutoff)
      ensures |batch| == if |Expired(rows, cutoff)| < 100 then |Expired(rows, cutoff)| else 100
    {
      var left := Expired(rows, cutoff);
      batch := [];
      while left != {} && |batch| < BATCH_SIZE
        invariant Distinct(batch) && Elements(batch) !! left && Elements(batch) + left == Expired(rows, cutoff)
        invariant |batch| <= BATCH_SIZE && |batch| + |left| == |Expired(rows, cutoff)|
        decreases |left|
      {
        var f :| f in left;
        assert Elements(batch + [f]) == Elements(batch) + {f};
        batch, left := batch + [f], left - {f};
      }
    }

    ghost function Both(): Stores
      reads this
    {
      Stores(rows, objects)
    }

    /** One file: a failing object delete leaves both; a failing row delete leaves the row. */
    method PurgeFile(f: FileId, faults: Faults) returns (ok: bool)
      modifies this`rows, this`objects
      ensures ok <==> f !in faults.storage && f !in faults.database
      ensures objects == if f in faults.storage then old(objects) else old(objects) - {f}
      ensures rows == if ok then old(rows) - {f} else old(rows)
      ensures Both() == Purged(old(Both()), {f}, faults)
    {
      PurgedNothing(Both(), faults);
      if f in faults.storage {
        assert {f} - faults.storage == {} && {f} - faults.All() == {};
        return false;
      }
      assert {f} - faults.storage == {f};
      objects := objects - {f};
      if f in faults.database {
        assert {f} - faults.All() == {};
        return false;
      }
      assert {f} - faults.All() == {f};
      rows := rows - {f};
      return true;
    }

    method PurgeBatch(batch: seq<FileId>, faults: Faults) returns (purged: nat, failed: nat)
      requires Distinct(batch)
      modifies this`rows, this`objects
      ensures Both() == Purged(old(Both()), Elements(batch), faults)
      ensures purged == |Elements(batch) - faults.All()| && failed == |Elements(batch) * faults.All()|
    {
      purged, failed := 0, 0;
      ghost var done: set<FileId> := {};
      PurgedNothing(Both(), faults);
      for i := 0 to |batch|
        invariant done == Elements(batch[..i])
        invariant Both() == Purged(old(Both()), done, faults)
        invariant purged == |done - faults.All()| && failed == |done * faults.All()|
      {
        OneMore(batch, i);
        CountOne(done, batch[i], faults.All());
        PurgedMore(old(Both()), done, {batch[i]}, faults);
        var ok := PurgeFile(batch[i], faults);
        if ok { purged := purged + 1; } else { failed := failed + 1; }
        done := done + {batch[i]};
      }
      OneMore(batch, |batch|);
    }

    /** `patience` is the number of rounds the process lives to make. Whatever was tried,
        exactly the files of it that do not fail are gone from both stores. A sweep that
        ends has tried every expired file; with fewer failing ones than fit in a batch it
        ends within as many full rounds as there are others. */
    method ProcessExpired(faults: Faults, patience: nat)
      returns (purged: nat, failed: nat, ended: bool, ghost done: set<FileId>)
      modifies this`rows, this`objects
      ensures var expired := old(Expired(rows, now - 2592000000));
        && done <= expired && Both() == Purged(old(Both()), done, faults) && purged == |done - faults.All()|
        && (ended ==> done == expired && failed >= |expired * faults.All()|)
        && (|expired * faults.All()| < 100 && |expired - faults.All()| < patience ==> ended)
    {
      var cutoff := now - TRASH_RETENTION_MS;
      ghost var start := Both();
      var rounds := 0;
      purged, failed, ended, done := 0, 0, false, {};
      PurgedNothing(start, faults);
      while rounds < patience
        invariant rounds <= patience && Swept(start, Both(), cutoff, faults, done, purged)
        invariant InTime(start, cutoff, faults, done, rounds)
      {
        var batch := FindExpired(cutoff);
        ghost var b, before, round := Elements(batch), done, Both();
        DistinctCardinality(batch);
        if |batch| == 0 {
          LastRound(start, round, cutoff, faults, done, purged, b);
          return purged, failed, true, done + b;
        }
        var p, q := PurgeBatch(batch, faults);
        purged, failed, rounds := purged + p, failed + q, rounds + 1;
        SweptMore(start, round, Both(), cutoff, faults, before, purged - p, b, p);
        done := done + b;
        if |batch| < BATCH_SIZE {
          LastRound(start, round, cutoff, faults, before, purged - p, b);
          return purged, failed, true, done;
        }
        FullRound(start, round, cutoff, faults, before, purged - p, b, rounds - 1);
      }
    }
  }

  /** A sweep leaves every row that is active, listed or counted at its cutoff, and every
      workspace's usage, as they were; what it leaves expired is failing. */
  lemma SweepIsExact(s: Stores, now: int, faults: Faults, ws: WorkspaceId)
    ensures var expired := Expired(s.rows, now - 2592000000);
      var t := Purged(s, expired, faults);
      && (forall f :: f in s.rows && Counts(s.rows[f], now) ==> f in t.rows && t.rows[f] == s.rows[f])
      && Expired(t.rows, now - 2592000000) == expired * faults.All()
      && Usage(t.rows, ws, now) == Usage(s.rows, ws, now)
      && (forall f :: f in s.rows && f !in t.rows ==> f !in t.objects)
  {
    var t := Purged(s, Expired(s.rows, now - TRASH_RETENTION_MS), faults);
    assert CountedFiles(t.rows, ws, now) == CountedFiles(s.rows, ws, now);
  }
}
