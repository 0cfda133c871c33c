/**
 A run in which a restore takes a workspace over its limit: its file leaves the window
 between the restore's two readings of it, and an upload takes the place meanwhile.
 */
module RestoreRace {
  import opened Wrappers
  import opened FileLifecycle
  import opened FileServices

  const PART := 25 * MB

  /** Every file is one that the free plan lets through. */
  predicate SmallUploads(es: seq<Event>) {
    forall i :: 0 <= i < |es| && es[i].PutOk? ==> es[i].size <= 26214400
  }

  ghost predicate Reaches(es: seq<Event>, t: State) {
    IsRun(Fresh(0, map[]), es) && After(Fresh(0, map[]), es) == t && SmallUploads(es)
  }

  lemma {:induction false} Concatenate(s: State, es: seq<Event>, more: seq<Event>)
    requires IsRun(s, es) && IsRun(After(s, es), more)
    ensures IsRun(s, es + more) && After(s, es + more) == After(After(s, es), more)
    decreases |es|
  {
    if es == [] {
      assert es + more == more;
    } else {
      Concatenate(Next(s, es[0]), es[1..], more);
      assert (es + more)[1..] == es[1..] + more;
    }
  }

  lemma Extend(es: seq<Event>, t: State, more: seq<Event>)
    requires Reaches(es, t) && IsRun(t, more) && SmallUploads(more)
    ensures Reaches(es + more, After(t, more))
  {
    Concatenate(Fresh(0, map[]), es, more);
  }

  lemma Append(es: seq<Event>, t: State, e: Event)
    requires Reaches(es, t) && Enabled(t, e) && (e.PutOk? ==> e.size <= FileSizeLimit(FREE))
    ensures Reaches(es + [e], Next(t, e))
  {
    Run1(t, e);
    Extend(es, t, [e]);
  }

  /** File 0, one byte, trashed at time 0, and files 1..n of 25 MB, all of workspace 0. */
  function Filled(n: nat): (rows: map<FileId, File>)
    ensures forall f :: f in rows <==> 0 <= f <= n
    ensures forall f :: f in rows ==>
              rows[f] == if f == 0 then File(0, 1, Some(0), Some(0)) else File(0, PART, Some(0), None)
  {
    if n == 0 then map[0 := File(0, 1, Some(0), Some(0))] else Filled(n - 1)[n := File(0, PART, Some(0), None)]
  }

  lemma {:induction false} FilledUsage(n: nat, now: int)
    ensures Usage(Filled(n), 0, now) == n * PART + (if now <= TRASH_RETENTION_MS then 1 else 0)
  {
    if n == 0 {
      var counted := CountedFiles(Filled(0), 0, now);
      if now <= TRASH_RETENTION_MS {
        TotalRemove(counted, 0);
        assert counted - {0} == map[];
      } else {
        assert counted == map[];
      }
    } else {
      FilledUsage(n - 1, now);
      UsageAdds(Filled(n - 1), now, n, File(0, PART, Some(0), None), 0);
    }
  }

  function FilledState(n: nat): State {
    State(Filled(n), Filled(n).Keys, 0, map[], Filled(n).Keys, {}, map[])
  }

  /** One file of one byte, not yet in trash. */
  function OneByte(): State {
    State(map[0 := File(0, 1, Some(0), None)], {0}, 0, map[], {0}, {}, map[])
  }

  lemma FirstUpload() returns (es: seq<Event>)
    ensures Reaches(es, OneByte())
  {
    var s := Fresh(0, map[]);
    assert CountedFiles(s.rows, 0, 0) == map[];
    assert Reaches([], s);
    UploadCommits(s, 0, 0, 1, 0);
    es := [PutOk(0, 0, 0, 1, 0), AcquireLock(0), CheckQuota(0), Commit(0)];
    Extend([], s, es);
    assert [] + es == es;
  }

  lemma TrashedByte() returns (es: seq<Event>)
    ensures Reaches(es, FilledState(0))
  {
    es := FirstUpload();
    Append(es, OneByte(), Trash(0));
    es := es + [Trash(0)];
    assert Next(OneByte(), Trash(0)) == FilledState(0);
  }

  lemma {:induction false} Fill(n: nat) returns (es: seq<Event>)
    requires n <= 19
    ensures Reaches(es, FilledState(n))
  {
    if n == 0 {
      es := TrashedByte();
    } else {
      es := Fill(n - 1);
      var s := FilledState(n - 1);
      FilledUsage(n - 1, 0);
      UploadCommits(s, 0, n, PART, 0);
      var upload := [PutOk(0, 0, n, PART, 0), AcquireLock(0), CheckQuota(0), Commit(0)];
      Extend(es, s, upload);
      es := es + upload;
      assert After(s, upload) == FilledState(n);
    }
  }

  /** The restore begins on the last millisecond of its file's window. */
  function Begun(): State {
    FilledState(19).(now := TRASH_RETENTION_MS, jobs := map[1 := Restore(0, 0, Outside)])
  }

  /** One millisecond later a twentieth part has been committed: the limit, exactly. */
  function Full(): State {
    State(Filled(20), Filled(20).Keys, TRASH_RETENTION_MS + 1,
          map[1 := Restore(0, 0, Outside)], Filled(20).Keys, {}, map[])
  }

  lemma Begin() returns (es: seq<Event>)
    ensures Reaches(es, Begun())
  {
    es := Fill(19);
    var t := FilledState(19);
    Append(es, t, Tick(TRASH_RETENTION_MS));
    es, t := es + [Tick(TRASH_RETENTION_MS)], Next(t, Tick(TRASH_RETENTION_MS));
    Append(es, t, BeginRestore(1, 0));
    es, t := es + [BeginRestore(1, 0)], Next(t, BeginRestore(1, 0));
    assert t == Begun();
  }

  /** The upload that comes in between, in one of its phases. */
  function Joined(phase: Phase): State {
    State(Filled(19), Filled(20).Keys, TRASH_RETENTION_MS + 1,
          map[1 := Restore(0, 0, Outside), 2 := Upload(0, 20, PART, 0, phase)], Filled(20).Keys, {}, map[])
  }

  lemma Join() returns (es: seq<Event>)
    ensures Reaches(es, Joined(Outside))
  {
    es := Begin();
    var t := Begun();
    Append(es, t, Tick(1));
    es, t := es + [Tick(1)], Next(t, Tick(1));
    Append(es, t, PutOk(2, 0, 20, PART, 0));
    es := es + [PutOk(2, 0, 20, PART, 0)];
    assert Next(t, PutOk(2, 0, 20, PART, 0)) == Joined(Outside);
  }

  lemma JoinedLocks()
    ensures Enabled(Joined(Outside), AcquireLock(2)) && Next(Joined(Outside), AcquireLock(2)) == Joined(InLock)
  {
  }

  lemma JoinedClears()
    ensures Enabled(Joined(InLock), CheckQuota(2)) && Next(Joined(InLock), CheckQuota(2)) == Joined(Cleared)
  {
    FilledUsage(19, TRASH_RETENTION_MS + 1);
    assert QuotaAllows(Joined(InLock), Joined(InLock).jobs[2]);
  }

  lemma TakeThePlace() returns (es: seq<Event>)
    ensures Reaches(es, Full())
  {
    es := Join();
    JoinedLocks();
    JoinedClears();
    Append(es, Joined(Outside), AcquireLock(2));
    es := es + [AcquireLock(2)];
    Append(es, Joined(InLock), CheckQuota(2));
    es := es + [CheckQuota(2)];
    Append(es, Joined(Cleared), Commit(2));
    es := es + [Commit(2)];
  }

  /** Twenty uploads of 25 MB, the last of them between the two moments at which a
      restore of one byte reads the window, leave a free workspace over its limit. */
  lemma LateRestoreBreaksQuota() returns (es: seq<Event>)
    ensures IsRun(Fresh(0, map[]), es) && SmallUploads(es)
    ensures var t := After(Fresh(0, map[]), es); Usage(t.rows, 0, t.now) > 524288000
  {
    es := TakeThePlace();
    var t := Full();
    Append(es, t, AcquireLock(1));
    es, t := es + [AcquireLock(1)], Next(t, AcquireLock(1));
    FilledUsage(20, t.now);
    Append(es, t, CheckQuota(1));
    es, t := es + [CheckQuota(1)], Next(t, CheckQuota(1));
    assert t.rows == Filled(20);
    Append(es, t, Commit(1));
    es, t := es + [Commit(1)], Next(t, Commit(1));
    assert t.rows == Activated(Filled(20), 0);
    ActivatedUncounted(Filled(20), t.now, 0);
  }
}
