/**
 The file operations run to completion, with the failures of storage and database as
 parameters. Each is a run of the statements in module FileLifecycle that nothing
 interleaves with.
 */
module FileServices {
  import opened Wrappers
  import opened FileLifecycle

  datatype FileError =
    | NoFile | NotFound | Forbidden | BadExtension | BadContents
    | FileTooLarge | QuotaExceeded | StorageFailed | DatabaseFailed

  /** What the request brings: a file at all, an extension on the list, and contents
      that are what the extension says. */
  datatype Form = Form(given: bool, extensionOk: bool, contentsOk: bool)

  /** How one operation's calls turn out: the storage call, what a failed one left
      behind, the transaction or row delete, and the compensating delete. */
  datatype Weather = Weather(storageOk: bool, failedYetDone: bool, databaseOk: bool, cleanupOk: bool)

  function UploadEvents(ws: WorkspaceId, f: FileId, size: nat, actor: UserId, w: Weather): seq<Event> {
    if !w.storageOk then [PutError(f, w.failedYetDone)]
    else if w.databaseOk then [PutOk(0, ws, f, size, actor), AcquireLock(0), CheckQuota(0), Commit(0)]
    else [PutOk(0, ws, f, size, actor), TxFails(0, false), Compensate(0, w.cleanupOk, w.cleanupOk || w.failedYetDone)]
  }

  function RestoreEvents(f: FileId, w: Weather): seq<Event> {
    [BeginRestore(0, f), AcquireLock(0), CheckQuota(0)] + (if w.databaseOk then [Commit(0)] else [TxFails(0, false)])
  }

  function PurgeEvents(f: FileId, w: Weather): seq<Event> {
    if !w.storageOk then [BeginRemoval(0, f), DeleteObject(0, false, w.failedYetDone)]
    else [BeginRemoval(0, f), DeleteObject(0, true, true)] + (if w.databaseOk then [DeleteRow(0)] else [Abort(0)])
  }

  lemma Run1(s: State, e0: Event)
    requires Enabled(s, e0)
    ensures IsRun(s, [e0]) && After(s, [e0]) == Next(s, e0)
  {
    RunCons(s, e0, []);
    assert [e0] == [e0] + [];
  }

  lemma Run2(s: State, e0: Event, e1: Event)
    requires Enabled(s, e0) && Enabled(Next(s, e0), e1)
    ensures IsRun(s, [e0, e1]) && After(s, [e0, e1]) == Next(Next(s, e0), e1)
  {
    Run1(Next(s, e0), e1);
    RunCons(s, e0, [e1]);
    assert [e0, e1] == [e0] + [e1];
  }

  lemma Run3(s: State, e0: Event, e1: Event, e2: Event)
    requires Enabled(s, e0) && Enabled(Next(s, e0), e1) && Enabled(Next(Next(s, e0), e1), e2)
    ensures IsRun(s, [e0, e1, e2]) && After(s, [e0, e1, e2]) == Next(Next(Next(s, e0), e1), e2)
  {
    Run2(Next(s, e0), e1, e2);
    RunCons(s, e0, [e1, e2]);
    assert [e0, e1, e2] == [e0] + [e1, e2];
  }

  lemma Run4(s: State, e0: Event, e1: Event, e2: Event, e3: Event)
    requires Enabled(s, e0) && Enabled(Next(s, e0), e1) && Enabled(Next(Next(s, e0), e1), e2)
    requires Enabled(Next(Next(Next(s, e0), e1), e2), e3)
    ensures IsRun(s, [e0, e1, e2, e3]) && After(s, [e0, e1, e2, e3]) == Next(Next(Next(Next(s, e0), e1), e2), e3)
  {
    Run3(Next(s, e0), e1, e2, e3);
    RunCons(s, e0, [e1, e2, e3]);
    assert [e0, e1, e2, e3] == [e0] + [e1, e2, e3];
  }

  lemma UploadCommits(s: State, ws: WorkspaceId, f: FileId, size: nat, actor: UserId)
    requires s.jobs == map[] && f !in s.issued && Usage(s.rows, ws, s.now) + size <= Limit(s, ws)
    ensures var es := [PutOk(0, ws, f, size, actor), AcquireLock(0), CheckQuota(0), Commit(0)];
      && IsRun(s, es)
      && After(s, es) == s.(
           issued := s.issued + {f},
           rows := s.rows[f := File(ws, size, Some(actor), None)],
           objects := s.objects + {f})
  {
    var s1 := Next(s, PutOk(0, ws, f, size, actor));
    var s2 := Next(s1, AcquireLock(0));
    var s3 := Next(s2, CheckQuota(0));
    assert QuotaAllows(s2, s2.jobs[0]) && s3.jobs - {0} == s.jobs;
    Run4(s, PutOk(0, ws, f, size, actor), AcquireLock(0), CheckQuota(0), Commit(0));
  }

  lemma UploadCompensates(s: State, ws: WorkspaceId, f: FileId, size: nat, actor: UserId, ok: bool, gone: bool)
    requires s.jobs == map[] && f !in s.issued && (ok ==> gone)
    ensures var es := [PutOk(0, ws, f, size, actor), TxFails(0, false), Compensate(0, ok, gone)];
      && IsRun(s, es)
      && After(s, es) == s.(
           issued := s.issued + {f},
           objects := if gone then s.objects - {f} else s.objects + {f},
           abandoned := if ok then s.abandoned else s.abandoned + {f})
  {
    var s1 := Next(s, PutOk(0, ws, f, size, actor));
    var s2 := Next(s1, TxFails(0, false));
    assert s2.jobs - {0} == s.jobs;
    assert s.objects + {f} - {f} == s.objects - {f};
    Run3(s, PutOk(0, ws, f, size, actor), TxFails(0, false), Compensate(0, ok, gone));
  }

  /** Every upload that is let through leaves both stores as its run does. */
  lemma UploadRun(s: State, ws: WorkspaceId, f: FileId, size: nat, actor: UserId, w: Weather)
    requires s.jobs == map[] && f !in s.issued && Usage(s.rows, ws, s.now) + size <= Limit(s, ws)
    ensures var es := UploadEvents(ws, f, size, actor, w);
      && IsRun(s, es)
      && After(s, es) == s.(
           issued := s.issued + {f},
           rows := if w.storageOk && w.databaseOk then s.rows[f := File(ws, size, Some(actor), None)] else s.rows,
           objects := if w.storageOk && !w.databaseOk && (w.cleanupOk || w.failedYetDone) then s.objects - {f}
                      else if w.storageOk || w.failedYetDone then s.objects + {f} else s.objects,
           abandoned := if w.storageOk && (w.databaseOk || w.cleanupOk) then s.abandoned else s.abandoned + {f})
  {
    if !w.storageOk {
      Run1(s, PutError(f, w.failedYetDone));
    } else if w.databaseOk {
      UploadCommits(s, ws, f, size, actor);
    } else {
      UploadCompensates(s, ws, f, size, actor, w.cleanupOk, w.cleanupOk || w.failedYetDone);
    }
  }

  lemma RestoreRun(s: State, f: FileId, w: Weather)
    requires s.jobs == map[] && Enabled(s, BeginRestore(0, f))
    requires Usage(s.rows, s.rows[f].workspace, s.now) <= Limit(s, s.rows[f].workspace)
    ensures IsRun(s, RestoreEvents(f, w))
    ensures After(s, RestoreEvents(f, w)) == s.(rows := if w.databaseOk then Activated(s.rows, f) else s.rows)
  {
    var last := if w.databaseOk then Commit(0) else TxFails(0, false);
    var s1 := Next(s, BeginRestore(0, f));
    var s2 := Next(s1, AcquireLock(0));
    var s3 := Next(s2, CheckQuota(0));
    var none: map<JobId, Job> := map[];
    assert QuotaAllows(s2, s2.jobs[0]) && s3.jobs - {0} == none;
    Run4(s, BeginRestore(0, f), AcquireLock(0), CheckQuota(0), last);
    assert RestoreEvents(f, w) == [BeginRestore(0, f), AcquireLock(0), CheckQuota(0), last];
  }

  lemma PurgeRun(s: State, f: FileId, w: Weather)
    requires s.jobs == map[] && Enabled(s, BeginRemoval(0, f))
    ensures IsRun(s, PurgeEvents(f, w))
    ensures After(s, PurgeEvents(f, w)) == s.(
              objects := if w.storageOk || w.failedYetDone then s.objects - {f} else s.objects,
              rows := if w.storageOk && w.databaseOk then s.rows - {f} else s.rows)
  {
    var s1 := Next(s, BeginRemoval(0, f));
    var none: map<JobId, Job> := map[];
    assert s1.jobs - {0} == none;
    if !w.storageOk {
      Run2(s, BeginRemoval(0, f), DeleteObject(0, false, w.failedYetDone));
    } else {
      var s2 := Next(s1, DeleteObject(0, true, true));
      assert s2.jobs - {0} == none;
      var last := if w.databaseOk then DeleteRow(0) else Abort(0);
      Run3(s, BeginRemoval(0, f), DeleteObject(0, true, true), last);
      assert PurgeEvents(f, w) == [BeginRemoval(0, f), DeleteObject(0, true, true), last];
    }
  }

  class FileService {
    var rows: map<FileId, File>
    var objects: set<FileId>
    var now: int
    var plans: map<WorkspaceId, Plan>
    var owners: map<WorkspaceId, UserId>
    var members: set<(WorkspaceId, UserId)>
    ghost var issued: set<FileId>
    ghost var abandoned: set<FileId>

    ghost function Snapshot(): State
      reads this
    {
      State(rows, objects, now, map[], issued, abandoned, plans)
    }

    /** Rows live in known workspaces, the quota holds and no object is lost. */
    ghost predicate Valid()
      reads this
    {
      && QuotaInv(Snapshot()) && ObjectsInv(Snapshot())
      && (forall f :: f in rows ==> rows[f].workspace in owners)
    }

    predicate MayManage(f: FileId, actor: UserId)
      requires f in rows && rows[f].workspace in owners
      reads this
    {
      rows[f].uploader == Some(actor) || owners[rows[f].workspace] == actor
    }

    method GetWorkspaceUsage(ws: WorkspaceId) returns (n: nat)
      ensures n == Usage(rows, ws, now)
    {
      var left := CountedFiles(rows, ws, now);
      n := 0;
      while left != map[]
        invariant n + Total(left) == Usage(rows, ws, now)
        decreases |left|
      {
        var f :| f in left;
        TotalRemove(left, f);
        n := n + left[f];
        left := left - {f};
      }
    }

    /** The checks before anything is stored, in their order. */
    method Admit(ws: WorkspaceId, form: Form, size: nat, actor: UserId) returns (refusal: Option<FileError>)
      ensures refusal == if !form.given then Some(NoFile)
                         else if ws !in owners then Some(NotFound)
                         else if owners[ws] != actor && (ws, actor) !in members then Some(Forbidden)
                         else if !form.extensionOk then Some(BadExtension)
                         else if !form.contentsOk then Some(BadContents)
                         else if size > BytesPerFile(plans, ws) then Some(FileTooLarge)
                         else if Usage(rows, ws, now) + size > BytesPerWorkspace(plans, ws) then Some(QuotaExceeded)
                         else None
    {
      if !form.given { return Some(NoFile); }
      if ws !in owners { return Some(NotFound); }
      if owners[ws] != actor && (ws, actor) !in members { return Some(Forbidden); }
      if !form.extensionOk { return Some(BadExtension); }
      if !form.contentsOk { return Some(BadContents); }
      var plan := if ws in plans then plans[ws] else FREE;
      if size > FileSizeLimit(plan) { return Some(FileTooLarge); }
      var usage := GetWorkspaceUsage(ws);
      if usage + size > StorageLimit(plan) { return Some(QuotaExceeded); }
      return None;
    }

    method Upload(ws: WorkspaceId, f: FileId, form: Form, size: nat, actor: UserId, w: Weather)
      returns (r: Result<FileId, FileError>)
      requires Valid() && f !in issued
      modifies this`rows, this`objects, this`issued, this`abandoned
      ensures Valid()
      ensures var admitted := ws in owners && (owners[ws] == actor || (ws, actor) in members)
                              && old(Usage(rows, ws, now)) + size <= BytesPerWorkspace(plans, ws)
                              && form == Form(true, true, true) && size <= BytesPerFile(plans, ws);
              && (r.Ok? <==> admitted && w.storageOk && w.databaseOk)
              && (!admitted ==> Snapshot() == old(Snapshot()))
              && (admitted ==> IsRun(old(Snapshot()), UploadEvents(ws, f, size, actor, w))
                               && Snapshot() == After(old(Snapshot()), UploadEvents(ws, f, size, actor, w)))
      ensures r.Ok? ==> r.value == f && f in objects && rows == old(rows)[f := File(ws, size, Some(actor), None)]
      ensures r.Err? ==> rows == old(rows)
    {
      var refusal := Admit(ws, form, size, actor);
      if refusal.Some? { return Err(refusal.value); }
      RunKeepsBoth(Snapshot(), UploadEvents(ws, f, size, actor, w)) by { UploadRun(Snapshot(), ws, f, size, actor, w); }
      r := Store(ws, f, size, actor, w);
    }

    /** Object first, row second; a failed row write takes the object back. */
    method Store(ws: WorkspaceId, f: FileId, size: nat, actor: UserId, w: Weather)
      returns (r: Result<FileId, FileError>)
      requires f !in issued && Usage(rows, ws, now) + size <= Limit(Snapshot(), ws)
      modifies this`rows, this`objects, this`issued, this`abandoned
      ensures r == if !w.storageOk then Err(StorageFailed) else if !w.databaseOk then Err(DatabaseFailed) else Ok(f)
      ensures rows == if r.Ok? then old(rows)[f := File(ws, size, Some(actor), None)] else old(rows)
      ensures r.Ok? ==> f in objects
      ensures IsRun(old(Snapshot()), UploadEvents(ws, f, size, actor, w))
      ensures Snapshot() == After(old(Snapshot()), UploadEvents(ws, f, size, actor, w))
    {
      UploadRun(Snapshot(), ws, f, size, actor, w);
      issued := issued + {f};
      if !w.storageOk {
        if w.failedYetDone { objects := objects + {f}; }
        abandoned := abandoned + {f};
        return Err(StorageFailed);
      }
      objects := objects + {f};
      if !w.databaseOk {
        if w.cleanupOk || w.failedYetDone { objects := objects - {f}; }
        if !w.cleanupOk { abandoned := abandoned + {f}; }
        return Err(DatabaseFailed);
      }
      rows := rows[f := File(ws, size, Some(actor), None)];
      return Ok(f);
    }

    method Remove(f: FileId, actor: UserId) returns (r: Result<FileId, FileError>)
      requires Valid()
      modifies this`rows
      ensures Valid()
      ensures r == if f !in old(rows) || old(rows)[f].deletedAt.Some? then Err(NotFound)
                   else if old(rows[f].uploader != Some(actor) && owners[rows[f].workspace] != actor)
                   then Err(Forbidden) else Ok(f)
      ensures r.Err? ==> rows == old(rows)
      ensures r.Ok? ==> rows == old(rows)[f := old(rows)[f].(deletedAt := Some(now))]
      ensures forall ws :: Usage(rows, ws, now) == old(Usage(rows, ws, now))
    {
      if f !in rows || rows[f].deletedAt.Some? { return Err(NotFound); }
      if !MayManage(f, actor) { return Err(Forbidden); }
      ghost var before := rows;
      Run1(Snapshot(), Trash(f));
      RunKeepsBoth(Snapshot(), [Trash(f)]);
      rows := rows[f := rows[f].(deletedAt := Some(now))];
      forall ws ensures Usage(rows, ws, now) == Usage(before, ws, now) {
        assert CountedFiles(rows, ws, now) == CountedFiles(before, ws, now);
      }
      return Ok(f);
    }

    /** A file comes back exactly inside its window; its bytes were counted all along. */
    method Restore(f: FileId, actor: UserId, w: Weather) returns (r: Result<FileId, FileError>)
      requires Valid()
      modifies this`rows
      ensures Valid()
      ensures r == if f !in old(rows) || old(rows)[f].deletedAt.None?
                      || old(rows)[f].deletedAt.value < now - 2592000000 then Err(NotFound)
                   else if old(rows[f].uploader != Some(actor) && owners[rows[f].workspace] != actor)
                   then Err(Forbidden)
                   else if !w.databaseOk then Err(DatabaseFailed) else Ok(f)
      ensures rows == if r.Ok? then old(rows)[f := old(rows)[f].(deletedAt := None)] else old(rows)
      ensures forall ws :: Usage(rows, ws, now) == old(Usage(rows, ws, now))
    {
      if f !in rows || rows[f].deletedAt.None? { return Err(NotFound); }
      if rows[f].deletedAt.value < now - TRASH_RETENTION_MS { return Err(NotFound); }
      if !MayManage(f, actor) { return Err(Forbidden); }
      ghost var before := rows;
      var ws := rows[f].workspace;
      var usage := GetWorkspaceUsage(ws);
      assert Usage(rows, ws, now) <= Limit(Snapshot(), ws);
      if usage > StorageLimit(if ws in plans then plans[ws] else FREE) { assert false; return Err(QuotaExceeded); }
      RestoreKeepsBoth(Snapshot(), f, w);
      if !w.databaseOk { return Err(DatabaseFailed); }
      rows := rows[f := rows[f].(deletedAt := None)];
      forall x ensures Usage(rows, x, now) == Usage(before, x, now) { ActivatedElsewhere(before, now, f, x); }
      return Ok(f);
    }

    /** The object goes first, then the row; whatever fails, no object outlives its row. */
    method Purge(f: FileId, actor: UserId, w: Weather) returns (r: Result<FileId, FileError>)
      requires Valid()
      modifies this`rows, this`objects
      ensures Valid()
      ensures r == if f !in old(rows) || old(rows)[f].deletedAt.None? then Err(NotFound)
                   else if old(rows[f].uploader != Some(actor) && owners[rows[f].workspace] != actor)
                   then Err(Forbidden)
                   else if !w.storageOk then Err(StorageFailed)
                   else if !w.databaseOk then Err(DatabaseFailed) else Ok(f)
      ensures rows == if r.Ok? then old(rows) - {f} else old(rows)
      ensures objects == if r.Ok? || r.error.DatabaseFailed? || (r.error.StorageFailed? && w.failedYetDone)
                         then old(objects) - {f} else old(objects)
      ensures r.Ok? || (r.Err? && r.error.DatabaseFailed?) ==> f !in objects
    {
      if f !in rows || rows[f].deletedAt.None? { return Err(NotFound); }
      if !MayManage(f, actor) { return Err(Forbidden); }
      PurgeRun(Snapshot(), f, w);
      RunKeepsBoth(Snapshot(), PurgeEvents(f, w));
      if !w.storageOk {
        if w.failedYetDone { objects := objects - {f}; }
        return Err(StorageFailed);
      }
      objects := objects - {f};
      if !w.databaseOk { return Err(DatabaseFailed); }
      rows := rows - {f};
      return Ok(f);
    }
  }

  lemma {:induction false} NoRestoreIsRoomy(s: State, es: seq<Event>)
    requires IsRun(s, es) && (forall p :: p in s.jobs ==> !s.jobs[p].Restore?)
    requires forall e :: e in es ==> !e.BeginRestore?
    ensures AllRoomy(s, es)
    decreases |es|
  {
    if es != [] { NoRestoreIsRoomy(Next(s, es[0]), es[1..]); }
  }

  lemma RunKeepsBoth(s: State, es: seq<Event>)
    requires QuotaInv(s) && ObjectsInv(s) && IsRun(s, es) && s.jobs == map[]
    requires forall e :: e in es ==> !e.BeginRestore?
    ensures QuotaInv(After(s, es)) && ObjectsInv(After(s, es))
  {
    ObjectsRun(s, es);
    NoRestoreIsRoomy(s, es);
    QuotaRun(s, es);
  }

  lemma RestoreKeepsBoth(s: State, f: FileId, w: Weather)
    requires QuotaInv(s) && ObjectsInv(s) && s.jobs == map[] && Enabled(s, BeginRestore(0, f))
    ensures IsRun(s, RestoreEvents(f, w))
    ensures After(s, RestoreEvents(f, w)) == s.(rows := if w.databaseOk then Activated(s.rows, f) else s.rows)
    ensures QuotaInv(After(s, RestoreEvents(f, w))) && ObjectsInv(After(s, RestoreEvents(f, w)))
  {
    assert WithinQuota(s);
    RestoreRun(s, f, w);
    ObjectsRun(s, RestoreEvents(f, w));
    var t := After(s, RestoreEvents(f, w));
    forall ws ensures Usage(t.rows, ws, t.now) <= Limit(t, ws) {
      ActivatedElsewhere(s.rows, s.now, f, ws);
      assert Usage(s.rows, ws, s.now) <= Limit(s, ws);
    }
  }
}
