/**
 Uploads, trash, restores, purges and sweeps of a workspace's files, over two stores
 that can each fail: the file rows and the stored objects. Requests interleave between
 their statements; a per-workspace advisory lock serialises the two transactions that
 check the storage quota. Object keys are derived from fresh file ids, so an id stands
 for its key.
 */
module FileLifecycle {
  import opened Wrappers

  type FileId = nat
  type WorkspaceId = nat
  type UserId = nat
  type JobId = nat

  const TRASH_RETENTION_MS := 30 * 24 * 60 * 60 * 1000
  const MB := 1024 * 1024
  const GB := 1024 * MB

  datatype Plan = FREE | PRO | BUSINESS

  function StorageLimit(plan: Plan): nat {
    match plan
    case FREE => 500 * MB
    case PRO => 10 * GB
    case BUSINESS => 50 * GB
  }

  function FileSizeLimit(plan: Plan): nat {
    match plan
    case FREE => 25 * MB
    case PRO => 100 * MB
    case BUSINESS => 500 * MB
  }

  /** The plans' limits in bytes; without a stored plan the free one's. */
  function BytesPerFile(plans: map<WorkspaceId, Plan>, ws: WorkspaceId): nat {
    if ws !in plans || plans[ws].FREE? then 26214400 else if plans[ws].PRO? then 104857600 else 524288000
  }

  function BytesPerWorkspace(plans: map<WorkspaceId, Plan>, ws: WorkspaceId): nat {
    if ws !in plans || plans[ws].FREE? then 524288000 else if plans[ws].PRO? then 10737418240 else 53687091200
  }

  datatype File = File(workspace: WorkspaceId, size: nat, uploader: Option<UserId>, deletedAt: Option<int>)

  /** Before its transaction; inside it, holding the lock; past the quota check, still
      holding the lock; after a failure, with its object left to delete. */
  datatype Phase = Outside | InLock | Cleared | Failing

  datatype Job =
    | Upload(workspace: WorkspaceId, file: FileId, size: nat, uploader: UserId, phase: Phase)
    | Restore(workspace: WorkspaceId, file: FileId, phase: Phase)
    | Removal(file: FileId, objectGone: bool)

  /** `issued` are the file ids ever drawn; `abandoned` those whose upload ended with
      storage reporting a failure: of the put, or of the compensating delete. */
  datatype State = State(
    rows: map<FileId, File>,
    objects: set<FileId>,
    now: int,
    jobs: map<JobId, Job>,
    issued: set<FileId>,
    abandoned: set<FileId>,
    plans: map<WorkspaceId, Plan>)

  function Limit(s: State, ws: WorkspaceId): nat {
    StorageLimit(if ws in s.plans then s.plans[ws] else FREE)
  }

  predicate Counts(f: File, now: int) {
    f.deletedAt.None? || f.deletedAt.value >= now - TRASH_RETENTION_MS
  }

  ghost function Total(m: map<FileId, nat>): nat
    decreases |m|
  {
    if m == map[] then 0
    else
      var k :| k in m;
      m[k] + Total(m - {k})
  }

  function CountedFiles(rows: map<FileId, File>, ws: WorkspaceId, now: int): map<FileId, nat> {
    map f | f in rows && rows[f].workspace == ws && Counts(rows[f], now) :: rows[f].size
  }

  /** Bytes of the workspace's active files and of those in trash inside the window. */
  ghost function Usage(rows: map<FileId, File>, ws: WorkspaceId, now: int): nat {
    Total(CountedFiles(rows, ws, now))
  }

  predicate HoldsLock(j: Job, ws: WorkspaceId) {
    (j.Upload? || j.Restore?) && j.workspace == ws && (j.phase.InLock? || j.phase.Cleared?)
  }

  predicate LockFree(s: State, ws: WorkspaceId) {
    forall q :: q in s.jobs ==> !HoldsLock(s.jobs[q], ws)
  }

  function Activated(rows: map<FileId, File>, f: FileId): map<FileId, File> {
    if f in rows then rows[f := rows[f].(deletedAt := None)] else rows
  }

  function NewRow(j: Job): File
    requires j.Upload?
  {
    File(j.workspace, j.size, Some(j.uploader), None)
  }

  datatype Event =
    | Tick(d: nat)
    | PutOk(p: JobId, ws: WorkspaceId, f: FileId, size: nat, uploader: UserId)
    | PutError(f: FileId, stored: bool)
    | BeginRestore(p: JobId, f: FileId)
    | AcquireLock(p: JobId)
    | CheckQuota(p: JobId)
    | Commit(p: JobId)
    | TxFails(p: JobId, committed: bool)
    | Compensate(p: JobId, ok: bool, gone: bool)
    | Trash(f: FileId)
    | BeginRemoval(p: JobId, f: FileId)
    | DeleteObject(p: JobId, ok: bool, gone: bool)
    | DeleteRow(p: JobId)
    | Abort(p: JobId)

  predicate InTransaction(s: State, p: JobId) {
    p in s.jobs && (s.jobs[p].Upload? || s.jobs[p].Restore?)
  }

  predicate Enabled(s: State, e: Event) {
    match e
    case Tick(_) => true
    case PutOk(p, _, f, _, _) => p !in s.jobs && f !in s.issued
    case PutError(f, _) => f !in s.issued
    case BeginRestore(p, f) => p !in s.jobs && f in s.rows && s.rows[f].deletedAt.Some? && Counts(s.rows[f], s.now)
    case AcquireLock(p) => InTransaction(s, p) && s.jobs[p].phase.Outside? && LockFree(s, s.jobs[p].workspace)
    case CheckQuota(p) => InTransaction(s, p) && s.jobs[p].phase.InLock?
    case Commit(p) => InTransaction(s, p) && s.jobs[p].phase.Cleared?
    case TxFails(p, committed) =>
      InTransaction(s, p) && !s.jobs[p].phase.Failing? && (committed ==> s.jobs[p].phase.Cleared?)
    case Compensate(p, ok, gone) =>
      InTransaction(s, p) && s.jobs[p].Upload? && s.jobs[p].phase.Failing? && (ok ==> gone)
    case Trash(f) => f in s.rows && s.rows[f].deletedAt.None?
    case BeginRemoval(p, f) => p !in s.jobs && f in s.rows && s.rows[f].deletedAt.Some?
    case DeleteObject(p, ok, gone) => p in s.jobs && s.jobs[p].Removal? && !s.jobs[p].objectGone && (ok ==> gone)
    case DeleteRow(p) => p in s.jobs && s.jobs[p].Removal? && s.jobs[p].objectGone
    case Abort(p) => p in s.jobs && (s.jobs[p].Removal? || s.jobs[p].Restore?)
  }

  function AtPhase(s: State, p: JobId, phase: Phase): State
    requires InTransaction(s, p)
  {
    s.(jobs := s.jobs[p := s.jobs[p].(phase := phase)])
  }

  function Ended(s: State, p: JobId): State {
    s.(jobs := s.jobs - {p})
  }

  /** What a transaction writes. */
  function Written(s: State, j: Job): map<FileId, File>
    requires j.Upload? || j.Restore?
  {
    if j.Upload? then s.rows[j.file := NewRow(j)] else Activated(s.rows, j.file)
  }

  ghost predicate QuotaAllows(s: State, j: Job)
    requires j.Upload? || j.Restore?
  {
    Usage(s.rows, j.workspace, s.now) + (if j.Upload? then j.size else 0) <= Limit(s, j.workspace)
  }

  ghost function Next(s: State, e: Event): State
    requires Enabled(s, e)
  {
    match e
    case Tick(d) => s.(now := s.now + d)
    case PutOk(p, ws, f, size, uploader) =>
      s.(jobs := s.jobs[p := Upload(ws, f, size, uploader, Outside)],
         objects := s.objects + {f}, issued := s.issued + {f})
    case PutError(f, stored) =>
      s.(objects := if stored then s.objects + {f} else s.objects,
         issued := s.issued + {f}, abandoned := s.abandoned + {f})
    case BeginRestore(p, f) => s.(jobs := s.jobs[p := Restore(s.rows[f].workspace, f, Outside)])
    case AcquireLock(p) => AtPhase(s, p, InLock)
    case CheckQuota(p) =>
      if QuotaAllows(s, s.jobs[p]) then AtPhase(s, p, Cleared)
      else if s.jobs[p].Upload? then AtPhase(s, p, Failing)
      else Ended(s, p)
    case Commit(p) => Ended(s, p).(rows := Written(s, s.jobs[p]))
    case TxFails(p, committed) =>
      var t := if s.jobs[p].Upload? then AtPhase(s, p, Failing) else Ended(s, p);
      if committed then t.(rows := Written(s, s.jobs[p])) else t
    case Compensate(p, ok, gone) =>
      var f := s.jobs[p].file;
      Ended(s, p).(objects := if gone then s.objects - {f} else s.objects,
                   abandoned := if ok then s.abandoned else s.abandoned + {f})
    case Trash(f) => s.(rows := s.rows[f := s.rows[f].(deletedAt := Some(s.now))])
    case BeginRemoval(p, f) => s.(jobs := s.jobs[p := Removal(f, false)])
    case DeleteObject(p, ok, gone) =>
      var f := s.jobs[p].file;
      var t := if ok then s.(jobs := s.jobs[p := Removal(f, true)]) else Ended(s, p);
      t.(objects := if gone then s.objects - {f} else s.objects)
    case DeleteRow(p) => Ended(s, p).(rows := s.rows - {s.jobs[p].file})
    case Abort(p) => Ended(s, p)
  }

  ghost predicate IsRun(s: State, es: seq<Event>)
    decreases |es|
  {
    es != [] ==> Enabled(s, es[0]) && IsRun(Next(s, es[0]), es[1..])
  }

  ghost function After(s: State, es: seq<Event>): State
    requires IsRun(s, es)
    decreases |es|
  {
    if es == [] then s else After(Next(s, es[0]), es[1..])
  }

  lemma RunCons(s: State, e: Event, es: seq<Event>)
    requires Enabled(s, e) && IsRun(Next(s, e), es)
    ensures IsRun(s, [e] + es) && After(s, [e] + es) == After(Next(s, e), es)
  {
    assert ([e] + es)[1..] == es;
  }

  // ---- Sums ----

  lemma {:induction false} TotalRemove(m: map<FileId, nat>, k: FileId)
    requires k in m
    ensures Total(m) == m[k] + Total(m - {k})
    decreases |m|
  {
    var x :| x in m && Total(m) == m[x] + Total(m - {x});
    if x != k {
      var rest := m - {x};
      assert rest.Keys == m.Keys - {x};
      TotalRemove(rest, k);
      assert m - {k} - {x} == rest - {k};
      assert (m - {k}).Keys == m.Keys - {k};
      TotalRemove(m - {k}, x);
    }
  }

  lemma {:induction false} TotalSubmap(m: map<FileId, nat>, n: map<FileId, nat>)
    requires m.Keys <= n.Keys && forall k :: k in m ==> m[k] == n[k]
    ensures Total(m) <= Total(n)
    decreases |n|
  {
    if n != map[] {
      var k :| k in n;
      TotalRemove(n, k);
      assert (n - {k}).Keys == n.Keys - {k};
      if k in m {
        TotalRemove(m, k);
        TotalSubmap(m - {k}, n - {k});
      } else {
        TotalSubmap(m, n - {k});
      }
    }
  }

  /** What usage is: the sizes of the workspace's rows that are active, or were trashed at
      most thirty days ago. */
  lemma UsageByRow(rows: map<FileId, File>, ws: WorkspaceId, now: int, f: FileId)
    ensures Usage(map[], ws, now) == 0
    ensures f in rows ==>
              var counted := rows[f].workspace == ws
                             && (rows[f].deletedAt.None? || now - rows[f].deletedAt.value <= 2592000000);
              Usage(rows, ws, now) == Usage(rows - {f}, ws, now) + (if counted then rows[f].size else 0)
  {
    var nothing: map<FileId, File> := map[];
    assert CountedFiles(nothing, ws, now) == map[];
    if f in rows {
      var all, rest := CountedFiles(rows, ws, now), CountedFiles(rows - {f}, ws, now);
      assert rest == all - {f};
      if f in all { TotalRemove(all, f); } else { assert rest == all; }
    }
  }

  /** Nothing is counted that was not counted before. */
  ghost predicate NoGrowth(rows: map<FileId, File>, now: int, rows': map<FileId, File>, now': int) {
    forall f :: f in rows' ==>
      f in rows && rows'[f].workspace == rows[f].workspace && rows'[f].size == rows[f].size
      && (Counts(rows'[f], now') ==> Counts(rows[f], now))
  }

  lemma UsageShrinks(rows: map<FileId, File>, now: int, rows': map<FileId, File>, now': int, ws: WorkspaceId)
    requires NoGrowth(rows, now, rows', now')
    ensures Usage(rows', ws, now') <= Usage(rows, ws, now)
  {
    TotalSubmap(CountedFiles(rows', ws, now'), CountedFiles(rows, ws, now));
  }

  lemma UsageAdds(rows: map<FileId, File>, now: int, f: FileId, row: File, ws: WorkspaceId)
    requires f !in rows && Counts(row, now)
    ensures Usage(rows[f := row], ws, now) == Usage(rows, ws, now) + (if row.workspace == ws then row.size else 0)
  {
    var m, n := CountedFiles(rows, ws, now), CountedFiles(rows[f := row], ws, now);
    if row.workspace == ws {
      assert n - {f} == m;
      TotalRemove(n, f);
    } else {
      assert n == m;
    }
  }

  lemma ActivatedElsewhere(rows: map<FileId, File>, now: int, f: FileId, ws: WorkspaceId)
    requires f in rows ==> rows[f].workspace != ws || Counts(rows[f], now)
    ensures Usage(Activated(rows, f), ws, now) == Usage(rows, ws, now)
  {
    assert CountedFiles(Activated(rows, f), ws, now) == CountedFiles(rows, ws, now);
  }

  lemma ActivatedUncounted(rows: map<FileId, File>, now: int, f: FileId)
    requires f in rows && !Counts(rows[f], now)
    ensures Usage(Activated(rows, f), rows[f].workspace, now) == Usage(rows, rows[f].workspace, now) + rows[f].size
  {
    var ws := rows[f].workspace;
    var n := CountedFiles(Activated(rows, f), ws, now);
    assert n - {f} == CountedFiles(rows, ws, now);
    TotalRemove(n, f);
  }

  // ---- The quota ----

  /** With the lock held and the check passed, what the transaction will write fits. */
  ghost predicate WriteFits(s: State, j: Job)
    requires j.Upload? || j.Restore?
  {
    Usage(Written(s, j), j.workspace, s.now) <= Limit(s, j.workspace)
  }

  ghost predicate JobInv(s: State, p: JobId)
    requires p in s.jobs
  {
    var j := s.jobs[p];
    && j.file in s.issued
    && (j.Upload? && !j.phase.Failing? ==> j.file !in s.rows)
    && (j.Restore? && j.file in s.rows ==> s.rows[j.file].workspace == j.workspace)
    && ((j.Upload? || j.Restore?) && j.phase.Cleared? ==> WriteFits(s, j))
  }

  ghost predicate Separate(s: State, p: JobId, q: JobId)
    requires p in s.jobs && q in s.jobs
  {
    && (forall ws :: HoldsLock(s.jobs[p], ws) ==> !HoldsLock(s.jobs[q], ws))
    && (s.jobs[p].Upload? && (s.jobs[q].Upload? || !s.jobs[p].phase.Failing?) ==> s.jobs[p].file != s.jobs[q].file)
  }

  ghost predicate WithinQuota(s: State) {
    forall ws :: Usage(s.rows, ws, s.now) <= Limit(s, ws)
  }

  ghost predicate QuotaInv(s: State) {
    && s.rows.Keys <= s.issued
    && (forall p :: p in s.jobs ==> JobInv(s, p))
    && (forall p, q :: p in s.jobs && q in s.jobs && p != q ==> Separate(s, p, q))
    && WithinQuota(s)
  }

  /** When a restore checks the quota, its row is still in the sum, or fits beside it. */
  ghost predicate Roomy(s: State, e: Event) {
    e.CheckQuota? && e.p in s.jobs && s.jobs[e.p].Restore? && s.jobs[e.p].file in s.rows ==>
      var j := s.jobs[e.p];
      Counts(s.rows[j.file], s.now) || Usage(s.rows, j.workspace, s.now) + s.rows[j.file].size <= Limit(s, j.workspace)
  }

  ghost predicate AllRoomy(s: State, es: seq<Event>)
    requires IsRun(s, es)
    decreases |es|
  {
    es != [] ==> Roomy(s, es[0]) && AllRoomy(Next(s, es[0]), es[1..])
  }

  lemma FitsPersists(s: State, t: State, j: Job)
    requires j.Upload? || j.Restore?
    requires NoGrowth(s.rows, s.now, t.rows, t.now) && t.plans == s.plans
    requires WriteFits(s, j) && (j.Upload? ==> j.file !in s.rows)
    ensures WriteFits(t, j)
  {
    if j.Restore? && j.file !in t.rows {
      var rows' := Activated(s.rows, j.file);
      UsageShrinks(rows', s.now, t.rows, t.now, j.workspace);
    } else {
      assert NoGrowth(Written(s, j), s.now, Written(t, j), t.now);
      UsageShrinks(Written(s, j), s.now, Written(t, j), t.now, j.workspace);
    }
  }

  /** Steps that add no counted bytes and start or advance no transaction. */
  lemma ShrinkKeeps(s: State, t: State)
    requires QuotaInv(s) && NoGrowth(s.rows, s.now, t.rows, t.now) && t.plans == s.plans
    requires s.issued <= t.issued
    requires t.jobs.Keys <= s.jobs.Keys && forall p :: p in t.jobs ==>
      t.jobs[p] == s.jobs[p] || (s.jobs[p].Removal? && t.jobs[p].Removal? && t.jobs[p].file == s.jobs[p].file)
    ensures QuotaInv(t)
  {
    forall ws ensures Usage(t.rows, ws, t.now) <= Limit(t, ws) {
      UsageShrinks(s.rows, s.now, t.rows, t.now, ws);
      assert Usage(s.rows, ws, s.now) <= Limit(s, ws);
    }
    forall p | p in t.jobs ensures JobInv(t, p) {
      assert JobInv(s, p);
      var j := t.jobs[p];
      if (j.Upload? || j.Restore?) && j.phase.Cleared? { FitsPersists(s, t, j); }
    }
    forall p, q | p in t.jobs && q in t.jobs && p != q ensures Separate(t, p, q) {
      assert Separate(s, p, q);
    }
  }

  lemma StartKeeps(s: State, t: State, p: JobId)
    requires QuotaInv(s) && p !in s.jobs && p in t.jobs && t.jobs == s.jobs[p := t.jobs[p]]
    requires t.rows == s.rows && t.now == s.now && t.plans == s.plans && s.issued <= t.issued
    requires var j := t.jobs[p]; j.file in t.issued && (j.Removal? || j.phase.Outside?)
    requires var j := t.jobs[p]; if j.Upload? then j.file !in s.issued else j.file in s.rows
    requires var j := t.jobs[p]; j.Restore? && j.file in s.rows ==> s.rows[j.file].workspace == j.workspace
    ensures QuotaInv(t)
  {
    forall q | q in t.jobs ensures JobInv(t, q) {
      if q != p { assert JobInv(s, q); }
    }
    forall q, r | q in t.jobs && r in t.jobs && q != r ensures Separate(t, q, r) {
      if q != p && r != p {
        assert Separate(s, q, r);
      } else {
        assert q != p ==> JobInv(s, q);
        assert r != p ==> JobInv(s, r);
      }
    }
    assert forall ws :: Usage(s.rows, ws, s.now) <= Limit(s, ws) ==> Usage(t.rows, ws, t.now) <= Limit(t, ws);
  }

  lemma PhaseKeeps(s: State, p: JobId, phase: Phase)
    requires QuotaInv(s) && InTransaction(s, p) && !phase.Outside?
    requires phase.InLock? ==> s.jobs[p].phase.Outside? && LockFree(s, s.jobs[p].workspace)
    requires phase.Cleared? ==> s.jobs[p].phase.InLock? && WriteFits(s, s.jobs[p])
    ensures QuotaInv(AtPhase(s, p, phase))
  {
    var t := AtPhase(s, p, phase);
    forall q | q in t.jobs ensures JobInv(t, q) {
      assert JobInv(s, q);
      assert phase.Cleared? && q == p ==> Written(t, t.jobs[p]) == Written(s, s.jobs[p]);
    }
    forall q, r | q in t.jobs && r in t.jobs && q != r ensures Separate(t, q, r) {
      assert Separate(s, q, r);
    }
    assert forall ws :: Usage(s.rows, ws, s.now) <= Limit(s, ws) ==> Usage(t.rows, ws, t.now) <= Limit(t, ws);
  }

  /** What a passed check promises; for a restore only when there is room. */
  lemma CheckClears(s: State, p: JobId)
    requires QuotaInv(s) && Enabled(s, CheckQuota(p)) && Roomy(s, CheckQuota(p)) && QuotaAllows(s, s.jobs[p])
    ensures WriteFits(s, s.jobs[p])
  {
    var j := s.jobs[p];
    assert JobInv(s, p);
    if j.Upload? {
      UsageAdds(s.rows, s.now, j.file, NewRow(j), j.workspace);
    } else if j.file in s.rows && !Counts(s.rows[j.file], s.now) {
      ActivatedUncounted(s.rows, s.now, j.file);
    } else {
      ActivatedElsewhere(s.rows, s.now, j.file, j.workspace);
    }
  }

  ghost predicate AgreeOn(rows: map<FileId, File>, rows': map<FileId, File>, ws: WorkspaceId) {
    forall f :: (f in rows && rows[f].workspace == ws) || (f in rows' && rows'[f].workspace == ws) ==>
      f in rows && f in rows' && rows[f] == rows'[f]
  }

  lemma AgreeSameUsage(rows: map<FileId, File>, rows': map<FileId, File>, ws: WorkspaceId, now: int)
    requires AgreeOn(rows, rows', ws)
    ensures Usage(rows, ws, now) == Usage(rows', ws, now)
  {
    assert CountedFiles(rows, ws, now) == CountedFiles(rows', ws, now);
  }

  /** A write leaves every other workspace's rows alone, also as another transaction
      would write them. */
  lemma WriteIsLocal(s: State, p: JobId, q: JobId, ws: WorkspaceId)
    requires QuotaInv(s) && InTransaction(s, p) && s.jobs[p].phase.Cleared? && s.jobs[p].workspace != ws
    ensures AgreeOn(s.rows, Written(s, s.jobs[p]), ws)
    ensures p != q && InTransaction(s, q) && s.jobs[q].phase.Cleared? && s.jobs[q].workspace == ws ==>
              AgreeOn(Written(s, s.jobs[q]), Written(s.(rows := Written(s, s.jobs[p])), s.jobs[q]), ws)
  {
    assert JobInv(s, p);
    if p != q && q in s.jobs { assert JobInv(s, q) && Separate(s, p, q); }
  }

  lemma WriteKeeps(s: State, p: JobId, t: State)
    requires QuotaInv(s) && InTransaction(s, p) && s.jobs[p].phase.Cleared?
    requires t == s.(rows := Written(s, s.jobs[p]), jobs := t.jobs)
    requires t.jobs == s.jobs - {p} || (s.jobs[p].Upload? && t.jobs == AtPhase(s, p, Failing).jobs)
    ensures QuotaInv(t)
  {
    assert JobInv(s, p);
    forall ws ensures Usage(t.rows, ws, t.now) <= Limit(t, ws) {
      assert Usage(s.rows, ws, s.now) <= Limit(s, ws);
      if ws != s.jobs[p].workspace {
        WriteIsLocal(s, p, p, ws);
        AgreeSameUsage(s.rows, t.rows, ws, s.now);
      }
    }
    forall q | q in t.jobs ensures JobInv(t, q) {
      assert JobInv(s, q);
      if q != p {
        assert Separate(s, p, q);
        if InTransaction(s, q) && s.jobs[q].phase.Cleared? {
          var ws := s.jobs[q].workspace;
          assert HoldsLock(s.jobs[p], s.jobs[p].workspace) && HoldsLock(s.jobs[q], ws);
          WriteIsLocal(s, p, q, ws);
          AgreeSameUsage(Written(s, s.jobs[q]), Written(t, s.jobs[q]), ws, s.now);
        }
      }
    }
    forall q, r | q in t.jobs && r in t.jobs && q != r ensures Separate(t, q, r) {
      assert Separate(s, q, r);
    }
  }

  lemma QuotaStep(s: State, e: Event)
    requires QuotaInv(s) && Enabled(s, e) && Roomy(s, e)
    ensures QuotaInv(Next(s, e))
  {
    var t := Next(s, e);
    match e {
      case PutOk(p, _, _, _, _) => StartKeeps(s, t, p);
      case BeginRestore(p, _) => StartKeeps(s, t, p);
      case BeginRemoval(p, _) => StartKeeps(s, t, p);
      case AcquireLock(p) => PhaseKeeps(s, p, InLock);
      case CheckQuota(p) =>
        if QuotaAllows(s, s.jobs[p]) { CheckClears(s, p); PhaseKeeps(s, p, Cleared); }
        else if s.jobs[p].Upload? { PhaseKeeps(s, p, Failing); }
        else { ShrinkKeeps(s, t); }
      case Commit(p) => WriteKeeps(s, p, t);
      case TxFails(p, committed) =>
        if committed { WriteKeeps(s, p, t); }
        else if s.jobs[p].Upload? { PhaseKeeps(s, p, Failing); }
        else { ShrinkKeeps(s, t); }
      case _ => ShrinkKeeps(s, t);
    }
  }

  lemma {:induction false} QuotaRun(s: State, es: seq<Event>)
    requires QuotaInv(s) && IsRun(s, es) && AllRoomy(s, es)
    ensures QuotaInv(After(s, es)) && After(s, es).plans == s.plans
    decreases |es|
  {
    if es != [] {
      QuotaStep(s, es[0]);
      QuotaRun(Next(s, es[0]), es[1..]);
    }
  }

  function Fresh(now: int, plans: map<WorkspaceId, Plan>): State {
    State(map[], {}, now, map[], {}, {}, plans)
  }

  /** For every interleaving of uploads, restores, removals, purges, sweeps, failures
      and clock ticks, no workspace's counted bytes exceed its owner's limit, as long as
      each restore's row is, when its check runs under the lock, still counted or fits
      beside what is. Uploads start here without any check of their own: the one under
      the lock is enough. */
  lemma QuotaHolds(now: int, plans: map<WorkspaceId, Plan>, es: seq<Event>, ws: WorkspaceId)
    requires IsRun(Fresh(now, plans), es) && AllRoomy(Fresh(now, plans), es)
    ensures var s := After(Fresh(now, plans), es); Usage(s.rows, ws, s.now) <= BytesPerWorkspace(plans, ws)
  {
    QuotaRun(Fresh(now, plans), es);
    assert WithinQuota(After(Fresh(now, plans), es));
  }

  // ---- When a restore breaks the quota ----

  /** A restore that passes its check and commits at once keeps the quota exactly when
      its row was still in the sum, or there was room for the row besides the sum. */
  lemma RestoreKeepsQuotaIff(s: State, p: JobId)
    requires QuotaInv(s) && Enabled(s, CheckQuota(p)) && s.jobs[p].Restore? && s.jobs[p].file in s.rows
    requires QuotaAllows(s, s.jobs[p])
    ensures var j := s.jobs[p]; var t := Next(Next(s, CheckQuota(p)), Commit(p));
      Usage(t.rows, j.workspace, t.now) <= Limit(t, j.workspace) <==>
      Counts(s.rows[j.file], s.now) || Usage(s.rows, j.workspace, s.now) + s.rows[j.file].size <= Limit(s, j.workspace)
  {
    var j := s.jobs[p];
    assert JobInv(s, p);
    var t := Next(Next(s, CheckQuota(p)), Commit(p));
    assert t.rows == Activated(s.rows, j.file);
    if Counts(s.rows[j.file], s.now) {
      ActivatedElsewhere(s.rows, s.now, j.file, j.workspace);
    } else {
      ActivatedUncounted(s.rows, s.now, j.file);
    }
  }

  /** A restore whose row left the window on the way to its check still has room, unless
      other bytes came to be counted meanwhile. */
  lemma LateButRoomy(s: State, f: FileId, t: State, p: JobId)
    requires Enabled(s, BeginRestore(p, f))
    requires Usage(s.rows, s.rows[f].workspace, s.now) <= Limit(s, s.rows[f].workspace)
    requires t.plans == s.plans && p in t.jobs && t.jobs[p].Restore? && t.jobs[p].file == f
    requires t.jobs[p].workspace == s.rows[f].workspace
    requires NoGrowth(s.rows, s.now, t.rows, t.now)
    ensures Roomy(t, CheckQuota(p))
  {
    if f in t.rows && !Counts(t.rows[f], t.now) {
      var ws := s.rows[f].workspace;
      ActivatedUncounted(t.rows, t.now, f);
      assert NoGrowth(s.rows, s.now, Activated(t.rows, f), t.now);
      UsageShrinks(s.rows, s.now, Activated(t.rows, f), t.now, ws);
    }
  }

  // ---- Objects and rows ----

  ghost predicate Uploading(s: State, f: FileId) {
    exists p :: p in s.jobs && s.jobs[p].Upload? && s.jobs[p].file == f
  }

  ghost predicate Accounted(s: State, f: FileId) {
    f in s.rows || Uploading(s, f) || f in s.abandoned
  }

  ghost predicate ObjectsInv(s: State) {
    && s.objects <= s.issued && s.rows.Keys <= s.issued
    && (forall p :: p in s.jobs ==> s.jobs[p].file in s.issued)
    && (forall p :: p in s.jobs && s.jobs[p].Removal? && s.jobs[p].objectGone ==> s.jobs[p].file !in s.objects)
    && (forall f :: f in s.objects ==> Accounted(s, f))
  }

  lemma ObjectsStep(s: State, e: Event)
    requires ObjectsInv(s) && Enabled(s, e)
    ensures ObjectsInv(Next(s, e))
  {
    var t := Next(s, e);
    forall f | f in t.objects ensures Accounted(t, f) {
      if f in s.objects {
        assert Accounted(s, f);
        if f !in s.rows && f !in s.abandoned {
          var p :| p in s.jobs && s.jobs[p].Upload? && s.jobs[p].file == f;
          assert (p in t.jobs && t.jobs[p].Upload? && t.jobs[p].file == f) || f in t.rows || f in t.abandoned;
        }
      } else if e.PutOk? {
        assert t.jobs[e.p].Upload? && t.jobs[e.p].file == f;
      }
    }
  }

  /** The file an event gives up on, because storage reported a failure. */
  function Abandons(s: State, e: Event): set<FileId> {
    match e
    case PutError(f, _) => {f}
    case Compensate(p, ok, _) => if ok || p !in s.jobs then {} else {s.jobs[p].file}
    case _ => {}
  }

  ghost function AllAbandoned(s: State, es: seq<Event>): set<FileId>
    requires IsRun(s, es)
    decreases |es|
  {
    if es == [] then {} else Abandons(s, es[0]) + AllAbandoned(Next(s, es[0]), es[1..])
  }

  lemma {:induction false} ObjectsRun(s: State, es: seq<Event>)
    requires ObjectsInv(s) && IsRun(s, es)
    ensures ObjectsInv(After(s, es))
    ensures After(s, es).abandoned == s.abandoned + AllAbandoned(s, es)
    decreases |es|
  {
    if es != [] {
      ObjectsStep(s, es[0]);
      ObjectsRun(Next(s, es[0]), es[1..]);
    }
  }

  /** Under arbitrary storage and database failures, every stored object belongs to a
      file row, to an upload still in flight, or to an upload for which storage itself
      reported a failure: of the put, or of the compensating delete. */
  lemma NoObjectIsLost(now: int, plans: map<WorkspaceId, Plan>, es: seq<Event>, f: FileId)
    requires IsRun(Fresh(now, plans), es)
    ensures var s := After(Fresh(now, plans), es);
      f in s.objects ==> f in s.rows || Uploading(s, f) || f in AllAbandoned(Fresh(now, plans), es)
  {
    ObjectsRun(Fresh(now, plans), es);
    assert f in After(Fresh(now, plans), es).objects ==> Accounted(After(Fresh(now, plans), es), f);
  }

  /** A purge or sweep removes a row only once its object is gone, and no later step
      brings the object back. */
  lemma {:induction false} RemovedRowsLeaveNoObject(s: State, es: seq<Event>, p: JobId)
    requires ObjectsInv(s) && Enabled(s, DeleteRow(p)) && IsRun(Next(s, DeleteRow(p)), es)
    ensures s.jobs[p].file !in After(Next(s, DeleteRow(p)), es).objects
  {
    ObjectsStep(s, DeleteRow(p));
    GoneStaysGone(Next(s, DeleteRow(p)), es, s.jobs[p].file);
  }

  lemma {:induction false} GoneStaysGone(s: State, es: seq<Event>, f: FileId)
    requires IsRun(s, es) && f in s.issued && f !in s.objects
    ensures f !in After(s, es).objects
    decreases |es|
  {
    if es != [] { GoneStaysGone(Next(s, es[0]), es[1..], f); }
  }
}
