/**
 What concurrent attempts do to the lockout of module Lockout: passwords evaluated while
 a lock is in force, how many, and exactly when; and a run that spends the whole guess
 rate.
 */
module LockRaces {
  import opened Wrappers
  import opened Lockout

  // ---- Appending to a run ----

  ghost predicate Reaches(s: State, es: seq<Event>, k: nat, t: State) {
    IsRun(s, es) && AtMostInFlight(s, es, k) && After(s, es) == t
  }

  lemma {:induction false} Append(s: State, es: seq<Event>, k: nat, t: State, e: Event)
    requires Reaches(s, es, k, t) && Enabled(t, e) && |Next(t, e).requests| <= k
    ensures Reaches(s, es + [e], k, Next(t, e))
    decreases |es|
  {
    if es == [] {
      assert es + [e] == [e] && [e][1..] == [];
      assert IsRun(t, [e]) && After(t, [e]) == After(Next(t, e), [e][1..]);
    } else {
      Append(Next(s, es[0]), es[1..], k, t, e);
      assert (es + [e])[1..] == es[1..] + [e];
    }
  }

  // ---- Passwords evaluated under a lock ----

  predicate Evaluates(e: Event) {
    e.Wrong? || e.Right?
  }

  /** The step clears counter and lock. */
  predicate Resets(s: State, e: Event) {
    e.Right? && e.active && e.p in s.requests && s.requests[e.p].Passed?
    && (s.requests[e.p].sawAttempts > 0 || s.requests[e.p].sawLock.Some?)
  }

  /** A lock with `left` milliseconds to go outlasts the run: no reset, and not that
      much time. */
  predicate Outlasts(s: State, es: seq<Event>, left: int)
    requires IsRun(s, es)
    decreases |es|
  {
    && left > 0
    && (es != [] ==>
          !Resets(s, es[0]) && Outlasts(Next(s, es[0]), es[1..], if es[0].Tick? then left - es[0].d else left))
  }

  /** The run writes a lock that is followed neither by a reset nor by its fifteen minutes. */
  predicate LeavesLock(s: State, es: seq<Event>)
    requires IsRun(s, es)
    decreases |es|
  {
    es != [] &&
    ( || (es[0].Lock? && Outlasts(Next(s, es[0]), es[1..], LOCKOUT_DURATION_MS))
      || LeavesLock(Next(s, es[0]), es[1..]))
  }

  predicate StillLocked(s: State, es: seq<Event>)
    requires IsRun(s, es)
  {
    s.lockedUntil.Some? && Outlasts(s, es, s.lockedUntil.value - s.now)
  }

  lemma {:induction false} LongerOutlasts(s: State, es: seq<Event>, left: int, longer: int)
    requires IsRun(s, es) && left <= longer && Outlasts(s, es, left)
    ensures Outlasts(s, es, longer)
    decreases |es|
  {
    if es != [] {
      var d := if es[0].Tick? then es[0].d else 0;
      LongerOutlasts(Next(s, es[0]), es[1..], left - d, longer - d);
    }
  }

  /** No lock runs longer than a new one. */
  predicate LockIsShort(s: State) {
    s.lockedUntil.Some? ==> s.lockedUntil.value - s.now <= LOCKOUT_DURATION_MS
  }

  lemma {:induction false} LockAfterRun(s: State, es: seq<Event>)
    requires IsRun(s, es) && LockIsShort(s)
    ensures LockInForce(After(s, es)) <==> LeavesLock(s, es) || StillLocked(s, es)
    decreases |es|
  {
    if es != [] {
      var t := Next(s, es[0]);
      LockAfterRun(t, es[1..]);
      if es[0].Lock? && StillLocked(s, es) {
        LongerOutlasts(t, es[1..], s.lockedUntil.value - s.now, LOCKOUT_DURATION_MS);
      }
    }
  }

  /** An attempt that looked evaluates its password under a lock if and only if, since it
      looked, some attempt wrote a lock that neither a reset nor the end of its fifteen
      minutes followed. */
  lemma EvaluatedUnderLockIff(s: State, p: RequestId, es: seq<Event>, e: Event)
    requires Enabled(s, Look(p)) && IsRun(Next(s, Look(p)), es)
    requires Evaluates(e) && e.p == p && Enabled(After(Next(s, Look(p)), es), e)
    ensures LockInForce(After(Next(s, Look(p)), es)) <==> LeavesLock(Next(s, Look(p)), es)
  {
    LockAfterRun(Next(s, Look(p)), es);
  }

  predicate UnderLock(s: State, es: seq<Event>)
    requires IsRun(s, es)
    decreases |es|
  {
    LockInForce(s) && (es != [] ==> UnderLock(Next(s, es[0]), es[1..]))
  }

  function Evaluations(es: seq<Event>): nat {
    if es == [] then 0 else (if Evaluates(es[0]) then 1 else 0) + Evaluations(es[1..])
  }

  function Waiting(s: State): set<RequestId> {
    set p | p in s.requests && s.requests[p].Passed?
  }

  lemma WaitingShrinks(s: State, e: Event)
    requires Enabled(s, e) && LockInForce(s)
    ensures |Waiting(Next(s, e))| + (if Evaluates(e) then 1 else 0) <= |Waiting(s)|
  {
    if Evaluates(e) {
      assert Waiting(Next(s, e)) == Waiting(s) - {e.p};
    } else {
      SubsetCardinality(Waiting(Next(s, e)), Waiting(s));
    }
  }

  lemma {:induction false} EvaluationsWereWaiting(s: State, es: seq<Event>)
    requires IsRun(s, es) && UnderLock(s, es)
    ensures Evaluations(es) <= |Waiting(s)|
    decreases |es|
  {
    if es != [] {
      WaitingShrinks(s, es[0]);
      EvaluationsWereWaiting(Next(s, es[0]), es[1..]);
    }
  }

  /** A lock written with at most k attempts in flight lets at most k - 1 more passwords
      through while it holds. */
  lemma FewUnderOneLock(s: State, p: RequestId, es: seq<Event>, k: nat)
    requires Enabled(s, Lock(p)) && |s.requests| <= k
    requires IsRun(Next(s, Lock(p)), es) && UnderLock(Next(s, Lock(p)), es)
    ensures Evaluations(es) <= k - 1
  {
    EvaluationsWereWaiting(Next(s, Lock(p)), es);
    SubsetCardinality(Waiting(Next(s, Lock(p))), s.requests.Keys - {p});
    assert |s.requests.Keys - {p}| == |s.requests.Keys| - 1;
  }

  /** Four misses, and of two attempts that then look before either answers the first
      locks: the second is evaluated under that lock. */
  lemma EvaluatedUnderLock(s: State) returns (es: seq<Event>)
    requires Fresh(s)
    ensures IsRun(s, es) && AtMostInFlight(s, es, 2)
    ensures Enabled(After(s, es), Wrong(1)) && LockInForce(After(s, es))
  {
    var t: State;
    es, t := FourMisses(s, 2);
    Append(s, es, 2, t, Look(0));
    es, t := es + [Look(0)], Next(t, Look(0));
    Append(s, es, 2, t, Look(1));
    es, t := es + [Look(1)], Next(t, Look(1));
    Append(s, es, 2, t, Wrong(0));
    es, t := es + [Wrong(0)], Next(t, Wrong(0));
    Append(s, es, 2, t, Lock(0));
    es, t := es + [Lock(0)], Next(t, Lock(0));
  }

  // ---- The rate bound is reached ----

  /** All misses so far, the first at `start`. */
  ghost predicate Spent(t: State, n: nat, start: int) {
    && t.failedAttempts == |t.wrong| == n
    && (n > 0 ==> t.wrong[0] == start)
  }

  ghost predicate Idle(t: State, n: nat, start: int) {
    Spent(t, n, start) && t.requests == map[] && !LockInForce(t)
  }

  lemma FourMisses(s: State, k: nat) returns (es: seq<Event>, t: State)
    requires Fresh(s) && k >= 1
    ensures Reaches(s, es, k, t) && Idle(t, MAX_FAILED_LOGIN_ATTEMPTS - 1, s.now) && t.now == s.now
  {
    es, t := [], s;
    for i := 0 to MAX_FAILED_LOGIN_ATTEMPTS - 1
      invariant Reaches(s, es, k, t) && Idle(t, i, s.now) && t.now == s.now
    {
      Append(s, es, k, t, Look(0));
      es, t := es + [Look(0)], Next(t, Look(0));
      assert t.requests - {0} == map[];
      Append(s, es, k, t, Wrong(0));
      es, t := es + [Wrong(0)], Next(t, Wrong(0));
    }
  }

  /** Of requests 0..passed-1 the first `gone` are over, those up to `missed` have their
      lock to write, and the rest have looked. */
  ghost predicate Wave(t: State, gone: nat, missed: nat, passed: nat) {
    && gone <= missed <= passed
    && (forall p :: p in t.requests <==> gone <= p < passed)
    && (forall p :: gone <= p < passed ==> if p < missed then t.requests[p].Missed? else t.requests[p].Passed?)
  }

  lemma {:induction false} Below(ids: set<nat>, n: nat)
    requires forall p :: p in ids ==> p < n
    ensures |ids| <= n
    decreases n
  {
    if n == 0 {
      assert ids == {};
    } else {
      Below(ids - {n - 1}, n - 1);
    }
  }

  lemma WaveFits(t: State, gone: nat, missed: nat, passed: nat, k: nat)
    requires Wave(t, gone, missed, passed) && passed <= k
    ensures |t.requests| <= k
  {
    Below(t.requests.Keys, k);
    assert |t.requests| == |t.requests.Keys|;
  }

  lemma AllLook(s: State, k: nat, es: seq<Event>, t: State) returns (es': seq<Event>, t': State)
    requires Reaches(s, es, k, t) && t.requests == map[] && !LockInForce(t)
    ensures Reaches(s, es', k, t') && Wave(t', 0, 0, k) && t' == t.(requests := t'.requests)
  {
    es', t' := es, t;
    for i := 0 to k
      invariant Reaches(s, es', k, t') && Wave(t', 0, 0, i) && t' == t.(requests := t'.requests)
    {
      WaveFits(Next(t', Look(i)), 0, 0, i + 1, k);
      Append(s, es', k, t', Look(i));
      es', t' := es' + [Look(i)], Next(t', Look(i));
    }
  }

  lemma AllMiss(s: State, k: nat, es: seq<Event>, t: State, n: nat, start: int) returns (es': seq<Event>, t': State)
    requires Reaches(s, es, k, t) && Wave(t, 0, 0, k) && Spent(t, n, start) && n >= MAX_FAILED_LOGIN_ATTEMPTS - 1
    requires k >= 1
    ensures Reaches(s, es', k, t') && Wave(t', 0, k, k) && Spent(t', n + k, start) && t'.now == t.now
    ensures t'.wrong[n + k - 1] == t.now
  {
    es', t' := es, t;
    for i := 0 to k
      invariant Reaches(s, es', k, t') && Wave(t', 0, i, k) && Spent(t', n + i, start) && t'.now == t.now
      invariant i > 0 ==> t'.wrong[n + i - 1] == t.now
    {
      WaveFits(Next(t', Wrong(i)), 0, i + 1, k, k);
      Append(s, es', k, t', Wrong(i));
      es', t' := es' + [Wrong(i)], Next(t', Wrong(i));
    }
  }

  lemma AllLock(s: State, k: nat, es: seq<Event>, t: State) returns (es': seq<Event>, t': State)
    requires Reaches(s, es, k, t) && Wave(t, 0, k, k) && k >= 1
    ensures Reaches(s, es', k, t')
    ensures t' == t.(requests := map[], lockedUntil := Some(t.now + LOCKOUT_DURATION_MS))
  {
    es', t' := es, t;
    for i := 0 to k
      invariant Reaches(s, es', k, t') && Wave(t', i, k, k)
      invariant t' == t.(requests := t'.requests, lockedUntil := t'.lockedUntil)
      invariant i > 0 ==> t'.lockedUntil == Some(t.now + LOCKOUT_DURATION_MS)
    {
      WaveFits(Next(t', Lock(i)), i + 1, k, k, k);
      Append(s, es', k, t', Lock(i));
      es', t' := es' + [Lock(i)], Next(t', Lock(i));
    }
    assert t'.requests == map[];
  }

  /** k attempts look together, miss together and lock together. */
  lemma OneWave(s: State, k: nat, es: seq<Event>, t: State, n: nat, start: int) returns (es': seq<Event>, t': State)
    requires Reaches(s, es, k, t) && Idle(t, n, start) && n >= MAX_FAILED_LOGIN_ATTEMPTS - 1 && k >= 1
    ensures Reaches(s, es', k, t') && Spent(t', n + k, start) && t'.requests == map[] && t'.now == t.now
    ensures t'.wrong[n + k - 1] == t.now && t'.lockedUntil == Some(t.now + LOCKOUT_DURATION_MS)
  {
    es', t' := AllLook(s, k, es, t);
    es', t' := AllMiss(s, k, es', t', n, start);
    es', t' := AllLock(s, k, es', t');
  }

  lemma {:induction false} Waves(s: State, k: nat, m: nat) returns (es: seq<Event>, t: State)
    requires Fresh(s) && k >= 1
    ensures Reaches(s, es, k, t) && t.requests == map[]
    ensures Spent(t, MAX_FAILED_LOGIN_ATTEMPTS - 1 + k * (1 + m), s.now)
    ensures t.wrong[|t.wrong| - 1] == t.now == s.now + m * LOCKOUT_DURATION_MS
    ensures t.lockedUntil == Some(t.now + LOCKOUT_DURATION_MS)
    decreases m
  {
    var n := MAX_FAILED_LOGIN_ATTEMPTS - 1 + k * m;
    if m == 0 {
      es, t := FourMisses(s, k);
    } else {
      es, t := Waves(s, k, m - 1);
      Append(s, es, k, t, Tick(LOCKOUT_DURATION_MS));
      es, t := es + [Tick(LOCKOUT_DURATION_MS)], Next(t, Tick(LOCKOUT_DURATION_MS));
    }
    es, t := OneWave(s, k, es, t, n, s.now);
    assert n + k == MAX_FAILED_LOGIN_ATTEMPTS - 1 + k * (1 + m);
  }

  /** No smaller rate holds: for every k and m there is a run, never with more than k
      attempts in flight, whose wrong guesses span T = m * 900000 milliseconds and number
      exactly 4 + k * (1 + T / 900000). */
  lemma RateIsReached(s: State, k: nat, m: nat) returns (es: seq<Event>)
    requires Fresh(s) && k >= 1
    ensures IsRun(s, es) && AtMostInFlight(s, es, k)
    ensures var wrong := After(s, es).wrong;
      && |wrong| == 4 + k * (1 + m)
      && wrong[|wrong| - 1] - wrong[0] == m * 900000
  {
    var t: State;
    es, t := Waves(s, k, m);
  }
}
