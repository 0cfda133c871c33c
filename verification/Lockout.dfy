/**
 Account lockout. A password attempt reads the user row, refuses while a lock is in
 force, verifies, and on a wrong password increments the counter in the database; from
 the fifth failure on a second update writes a lock of fifteen minutes. Attempts on
 the same account interleave freely between those statements.
 */
module Lockout {
  import opened Wrappers

  type RequestId = nat

  const MAX_FAILED_LOGIN_ATTEMPTS := 5
  const LOCKOUT_DURATION_MS := 15 * 60 * 1000

  /** An attempt that passed the lock check remembers the row it read; one that
      missed with the counter at five or more still has the lock to write. */
  datatype Phase = Passed(sawAttempts: nat, sawLock: Option<int>) | Missed

  /** `wrong` is history: when each wrong password was evaluated since the last reset. */
  datatype State = State(
    failedAttempts: nat,
    lockedUntil: Option<int>,
    now: int,
    requests: map<RequestId, Phase>,
    wrong: seq<int>)

  predicate LockInForce(s: State) {
    s.lockedUntil.Some? && s.lockedUntil.value > s.now
  }

  datatype Event =
    | Tick(d: nat)
    | Look(p: RequestId)
    | Wrong(p: RequestId)
    | Lock(p: RequestId)
    | Right(p: RequestId, active: bool)
    | Abort(p: RequestId)

  predicate Enabled(s: State, e: Event) {
    match e
    case Tick(_) => true
    case Look(p) => p !in s.requests && !LockInForce(s)
    case Wrong(p) => p in s.requests && s.requests[p].Passed?
    case Lock(p) => p in s.requests && s.requests[p].Missed?
    case Right(p, _) => p in s.requests && s.requests[p].Passed?
    case Abort(p) => p in s.requests && s.requests[p].Passed?
  }

  function Next(s: State, e: Event): State
    requires Enabled(s, e)
  {
    match e
    case Tick(d) => s.(now := s.now + d)
    case Look(p) => s.(requests := s.requests[p := Passed(s.failedAttempts, s.lockedUntil)])
    case Wrong(p) =>
      var n := s.failedAttempts + 1;
      s.(failedAttempts := n,
         wrong := s.wrong + [s.now],
         requests := if n >= MAX_FAILED_LOGIN_ATTEMPTS then s.requests[p := Missed] else s.requests - {p})
    case Lock(p) =>
      s.(lockedUntil := Some(s.now + LOCKOUT_DURATION_MS), requests := s.requests - {p})
    case Right(p, active) =>
      var gone := s.(requests := s.requests - {p});
      if active && (s.requests[p].sawAttempts > 0 || s.requests[p].sawLock.Some?)
      then gone.(failedAttempts := 0, lockedUntil := None, wrong := [])
      else gone
    case Abort(p) => s.(requests := s.requests - {p})
  }

  predicate IsRun(s: State, es: seq<Event>)
    decreases |es|
  {
    es != [] ==> Enabled(s, es[0]) && IsRun(Next(s, es[0]), es[1..])
  }

  function After(s: State, es: seq<Event>): State
    requires IsRun(s, es)
    decreases |es|
  {
    if es == [] then s else After(Next(s, es[0]), es[1..])
  }

  /** No state of the run has more than k attempts in flight. */
  predicate AtMostInFlight(s: State, es: seq<Event>, k: nat)
    requires IsRun(s, es)
    decreases |es|
  {
    |s.requests| <= k && (es != [] ==> AtMostInFlight(Next(s, es[0]), es[1..], k))
  }

  predicate Fresh(s: State) {
    s.failedAttempts == 0 && s.lockedUntil.None? && s.requests == map[] && s.wrong == []
  }

  // ---- The guess rate ----

  /** Who read when, numbered in order of reading, and which numbers were in flight then. */
  datatype Reader = Reader(number: nat, readAt: int, rivals: set<nat>)

  datatype Guess = Guess(reader: Reader, at: int)

  datatype History = History(readers: map<RequestId, Reader>, log: seq<Guess>, count: nat)

  /** A completed guess that could lock either was still in flight when `r` read, or
      its lock had run out by then. */
  ghost predicate Separated(g: Guess, r: Reader) {
    g.reader.number < r.number ==> g.reader.number in r.rivals || g.at + LOCKOUT_DURATION_MS <= r.readAt
  }

  ghost predicate SeesRival(x: Reader, r: Reader) {
    x.number < r.number ==> x.number in r.rivals
  }

  ghost predicate Bounded(r: Reader, k: nat, count: nat) {
    |r.rivals| < k && r.number < count
  }

  ghost predicate Locked(s: State, h: History, g: Guess) {
    || (s.lockedUntil.Some? && g.at + LOCKOUT_DURATION_MS <= s.lockedUntil.value)
    || (exists p :: p in s.requests && p in h.readers && s.requests[p].Missed? && h.readers[p] == g.reader)
  }

  ghost predicate LogInv(log: seq<Guess>, k: nat, count: nat) {
    && (forall i :: 0 <= i < |log| ==> Bounded(log[i].reader, k, count) && log[i].reader.readAt <= log[i].at)
    && (forall i, j :: 0 <= i < j < |log| ==> log[i].at <= log[j].at && log[i].reader.number != log[j].reader.number)
    && (forall i, j :: MAX_FAILED_LOGIN_ATTEMPTS - 1 <= i < |log| && 0 <= j < |log| ==>
          Separated(log[i], log[j].reader))
  }

  ghost predicate ReaderInv(s: State, h: History, k: nat) {
    && h.readers.Keys == s.requests.Keys
    && (forall p :: p in h.readers ==> Bounded(h.readers[p], k, h.count) && h.readers[p].readAt <= s.now)
    && (forall p, q :: p in h.readers && q in h.readers ==>
          SeesRival(h.readers[p], h.readers[q]) && (p != q ==> h.readers[p].number != h.readers[q].number))
  }

  ghost predicate CrossInv(s: State, h: History) {
    && (forall p, i :: p in h.readers && 0 <= i < |h.log| ==> SeesRival(h.readers[p], h.log[i].reader))
    && (forall p, i :: p in h.readers && p in s.requests && s.requests[p].Passed? && 0 <= i < |h.log| ==>
          h.readers[p].number != h.log[i].reader.number)
    && (forall p, i :: p in h.readers && MAX_FAILED_LOGIN_ATTEMPTS - 1 <= i < |h.log| ==>
          Separated(h.log[i], h.readers[p]))
  }

  ghost predicate AllLocked(s: State, h: History) {
    forall i :: MAX_FAILED_LOGIN_ATTEMPTS - 1 <= i < |h.log| ==> Locked(s, h, h.log[i])
  }

  ghost predicate LogMatches(s: State, h: History) {
    && s.failedAttempts == |s.wrong| == |h.log|
    && (forall i :: 0 <= i < |h.log| ==> h.log[i].at == s.wrong[i] && h.log[i].at <= s.now)
  }

  ghost predicate Inv(s: State, h: History, k: nat) {
    && LogMatches(s, h)
    && LogInv(h.log, k, h.count)
    && ReaderInv(s, h, k)
    && CrossInv(s, h)
    && AllLocked(s, h)
  }

  function Numbers(h: History): set<nat> {
    set p | p in h.readers :: h.readers[p].number
  }

  lemma {:induction false} NumbersCardinality(readers: map<RequestId, Reader>, n: set<nat>)
    requires n == set p | p in readers :: readers[p].number
    ensures |n| <= |readers|
    decreases |readers|
  {
    if readers != map[] {
      var p :| p in readers;
      var rest := readers - {p};
      var n' := set q | q in rest :: rest[q].number;
      NumbersCardinality(rest, n');
      forall x | x in n ensures x in n' + {readers[p].number} {
        var q :| q in readers && readers[q].number == x;
        assert q != p ==> q in rest;
      }
      SubsetCardinality(n, n' + {readers[p].number});
      UnionCardinality(n', {readers[p].number});
      assert readers.Keys == rest.Keys + {p};
    }
  }

  lemma LookReaders(s: State, h: History, k: nat, p: RequestId, h': History)
    requires ReaderInv(s, h, k) && p !in s.requests && |s.requests| < k && !LockInForce(s)
    requires h' == h.(readers := h.readers[p := Reader(h.count, s.now, Numbers(h))], count := h.count + 1)
    ensures ReaderInv(Next(s, Look(p)), h', k)
  {
    NumbersCardinality(h.readers, Numbers(h));
    assert |h.readers| == |h.readers.Keys| == |s.requests.Keys|;
    forall q | q in h.readers ensures SeesRival(h.readers[q], h'.readers[p]) {
      assert h.readers[q].number in Numbers(h);
    }
  }

  lemma LookSeparates(s: State, h: History, k: nat, p: RequestId, g: Guess)
    requires ReaderInv(s, h, k) && Locked(s, h, g) && !LockInForce(s)
    ensures Separated(g, Reader(h.count, s.now, Numbers(h)))
  {
    if g.at + LOCKOUT_DURATION_MS > s.now {
      var q :| q in s.requests && q in h.readers && s.requests[q].Missed? && h.readers[q] == g.reader;
      assert h.readers[q].number in Numbers(h);
    }
  }

  /** A guess keeps its lock as long as its request is still there and the lock is not cleared. */
  lemma LockedPersists(s: State, h: History, t: State, h': History, g: Guess)
    requires Locked(s, h, g) && t.lockedUntil == s.lockedUntil
    requires forall p :: p in s.requests && p in h.readers && s.requests[p].Missed? ==>
                           p in t.requests && p in h'.readers && t.requests[p].Missed? && h'.readers[p] == h.readers[p]
    ensures Locked(t, h', g)
  {
    if !(s.lockedUntil.Some? && g.at + LOCKOUT_DURATION_MS <= s.lockedUntil.value) {
      var p :| p in s.requests && p in h.readers && s.requests[p].Missed? && h.readers[p] == g.reader;
      assert p in t.requests;
    }
  }

  lemma LookCrosses(s: State, h: History, k: nat, p: RequestId, h': History)
    requires Inv(s, h, k) && p !in s.requests && !LockInForce(s)
    requires h' == h.(readers := h.readers[p := Reader(h.count, s.now, Numbers(h))], count := h.count + 1)
    ensures CrossInv(Next(s, Look(p)), h')
  {
    var t := Next(s, Look(p));
    forall i | MAX_FAILED_LOGIN_ATTEMPTS - 1 <= i < |h.log| ensures Separated(h.log[i], h'.readers[p]) {
      LookSeparates(s, h, k, p, h.log[i]);
    }
    forall q, i | q in h'.readers && 0 <= i < |h.log| ensures SeesRival(h'.readers[q], h.log[i].reader) {
      assert Bounded(h.log[i].reader, k, h.count);
      assert q != p ==> SeesRival(h.readers[q], h.log[i].reader);
    }
  }

  lemma LookLocks(s: State, h: History, p: RequestId, h': History)
    requires AllLocked(s, h) && p !in s.requests && !LockInForce(s)
    requires h' == h.(readers := h.readers[p := Reader(h.count, s.now, Numbers(h))], count := h.count + 1)
    ensures AllLocked(Next(s, Look(p)), h')
  {
    forall i | MAX_FAILED_LOGIN_ATTEMPTS - 1 <= i < |h'.log| ensures Locked(Next(s, Look(p)), h', h'.log[i]) {
      LockedPersists(s, h, Next(s, Look(p)), h', h.log[i]);
    }
  }

  lemma CountGrows(log: seq<Guess>, k: nat, count: nat)
    requires LogInv(log, k, count)
    ensures LogInv(log, k, count + 1)
  {
    assert forall i :: 0 <= i < |log| ==> Bounded(log[i].reader, k, count) ==> Bounded(log[i].reader, k, count + 1);
  }

  lemma LookRoom(s: State, k: nat, p: RequestId)
    requires p !in s.requests && !LockInForce(s) && |Next(s, Look(p)).requests| <= k
    ensures |s.requests| < k
  {
    assert Next(s, Look(p)).requests.Keys == s.requests.Keys + {p};
    assert |Next(s, Look(p)).requests.Keys| <= k;
  }

  lemma LookKeeps(s: State, h: History, k: nat, p: RequestId) returns (h': History)
    requires Inv(s, h, k) && p !in s.requests && !LockInForce(s) && |Next(s, Look(p)).requests| <= k
    ensures Inv(Next(s, Look(p)), h', k)
  {
    h' := h.(readers := h.readers[p := Reader(h.count, s.now, Numbers(h))], count := h.count + 1);
    LookRoom(s, k, p);
    LookReaders(s, h, k, p, h');
    LookCrosses(s, h, k, p, h');
    LookLocks(s, h, p, h');
    CountGrows(h.log, k, h.count);
  }

  lemma WrongLog(s: State, h: History, k: nat, p: RequestId)
    requires Inv(s, h, k) && p in s.requests && s.requests[p].Passed?
    ensures LogInv(h.log + [Guess(h.readers[p], s.now)], k, h.count)
  {
    var log := h.log + [Guess(h.readers[p], s.now)];
    forall i, j | MAX_FAILED_LOGIN_ATTEMPTS - 1 <= i < |log| && 0 <= j < |log|
      ensures Separated(log[i], log[j].reader)
    {
      if i == |h.log| && j < |h.log| { assert SeesRival(h.readers[p], h.log[j].reader); }
    }
  }

  lemma WrongCrosses(s: State, h: History, k: nat, p: RequestId, h': History)
    requires Inv(s, h, k) && p in s.requests && s.requests[p].Passed?
    requires h'.log == h.log + [Guess(h.readers[p], s.now)]
    requires h'.readers == h.readers - (h.readers.Keys - h'.readers.Keys)
    requires h'.readers.Keys == Next(s, Wrong(p)).requests.Keys
    ensures CrossInv(Next(s, Wrong(p)), h')
  {
    var g := Guess(h.readers[p], s.now);
    forall q | q in h'.readers ensures SeesRival(h'.readers[q], g.reader) && Separated(g, h'.readers[q]) {
      assert SeesRival(h.readers[p], h.readers[q]) && SeesRival(h.readers[q], h.readers[p]);
    }
  }

  lemma WrongLocks(s: State, h: History, p: RequestId, h': History)
    requires AllLocked(s, h) && p in s.requests && s.requests[p].Passed? && p in h.readers
    requires s.failedAttempts == |h.log| && h.readers.Keys == s.requests.Keys
    requires h'.log == h.log + [Guess(h.readers[p], s.now)]
    requires h'.readers == if p in Next(s, Wrong(p)).requests then h.readers else h.readers - {p}
    ensures AllLocked(Next(s, Wrong(p)), h')
  {
    var t := Next(s, Wrong(p));
    forall i | MAX_FAILED_LOGIN_ATTEMPTS - 1 <= i < |h'.log| ensures Locked(t, h', h'.log[i]) {
      if i < |h.log| {
        LockedPersists(s, h, t, h', h.log[i]);
      } else {
        assert p in t.requests && t.requests[p].Missed?;
      }
    }
  }

  lemma WrongKeeps(s: State, h: History, k: nat, p: RequestId) returns (h': History)
    requires Inv(s, h, k) && p in s.requests && s.requests[p].Passed?
    ensures Inv(Next(s, Wrong(p)), h', k)
  {
    var log := h.log + [Guess(h.readers[p], s.now)];
    h' := h.(log := log, readers := if p in Next(s, Wrong(p)).requests then h.readers else h.readers - {p});
    WrongLog(s, h, k, p);
    WrongCrosses(s, h, k, p, h');
    WrongLocks(s, h, p, h');
  }

  lemma LockKeeps(s: State, h: History, k: nat, e: Event) returns (h': History)
    requires Inv(s, h, k) && e.Lock? && Enabled(s, e)
    ensures Inv(Next(s, e), h', k)
  {
    h' := h.(readers := h.readers - {e.p});
  }

  lemma LeaveKeeps(s: State, h: History, k: nat, e: Event) returns (h': History)
    requires Inv(s, h, k) && (e.Right? || e.Abort?) && Enabled(s, e)
    ensures Inv(Next(s, e), h', k)
  {
    var t := Next(s, e);
    h' := h.(readers := h.readers - {e.p}, log := if t.wrong == [] then [] else h.log);
    forall i | MAX_FAILED_LOGIN_ATTEMPTS - 1 <= i < |h'.log| ensures Locked(t, h', h'.log[i]) {
      LockedPersists(s, h, t, h', h.log[i]);
    }
  }

  lemma TickKeeps(s: State, h: History, k: nat, e: Event)
    requires Inv(s, h, k) && e.Tick? && Enabled(s, e)
    ensures Inv(Next(s, e), h, k)
  {
    forall i | MAX_FAILED_LOGIN_ATTEMPTS - 1 <= i < |h.log| ensures Locked(Next(s, e), h, h.log[i]) {
      LockedPersists(s, h, Next(s, e), h, h.log[i]);
    }
  }

  lemma StepKeeps(s: State, h: History, k: nat, e: Event) returns (h': History)
    requires Inv(s, h, k) && Enabled(s, e) && |Next(s, e).requests| <= k
    ensures Inv(Next(s, e), h', k)
  {
    match e {
      case Tick(_) => TickKeeps(s, h, k, e); h' := h;
      case Look(_) => h' := LookKeeps(s, h, k, e.p);
      case Wrong(_) => h' := WrongKeeps(s, h, k, e.p);
      case Lock(_) => h' := LockKeeps(s, h, k, e);
      case _ => h' := LeaveKeeps(s, h, k, e);
    }
  }

  lemma {:induction false} RunKeeps(s: State, h: History, k: nat, es: seq<Event>) returns (h': History)
    requires Inv(s, h, k) && IsRun(s, es) && AtMostInFlight(s, es, k)
    ensures Inv(After(s, es), h', k)
    decreases |es|
  {
    h' := h;
    if es != [] {
      h' := StepKeeps(s, h, k, es[0]);
      h' := RunKeeps(Next(s, es[0]), h', k, es[1..]);
    }
  }

  lemma {:induction false} LastReader(log: seq<Guess>, i: nat, j: nat) returns (last: nat)
    requires i <= j < |log|
    ensures i <= last <= j
    ensures forall m :: i <= m <= j ==> log[m].reader.number <= log[last].reader.number
    decreases j
  {
    last := j;
    if i < j {
      var previous := LastReader(log, i, j - 1);
      if log[j].reader.number < log[previous].reader.number { last := previous; }
    }
  }

  /** The a-th position from i on, `last` left out. */
  function Skip(i: nat, last: nat, a: nat): nat {
    if i + a < last then i + a else i + a + 1
  }

  lemma DistinctOthers(log: seq<Guess>, k: nat, count: nat, i: nat, last: nat, others: seq<nat>)
    requires LogInv(log, k, count) && i <= last <= i + k < |log| && |others| == k
    requires forall a :: 0 <= a < k ==> others[a] == log[Skip(i, last, a)].reader.number
    ensures |Elements(others)| == k
  {
    forall a, b | 0 <= a < b < k ensures others[a] != others[b] {
      assert Skip(i, last, a) < Skip(i, last, b);
    }
    DistinctCardinality(others);
  }

  /** k readers with different numbers cannot all be among fewer than k rivals. */
  lemma OutsideRivals(log: seq<Guess>, k: nat, count: nat, i: nat, last: nat) returns (m: nat)
    requires LogInv(log, k, count) && i <= last <= i + k < |log|
    ensures i <= m <= i + k && m != last && log[m].reader.number !in log[last].reader.rivals
  {
    var rivals := log[last].reader.rivals;
    var others: seq<nat> := seq(k, a requires 0 <= a < k => log[Skip(i, last, a)].reader.number);
    DistinctOthers(log, k, count, i, last, others);
    assert |rivals| < k by { assert Bounded(log[last].reader, k, count); }
    if Elements(others) <= rivals {
      SubsetCardinality(Elements(others), rivals);
      assert false;
    }
    var n :| n in Elements(others) && n !in rivals;
    var a :| 0 <= a < k && others[a] == n;
    m := Skip(i, last, a);
  }

  /** Of k + 1 guesses in a row, from the fifth on, the one that read last read after
      the lock of another had run out. */
  lemma SpreadByOne(log: seq<Guess>, k: nat, count: nat, i: nat)
    requires LogInv(log, k, count) && MAX_FAILED_LOGIN_ATTEMPTS - 1 <= i && i + k < |log|
    ensures log[i].at + LOCKOUT_DURATION_MS <= log[i + k].at
  {
    var last := LastReader(log, i, i + k);
    var m := OutsideRivals(log, k, count, i, last);
    assert log[m].reader.number != log[last].reader.number by { if m < last { } else { assert last < m; } }
    assert Separated(log[m], log[last].reader);
    assert log[i].at <= log[m].at by { if i < m { } }
    assert log[last].at <= log[i + k].at by { if last < i + k { } }
  }

  lemma {:induction false} SpreadByMany(log: seq<Guess>, k: nat, count: nat, i: nat, c: nat)
    requires LogInv(log, k, count) && MAX_FAILED_LOGIN_ATTEMPTS - 1 <= i && k >= 1 && i + c * k < |log|
    ensures log[i].at + c * LOCKOUT_DURATION_MS <= log[i + c * k].at
  {
    if c > 0 {
      assert (c - 1) * k + k == c * k;
      SpreadByMany(log, k, count, i, c - 1);
      SpreadByOne(log, k, count, i + (c - 1) * k);
    }
  }

  lemma CountWithin(log: seq<Guess>, k: nat, count: nat, first: nat, b: nat)
    requires LogInv(log, k, count) && MAX_FAILED_LOGIN_ATTEMPTS - 1 <= first <= b < |log| && k >= 1
    ensures log[first].at <= log[b].at
    ensures b - first + 1 <= k * (1 + (log[b].at - log[first].at) / LOCKOUT_DURATION_MS)
  {
    var c := (b - first) / k;
    DivisionBounds(b - first, k);
    SpreadByMany(log, k, count, first, c);
    assert log[first].at <= log[b].at by { if first < b { } }
    assert log[first + c * k].at <= log[b].at by { if first + c * k < b { } }
    MultiplyMonotone(k, c + 1, 1 + (log[b].at - log[first].at) / LOCKOUT_DURATION_MS);
  }

  lemma LogIsRateLimited(log: seq<Guess>, k: nat, count: nat, a: nat, b: nat)
    requires LogInv(log, k, count) && k >= 1 && a <= b < |log|
    ensures log[a].at <= log[b].at
    ensures b - a + 1 <= MAX_FAILED_LOGIN_ATTEMPTS - 1 + k * (1 + (log[b].at - log[a].at) / LOCKOUT_DURATION_MS)
  {
    var span := log[b].at - log[a].at;
    assert span >= 0 by { if a < b { } }
    var first := if a < MAX_FAILED_LOGIN_ATTEMPTS - 1 then MAX_FAILED_LOGIN_ATTEMPTS - 1 else a;
    if first <= b {
      CountWithin(log, k, count, first, b);
      assert log[a].at <= log[first].at by { if a < first { } }
      MultiplyMonotone(k, 1 + (log[b].at - log[first].at) / LOCKOUT_DURATION_MS, 1 + span / LOCKOUT_DURATION_MS);
    } else {
      MultiplyMonotone(k, 0, 1 + span / LOCKOUT_DURATION_MS);
    }
  }

  /** With at most k attempts in flight at any moment, the wrong passwords evaluated
      since the last reset, from the a-th to the b-th, number at most
      4 + k * (1 + T / 900000) when they span T milliseconds. */
  lemma GuessesAreRateLimited(s: State, es: seq<Event>, k: nat, a: nat, b: nat)
    requires Fresh(s) && k >= 1 && IsRun(s, es) && AtMostInFlight(s, es, k)
    requires a <= b < |After(s, es).wrong|
    ensures var t := After(s, es);
      && t.wrong[a] <= t.wrong[b]
      && b - a + 1 <= 4 + k * (1 + (t.wrong[b] - t.wrong[a]) / 900000)
  {
    var h := RunKeeps(s, History(map[], [], 0), k, es);
    LogIsRateLimited(h.log, k, h.count, a, b);
  }

  lemma DivisionBounds(n: nat, k: nat)
    requires k >= 1
    ensures n / k * k <= n < (n / k + 1) * k
  {
  }

  lemma MultiplyMonotone(k: nat, x: int, y: int)
    requires x <= y
    ensures k * x <= k * y && x * k == k * x
  {
  }

  /** One attempt at a time: n guesses within T milliseconds satisfy n <= 5 + T / 900000. */
  lemma SequentialGuessesAreRateLimited(s: State, es: seq<Event>, a: nat, b: nat)
    requires Fresh(s) && IsRun(s, es) && AtMostInFlight(s, es, 1)
    requires a <= b < |After(s, es).wrong|
    ensures var t := After(s, es);
      b - a + 1 <= 5 + (t.wrong[b] - t.wrong[a]) / 900000
  {
    GuessesAreRateLimited(s, es, 1, a, b);
  }

  /** Whatever is in flight, the counter is the number of wrong passwords since the
      last reset. */
  lemma CounterIsExact(s: State, es: seq<Event>)
    requires IsRun(s, es) && s.failedAttempts == |s.wrong|
    ensures After(s, es).failedAttempts == |After(s, es).wrong|
    decreases |es|
  {
    if es != [] { CounterIsExact(Next(s, es[0]), es[1..]); }
  }

  /** One attempt at a time, no password is evaluated while a lock is in force. */
  lemma {:induction false} SoloNeverEvaluatedUnderLock(s: State, es: seq<Event>, e: Event)
    requires IsRun(s, es) && AtMostInFlight(s, es, 1)
    requires forall p :: p in s.requests && s.requests[p].Passed? ==> !LockInForce(s)
    requires Enabled(After(s, es), e) && (e.Wrong? || e.Right?)
    ensures !LockInForce(After(s, es))
    decreases |es|
  {
    if es != [] {
      var t := Next(s, es[0]);
      if es[0].Lock? {
        assert t.requests.Keys == s.requests.Keys - {es[0].p};
        assert |t.requests.Keys| == 0;
      }
      SoloNeverEvaluatedUnderLock(t, es[1..], e);
    }
  }
}
