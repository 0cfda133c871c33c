/**
 Refresh-token rotation with its 30 second grace window. A session row stores the
 current token, the previous one and when it rotated. Every use of a token is checked
 against those; a token that matches neither ends the session.

 Against that row stands a reference: the trail of a session, the first token and then,
 for each rotation, the token that was presented and the one minted in return.
 */
module RefreshRotation {
  import opened Wrappers

  type UserId = nat
  type SessionId = nat

  const REFRESH_GRACE_PERIOD_MS := 30 * 1000
  const REMEMBER_ME_TTL_MS := 30 * 24 * 60 * 60 * 1000
  const DEFAULT_SESSION_TTL_MS := 24 * 60 * 60 * 1000

  /** A signed token: its claims, and a serial that tells two signatures apart. */
  datatype Token = Token(session: SessionId, user: UserId, rememberMe: bool, serial: nat)

  datatype Row = Row(
    user: UserId,
    current: Token,
    previous: Option<Token>,
    rotatedAt: Option<int>,
    expiresAt: int)

  datatype Rotation = Rotation(presented: Token, minted: Token, at: int)

  datatype Trail = Trail(first: Token, startedAt: int, rotations: seq<Rotation>)

  datatype State = State(
    sessions: map<SessionId, Row>,
    suspended: set<UserId>,
    now: int,
    trails: map<SessionId, Trail>)

  datatype RefreshError = InvalidToken | NotFound | Expired | Suspended

  function SessionTtlMs(rememberMe: bool): int {
    if rememberMe then REMEMBER_ME_TTL_MS else DEFAULT_SESSION_TTL_MS
  }

  function Minted(tr: Trail): seq<Token> {
    seq(|tr.rotations|, i requires 0 <= i < |tr.rotations| => tr.rotations[i].minted)
  }

  /** All tokens ever issued for the session, oldest first. */
  function Issued(tr: Trail): (ts: seq<Token>)
    ensures |ts| == |tr.rotations| + 1
  {
    [tr.first] + Minted(tr)
  }

  function Extended(tr: Trail, r: Rotation): (grown: Trail)
    ensures Issued(grown) == Issued(tr) + [r.minted] && LastIssued(grown) == r.minted
  {
    var grown := tr.(rotations := tr.rotations + [r]);
    assert Minted(grown) == Minted(tr) + [r.minted];
    grown
  }

  function LastIssued(tr: Trail): (last: Token)
    ensures last in Issued(tr)
  {
    assert tr.rotations != [] ==> Issued(tr)[|tr.rotations|] == tr.rotations[|tr.rotations| - 1].minted;
    if tr.rotations == [] then tr.first else tr.rotations[|tr.rotations| - 1].minted
  }

  /** When the session was last signed in to or renewed. */
  function LastUse(tr: Trail): int {
    if tr.rotations == [] then tr.startedAt else tr.rotations[|tr.rotations| - 1].at
  }

  // ---- The service's own check ----

  /** The stored previous token, while the grace window is open. */
  predicate WithinGrace(row: Row, t: Token, now: int) {
    row.previous.Some? && row.rotatedAt.Some? && now - row.rotatedAt.value < REFRESH_GRACE_PERIOD_MS
    && row.previous.value == t
  }

  function Rotated(row: Row, t: Token, renewed: Token, now: int): Row {
    Row(row.user, renewed,
        if row.current != t then row.previous else Some(row.current),
        Some(now), now + SessionTtlMs(t.rememberMe))
  }

  function Successor(t: Token, serial: nat): Token {
    t.(serial := serial)
  }

  datatype Event =
    | Issue(id: SessionId, user: UserId, rememberMe: bool, serial: nat)
    | Refresh(t: Token, signatureOk: bool, serial: nat)
    | Logout(t: Token, signatureOk: bool)
    | Delete(ids: set<SessionId>)
    | Suspend(user: UserId)
    | Reactivate(user: UserId)
    | Tick(d: nat)

  /** Session ids and signed tokens are never repeated; a sign-in is refused to a
      suspended user. */
  predicate Enabled(s: State, e: Event) {
    match e
    case Issue(id, user, _, _) => id !in s.trails && user !in s.suspended
    case Refresh(t, _, serial) =>
      t.session in s.trails ==> Successor(t, serial) !in Issued(s.trails[t.session])
    case _ => true
  }

  function RefreshVerdict(s: State, t: Token, signatureOk: bool, serial: nat): Result<Token, RefreshError> {
    if !signatureOk then Err(InvalidToken)
    else if t.session !in s.sessions || s.sessions[t.session].user != t.user then Err(NotFound)
    else
      var row := s.sessions[t.session];
      if row.current != t && !WithinGrace(row, t, s.now) then Err(InvalidToken)
      else if s.now > row.expiresAt then Err(Expired)
      else if t.user in s.suspended then Err(Suspended)
      else Ok(Successor(t, serial))
  }

  /** The row rotates in place and the trail records it. */
  function Renew(s: State, t: Token, serial: nat): State
    requires t.session in s.sessions
  {
    var renewed := Successor(t, serial);
    s.(sessions := s.sessions[t.session := Rotated(s.sessions[t.session], t, renewed, s.now)],
       trails := if t.session !in s.trails then s.trails
                 else s.trails[t.session := Extended(s.trails[t.session], Rotation(t, renewed, s.now))])
  }

  function Next(s: State, e: Event): State {
    match e
    case Issue(id, user, rememberMe, serial) =>
      var t := Token(id, user, rememberMe, serial);
      s.(sessions := s.sessions[id := Row(user, t, None, None, s.now + SessionTtlMs(rememberMe))],
         trails := s.trails[id := Trail(t, s.now, [])])
    case Refresh(t, signatureOk, serial) =>
      var verdict := RefreshVerdict(s, t, signatureOk, serial);
      if verdict.Ok? then Renew(s, t, serial)
      else if verdict.error.Suspended? || (verdict.error.InvalidToken? && signatureOk)
      then s.(sessions := s.sessions - {t.session})
      else s
    case Logout(t, signatureOk) => if signatureOk then s.(sessions := s.sessions - {t.session}) else s
    case Delete(ids) => s.(sessions := s.sessions - ids)
    case Suspend(user) =>
      s.(suspended := s.suspended + {user},
         sessions := map id | id in s.sessions && s.sessions[id].user != user :: s.sessions[id])
    case Reactivate(user) => s.(suspended := s.suspended - {user})
    case Tick(d) => s.(now := s.now + d)
  }

  predicate IsRun(s: State, es: seq<Event>)
    decreases |es|
  {
    es != [] ==> Enabled(s, es[0]) && IsRun(Next(s, es[0]), es[1..])
  }

  function After(s: State, es: seq<Event>): State
    decreases |es|
  {
    if es == [] then s else After(Next(s, es[0]), es[1..])
  }

  // ---- The reference: what the trail says ----

  /** The last token issued, or the one whose presentation produced it less than 30
      seconds ago (a client repeating its request). */
  ghost predicate AllowedBy(tr: Trail, t: Token, now: int) {
    || t == LastIssued(tr)
    || (tr.rotations != [] && var last := tr.rotations[|tr.rotations| - 1];
          t == last.presented && now - last.at < REFRESH_GRACE_PERIOD_MS)
  }

  /** A token the trail of its session allows. */
  ghost predicate Acceptable(s: State, t: Token) {
    && t.session in s.sessions && t.session in s.trails && t.user == s.sessions[t.session].user
    && AllowedBy(s.trails[t.session], t, s.now)
  }

  ghost predicate Unrepeated(tr: Trail) {
    Distinct(Issued(tr))
  }

  ghost predicate RowMatches(row: Row, tr: Trail, now: int) {
    && row.current == LastIssued(tr)
    && row.expiresAt == LastUse(tr) + SessionTtlMs(tr.first.rememberMe)
    && (tr.rotations == [] ==> row.previous.None? && row.rotatedAt.None?)
    && (tr.rotations != [] ==>
          var last := tr.rotations[|tr.rotations| - 1];
          && row.previous == Some(last.presented) && row.rotatedAt == Some(last.at) && last.at <= now)
  }

  ghost predicate TrailInv(id: SessionId, tr: Trail) {
    && Unrepeated(tr)
    && (forall t :: t in Issued(tr) ==>
          t.session == id && t.user == tr.first.user && t.rememberMe == tr.first.rememberMe)
    && (forall i :: 0 <= i < |tr.rotations| ==> PresentedWasIssued(tr, i))
  }

  ghost predicate PresentedWasIssued(tr: Trail, i: nat)
    requires i < |tr.rotations|
  {
    tr.rotations[i].presented in Issued(tr)
  }

  ghost predicate RowInv(s: State, id: SessionId) {
    id in s.sessions ==>
      && id in s.trails && RowMatches(s.sessions[id], s.trails[id], s.now)
      && s.sessions[id].user == s.trails[id].first.user
  }

  ghost predicate Inv(s: State) {
    && (forall id :: id in s.trails ==> TrailInv(id, s.trails[id]))
    && (forall id :: RowInv(s, id))
  }

  lemma TrailExtends(id: SessionId, tr: Trail, r: Rotation)
    requires TrailInv(id, tr) && r.presented in Issued(tr) && r.minted !in Issued(tr)
    requires r.minted.session == id && r.minted.user == tr.first.user && r.minted.rememberMe == tr.first.rememberMe
    ensures TrailInv(id, Extended(tr, r))
  {
    var grown := Extended(tr, r);
    forall i | 0 <= i < |grown.rotations| ensures PresentedWasIssued(grown, i) {
      assert i < |tr.rotations| ==> PresentedWasIssued(tr, i);
    }
  }

  lemma AcceptableWasIssued(s: State, t: Token)
    requires Inv(s) && Acceptable(s, t)
    ensures t in Issued(s.trails[t.session])
  {
    var tr := s.trails[t.session];
    assert TrailInv(t.session, tr);
    if t != LastIssued(tr) { assert PresentedWasIssued(tr, |tr.rotations| - 1); }
  }

  lemma CheckFollowsTrail(row: Row, tr: Trail, t: Token, now: int)
    requires RowMatches(row, tr, now)
    ensures AllowedBy(tr, t, now) <==> row.current == t || WithinGrace(row, t, now)
  {
  }

  /** The service's check of the stored row and the trail agree. */
  lemma CheckIsAcceptable(s: State, t: Token)
    requires Inv(s) && t.session in s.sessions && t.user == s.sessions[t.session].user
    ensures Acceptable(s, t) <==>
            s.sessions[t.session].current == t || WithinGrace(s.sessions[t.session], t, s.now)
  {
    assert RowInv(s, t.session);
    CheckFollowsTrail(s.sessions[t.session], s.trails[t.session], t, s.now);
  }

  lemma RenewKeeps(s: State, t: Token, serial: nat)
    requires Inv(s) && Enabled(s, Refresh(t, true, serial)) && Acceptable(s, t)
    ensures Inv(Renew(s, t, serial))
  {
    var s', tr := Renew(s, t, serial), s.trails[t.session];
    var r := Rotation(t, Successor(t, serial), s.now);
    assert RowInv(s, t.session);
    assert TrailInv(t.session, tr);
    AcceptableWasIssued(s, t);
    TrailExtends(t.session, tr, r);
    forall id ensures RowInv(s', id) {
      assert RowInv(s, id);
      if id == t.session && id in s.sessions { CheckIsAcceptable(s, t); }
    }
  }

  lemma IssueKeeps(s: State, e: Event)
    requires Inv(s) && Enabled(s, e) && e.Issue?
    ensures Inv(Next(s, e))
  {
    var t := Token(e.id, e.user, e.rememberMe, e.serial);
    assert Issued(Trail(t, s.now, [])) == [t];
    assert TrailInv(e.id, Trail(t, s.now, []));
    forall id ensures RowInv(Next(s, e), id) { assert RowInv(s, id); }
  }

  lemma StepKeeps(s: State, e: Event)
    requires Inv(s) && Enabled(s, e)
    ensures Inv(Next(s, e))
  {
    if e.Refresh? && RefreshVerdict(s, e.t, e.signatureOk, e.serial).Ok? {
      assert RowInv(s, e.t.session);
      CheckIsAcceptable(s, e.t);
      RenewKeeps(s, e.t, e.serial);
    } else if e.Issue? {
      IssueKeeps(s, e);
    } else {
      forall id ensures RowInv(Next(s, e), id) { assert RowInv(s, id); }
    }
  }

  lemma {:induction false} RunKeeps(s: State, es: seq<Event>)
    requires Inv(s) && IsRun(s, es)
    ensures Inv(After(s, es))
    decreases |es|
  {
    if es != [] {
      StepKeeps(s, es[0]);
      RunKeeps(Next(s, es[0]), es[1..]);
    }
  }

  /** In every reachable state a refresh succeeds exactly for an acceptable token of an
      unexpired session of an active user; any other validly signed token of the
      session ends it. */
  lemma RefreshFollowsTrail(s0: State, es: seq<Event>, t: Token, serial: nat)
    requires Inv(s0) && IsRun(s0, es)
    ensures var s := After(s0, es);
      && (RefreshVerdict(s, t, true, serial).Ok? <==>
            Acceptable(s, t) && s.now <= s.sessions[t.session].expiresAt && t.user !in s.suspended)
      && (t.session in s.sessions && t.user == s.sessions[t.session].user && !Acceptable(s, t) ==>
            t.session !in Next(s, Refresh(t, true, serial)).sessions)
  {
    RunKeeps(s0, es);
    var s := After(s0, es);
    if t.session in s.sessions && t.user == s.sessions[t.session].user {
      CheckIsAcceptable(s, t);
    }
  }

  function Elapsed(es: seq<Event>): nat
    decreases |es|
  {
    if es == [] then 0 else (if es[0].Tick? then es[0].d else 0) + Elapsed(es[1..])
  }

  lemma {:induction false} ClockFollowsTicks(s: State, es: seq<Event>)
    ensures After(s, es).now == s.now + Elapsed(es)
    decreases |es|
  {
    if es != [] { ClockFollowsTicks(Next(s, es[0]), es[1..]); }
  }

  /** In every reachable state the current token of an active user's session renews it if
      and only if the session was last signed in to or renewed at most thirty days ago, or
      one day ago without remember-me; after that the refresh reports it expired. */
  lemma LivesSinceLastUse(s0: State, es: seq<Event>, id: SessionId, serial: nat)
    requires Inv(s0) && IsRun(s0, es) && id in After(s0, es).sessions
    requires After(s0, es).sessions[id].user !in After(s0, es).suspended
    ensures var s := After(s0, es);
      var current := s.sessions[id].current;
      var verdict := RefreshVerdict(s, current, true, serial);
      && id in s.trails
      && var tr := s.trails[id];
      && current.rememberMe == tr.first.rememberMe
      && (verdict.Ok? <==> s.now - LastUse(tr) <= if tr.first.rememberMe then 2592000000 else 86400000)
      && (verdict.Err? ==> verdict.error.Expired?)
  {
    RunKeeps(s0, es);
    assert RowInv(After(s0, es), id);
    assert TrailInv(id, After(s0, es).trails[id]);
  }

  /** The stored current token is the last one issued, and a token that renews the
      session is from then on the one acceptable besides it. */
  lemma RenewalHandsOver(s: State, t: Token, serial: nat)
    requires Inv(s) && Enabled(s, Refresh(t, true, serial)) && RefreshVerdict(s, t, true, serial).Ok?
    ensures var s' := Next(s, Refresh(t, true, serial));
      && t.session in s'.trails
      && s'.sessions[t.session].current == LastIssued(s'.trails[t.session]) == Successor(t, serial)
      && Acceptable(s', Successor(t, serial)) && Acceptable(s', t)
      && (forall x: Token :: x.session == t.session && Acceptable(s', x) ==> x == t || x == Successor(t, serial))
  {
    assert RowInv(s, t.session);
    RenewKeeps(s, t, serial) by { CheckIsAcceptable(s, t); }
  }

  lemma EndedStep(s: State, e: Event, id: SessionId)
    requires Enabled(s, e) && id in s.trails && id !in s.sessions
    ensures id in Next(s, e).trails && id !in Next(s, e).sessions
  {
  }

  lemma {:induction false} EndedStaysEnded(s: State, es: seq<Event>, id: SessionId)
    requires IsRun(s, es) && id in s.trails && id !in s.sessions
    ensures id in After(s, es).trails && id !in After(s, es).sessions
    decreases |es|
  {
    if es != [] {
      EndedStep(s, es[0], id);
      EndedStaysEnded(Next(s, es[0]), es[1..], id);
    }
  }

  /** A deletion ends the sessions it names for good and leaves the others as they were. */
  lemma DeletedForGood(s: State, ids: set<SessionId>, es: seq<Event>, id: SessionId)
    requires IsRun(Next(s, Delete(ids)), es) && id in ids && id in s.trails
    ensures id !in After(Next(s, Delete(ids)), es).sessions
    ensures forall x :: x in s.sessions && x !in ids ==>
              x in Next(s, Delete(ids)).sessions && Next(s, Delete(ids)).sessions[x] == s.sessions[x]
  {
    EndedStaysEnded(Next(s, Delete(ids)), es, id);
  }

  /** Presenting a stale token of a session ends it for good: afterwards no token of
      the session is ever accepted. */
  lemma ReplayEndsSession(s: State, t: Token, serial: nat, es: seq<Event>, t': Token, serial': nat)
    requires Inv(s) && t.session in s.sessions && t.user == s.sessions[t.session].user && !Acceptable(s, t)
    requires IsRun(Next(s, Refresh(t, true, serial)), es) && t'.session == t.session
    ensures RefreshVerdict(After(Next(s, Refresh(t, true, serial)), es), t', true, serial').Err?
  {
    assert RowInv(s, t.session);
    CheckIsAcceptable(s, t);
    EndedStaysEnded(Next(s, Refresh(t, true, serial)), es, t.session);
  }

  ghost predicate Stale(s: State, t: Token) {
    t.session in s.trails && t in Issued(s.trails[t.session]) && !Acceptable(s, t)
  }

  lemma StaleRenewal(s: State, t: Token, serial: nat, x: Token)
    requires Inv(s) && Enabled(s, Refresh(t, true, serial)) && Acceptable(s, t) && Stale(s, x)
    ensures Stale(Renew(s, t, serial), x)
  {
  }

  lemma StaleFrame(s: State, s': State, x: Token)
    requires Stale(s, x) && s.now <= s'.now
    requires x.session in s'.trails && s'.trails[x.session] == s.trails[x.session]
    requires x.session in s'.sessions ==>
               x.session in s.sessions && s'.sessions[x.session].user == s.sessions[x.session].user
    ensures Stale(s', x)
  {
  }

  /** A token that has stopped being acceptable never becomes acceptable again. */
  lemma {:induction false} StaleForever(s: State, es: seq<Event>, x: Token)
    requires Inv(s) && IsRun(s, es) && Stale(s, x)
    ensures !Acceptable(After(s, es), x)
    decreases |es|
  {
    if es != [] {
      var t := Next(s, es[0]);
      StepKeeps(s, es[0]);
      assert RowInv(s, x.session);
      if es[0].Refresh? && RefreshVerdict(s, es[0].t, es[0].signatureOk, es[0].serial).Ok? {
        assert RowInv(s, es[0].t.session);
        CheckIsAcceptable(s, es[0].t);
        StaleRenewal(s, es[0].t, es[0].serial, x);
      } else {
        StaleFrame(s, t, x);
      }
      StaleForever(t, es[1..], x);
    }
  }

  // ---- Suspension ----

  predicate SuspendedOwnNone(s: State) {
    forall id :: id in s.sessions ==> s.sessions[id].user !in s.suspended
  }

  /** With each operation atomic, a suspended user owns no session in any reachable state,
      whichever sign-ins, refreshes, logouts, deletions, suspensions and reactivations
      are interleaved. */
  lemma {:induction false} SuspendedNeverOwn(s: State, es: seq<Event>)
    requires SuspendedOwnNone(s) && IsRun(s, es)
    ensures SuspendedOwnNone(After(s, es))
    decreases |es|
  {
    if es != [] { SuspendedNeverOwn(Next(s, es[0]), es[1..]); }
  }

  // ---- The table itself ----

  /** A suspension takes the user's sessions and nobody else's, and until a reactivation the
      user owns none and is refused, whatever token is presented. */
  lemma SuspensionHolds(s: State, u: UserId, es: seq<Event>, t: Token, serial: nat)
    requires SuspendedOwnNone(s) && IsRun(Next(s, Suspend(u)), es) && Reactivate(u) !in es && t.user == u
    ensures forall id :: id in s.sessions && s.sessions[id].user != u ==>
              id in Next(s, Suspend(u)).sessions && Next(s, Suspend(u)).sessions[id] == s.sessions[id]
    ensures var s' := After(Next(s, Suspend(u)), es);
      && u in s'.suspended
      && (forall id :: id in s'.sessions ==> s'.sessions[id].user != u)
      && RefreshVerdict(s', t, true, serial).Err?
  {
    var t0 := Next(s, Suspend(u));
    StaysSuspended(t0, es, u);
    SuspendedNeverOwn(t0, es);
  }

  lemma {:induction false} StaysSuspended(s: State, es: seq<Event>, u: UserId)
    requires IsRun(s, es) && u in s.suspended && Reactivate(u) !in es
    ensures u in After(s, es).suspended
    decreases |es|
  {
    if es != [] { StaysSuspended(Next(s, es[0]), es[1..], u); }
  }

  /** A reactivated user may sign in again, and starts without a session. */
  lemma ReactivationAdmits(s: State, u: UserId, id: SessionId, rememberMe: bool, serial: nat)
    requires SuspendedOwnNone(s) && u in s.suspended && id !in s.trails
    ensures !Enabled(s, Issue(id, u, rememberMe, serial))
    ensures var s' := Next(s, Reactivate(u));
      Enabled(s', Issue(id, u, rememberMe, serial)) && forall x :: x in s'.sessions ==> s'.sessions[x].user != u
  {
  }

  /** The refusals in the code's order, told by the row as it was. */
  ghost predicate Answers(sessions: map<SessionId, Row>, suspended: set<UserId>, now: int, t: Token, signatureOk: bool,
                          serial: nat, r: Result<Token, RefreshError>) {
    if !signatureOk then r == Err(InvalidToken)
    else if t.session !in sessions || sessions[t.session].user != t.user then r == Err(NotFound)
    else
      var row := sessions[t.session];
      var repeated := row.previous == Some(t) && row.rotatedAt.Some? && now - row.rotatedAt.value < 30000;
      if row.current != t && !repeated then r == Err(InvalidToken)
      else if now > row.expiresAt then r == Err(Expired)
      else if t.user in suspended then r == Err(Suspended)
      else r == Ok(Token(t.session, t.user, t.rememberMe, serial))
  }

  /** What the answer leaves of the table. */
  ghost predicate Leaves(sessions: map<SessionId, Row>, now: int, t: Token, signatureOk: bool,
                         r: Result<Token, RefreshError>, sessions': map<SessionId, Row>) {
    sessions' ==
      if r.Ok? then sessions[t.session :=
        Row(t.user, r.value, Some(t), Some(now), now + (if t.rememberMe then 2592000000 else 86400000))]
      else if r.error.Suspended? || (r.error.InvalidToken? && signatureOk) then sessions - {t.session}
      else sessions
  }

  class RefreshService {
    var sessions: map<SessionId, Row>
    var suspended: set<UserId>
    var now: int
    ghost var trails: map<SessionId, Trail>

    ghost function Snapshot(): State
      reads this
    {
      State(sessions, suspended, now, trails)
    }

    ghost predicate Valid()
      reads this
    {
      Inv(Snapshot())
    }

    constructor (start: int)
      ensures Valid() && Snapshot() == State(map[], {}, start, map[])
    {
      sessions, suspended, now, trails := map[], {}, start, map[];
    }

    /** The row a sign-in leaves. */
    method IssueTokens(id: SessionId, user: UserId, rememberMe: bool, serial: nat) returns (r: Option<Token>)
      requires Valid() && id !in trails
      modifies this`sessions, this`trails
      ensures Valid()
      ensures r == if user in suspended then None else Some(Token(id, user, rememberMe, serial))
      ensures r.None? ==> Snapshot() == old(Snapshot())
      ensures r.Some? ==> Snapshot() == Next(old(Snapshot()), Issue(id, user, rememberMe, serial))
      ensures r.Some? ==> sessions == old(sessions)[id :=
                Row(user, r.value, None, None, now + (if rememberMe then 2592000000 else 86400000))]
    {
      if user in suspended { return None; }
      IssueKeeps(Snapshot(), Issue(id, user, rememberMe, serial));
      var t := Token(id, user, rememberMe, serial);
      sessions := sessions[id := Row(user, t, None, None, now + SessionTtlMs(rememberMe))];
      trails := trails[id := Trail(t, now, [])];
      return Some(t);
    }

    method Refresh(t: Token, signatureOk: bool, serial: nat) returns (r: Result<Token, RefreshError>)
      requires Valid() && Enabled(Snapshot(), Event.Refresh(t, signatureOk, serial))
      modifies this`sessions, this`trails
      ensures Valid()
      ensures Answers(old(sessions), suspended, now, t, signatureOk, serial, r)
      ensures Leaves(old(sessions), now, t, signatureOk, r, sessions)
      ensures r == RefreshVerdict(old(Snapshot()), t, signatureOk, serial)
      ensures Snapshot() == Next(old(Snapshot()), Event.Refresh(t, signatureOk, serial))
    {
      StepKeeps(Snapshot(), Event.Refresh(t, signatureOk, serial));
      assert RowInv(Snapshot(), t.session);
      r := CheckAndRotate(t, signatureOk, serial);
    }

    /** A renewal keeps the presented token for its grace window, whichever of the two it
        was, and starts the session's lifetime again. */
    method CheckAndRotate(t: Token, signatureOk: bool, serial: nat) returns (r: Result<Token, RefreshError>)
      requires t.session in sessions ==> t.session in trails
      modifies this`sessions, this`trails
      ensures Answers(old(sessions), suspended, now, t, signatureOk, serial, r)
      ensures Leaves(old(sessions), now, t, signatureOk, r, sessions)
      ensures r == RefreshVerdict(old(Snapshot()), t, signatureOk, serial)
      ensures Snapshot() == Next(old(Snapshot()), Event.Refresh(t, signatureOk, serial))
    {
      if !signatureOk { return Err(InvalidToken); }
      if t.session !in sessions || sessions[t.session].user != t.user { return Err(NotFound); }
      var row := sessions[t.session];
      var isGraceHit := false;
      if row.current != t {
        if row.previous.Some? && row.rotatedAt.Some? && now - row.rotatedAt.value < REFRESH_GRACE_PERIOD_MS {
          isGraceHit := row.previous.value == t;
        }
        if !isGraceHit {
          sessions := sessions - {t.session};
          return Err(InvalidToken);
        }
      }
      if now > row.expiresAt { return Err(Expired); }
      if t.user in suspended {
        sessions := sessions - {t.session};
        return Err(Suspended);
      }
      var renewed := Successor(t, serial);
      sessions := sessions[t.session := Row(row.user, renewed,
        if isGraceHit then row.previous else Some(row.current), Some(now), now + SessionTtlMs(t.rememberMe))];
      trails := trails[t.session := Extended(trails[t.session], Rotation(t, renewed, now))];
      return Ok(renewed);
    }

    /** Idempotent: an unverifiable token or a missing row is not an error. */
    method Logout(t: Token, signatureOk: bool)
      requires Valid()
      modifies this`sessions
      ensures Valid()
      ensures sessions == if signatureOk then old(sessions) - {t.session} else old(sessions)
      ensures Snapshot() == Next(old(Snapshot()), Event.Logout(t, signatureOk))
    {
      StepKeeps(Snapshot(), Event.Logout(t, signatureOk));
      if signatureOk {
        sessions := sessions - {t.session};
      }
    }
  }
}
