/**
 The session table with every operation run to completion: sign-in by any of the
 five paths, account suspension and reactivation, and the deletions. A completed
 sign-in is the run of its statements in module SessionCap.
 */
module SessionTables {
  import opened Wrappers
  import opened SessionCap

  datatype SignInError = AccountSuspended

  /** The statements of one sign-in that nothing comes between. */
  function SoloSignIn(p: RequestId, u: UserId, order: seq<SessionId>, id: SessionId, at: int): seq<Event> {
    [Begin(p, u), List(p, order), Trim(p), Create(p, id, at)]
  }

  lemma SoloSteps(s: State, p: RequestId, u: UserId, order: seq<SessionId>, id: SessionId, at: int)
    requires p !in s.issuances && u !in s.suspended && id !in s.sessions && OldestFirst(s, u, order)
    ensures IsRun(s, SoloSignIn(p, u, order, id, at))
    ensures After(s, SoloSignIn(p, u, order, id, at)) ==
            s.(sessions := (s.sessions - Elements(order[..Excess(|order|)]))[id := Session(u, at)])
  {
    var s1 := Next(s, Begin(p, u));
    var s2 := Next(s1, List(p, order));
    var s3 := Next(s2, Trim(p));
    var s4 := Next(s3, Create(p, id, at));
    assert Live(s1, u) == Live(s, u) && OldestFirst(s1, u, order) by {
      assert forall i, j :: 0 <= i < j < |order| && NotNewer(s, order[i], order[j]) ==>
                              NotNewer(s1, order[i], order[j]);
    }
    assert s4.issuances == s.issuances;
    RunCons(s3, Create(p, id, at), []);
    RunCons(s2, Trim(p), [Create(p, id, at)]);
    RunCons(s1, List(p, order), [Trim(p)] + [Create(p, id, at)]);
    RunCons(s, Begin(p, u), [List(p, order)] + ([Trim(p)] + [Create(p, id, at)]));
    assert SoloSignIn(p, u, order, id, at) == [Begin(p, u)] + ([List(p, order)] + ([Trim(p)] + [Create(p, id, at)]));
    assert [Create(p, id, at)] == [Create(p, id, at)] + [];
  }

  /** What a lone sign-in does to the rows: the new one comes, only as many of the user's
      go as leave nine, none of them created after one that stays, and all else is kept. */
  ghost predicate EvictsOldest(s: State, t: State, u: UserId, id: SessionId, at: int) {
    var before := set x | x in s.sessions && s.sessions[x].user == u;
    var kept := set x | x in t.sessions && t.sessions[x].user == u && x != id;
    && id in t.sessions && t.sessions[id] == Session(u, at)
    && kept <= before && |kept| == (if |before| < 10 then |before| else 9)
    && (forall gone, x :: gone in before - kept && x in kept ==> s.sessions[gone].createdAt <= s.sessions[x].createdAt)
    && (forall x :: x in t.sessions && x != id ==> x in s.sessions && t.sessions[x] == s.sessions[x])
    && (forall x :: x in s.sessions && s.sessions[x].user != u ==> x in t.sessions)
  }

  lemma CutParts(order: seq<SessionId>, cut: nat)
    requires Distinct(order) && cut <= |order|
    ensures Elements(order[..cut]) + Elements(order[cut..]) == Elements(order)
    ensures Elements(order[..cut]) !! Elements(order[cut..])
    ensures |Elements(order)| == |order| && |Elements(order[cut..])| == |order| - cut
  {
    assert order == order[..cut] + order[cut..];
    DistinctCardinality(order);
    DistinctCardinality(order[cut..]);
  }

  /** The surplus is split off, and none of it is newer than what is kept. */
  ghost predicate CutsOldest(s: State, u: UserId, gone: set<SessionId>, kept: set<SessionId>) {
    && gone + kept == Live(s, u) && gone !! kept && |kept| == |Live(s, u)| - Excess(|Live(s, u)|)
    && (forall g, x :: g in gone && x in kept ==> NotNewer(s, g, x))
  }

  lemma CutOrder(s: State, u: UserId, order: seq<SessionId>)
    requires OldestFirst(s, u, order)
    ensures CutsOldest(s, u, Elements(order[..Excess(|order|)]), Elements(order[Excess(|order|)..]))
  {
    var cut := Excess(|order|);
    CutParts(order, cut);
    forall g, x | g in order[..cut] && x in order[cut..] ensures NotNewer(s, g, x) {
    }
  }

  lemma CutEffect(s: State, t: State, u: UserId, id: SessionId, at: int, gone: set<SessionId>, kept: set<SessionId>)
    requires id !in s.sessions && t.sessions == (s.sessions - gone)[id := Session(u, at)]
    requires CutsOldest(s, u, gone, kept)
    ensures EvictsOldest(s, t, u, id, at)
  {
    assert (set x | x in s.sessions && s.sessions[x].user == u) == gone + kept;
    assert (set x | x in t.sessions && t.sessions[x].user == u && x != id) == kept;
    forall g, x | g in gone && x in kept ensures s.sessions[g].createdAt <= s.sessions[x].createdAt {
      assert NotNewer(s, g, x);
    }
  }

  lemma SoloEffect(s: State, t: State, u: UserId, order: seq<SessionId>, id: SessionId, at: int)
    requires id !in s.sessions && OldestFirst(s, u, order)
    requires t.sessions == (s.sessions - Elements(order[..Excess(|order|)]))[id := Session(u, at)]
    ensures EvictsOldest(s, t, u, id, at)
  {
    CutOrder(s, u, order);
    CutEffect(s, t, u, id, at, Elements(order[..Excess(|order|)]), Elements(order[Excess(|order|)..]));
  }

  /** A sign-in whose statements nothing comes between, whoever else is in flight, leaves
      the user at most ten sessions, evicts no more than that needs, evicts none that is
      newer than a survivor, and touches nobody else. */
  lemma SoloEvictsOldest(s: State, p: RequestId, u: UserId, order: seq<SessionId>, id: SessionId, at: int)
    requires p !in s.issuances && u !in s.suspended && id !in s.sessions && OldestFirst(s, u, order)
    ensures EvictsOldest(s, After(s, SoloSignIn(p, u, order, id, at)), u, id, at)
  {
    var t := s.(sessions := (s.sessions - Elements(order[..Excess(|order|)]))[id := Session(u, at)]);
    SoloEffect(s, t, u, order, id, at);
    SoloSteps(s, p, u, order, id, at);
  }

  lemma SoloSignsIn(s: State, t: State, u: UserId, order: seq<SessionId>, id: SessionId, at: int)
    requires s.issuances == map[] && u !in s.suspended && id !in s.sessions && OldestFirst(s, u, order)
    requires t == s.(sessions := (s.sessions - Elements(order[..Excess(|order|)]))[id := Session(u, at)])
    ensures t == After(s, SoloSignIn(0, u, order, id, at)) && EvictsOldest(s, t, u, id, at)
  {
    SoloSteps(s, 0, u, order, id, at);
    SoloEffect(s, t, u, order, id, at);
  }

  /** The rows queried so far, and those still to come. */
  ghost predicate OldestPrefix(s: State, u: UserId, order: seq<SessionId>, left: set<SessionId>) {
    && Distinct(order) && left !! Elements(order) && left + Elements(order) == Live(s, u)
    && (forall i, j :: 0 <= i < j < |order| ==> NotNewer(s, order[i], order[j]))
    && (forall y, x :: y in Elements(order) && x in left ==> NotNewer(s, y, x))
  }

  lemma AppendOldest(s: State, u: UserId, order: seq<SessionId>, left: set<SessionId>, oldest: SessionId)
    requires OldestPrefix(s, u, order, left) && oldest in left
    requires forall x :: x in left ==> NotNewer(s, oldest, x)
    ensures OldestPrefix(s, u, order + [oldest], left - {oldest})
  {
    assert Elements(order + [oldest]) == Elements(order) + {oldest};
    forall i, j | 0 <= i < j < |order + [oldest]| ensures NotNewer(s, (order + [oldest])[i], (order + [oldest])[j]) {
      assert order[i] in Elements(order);
    }
  }

  lemma RevokedSplit(s: State, u: UserId, current: Option<SessionId>, gone: set<SessionId>)
    requires gone == set id | id in s.sessions && s.sessions[id].user == u && current != Some(id)
    ensures var t := Next(s, Delete(gone));
      && Live(t, u) == (set id | id in Live(s, u) && current == Some(id))
      && |gone| == |Live(s, u)| - |Live(t, u)|
      && (forall v :: v != u ==> Live(t, v) == Live(s, v))
  {
    var t := Next(s, Delete(gone));
    assert Live(s, u) == Live(t, u) + gone && Live(t, u) !! gone;
    assert |Live(t, u) + gone| == |Live(t, u)| + |gone|;
  }

  class SessionTable {
    var sessions: map<SessionId, Session>
    var suspended: set<UserId>

    ghost function Snapshot(): State
      reads this
    {
      State(sessions, map[], suspended)
    }

    /** A suspended user owns no session. */
    ghost predicate Valid()
      reads this
    {
      forall id :: id in sessions ==> sessions[id].user !in suspended
    }

    constructor ()
      ensures Valid() && Snapshot() == Empty
    {
      sessions, suspended := map[], {};
    }

    /** Some row no newer than the others; creation times may tie. */
    method FindOldest(ids: set<SessionId>) returns (oldest: SessionId)
      requires ids != {} && ids <= sessions.Keys
      ensures oldest in ids
      ensures forall x :: x in ids ==> sessions[oldest].createdAt <= sessions[x].createdAt
      ensures forall x :: x in ids ==> NotNewer(Snapshot(), oldest, x)
    {
      oldest :| oldest in ids;
      var rest := ids - {oldest};
      while rest != {}
        invariant oldest in ids && rest <= ids
        invariant forall x :: x in ids - rest ==> NotNewer(Snapshot(), oldest, x)
        decreases |rest|
      {
        var x :| x in rest;
        ghost var previous := oldest;
        assert forall y :: y in ids - rest ==> NotNewer(Snapshot(), previous, y);
        rest := rest - {x};
        if sessions[x].createdAt < sessions[oldest].createdAt { oldest := x; }
        forall y | y in ids - rest ensures NotNewer(Snapshot(), oldest, y) {
          assert y != x ==> NotNewer(Snapshot(), previous, y);
        }
      }
      forall x | x in ids ensures sessions[oldest].createdAt <= sessions[x].createdAt {
        assert NotNewer(Snapshot(), oldest, x);
      }
    }

    /** The ordered query: any order of equal creation times may come back. */
    method FindOldestFirst(u: UserId) returns (order: seq<SessionId>)
      ensures OldestFirst(Snapshot(), u, order)
    {
      var left := set id | id in sessions && sessions[id].user == u;
      order := [];
      while left != {}
        invariant OldestPrefix(Snapshot(), u, order, left)
        decreases |left|
      {
        var oldest := FindOldest(left);
        AppendOldest(Snapshot(), u, order, left, oldest);
        left := left - {oldest};
        order := order + [oldest];
      }
    }

    /** `listed` is the order the query answered in. */
    method EnforceSessionLimit(u: UserId) returns (ghost listed: seq<SessionId>)
      modifies this`sessions
      ensures OldestFirst(old(Snapshot()), u, listed)
      ensures sessions == old(sessions) - Elements(listed[..Excess(|listed|)])
    {
      var order := FindOldestFirst(u);
      listed := order;
      if |order| >= MAX_SESSIONS_PER_USER {
        var toDelete := order[..|order| - MAX_SESSIONS_PER_USER + 1];
        sessions := sessions - Elements(toDelete);
      } else {
        assert order[..Excess(|order|)] == [] && sessions - {} == sessions;
      }
    }

    /** The common end of every sign-in path, under a session id nobody holds. */
    method IssueSession(u: UserId, id: SessionId, at: int)
      returns (r: Result<SessionId, SignInError>, ghost listed: seq<SessionId>)
      requires Valid() && id !in sessions
      modifies this`sessions
      ensures Valid()
      ensures r == if u in suspended then Err(AccountSuspended) else Ok(id)
      ensures r.Err? ==> sessions == old(sessions)
      ensures r.Ok? ==> OldestFirst(old(Snapshot()), u, listed)
                        && Snapshot() == After(old(Snapshot()), SoloSignIn(0, u, listed, id, at))
      ensures r.Ok? ==> EvictsOldest(old(Snapshot()), Snapshot(), u, id, at)
    {
      if u in suspended { return Err(AccountSuspended), []; }
      listed := EnforceSessionLimit(u);
      sessions := sessions[id := Session(u, at)];
      SoloSignsIn(old(Snapshot()), Snapshot(), u, listed, id, at);
      return Ok(id), listed;
    }

    /** Suspending takes the status and every row of the user; reactivating gives the status
        back and no row. */
    method UpdateStatus(u: UserId, suspend: bool)
      requires Valid()
      modifies this
      ensures Valid()
      ensures u in suspended <==> suspend
      ensures forall v :: v != u ==> (v in suspended <==> v in old(suspended))
      ensures forall id :: id in sessions <==> id in old(sessions) && (suspend ==> old(sessions)[id].user != u)
      ensures forall id :: id in sessions ==> sessions[id] == old(sessions)[id]
      ensures Snapshot() ==
                After(old(Snapshot()), if suspend then [MarkSuspended(u), DropSessions(u)] else [Reactivate(u)])
    {
      ghost var s := Snapshot();
      RunCons(s, MarkSuspended(u), [DropSessions(u)]);
      RunCons(Next(s, MarkSuspended(u)), DropSessions(u), []);
      RunCons(s, Reactivate(u), []);
      if suspend {
        suspended := suspended + {u};
        sessions := sessions - (set id | id in sessions && sessions[id].user == u);
      } else {
        suspended := suspended - {u};
      }
    }

    /** A session of somebody else is refused exactly like one that does not exist. */
    method RevokeSession(u: UserId, id: SessionId) returns (ok: bool)
      requires Valid()
      modifies this`sessions
      ensures Valid()
      ensures ok <==> id in old(sessions) && old(sessions)[id].user == u
      ensures sessions == if ok then old(sessions) - {id} else old(sessions)
      ensures Snapshot() == if ok then After(old(Snapshot()), [Delete({id})]) else old(Snapshot())
    {
      if id !in sessions || sessions[id].user != u { return false; }
      sessions := sessions - {id};
      return true;
    }

    /** Leaves the user the current session at most, and everybody else theirs. */
    method RevokeOtherSessions(u: UserId, current: Option<SessionId>) returns (count: nat)
      requires Valid()
      modifies this`sessions
      ensures Valid()
      ensures forall id ::
                id in sessions <==> id in old(sessions) && (old(sessions)[id].user == u ==> current == Some(id))
      ensures forall id :: id in sessions ==> sessions[id] == old(sessions)[id]
      ensures Live(Snapshot(), u) == set id | id in old(Live(Snapshot(), u)) && current == Some(id)
      ensures forall v :: v != u ==> Live(Snapshot(), v) == old(Live(Snapshot(), v))
      ensures count == |old(Live(Snapshot(), u))| - |Live(Snapshot(), u)|
    {
      var gone := set id | id in sessions && sessions[id].user == u && current != Some(id);
      RevokedSplit(Snapshot(), u, current, gone);
      sessions := sessions - gone;
      return |gone|;
    }

    /** Logout, expiry clean-up, password reset. */
    method DeleteSessions(ids: set<SessionId>)
      requires Valid()
      modifies this`sessions
      ensures Valid()
      ensures sessions == old(sessions) - ids
      ensures Snapshot() == After(old(Snapshot()), [Delete(ids)])
    {
      sessions := sessions - ids;
    }
  }
}
