/**
 The per-user session cap and account suspension, at the granularity of single
 database statements.

 Issuing a session is three statements with no transaction around them: list the
 user's sessions oldest first, delete the oldest ones when there are ten or more,
 insert the new row. Any number of issuances of any users interleave here with each
 other, with deletions and with the two statements of a suspension.
 */
module SessionCap {
  import opened Wrappers

  type UserId = nat
  type SessionId = nat
  type RequestId = nat

  const MAX_SESSIONS_PER_USER := 10

  datatype Session = Session(user: UserId, createdAt: int)

  /** How far an issuance has come: its status check passed, it has read the
      sessions (oldest first), it has deleted what it found to be too many. */
  datatype Phase = Checked | Listed(order: seq<SessionId>) | Trimmed

  datatype Issuance = Issuance(user: UserId, phase: Phase)

  datatype State = State(
    sessions: map<SessionId, Session>,
    issuances: map<RequestId, Issuance>,
    suspended: set<UserId>)

  const Empty := State(map[], map[], {})

  function Live(s: State, u: UserId): set<SessionId> {
    set id | id in s.sessions && s.sessions[id].user == u
  }

  function InFlight(s: State, u: UserId): set<RequestId> {
    set p | p in s.issuances && s.issuances[p].user == u
  }

  ghost predicate NotNewer(s: State, a: SessionId, b: SessionId) {
    a in s.sessions && b in s.sessions && s.sessions[a].createdAt <= s.sessions[b].createdAt
  }

  /** `order` lists the user's sessions by creation time; ties may come either way. */
  ghost predicate OldestFirst(s: State, u: UserId, order: seq<SessionId>) {
    && Distinct(order)
    && Elements(order) == Live(s, u)
    && (forall i, j :: 0 <= i < j < |order| ==> NotNewer(s, order[i], order[j]))
  }

  /** How many of n listed sessions are deleted (`slice(0, n - 10 + 1)`). */
  function Excess(n: nat): nat {
    if n >= MAX_SESSIONS_PER_USER then n - MAX_SESSIONS_PER_USER + 1 else 0
  }

  datatype Event =
    | Begin(p: RequestId, u: UserId)
    | List(p: RequestId, order: seq<SessionId>)
    | Trim(p: RequestId)
    | Create(p: RequestId, id: SessionId, at: int)
    | Abort(p: RequestId)
    | Delete(ids: set<SessionId>)
    | MarkSuspended(u: UserId)
    | DropSessions(u: UserId)
    | Reactivate(u: UserId)

  ghost predicate Enabled(s: State, e: Event) {
    match e
    case Begin(p, u) => p !in s.issuances && u !in s.suspended
    case List(p, order) =>
      p in s.issuances && s.issuances[p].phase.Checked? && OldestFirst(s, s.issuances[p].user, order)
    case Trim(p) => p in s.issuances && s.issuances[p].phase.Listed?
    case Create(p, id, at) => p in s.issuances && s.issuances[p].phase.Trimmed? && id !in s.sessions
    case Abort(p) => p in s.issuances
    case Delete(ids) => true
    case MarkSuspended(u) => true
    case DropSessions(u) => u in s.suspended
    case Reactivate(u) => true
  }

  function Next(s: State, e: Event): State {
    match e
    case Begin(p, u) => s.(issuances := s.issuances[p := Issuance(u, Checked)])
    case List(p, order) =>
      if p !in s.issuances then s
      else s.(issuances := s.issuances[p := s.issuances[p].(phase := Listed(order))])
    case Trim(p) =>
      if p !in s.issuances || !s.issuances[p].phase.Listed? then s
      else
        var order := s.issuances[p].phase.order;
        s.(sessions := s.sessions - Elements(order[..Excess(|order|)]),
           issuances := s.issuances[p := s.issuances[p].(phase := Trimmed)])
    case Create(p, id, at) =>
      if p !in s.issuances then s
      else
        s.(sessions := s.sessions[id := Session(s.issuances[p].user, at)],
           issuances := s.issuances - {p})
    case Abort(p) => s.(issuances := s.issuances - {p})
    case Delete(ids) => s.(sessions := s.sessions - ids)
    case MarkSuspended(u) => s.(suspended := s.suspended + {u})
    case DropSessions(u) => s.(sessions := s.sessions - Live(s, u))
    case Reactivate(u) => s.(suspended := s.suspended - {u})
  }

  function After(s: State, es: seq<Event>): State
    decreases |es|
  {
    if es == [] then s else After(Next(s, es[0]), es[1..])
  }

  ghost predicate IsRun(s: State, es: seq<Event>)
    decreases |es|
  {
    es != [] ==> Enabled(s, es[0]) && IsRun(Next(s, es[0]), es[1..])
  }

  lemma RunCons(s: State, e: Event, es: seq<Event>)
    ensures After(s, [e] + es) == After(Next(s, e), es)
    ensures IsRun(s, [e] + es) <==> Enabled(s, e) && IsRun(Next(s, e), es)
  {
    assert ([e] + es)[1..] == es;
  }

  /** Every state of the run, its ends included, satisfies `P`. */
  ghost predicate Throughout(s: State, es: seq<Event>, P: State -> bool)
    decreases |es|
  {
    P(s) && (es != [] ==> Throughout(Next(s, es[0]), es[1..], P))
  }

  ghost function AtMostInFlight(u: UserId, k: nat): State -> bool {
    (s: State) => |InFlight(s, u)| <= k
  }

  // ---- The overshoot bound ----

  /** A bound on the user's sessions: at most nine `kept` ones, and those created
      since; `rivals` are the requests that may still add one without looking. */
  datatype Certificate = Certificate(kept: set<SessionId>, created: set<SessionId>, rivals: set<RequestId>)

  /** What a listing knows: sessions created since it read, and the requests that
      were in flight when it read and still are. */
  datatype Mark = Mark(created: set<SessionId>, rivals: set<RequestId>)

  ghost predicate Pending(s: State, u: UserId, c: Certificate, p: RequestId) {
    p in InFlight(s, u) && p !in c.rivals && s.issuances[p].phase.Listed?
  }

  ghost predicate Covered(s: State, u: UserId, k: nat, c: Certificate) {
    && Live(s, u) <= c.kept + c.created
    && |c.kept| <= MAX_SESSIONS_PER_USER - 1
    && |c.created| + |c.rivals| <= k
    && c.rivals <= InFlight(s, u)
    && (forall p :: p in InFlight(s, u) && s.issuances[p].phase.Trimmed? ==> p in c.rivals)
  }

  ghost predicate Marked(s: State, u: UserId, k: nat, c: Certificate, h: map<RequestId, Mark>, p: RequestId)
    requires p in InFlight(s, u) && s.issuances[p].phase.Listed?
  {
    && p in h
    && p in h[p].rivals
    && Live(s, u) <= Elements(s.issuances[p].phase.order) + h[p].created
    && Distinct(s.issuances[p].phase.order)
    && |h[p].created| + |h[p].rivals| <= k
    && c.rivals <= h[p].rivals <= InFlight(s, u)
  }

  /** A listing that is not among another's rivals read later, so it saw its rivals. */
  ghost predicate Nested(h: map<RequestId, Mark>, p: RequestId, q: RequestId) {
    p in h && q in h && (q !in h[p].rivals ==> h[p].rivals <= h[q].rivals)
  }

  ghost predicate Inv(s: State, u: UserId, k: nat, c: Certificate, h: map<RequestId, Mark>) {
    && Covered(s, u, k, c)
    && (forall p :: Pending(s, u, c, p) ==> Marked(s, u, k, c, h, p))
    && (forall p, q :: Pending(s, u, c, p) && Pending(s, u, c, q) ==> Nested(h, p, q))
  }

  lemma CoveredBound(s: State, u: UserId, k: nat, c: Certificate)
    requires Covered(s, u, k, c)
    ensures |Live(s, u)| <= 9 + k
  {
    SubsetCardinality(Live(s, u), c.kept + c.created);
    UnionCardinality(c.kept, c.created);
  }

  function Forget(h: map<RequestId, Mark>, p: RequestId): map<RequestId, Mark> {
    map q | q in h :: Mark(h[q].created, h[q].rivals - {p})
  }

  function Record(h: map<RequestId, Mark>, p: RequestId, id: SessionId): map<RequestId, Mark> {
    map q | q in h :: Mark(h[q].created + {id}, h[q].rivals - {p})
  }

  lemma ListKeeps(s: State, u: UserId, k: nat, c: Certificate, h: map<RequestId, Mark>, e: Event)
    returns (h': map<RequestId, Mark>)
    requires Inv(s, u, k, c, h) && e.List? && Enabled(s, e) && |InFlight(s, u)| <= k
    ensures Inv(Next(s, e), u, k, c, h')
  {
    var t := Next(s, e);
    assert Live(t, u) == Live(s, u) && InFlight(t, u) == InFlight(s, u);
    h' := if s.issuances[e.p].user == u then h[e.p := Mark({}, InFlight(s, u))] else h;
    forall p | Pending(t, u, c, p) ensures Marked(t, u, k, c, h', p) {
      if p != e.p { assert Pending(s, u, c, p); }
    }
    forall p, q | Pending(t, u, c, p) && Pending(t, u, c, q) ensures Nested(h', p, q) {
      if p != e.p { assert Pending(s, u, c, p); }
      if q != e.p { assert Pending(s, u, c, q); }
    }
  }

  /** Losing sessions, starting issuances or another user's steps keep the invariant. */
  lemma FrameKeeps(s: State, t: State, u: UserId, k: nat, c: Certificate, h: map<RequestId, Mark>)
    requires Inv(s, u, k, c, h)
    requires Live(t, u) <= Live(s, u) && InFlight(s, u) <= InFlight(t, u)
    requires forall p :: p in InFlight(t, u) && !t.issuances[p].phase.Checked? && p !in c.rivals ==>
                           p in InFlight(s, u) && s.issuances[p] == t.issuances[p]
    ensures Inv(t, u, k, c, h)
  {
    forall p | Pending(t, u, c, p) ensures Pending(s, u, c, p) && Marked(t, u, k, c, h, p) {
      assert Pending(s, u, c, p);
    }
  }

  /** The latest listing to trim becomes the certificate. */
  lemma TrimKeeps(s: State, u: UserId, k: nat, c: Certificate, h: map<RequestId, Mark>, e: Event)
    returns (c': Certificate)
    requires Inv(s, u, k, c, h) && e.Trim? && Enabled(s, e) && Pending(s, u, c, e.p)
    ensures Inv(Next(s, e), u, k, c', h)
  {
    var t := Next(s, e);
    var order := s.issuances[e.p].phase.order;
    var rest := order[Excess(|order|)..];
    c' := Certificate(Elements(rest), h[e.p].created, h[e.p].rivals);
    assert InFlight(t, u) == InFlight(s, u);
    assert Covered(t, u, k, c') by {
      assert Marked(s, u, k, c, h, e.p);
      assert Live(t, u) == Live(s, u) - Elements(order[..Excess(|order|)]);
      assert order == order[..Excess(|order|)] + rest;
      DistinctCardinality(rest);
    }
    forall p | Pending(t, u, c', p) ensures Pending(s, u, c, p) && Marked(t, u, k, c', h, p) {
      assert Pending(s, u, c, p) && Nested(h, e.p, p);
    }
  }

  lemma CreateCovered(s: State, u: UserId, k: nat, c: Certificate, e: Event)
    requires Covered(s, u, k, c) && e.Create? && Enabled(s, e) && e.p in InFlight(s, u)
    ensures Live(Next(s, e), u) == Live(s, u) + {e.id}
    ensures InFlight(Next(s, e), u) == InFlight(s, u) - {e.p}
    ensures e.p in c.rivals
    ensures Covered(Next(s, e), u, k, Certificate(c.kept, c.created + {e.id}, c.rivals - {e.p}))
  {
    UnionCardinality(c.created, {e.id});
  }

  lemma CreateKeeps(s: State, u: UserId, k: nat, c: Certificate, h: map<RequestId, Mark>, e: Event)
    returns (c': Certificate, h': map<RequestId, Mark>)
    requires Inv(s, u, k, c, h) && e.Create? && Enabled(s, e) && e.p in InFlight(s, u)
    ensures Inv(Next(s, e), u, k, c', h')
  {
    var t := Next(s, e);
    CreateCovered(s, u, k, c, e);
    c' := Certificate(c.kept, c.created + {e.id}, c.rivals - {e.p});
    h' := Record(h, e.p, e.id);
    forall p | Pending(t, u, c', p) ensures Pending(s, u, c, p) && Marked(t, u, k, c', h', p) {
      assert Pending(s, u, c, p) && Marked(s, u, k, c, h, p);
      UnionCardinality(h[p].created, {e.id});
    }
    forall p, q | Pending(t, u, c', p) && Pending(t, u, c', q) ensures Nested(h', p, q) {
      assert Pending(s, u, c, p) && Pending(s, u, c, q) && Nested(h, p, q);
    }
  }

  lemma AbortKeeps(s: State, u: UserId, k: nat, c: Certificate, h: map<RequestId, Mark>, e: Event)
    returns (c': Certificate, h': map<RequestId, Mark>)
    requires Inv(s, u, k, c, h) && e.Abort? && Enabled(s, e)
    ensures Inv(Next(s, e), u, k, c', h')
  {
    var t := Next(s, e);
    c' := c.(rivals := c.rivals - {e.p});
    h' := Forget(h, e.p);
    assert Live(t, u) == Live(s, u) && InFlight(t, u) == InFlight(s, u) - {e.p};
    SubsetCardinality(c'.rivals, c.rivals);
    forall p | Pending(t, u, c', p) ensures Pending(s, u, c, p) && Marked(t, u, k, c', h', p) {
      assert Pending(s, u, c, p) && Marked(s, u, k, c, h, p);
      SubsetCardinality(h'[p].rivals, h[p].rivals);
    }
    forall p, q | Pending(t, u, c', p) && Pending(t, u, c', q) ensures Nested(h', p, q) {
      assert Pending(s, u, c, p) && Pending(s, u, c, q) && Nested(h, p, q);
    }
  }

  lemma StepKeeps(s: State, u: UserId, k: nat, c: Certificate, h: map<RequestId, Mark>, e: Event)
    returns (c': Certificate, h': map<RequestId, Mark>)
    requires Inv(s, u, k, c, h) && Enabled(s, e) && |InFlight(s, u)| <= k
    ensures Inv(Next(s, e), u, k, c', h')
  {
    c', h' := c, h;
    if e.List? {
      h' := ListKeeps(s, u, k, c, h, e);
    } else if e.Trim? && Pending(s, u, c, e.p) {
      c' := TrimKeeps(s, u, k, c, h, e);
    } else if e.Create? && e.p in InFlight(s, u) {
      c', h' := CreateKeeps(s, u, k, c, h, e);
    } else if e.Abort? {
      c', h' := AbortKeeps(s, u, k, c, h, e);
    } else {
      FrameKeeps(s, Next(s, e), u, k, c, h);
    }
  }

  lemma {:induction false} RunKeeps(s: State, u: UserId, k: nat, c: Certificate, h: map<RequestId, Mark>,
                                    es: seq<Event>)
    requires Inv(s, u, k, c, h) && IsRun(s, es) && Throughout(s, es, AtMostInFlight(u, k))
    ensures |Live(After(s, es), u)| <= 9 + k
    decreases |es|
  {
    if es == [] {
      CoveredBound(s, u, k, c);
    } else {
      var c', h' := StepKeeps(s, u, k, c, h, es[0]);
      RunKeeps(Next(s, es[0]), u, k, c', h', es[1..]);
    }
  }

  /** With at most k issuances of the user in flight at any moment, the user never
      holds more than 9 + k sessions, whatever the interleaving. */
  lemma OvershootIsBounded(es: seq<Event>, u: UserId, k: nat)
    requires IsRun(Empty, es) && Throughout(Empty, es, AtMostInFlight(u, k))
    ensures |Live(After(Empty, es), u)| <= 9 + k
  {
    RunKeeps(Empty, u, k, Certificate({}, {}, {}), map[], es);
  }

  // ---- The bound is reached ----

  lemma {:induction false} Extend(s: State, es: seq<Event>, e: Event, P: State -> bool)
    requires IsRun(s, es) && Throughout(s, es, P)
    requires Enabled(After(s, es), e) && P(Next(After(s, es), e))
    ensures IsRun(s, es + [e]) && Throughout(s, es + [e], P)
    ensures After(s, es + [e]) == Next(After(s, es), e)
    decreases |es|
  {
    if es == [] {
      assert es + [e] == [e];
    } else {
      Extend(Next(s, es[0]), es[1..], e, P);
      assert (es + [e])[1..] == es[1..] + [e];
    }
  }

  /** Sessions 0..n-1 of user `u`, in order of creation. */
  function Held(u: UserId, n: nat): (m: map<SessionId, Session>)
    ensures forall i :: i in m <==> 0 <= i < n
    ensures forall i :: i in m ==> m[i] == Session(u, i)
  {
    if n == 0 then map[] else Held(u, n - 1)[n - 1 := Session(u, n - 1)]
  }

  /** Requests 0..hi-1 of user `u`, about to insert. */
  function Waiting(u: UserId, hi: nat): (m: map<RequestId, Issuance>)
    ensures forall p :: p in m <==> 0 <= p < hi
    ensures forall p :: p in m ==> m[p] == Issuance(u, Trimmed)
    ensures |m| == hi
  {
    if hi == 0 then map[] else Waiting(u, hi - 1)[hi - 1 := Issuance(u, Trimmed)]
  }

  function Wave(u: UserId, n: nat, hi: nat): State {
    State(Held(u, n), Waiting(u, hi), {})
  }

  function Ascending(n: nat): (r: seq<SessionId>)
    ensures |r| == n && forall i :: 0 <= i < n ==> r[i] == i
  {
    seq(n, i requires 0 <= i => i)
  }

  lemma AscendingIsOldestFirst(u: UserId, n: nat, s: State)
    requires s.sessions == Held(u, n)
    ensures OldestFirst(s, u, Ascending(n))
  {
    assert Elements(Ascending(n)) == Live(s, u) by {
      forall i | i in Live(s, u) ensures i in Elements(Ascending(n)) { assert Ascending(n)[i] == i; }
    }
  }

  lemma InFlightOf(s: State, u: UserId, m: map<RequestId, Issuance>)
    requires s.issuances == m && forall p :: p in m ==> m[p].user == u
    ensures InFlight(s, u) == m.Keys && |InFlight(s, u)| == |m|
  {
    assert InFlight(s, u) == m.Keys;
  }

  ghost predicate Reaches(es: seq<Event>, u: UserId, k: nat, s: State) {
    IsRun(Empty, es) && Throughout(Empty, es, AtMostInFlight(u, k)) && After(Empty, es) == s
  }

  ghost predicate AtWave(es: seq<Event>, u: UserId, k: nat, n: nat, hi: nat) {
    Reaches(es, u, k, Wave(u, n, hi))
  }

  lemma Reach(es: seq<Event>, u: UserId, k: nat, s: State, e: Event, m: map<RequestId, Issuance>)
    requires Reaches(es, u, k, s) && Enabled(s, e)
    requires Next(s, e).issuances == m && |m| <= k && forall p :: p in m ==> m[p].user == u
    ensures Reaches(es + [e], u, k, Next(s, e))
  {
    InFlightOf(Next(s, e), u, m);
    Extend(Empty, es, e, AtMostInFlight(u, k));
  }

  /** The wave with request `hi` under way. */
  function Joining(u: UserId, n: nat, hi: nat, phase: Phase): State {
    State(Held(u, n), Waiting(u, hi)[hi := Issuance(u, phase)], {})
  }

  lemma JoiningStep(u: UserId, n: nat, hi: nat, k: nat, es: seq<Event>, s: State, e: Event, phase: Phase)
    requires hi < k && Reaches(es, u, k, s) && Enabled(s, e) && Next(s, e) == Joining(u, n, hi, phase)
    ensures Reaches(es + [e], u, k, Joining(u, n, hi, phase))
  {
    Reach(es, u, k, s, e, Waiting(u, hi)[hi := Issuance(u, phase)]);
  }

  lemma ListStep(u: UserId, n: nat, hi: nat)
    ensures Enabled(Joining(u, n, hi, Checked), List(hi, Ascending(n)))
    ensures Next(Joining(u, n, hi, Checked), List(hi, Ascending(n))) == Joining(u, n, hi, Listed(Ascending(n)))
  {
    AscendingIsOldestFirst(u, n, Joining(u, n, hi, Checked));
  }

  lemma NothingToTrim(s: State, p: RequestId, order: seq<SessionId>)
    requires p in s.issuances && s.issuances[p].phase == Listed(order) && |order| < MAX_SESSIONS_PER_USER
    ensures Next(s, Trim(p)) == s.(issuances := s.issuances[p := s.issuances[p].(phase := Trimmed)])
  {
    assert order[..Excess(|order|)] == [];
    assert s.sessions - {} == s.sessions;
  }

  /** With at most nine sessions, one more request can pass its check and list
      without deleting anything. */
  lemma JoinWave(u: UserId, n: nat, hi: nat, k: nat, es: seq<Event>) returns (es': seq<Event>)
    requires n < MAX_SESSIONS_PER_USER && hi < k
    requires AtWave(es, u, k, n, hi)
    ensures AtWave(es', u, k, n, hi + 1)
  {
    var order := Ascending(n);
    ListStep(u, n, hi);
    NothingToTrim(Joining(u, n, hi, Listed(order)), hi, order);
    JoiningStep(u, n, hi, k, es, Wave(u, n, hi), Begin(hi, u), Checked);
    es' := es + [Begin(hi, u)];
    JoiningStep(u, n, hi, k, es', Joining(u, n, hi, Checked), List(hi, order), Listed(order));
    es' := es' + [List(hi, order)];
    JoiningStep(u, n, hi, k, es', Joining(u, n, hi, Listed(order)), Trim(hi), Trimmed);
    es' := es' + [Trim(hi)];
  }

  lemma LandWave(u: UserId, n: nat, hi: nat, k: nat, es: seq<Event>) returns (es': seq<Event>)
    requires 0 < hi <= k
    requires AtWave(es, u, k, n, hi)
    ensures AtWave(es', u, k, n + 1, hi - 1)
  {
    var e := Create(hi - 1, n, n);
    assert Waiting(u, hi) - {hi - 1} == Waiting(u, hi - 1);
    Reach(es, u, k, Wave(u, n, hi), e, Waiting(u, hi - 1));
    es' := es + [e];
  }

  lemma NoWave(u: UserId, k: nat)
    ensures AtWave([], u, k, 0, 0)
  {
    InFlightOf(Empty, u, map[]);
  }

  /** One after the other, n sign-ins fill the table without any eviction. */
  lemma FillTable(u: UserId, n: nat, k: nat) returns (es: seq<Event>)
    requires n < MAX_SESSIONS_PER_USER && k >= 1
    ensures AtWave(es, u, k, n, 0)
  {
    es := [];
    NoWave(u, k);
    for i := 0 to n
      invariant AtWave(es, u, k, i, 0)
    {
      es := JoinWave(u, i, 0, k, es);
      es := LandWave(u, i, 1, k, es);
    }
  }

  lemma HeldCount(u: UserId, n: nat, s: State)
    requires s.sessions == Held(u, n)
    ensures |Live(s, u)| == n
  {
    AscendingIsOldestFirst(u, n, s);
    DistinctCardinality(Ascending(n));
  }

  lemma JoinAll(u: UserId, n: nat, k: nat, es: seq<Event>) returns (es': seq<Event>)
    requires n < MAX_SESSIONS_PER_USER && AtWave(es, u, k, n, 0)
    ensures AtWave(es', u, k, n, k)
  {
    es' := es;
    for i := 0 to k
      invariant AtWave(es', u, k, n, i)
    {
      es' := JoinWave(u, n, i, k, es');
    }
  }

  lemma {:induction false} LandAll(u: UserId, n: nat, left: nat, total: nat, k: nat, es: seq<Event>)
    returns (es': seq<Event>)
    requires left <= k && n + left == total && AtWave(es, u, k, n, left)
    ensures AtWave(es', u, k, total, 0)
    decreases left
  {
    if left == 0 {
      es' := es;
    } else {
      var landed := LandWave(u, n, left, k, es);
      es' := LandAll(u, n + 1, left - 1, total, k, landed);
    }
  }

  /** No smaller bound holds: for every k there is a run, never with more than k
      issuances in flight, that ends with exactly 9 + k sessions. */
  lemma OvershootIsReached(u: UserId, k: nat) returns (es: seq<Event>)
    requires k >= 1
    ensures IsRun(Empty, es) && Throughout(Empty, es, AtMostInFlight(u, k))
    ensures |Live(After(Empty, es), u)| == 9 + k
  {
    var n := MAX_SESSIONS_PER_USER - 1;
    es := FillTable(u, n, k);
    es := JoinAll(u, n, k, es);
    es := LandAll(u, n, k, n + k, k, es);
    HeldCount(u, n + k, After(Empty, es));
  }

  // ---- One issuance of the user at a time ----

  /** What the listing of the user's only issuance is still good for: it has every row,
      and orders those that are left. */
  ghost predicate Covers(s: State, u: UserId, order: seq<SessionId>) {
    && Distinct(order) && Live(s, u) <= Elements(order)
    && (forall i, j :: 0 <= i < j < |order| && order[i] in Live(s, u) && order[j] in Live(s, u) ==>
          NotNewer(s, order[i], order[j]))
  }

  ghost predicate ListingsCover(s: State, u: UserId) {
    forall p :: p in InFlight(s, u) && s.issuances[p].phase.Listed? ==> Covers(s, u, s.issuances[p].phase.order)
  }

  lemma CoversLess(s: State, t: State, u: UserId, order: seq<SessionId>)
    requires Covers(s, u, order)
    requires Live(t, u) <= Live(s, u) && forall x :: x in Live(t, u) ==> t.sessions[x] == s.sessions[x]
    ensures Covers(t, u, order)
  {
    forall i, j | 0 <= i < j < |order| && order[i] in Live(t, u) && order[j] in Live(t, u)
      ensures NotNewer(t, order[i], order[j])
    {
      assert NotNewer(s, order[i], order[j]);
    }
  }

  /** Only the user's own insert gives the user a row. */
  lemma RowsShrink(s: State, e: Event, u: UserId)
    requires Enabled(s, e) && !(e.Create? && e.p in InFlight(s, u))
    ensures Live(Next(s, e), u) <= Live(s, u)
    ensures forall x :: x in Live(Next(s, e), u) ==> Next(s, e).sessions[x] == s.sessions[x]
  {
  }

  lemma AtMostOne(a: set<RequestId>, p: RequestId, q: RequestId)
    requires |a| <= 1 && p in a && q in a
    ensures p == q
  {
    if p != q { SubsetCardinality({p, q}, a); }
  }

  lemma ListingsStep(s: State, e: Event, u: UserId)
    requires Enabled(s, e) && ListingsCover(s, u) && |InFlight(s, u)| <= 1
    ensures ListingsCover(Next(s, e), u)
  {
    var t := Next(s, e);
    forall p | p in InFlight(t, u) && t.issuances[p].phase.Listed? ensures Covers(t, u, t.issuances[p].phase.order) {
      if e.Create? && e.p in InFlight(s, u) {
        AtMostOne(InFlight(s, u), p, e.p);
      } else {
        RowsShrink(s, e, u);
        if e.List? && e.p == p {
          assert Live(t, u) == Live(s, u);
          CoversLess(s, t, u, e.order);
        } else {
          CoversLess(s, t, u, s.issuances[p].phase.order);
        }
      }
    }
  }

  lemma {:induction false} ListingsRun(s: State, es: seq<Event>, u: UserId)
    requires IsRun(s, es) && Throughout(s, es, AtMostInFlight(u, 1)) && ListingsCover(s, u)
    ensures ListingsCover(After(s, es), u)
    decreases |es|
  {
    if es != [] {
      ListingsStep(s, es[0], u);
      ListingsRun(Next(s, es[0]), es[1..], u);
    }
  }

  lemma CutCovered(s: State, u: UserId, order: seq<SessionId>, cut: nat, gone: SessionId, kept: SessionId)
    requires Covers(s, u, order) && cut <= |order| && gone in Live(s, u) && kept in Live(s, u)
    requires gone in order[..cut] && kept in order[cut..]
    ensures NotNewer(s, gone, kept)
  {
    var i :| 0 <= i < cut && order[i] == gone;
    var j :| 0 <= j < |order[cut..]| && order[cut..][j] == kept;
    assert order[cut + j] == kept;
  }

  lemma RestIsSmall(order: seq<SessionId>, rows: set<SessionId>)
    requires Distinct(order) && rows <= Elements(order) - Elements(order[..Excess(|order|)])
    ensures |rows| <= MAX_SESSIONS_PER_USER - 1
  {
    var kept := order[Excess(|order|)..];
    assert order == order[..Excess(|order|)] + kept;
    DistinctCardinality(kept);
    SubsetCardinality(rows, Elements(kept));
  }

  /** In every run with at most one issuance of the user in flight at a time, whatever
      other users' issuances and any deletions come between its statements, an issuance
      evicts only rows that are no newer than every row it leaves, and leaves nine at
      most; so the user never holds more than ten. */
  lemma AloneEvictsOldest(es: seq<Event>, u: UserId, p: RequestId)
    requires IsRun(Empty, es) && Throughout(Empty, es, AtMostInFlight(u, 1))
    ensures var s := After(Empty, es);
      && |Live(s, u)| <= 10
      && (p in InFlight(s, u) && Enabled(s, Trim(p)) ==>
            var left := Live(Next(s, Trim(p)), u);
            && left <= Live(s, u) && |left| <= 9
            && (forall gone, kept :: gone in Live(s, u) - left && kept in left ==>
                  s.sessions[gone].createdAt <= s.sessions[kept].createdAt))
  {
    OvershootIsBounded(es, u, 1);
    ListingsRun(Empty, es, u);
    var s := After(Empty, es);
    if p in InFlight(s, u) && Enabled(s, Trim(p)) {
      TrimEvictsOldest(s, u, p);
      var left := Live(Next(s, Trim(p)), u);
      forall gone, kept | gone in Live(s, u) - left && kept in left
        ensures s.sessions[gone].createdAt <= s.sessions[kept].createdAt
      {
        assert NotNewer(s, gone, kept);
      }
    }
  }

  lemma TrimEvictsOldest(s: State, u: UserId, p: RequestId)
    requires ListingsCover(s, u) && p in InFlight(s, u) && Enabled(s, Trim(p))
    ensures var left := Live(Next(s, Trim(p)), u);
      && left <= Live(s, u) && |left| <= MAX_SESSIONS_PER_USER - 1
      && (forall gone, kept :: gone in Live(s, u) - left && kept in left ==> NotNewer(s, gone, kept))
  {
    var order := s.issuances[p].phase.order;
    var left := Live(Next(s, Trim(p)), u);
    TrimLeaves(s, u, p);
    RestIsSmall(order, left);
    forall gone, kept | gone in Live(s, u) - left && kept in left ensures NotNewer(s, gone, kept) {
      InRest(order, Excess(|order|), kept);
      CutCovered(s, u, order, Excess(|order|), gone, kept);
    }
  }

  lemma TrimLeaves(s: State, u: UserId, p: RequestId)
    requires p in InFlight(s, u) && Enabled(s, Trim(p))
    ensures var order := s.issuances[p].phase.order;
      Live(Next(s, Trim(p)), u) == Live(s, u) - Elements(order[..Excess(|order|)])
  {
  }

  lemma InRest(order: seq<SessionId>, cut: nat, x: SessionId)
    requires cut <= |order| && x in Elements(order) && x !in Elements(order[..cut])
    ensures x in order[cut..]
  {
    assert order == order[..cut] + order[cut..];
  }

  // ---- Suspension ----

  lemma LandingAdds(s: State, e: Event, u: UserId)
    requires Enabled(s, e) && e.Create? && e.p in InFlight(s, u)
    ensures |Live(Next(s, e), u)| == |Live(s, u)| + 1
  {
    var t := Next(s, e);
    assert t.sessions == s.sessions[e.id := Session(u, e.at)];
    forall x ensures x in Live(t, u) <==> x in Live(s, u) || x == e.id { }
    assert Live(t, u) == Live(s, u) + {e.id};
  }

  lemma LandingLeaves(s: State, e: Event, u: UserId)
    requires Enabled(s, e) && e.Create? && e.p in InFlight(s, u)
    ensures |InFlight(Next(s, e), u)| == |InFlight(s, u)| - 1
  {
    var t := Next(s, e);
    assert t.issuances == s.issuances - {e.p};
    assert InFlight(t, u) == InFlight(s, u) - {e.p};
  }

  lemma OthersShrink(s: State, e: Event, u: UserId)
    requires Enabled(s, e) && u in s.suspended && !(e.Create? && e.p in InFlight(s, u))
    ensures Live(Next(s, e), u) <= Live(s, u) && InFlight(Next(s, e), u) <= InFlight(s, u)
  {
  }

  lemma SuspendedStep(s: State, e: Event, u: UserId)
    requires Enabled(s, e) && u in s.suspended && e != Reactivate(u)
    ensures u in Next(s, e).suspended
    ensures |Live(Next(s, e), u)| + |InFlight(Next(s, e), u)| <= |Live(s, u)| + |InFlight(s, u)|
  {
    var t := Next(s, e);
    if e.Create? && e.p in InFlight(s, u) {
      LandingAdds(s, e, u);
      LandingLeaves(s, e, u);
    } else {
      OthersShrink(s, e, u);
      SubsetCardinality(Live(t, u), Live(s, u));
      SubsetCardinality(InFlight(t, u), InFlight(s, u));
    }
  }

  /** While a user stays suspended, sessions plus issuances in flight never grow. */
  lemma {:induction false} SuspendedDrains(s: State, es: seq<Event>, u: UserId)
    requires IsRun(s, es) && u in s.suspended && Reactivate(u) !in es
    ensures |Live(After(s, es), u)| + |InFlight(After(s, es), u)| <= |Live(s, u)| + |InFlight(s, u)|
    decreases |es|
  {
    if es != [] {
      SuspendedStep(s, es[0], u);
      SuspendedDrains(Next(s, es[0]), es[1..], u);
    }
  }

  lemma FreshId(m: map<SessionId, Session>) returns (id: SessionId)
    ensures id !in m
  {
    var ids := m.Keys;
    id := 0;
    while ids != {}
      invariant ids <= m.Keys
      invariant forall x :: x in m && x !in ids ==> x < id
      decreases |ids|
    {
      var x :| x in ids;
      ids := ids - {x};
      if x >= id { id := x + 1; }
    }
  }

  /** A request in flight when the sessions were dropped can still land a session. */
  lemma StragglerLands(s: State, u: UserId, p: RequestId) returns (es: seq<Event>)
    requires Live(s, u) == {} && p in InFlight(s, u)
    ensures IsRun(s, es) && Reactivate(u) !in es && Live(After(s, es), u) != {}
  {
    var s1 := s;
    es := [];
    if s.issuances[p].phase.Checked? {
      s1 := Next(s, List(p, []));
      Extend(s, es, List(p, []), _ => true);
      es := es + [List(p, [])];
    }
    if s1.issuances[p].phase.Listed? {
      Extend(s, es, Trim(p), _ => true);
      es := es + [Trim(p)];
      s1 := Next(s1, Trim(p));
    }
    var id := FreshId(s1.sessions);
    Extend(s, es, Create(p, id, 0), _ => true);
    es := es + [Create(p, id, 0)];
    assert id in Live(After(s, es), u);
  }

  /** A suspension is final, until the user is reactivated, exactly when no issuance
      for the user was in flight when the sessions were dropped. */
  lemma SuspensionIsFinalIff(s: State, u: UserId)
    requires u in s.suspended
    ensures var t := Next(s, DropSessions(u));
      (forall es :: IsRun(t, es) && Reactivate(u) !in es ==> Live(After(t, es), u) == {})
      <==> InFlight(s, u) == {}
  {
    var t := Next(s, DropSessions(u));
    assert InFlight(t, u) == InFlight(s, u) && Live(t, u) == {};
    if InFlight(s, u) == {} {
      forall es | IsRun(t, es) && Reactivate(u) !in es ensures Live(After(t, es), u) == {} {
        SuspendedDrains(t, es, u);
      }
    } else {
      var p :| p in InFlight(s, u);
      var es := StragglerLands(t, u, p);
    }
  }

  // ---- Who may begin a sign-in ----

  ghost predicate SuspendedAt(es: seq<Event>, u: UserId, i: int) {
    0 <= i < |es| && es[i] == MarkSuspended(u) && Reactivate(u) !in es[i + 1..]
  }

  /** The run marked the user suspended and has not reactivated them since. */
  ghost predicate LeftSuspended(es: seq<Event>, u: UserId) {
    exists i :: SuspendedAt(es, u, i)
  }

  lemma LeftSuspendedCons(e: Event, rest: seq<Event>, u: UserId)
    ensures LeftSuspended([e] + rest, u) <==>
              LeftSuspended(rest, u) || (e == MarkSuspended(u) && Reactivate(u) !in rest)
  {
    var es := [e] + rest;
    assert es[0 + 1..] == rest;
    assert SuspendedAt(es, u, 0) <==> e == MarkSuspended(u) && Reactivate(u) !in rest;
    forall i | 0 <= i < |rest| ensures SuspendedAt(es, u, i + 1) <==> SuspendedAt(rest, u, i) {
      assert es[i + 1 + 1..] == rest[i + 1..];
    }
    if LeftSuspended(es, u) {
      var i :| SuspendedAt(es, u, i);
      if i > 0 { assert SuspendedAt(rest, u, i - 1); }
    }
    if LeftSuspended(rest, u) {
      var i :| SuspendedAt(rest, u, i);
      assert SuspendedAt(es, u, i + 1);
    }
  }

  /** A user is suspended exactly if the last word on them was a suspension. */
  lemma {:induction false} StatusFollowsRun(s: State, es: seq<Event>, u: UserId)
    ensures u in After(s, es).suspended <==> LeftSuspended(es, u) || (u in s.suspended && Reactivate(u) !in es)
    decreases |es|
  {
    if es != [] {
      StatusFollowsRun(Next(s, es[0]), es[1..], u);
      LeftSuspendedCons(es[0], es[1..], u);
      assert es == [es[0]] + es[1..];
    }
  }

  /** After any run, a sign-in of a user can begin if and only if no suspension of theirs is
      without a later reactivation. */
  lemma SignInBeginsIff(es: seq<Event>, p: RequestId, u: UserId)
    requires IsRun(Empty, es) && p !in After(Empty, es).issuances
    ensures Enabled(After(Empty, es), Begin(p, u)) <==> !LeftSuspended(es, u)
  {
    StatusFollowsRun(Empty, es, u);
  }
}
