/**
 The search pipeline: which sources a request may query, and the merge of their answers.
 Each source is limited on its own, then everything is concatenated, sorted by rank and
 creation time and limited again; rows of equal rank and time may come in any order.
 Text matching and ranking are facts of a row here.
 */
module SearchMerge {
  import opened Wrappers

  type UserId = nat
  type WorkspaceId = nat

  datatype Kind =
    | WORKSPACE | MESSAGE | FILE | FILE_COMMENT
    | SHARED_TASK | PRIVATE_TASK | SHARED_LINK | WHITEBOARD_COMMENT

  datatype Hit = Hit(
    kind: Kind,
    id: nat,
    workspace: Option<WorkspaceId>,
    workspaceName: Option<string>,
    rank: real,
    createdAt: int)

  // ---- Ordering ----

  /** The sort's comparison function. */
  function Compare(a: Hit, b: Hit): real {
    if b.rank - a.rank != 0.0 then b.rank - a.rank else (b.createdAt - a.createdAt) as real
  }

  /** Rank first, the more recent row on a tie. */
  predicate NotAfter(a: Hit, b: Hit) {
    b.rank < a.rank || (b.rank == a.rank && b.createdAt <= a.createdAt)
  }

  /** The comparison function orders by rank and then by time. */
  lemma CompareOrders(a: Hit, b: Hit)
    ensures Compare(a, b) <= 0.0 <==> NotAfter(a, b)
    ensures Compare(a, b) == 0.0 <==> SameKey(a, b)
  {
    assert b.rank - a.rank == 0.0 <==> a.rank == b.rank;
  }

  predicate Sorted(xs: seq<Hit>) {
    forall i, j :: 0 <= i < j < |xs| ==> NotAfter(xs[i], xs[j])
  }

  /** A stable sort. */
  function Insert(x: Hit, xs: seq<Hit>): (r: seq<Hit>)
    ensures |r| == |xs| + 1
  {
    if xs == [] then [x] else if NotAfter(x, xs[0]) then [x] + xs else [xs[0]] + Insert(x, xs[1..])
  }

  function Sort(xs: seq<Hit>): (r: seq<Hit>)
    ensures |r| == |xs|
  {
    if xs == [] then [] else Insert(xs[0], Sort(xs[1..]))
  }

  lemma {:induction false} InsertSorts(x: Hit, xs: seq<Hit>)
    requires Sorted(xs)
    ensures Sorted(Insert(x, xs)) && multiset(Insert(x, xs)) == multiset{x} + multiset(xs)
    decreases |xs|
  {
    if xs != [] {
      assert xs == [xs[0]] + xs[1..];
      if !NotAfter(x, xs[0]) {
        InsertSorts(x, xs[1..]);
        var r := Insert(x, xs[1..]);
        forall j | 0 <= j < |r| ensures NotAfter(xs[0], r[j]) {
          assert r[j] in multiset(r);
          assert r[j] == x || r[j] in xs[1..];
        }
      } else {
        forall j | 0 <= j < |xs| ensures NotAfter(x, xs[j]) { if j > 0 { assert NotAfter(xs[0], xs[j]); } }
      }
    }
  }

  lemma {:induction false} SortSorts(xs: seq<Hit>)
    ensures Sorted(Sort(xs)) && multiset(Sort(xs)) == multiset(xs)
    decreases |xs|
  {
    if xs != [] {
      SortSorts(xs[1..]);
      InsertSorts(xs[0], Sort(xs[1..]));
      assert xs == [xs[0]] + xs[1..];
    }
  }

  // ---- What ORDER BY ... LIMIT promises ----

  /** `r` is a first page of `rows`: sorted, as long as it may be, and nothing left out
      comes before anything in it. */
  ghost predicate IsTop(r: seq<Hit>, rows: multiset<Hit>, limit: nat) {
    && Sorted(r)
    && multiset(r) <= rows
    && |r| == Min(limit, |rows|)
    && (forall x, y :: x in rows - multiset(r) && y in r ==> NotAfter(y, x))
  }

  lemma SubmultisetSize(m: multiset<Hit>, n: multiset<Hit>)
    requires m <= n
    ensures |m| <= |n|
  {
    assert n == m + (n - m);
  }

  predicate SameKey(a: Hit, b: Hit) {
    a.rank == b.rank && a.createdAt == b.createdAt
  }

  lemma SuffixAfter(q: seq<Hit>, k: nat, x: Hit)
    requires Sorted(q) && k < |q| && x in q[k..]
    ensures NotAfter(q[k], x)
  {
    var j :| 0 <= j < |q[k..]| && q[k..][j] == x;
    assert q[k + j] == x;
  }

  lemma PrefixAhead(r: seq<Hit>, k: nat, z: Hit, x: Hit)
    requires Sorted(r) && k < |r| && !NotAfter(z, r[k]) && x in r[..k + 1]
    ensures !NotAfter(z, x)
  {
    var j :| 0 <= j < |r[..k + 1]| && r[..k + 1][j] == x;
    assert j < k ==> NotAfter(r[j], r[k]);
  }

  ghost predicate AllAhead(m: multiset<Hit>, z: Hit) {
    forall x :: x in m ==> !NotAfter(z, x)
  }

  /** Only k rows fit ahead of position k. */
  lemma AheadFits(q: seq<Hit>, k: nat, m: multiset<Hit>)
    requires Sorted(q) && k < |q| && m <= multiset(q) && AllAhead(m, q[k])
    ensures |m| <= k
  {
    assert q == q[..k] + q[k..];
    forall x | x in m ensures x !in q[k..] {
      if x in q[k..] { SuffixAfter(q, k, x); }
    }
    SubmultisetSize(m, multiset(q[..k]));
  }

  lemma AheadIsTaken(q: seq<Hit>, rows: multiset<Hit>, limit: nat, k: nat, m: multiset<Hit>)
    requires IsTop(q, rows, limit) && k < |q| && m <= rows && AllAhead(m, q[k])
    ensures m <= multiset(q)
  {
    assert q[k] in q;
    forall x ensures m[x] <= multiset(q)[x] {
      assert m[x] > multiset(q)[x] ==> x in rows - multiset(q) && x in m;
    }
  }

  lemma TopNotLater(r: seq<Hit>, q: seq<Hit>, rows: multiset<Hit>, limit: nat, k: nat)
    requires IsTop(r, rows, limit) && IsTop(q, rows, limit) && k < |r|
    ensures NotAfter(q[k], r[k])
  {
    if !NotAfter(q[k], r[k]) {
      var first := multiset(r[..k + 1]);
      assert r == r[..k + 1] + r[k + 1..];
      forall x | x in first ensures !NotAfter(q[k], x) { PrefixAhead(r, k, q[k], x); }
      AheadIsTaken(q, rows, limit, k, first);
      AheadFits(q, k, first);
    }
  }

  /** A first page is determined up to rows of equal rank and time. */
  lemma TopIsUnique(r: seq<Hit>, q: seq<Hit>, rows: multiset<Hit>, limit: nat)
    requires IsTop(r, rows, limit) && IsTop(q, rows, limit)
    ensures |r| == |q| && forall k :: 0 <= k < |r| ==> SameKey(r[k], q[k])
  {
    forall k | 0 <= k < |r| ensures SameKey(r[k], q[k]) {
      TopNotLater(r, q, rows, limit, k);
      TopNotLater(q, r, rows, limit, k);
    }
  }

  lemma SplitParts(s: seq<Hit>, n: nat)
    requires n <= |s|
    ensures multiset(s[..n]) <= multiset(s) && multiset(s) - multiset(s[..n]) == multiset(s[n..])
  {
    assert s == s[..n] + s[n..];
  }

  lemma CutKeepsOrder(all: seq<Hit>, n: nat, x: Hit, y: Hit)
    requires Sorted(all) && n <= |all| && x in all[n..] && y in all[..n]
    ensures NotAfter(y, x)
  {
    var i :| 0 <= i < |all[..n]| && all[..n][i] == y;
    SuffixAfter(all, i, x) by { assert all[i..][n - i..] == all[n..]; }
  }

  /** Any sort of the rows, cut, is a first page. */
  lemma SortedCutIsTop(all: seq<Hit>, limit: nat)
    requires Sorted(all)
    ensures IsTop(all[..Min(limit, |all|)], multiset(all), limit)
  {
    var n := Min(limit, |all|);
    SplitParts(all, n);
    forall x, y | x in multiset(all) - multiset(all[..n]) && y in all[..n] ensures NotAfter(y, x) {
      CutKeepsOrder(all, n, x, y);
    }
  }

  // ---- Pushing the limit into the sources ----

  function Flat(xss: seq<seq<Hit>>): seq<Hit> {
    if xss == [] then [] else xss[0] + Flat(xss[1..])
  }

  /** Each source answers with a first page of its rows. */
  ghost predicate AnswersAll(answers: seq<seq<Hit>>, sources: seq<seq<Hit>>, limit: nat)
    decreases |answers|
  {
    if answers == [] || sources == [] then answers == [] && sources == []
    else IsTop(answers[0], multiset(sources[0]), limit) && AnswersAll(answers[1..], sources[1..], limit)
  }

  lemma {:induction false} FlatFacts(answers: seq<seq<Hit>>, sources: seq<seq<Hit>>, limit: nat)
    requires AnswersAll(answers, sources, limit)
    ensures multiset(Flat(answers)) <= multiset(Flat(sources))
    ensures Min(limit, |Flat(answers)|) == Min(limit, |Flat(sources)|)
    decreases |answers|
  {
    if answers != [] {
      FlatFacts(answers[1..], sources[1..], limit);
      SubmultisetSize(multiset(Flat(answers[1..])), multiset(Flat(sources[1..])));
    }
  }

  lemma FullWhenLeftOut(r: seq<Hit>, rows: multiset<Hit>, limit: nat, x: Hit)
    requires IsTop(r, rows, limit) && rows[x] > multiset(r)[x]
    ensures |r| == limit
  {
    var left := rows - multiset(r);
    assert rows == multiset(r) + left && x in left;
    assert left == (left - multiset{x}) + multiset{x};
  }

  /** A row some source left out was beaten there by a full page. */
  lemma {:induction false} LeftOutAtSource(answers: seq<seq<Hit>>, sources: seq<seq<Hit>>, limit: nat, x: Hit)
    returns (page: seq<Hit>)
    requires AnswersAll(answers, sources, limit)
    requires multiset(Flat(sources))[x] > multiset(Flat(answers))[x]
    ensures |page| == limit && multiset(page) <= multiset(Flat(answers)) && forall y :: y in page ==> NotAfter(y, x)
    decreases |answers|
  {
    assert multiset(Flat(answers)) == multiset(answers[0]) + multiset(Flat(answers[1..]));
    assert multiset(Flat(sources)) == multiset(sources[0]) + multiset(Flat(sources[1..]));
    assert IsTop(answers[0], multiset(sources[0]), limit);
    if multiset(sources[0])[x] > multiset(answers[0])[x] {
      page := answers[0];
      assert x in multiset(sources[0]) - multiset(page);
      FullWhenLeftOut(page, multiset(sources[0]), limit, x);
    } else {
      page := LeftOutAtSource(answers[1..], sources[1..], limit, x);
    }
  }

  lemma BeatersAhead(page: seq<Hit>, x: Hit, y: Hit)
    requires (forall z :: z in page ==> NotAfter(z, x)) && !NotAfter(y, x)
    ensures AllAhead(multiset(page), y)
  {
    forall z | z in multiset(page) ensures !NotAfter(y, z) { assert z in page; }
  }

  /** A row that loses to a full page of the merged rows loses to the final page. */
  lemma BeatenByPage(all: seq<Hit>, limit: nat, page: seq<Hit>, x: Hit, i: nat)
    requires Sorted(all) && |page| == limit && multiset(page) <= multiset(all)
    requires forall z :: z in page ==> NotAfter(z, x)
    requires i < Min(limit, |all|)
    ensures NotAfter(all[i], x)
  {
    if !NotAfter(all[i], x) {
      BeatersAhead(page, x, all[i]);
      AheadFits(all, i, multiset(page));
    }
  }

  lemma LeftOutLoses(answers: seq<seq<Hit>>, sources: seq<seq<Hit>>, limit: nat, all: seq<Hit>, x: Hit, i: nat)
    requires AnswersAll(answers, sources, limit) && Sorted(all) && multiset(all) == multiset(Flat(answers))
    requires multiset(Flat(sources))[x] > multiset(Flat(answers))[x] && i < Min(limit, |all|)
    ensures NotAfter(all[i], x)
  {
    var page := LeftOutAtSource(answers, sources, limit, x);
    BeatenByPage(all, limit, page, x, i);
  }

  /** Limiting every source on its own loses nothing: for any number of sources and
      rows, merging their first pages, sorting in any way and cutting gives a first page
      of all rows of all sources. */
  lemma MergeOfTopsIsTop(answers: seq<seq<Hit>>, sources: seq<seq<Hit>>, limit: nat, all: seq<Hit>)
    requires AnswersAll(answers, sources, limit) && Sorted(all) && multiset(all) == multiset(Flat(answers))
    ensures IsTop(all[..Min(limit, |all|)], multiset(Flat(sources)), limit)
  {
    var rows := multiset(Flat(sources));
    var r := all[..Min(limit, |all|)];
    FlatFacts(answers, sources, limit);
    SortedCutIsTop(all, limit);
    assert |all| == |multiset(all)| == |Flat(answers)|;
    forall x, y | x in rows - multiset(r) && y in r ensures NotAfter(y, x) {
      if rows[x] > multiset(all)[x] {
        var i :| 0 <= i < |r| && r[i] == y;
        LeftOutLoses(answers, sources, limit, all, x, i);
      } else {
        assert x in multiset(all) - multiset(r);
      }
    }
  }

  // ---- The request ----

  datatype Workspace = Workspace(id: WorkspaceId, name: string, owner: UserId, members: set<UserId>)

  /** A row that could be found: its text match, the owner of a private task, and
      whether the file it is or belongs to is in trash. */
  datatype Row = Row(hit: Hit, matches: bool, owner: UserId, trashed: bool)

  datatype Request = Request(user: UserId, isClient: bool, scope: Option<WorkspaceId>, types: set<Kind>, limit: nat)

  datatype SearchError = NotFound | Forbidden

  predicate IsMember(w: Workspace, u: UserId) {
    w.owner == u || u in w.members
  }

  function Filter<T>(xs: seq<T>, p: T -> bool): seq<T> {
    if xs == [] then [] else (if p(xs[0]) then [xs[0]] else []) + Filter(xs[1..], p)
  }

  lemma {:induction false} FilterMembers<T>(xs: seq<T>, p: T -> bool, x: T)
    ensures x in Filter(xs, p) <==> x in xs && p(x)
    decreases |xs|
  {
    if xs != [] {
      FilterMembers(xs[1..], p, x);
      assert xs == [xs[0]] + xs[1..];
    }
  }

  function ResolveAccessibleWorkspaces(all: seq<Workspace>, u: UserId,
                                       scope: Option<WorkspaceId>): Result<seq<Workspace>, SearchError> {
    match scope
    case None => Ok(Filter(all, w => IsMember(w, u)))
    case Some(id) =>
      var found := Filter(all, (w: Workspace) => w.id == id);
      if found == [] then Err(NotFound)
      else if !IsMember(found[0], u) then Err(Forbidden)
      else Ok([found[0]])
  }

  const ALL_KINDS :=
    [WORKSPACE, MESSAGE, FILE, FILE_COMMENT, SHARED_TASK, SHARED_LINK, WHITEBOARD_COMMENT, PRIVATE_TASK]

  /** The sources that are queried, in order. */
  predicate Queries(req: Request, accessible: seq<Workspace>, k: Kind) {
    && (req.types == {} || k in req.types)
    && (if k == PRIVATE_TASK then !req.isClient
        else |accessible| > 0 && (k == WORKSPACE ==> req.scope.None?))
  }

  function Jobs(req: Request, accessible: seq<Workspace>): seq<Kind> {
    Filter(ALL_KINDS, k => Queries(req, accessible, k))
  }

  predicate InScope(req: Request, accessible: seq<Workspace>, k: Kind, row: Row) {
    && row.hit.kind == k && row.matches
    && (if k == PRIVATE_TASK
        then row.owner == req.user && (req.scope.Some? ==> row.hit.workspace == req.scope)
        else row.hit.workspace.Some? && (exists w :: w in accessible && w.id == row.hit.workspace.value)
             && (k == FILE || k == FILE_COMMENT ==> !row.trashed))
  }

  function Hits(rows: seq<Row>): seq<Hit> {
    if rows == [] then [] else [rows[0].hit] + Hits(rows[1..])
  }

  /** All rows of one source that the query without its LIMIT would return. */
  function Source(req: Request, accessible: seq<Workspace>, rows: seq<Row>, k: Kind): seq<Hit> {
    Hits(Filter(rows, row => InScope(req, accessible, k, row)))
  }

  function Sources(req: Request, accessible: seq<Workspace>, rows: seq<Row>, jobs: seq<Kind>): seq<seq<Hit>> {
    if jobs == [] then [] else [Source(req, accessible, rows, jobs[0])] + Sources(req, accessible, rows, jobs[1..])
  }

  function NameOf(ws: seq<Workspace>, id: WorkspaceId): Option<string> {
    if ws == [] then None else if ws[0].id == id then Some(ws[0].name) else NameOf(ws[1..], id)
  }

  function Named(ws: seq<Workspace>, h: Hit): Hit {
    h.(workspaceName := if h.workspace.Some? then NameOf(ws, h.workspace.value) else None)
  }

  /** A hit carries the name of the workspace it lies in, and none if that is not one of `ws`. */
  ghost predicate NamedFrom(ws: seq<Workspace>, h: Hit) {
    if h.workspaceName.Some?
    then exists w :: w in ws && h.workspace == Some(w.id) && h.workspaceName == Some(w.name)
    else forall w :: w in ws ==> h.workspace != Some(w.id)
  }

  lemma {:induction false} NameOfFinds(ws: seq<Workspace>, id: WorkspaceId)
    ensures NameOf(ws, id).Some? ==> exists w :: w in ws && w.id == id && NameOf(ws, id) == Some(w.name)
    ensures NameOf(ws, id).None? ==> forall w :: w in ws ==> w.id != id
    decreases |ws|
  {
    if ws != [] {
      NameOfFinds(ws[1..], id);
      assert ws == [ws[0]] + ws[1..];
      assert ws[0] in ws;
    }
  }

  lemma NamedIsNamedFrom(ws: seq<Workspace>, h: Hit)
    ensures NamedFrom(ws, Named(ws, h)) && Named(ws, h) == h.(workspaceName := Named(ws, h).workspaceName)
  {
    if h.workspace.Some? { NameOfFinds(ws, h.workspace.value); }
  }

  function NameAll(ws: seq<Workspace>, hs: seq<Hit>): (r: seq<Hit>)
    ensures |r| == |hs| && forall i :: 0 <= i < |hs| ==> r[i] == Named(ws, hs[i])
  {
    seq(|hs|, i requires 0 <= i < |hs| => Named(ws, hs[i]))
  }

  /** The tail of the pipeline: flat, map, sort, slice. */
  function Results(accessible: seq<Workspace>, answers: seq<seq<Hit>>, limit: nat): seq<Hit> {
    var sorted := Sort(NameAll(accessible, Flat(answers)));
    sorted[..Min(limit, |sorted|)]
  }

  lemma {:induction false} NamingInsert(ws: seq<Workspace>, x: Hit, xs: seq<Hit>)
    ensures Insert(Named(ws, x), NameAll(ws, xs)) == NameAll(ws, Insert(x, xs))
    decreases |xs|
  {
    if xs != [] {
      NamingInsert(ws, x, xs[1..]);
      assert NameAll(ws, xs)[1..] == NameAll(ws, xs[1..]);
    }
  }

  /** Filling in workspace names does not disturb the order. */
  lemma {:induction false} NamingSorts(ws: seq<Workspace>, xs: seq<Hit>)
    ensures Sort(NameAll(ws, xs)) == NameAll(ws, Sort(xs))
    decreases |xs|
  {
    if xs != [] {
      NamingSorts(ws, xs[1..]);
      assert NameAll(ws, xs)[1..] == NameAll(ws, xs[1..]);
      NamingInsert(ws, xs[0], Sort(xs[1..]));
    }
  }

  lemma {:induction false} HitsOf(rows: seq<Row>, h: Hit)
    ensures h in Hits(rows) <==> exists row :: row in rows && row.hit == h
    decreases |rows|
  {
    if rows != [] {
      HitsOf(rows[1..], h);
      assert rows == [rows[0]] + rows[1..];
      assert rows[0] in rows;
    }
  }

  /** Some row of one source has this hit. */
  ghost predicate FoundBy(req: Request, accessible: seq<Workspace>, rows: seq<Row>, k: Kind, h: Hit) {
    exists row :: row in rows && row.hit == h && InScope(req, accessible, k, row)
  }

  lemma SourceHits(req: Request, accessible: seq<Workspace>, rows: seq<Row>, k: Kind, h: Hit)
    ensures h in Source(req, accessible, rows, k) <==> FoundBy(req, accessible, rows, k, h)
  {
    var p := row => InScope(req, accessible, k, row);
    var kept := Filter(rows, p);
    HitsOf(kept, h);
    forall row ensures row in kept <==> row in rows && InScope(req, accessible, k, row) { FilterMembers(rows, p, row); }
  }

  lemma {:induction false} SourcesHits(req: Request, accessible: seq<Workspace>, rows: seq<Row>, jobs: seq<Kind>,
                                       h: Hit)
    ensures h in Flat(Sources(req, accessible, rows, jobs)) <==>
              exists k :: k in jobs && FoundBy(req, accessible, rows, k, h)
    decreases |jobs|
  {
    if jobs != [] {
      assert Sources(req, accessible, rows, jobs)[1..] == Sources(req, accessible, rows, jobs[1..]);
      SourceHits(req, accessible, rows, jobs[0], h);
      SourcesHits(req, accessible, rows, jobs[1..], h);
      assert jobs == [jobs[0]] + jobs[1..];
    }
  }

  /** The sources asked, in any order: of those the request names, private tasks unless it
      comes from a client, and the others if there is a workspace to read from. */
  ghost predicate AsksFor(req: Request, accessible: seq<Workspace>, jobs: seq<Kind>) {
    forall k :: k in jobs <==>
      && (req.types == {} || k in req.types)
      && (k == PRIVATE_TASK ==> !req.isClient)
      && (k != PRIVATE_TASK ==> accessible != [])
      && (k == WORKSPACE ==> req.scope.None?)
  }

  lemma AllKindsListed(k: Kind)
    ensures k in ALL_KINDS
  {
    assert ALL_KINDS[0] == WORKSPACE && ALL_KINDS[1] == MESSAGE && ALL_KINDS[2] == FILE;
    assert ALL_KINDS[3] == FILE_COMMENT && ALL_KINDS[4] == SHARED_TASK && ALL_KINDS[5] == SHARED_LINK;
    assert ALL_KINDS[6] == WHITEBOARD_COMMENT && ALL_KINDS[7] == PRIVATE_TASK;
  }

  lemma JobsQuery(req: Request, accessible: seq<Workspace>, k: Kind)
    ensures k in Jobs(req, accessible) <==> Queries(req, accessible, k)
  {
    AllKindsListed(k);
    FilterMembers(ALL_KINDS, k => Queries(req, accessible, k), k);
  }

  lemma JobsAskFor(req: Request, accessible: seq<Workspace>)
    ensures AsksFor(req, accessible, Jobs(req, accessible))
  {
    forall k: Kind ensures k in Jobs(req, accessible) <==> Queries(req, accessible, k) {
      JobsQuery(req, accessible, k);
    }
  }

  // ---- What may be found ----

  predicate Reaches(req: Request, w: Workspace) {
    (w.owner == req.user || req.user in w.members) && (req.scope.None? || req.scope.value == w.id)
  }

  /** What a request is entitled to, without mention of sources: a private task is found
      by its owner only, and never by a client; anything else by the owner and members of
      its workspace, unless it lies in trash; a workspace only by a global search. */
  ghost predicate Findable(req: Request, all: seq<Workspace>, row: Row) {
    && row.matches
    && (req.types == {} || row.hit.kind in req.types)
    && (if row.hit.kind == PRIVATE_TASK
        then row.owner == req.user && !req.isClient && (req.scope.Some? ==> row.hit.workspace == req.scope)
        else && (exists w :: w in all && Reaches(req, w) && row.hit.workspace == Some(w.id))
             && (row.hit.kind == FILE || row.hit.kind == FILE_COMMENT ==> !row.trashed)
             && (row.hit.kind == WORKSPACE ==> req.scope.None?))
  }

  predicate UniqueIds(all: seq<Workspace>) {
    forall i, j :: 0 <= i < j < |all| ==> all[i].id != all[j].id
  }

  /** The workspaces a request that is let through reads from. */
  function Accessible(req: Request, all: seq<Workspace>): seq<Workspace> {
    var resolved := ResolveAccessibleWorkspaces(all, req.user, req.scope);
    if resolved.Ok? then resolved.value else []
  }

  /** Some row with this hit is one the request may find. */
  ghost predicate Entitled(req: Request, all: seq<Workspace>, rows: seq<Row>, h: Hit) {
    exists row :: row in rows && row.hit == h && Findable(req, all, row)
  }

  /** A search is let through without a scope, or for a workspace its user owns or has
      joined; otherwise it says whether there is such a workspace. */
  lemma LetThroughIff(all: seq<Workspace>, u: UserId, scope: Option<WorkspaceId>)
    requires UniqueIds(all)
    ensures var r := ResolveAccessibleWorkspaces(all, u, scope);
      && (r.Ok? <==>
            scope.None? || exists w :: w in all && w.id == scope.value && (w.owner == u || u in w.members))
      && (r == Err(NotFound) <==> scope.Some? && forall w :: w in all ==> w.id != scope.value)
      && (r == Err(Forbidden) <==>
            && scope.Some? && (exists w :: w in all && w.id == scope.value)
            && (forall w :: w in all && w.id == scope.value ==> w.owner != u && u !in w.members))
  {
    if scope.Some? {
      var p := (w: Workspace) => w.id == scope.value;
      var found := Filter(all, p);
      forall w ensures w in found <==> w in all && w.id == scope.value { FilterMembers(all, p, w); }
      if found != [] { assert found[0] in found; }
    }
  }

  lemma AccessibleExactly(all: seq<Workspace>, req: Request, w: Workspace)
    requires UniqueIds(all) && ResolveAccessibleWorkspaces(all, req.user, req.scope).Ok?
    ensures w in ResolveAccessibleWorkspaces(all, req.user, req.scope).value <==>
              && w in all && (w.owner == req.user || req.user in w.members)
              && (req.scope.Some? ==> w.id == req.scope.value)
  {
    var u := req.user;
    if req.scope.None? {
      FilterMembers(all, w => IsMember(w, u), w);
    } else {
      var p := (w: Workspace) => w.id == req.scope.value;
      var found := Filter(all, p);
      FilterMembers(all, p, w);
      FilterMembers(all, p, found[0]);
    }
  }

  lemma InScopeIsFindable(req: Request, all: seq<Workspace>, row: Row)
    requires UniqueIds(all) && ResolveAccessibleWorkspaces(all, req.user, req.scope).Ok?
    ensures var accessible := ResolveAccessibleWorkspaces(all, req.user, req.scope).value;
      Findable(req, all, row) <==> Queries(req, accessible, row.hit.kind) && InScope(req, accessible, row.hit.kind, row)
  {
    var accessible := ResolveAccessibleWorkspaces(all, req.user, req.scope).value;
    forall w ensures w in accessible <==> w in all && Reaches(req, w) { AccessibleExactly(all, req, w); }
  }

  /** The sources together offer exactly what the request is entitled to. */
  lemma SourcesAreFindable(req: Request, all: seq<Workspace>, rows: seq<Row>, jobs: seq<Kind>, h: Hit)
    requires UniqueIds(all) && ResolveAccessibleWorkspaces(all, req.user, req.scope).Ok?
    requires AsksFor(req, Accessible(req, all), jobs)
    ensures h in Flat(Sources(req, Accessible(req, all), rows, jobs)) <==> Entitled(req, all, rows, h)
  {
    var accessible := Accessible(req, all);
    SourcesHits(req, accessible, rows, jobs, h);
    assert forall k :: k in jobs <==> Queries(req, accessible, k);
    forall row
      ensures Findable(req, all, row) <==>
                Queries(req, accessible, row.hit.kind) && InScope(req, accessible, row.hit.kind, row)
    {
      InScopeIsFindable(req, all, row);
    }
  }

  ghost predicate NamesTop(results: seq<Hit>, accessible: seq<Workspace>, all: seq<Hit>, limit: nat) {
    exists page :: IsTop(page, multiset(all), limit) && results == NameAll(accessible, page)
  }

  lemma ResultsNameCut(accessible: seq<Workspace>, answers: seq<seq<Hit>>, limit: nat)
    ensures Results(accessible, answers, limit) ==
              NameAll(accessible, Sort(Flat(answers))[..Min(limit, |Flat(answers)|)])
  {
    NamingSorts(accessible, Flat(answers));
  }

  /** Whatever pages the sources answer with, the response is a first page of all their
      rows, with workspace names filled in. */
  lemma SearchIsTop(accessible: seq<Workspace>, answers: seq<seq<Hit>>, sources: seq<seq<Hit>>, limit: nat)
    requires AnswersAll(answers, sources, limit)
    ensures NamesTop(Results(accessible, answers, limit), accessible, Flat(sources), limit)
  {
    SortSorts(Flat(answers));
    MergeOfTopsIsTop(answers, sources, limit, Sort(Flat(answers)));
    ResultsNameCut(accessible, answers, limit);
  }

  /** The page is full, of rows none of which the common order puts after this one. */
  ghost predicate BeatenBy(page: seq<Hit>, limit: nat, h: Hit) {
    |page| == limit && forall y :: y in page ==> NotAfter(y, h)
  }

  /** A first page lists offered rows only, and what it leaves out loses to a full page. */
  lemma TopMembers(page: seq<Hit>, all: seq<Hit>, limit: nat, h: Hit)
    requires IsTop(page, multiset(all), limit)
    ensures h in page ==> h in all
    ensures h in all && h !in page ==> BeatenBy(page, limit, h)
  {
    if h in page { assert h in multiset(page); }
    if h in all && h !in page {
      FullWhenLeftOut(page, multiset(all), limit, h);
      assert h in multiset(all) - multiset(page);
    }
  }

  function Response(req: Request, all: seq<Workspace>, answers: seq<seq<Hit>>): seq<Hit> {
    Results(Accessible(req, all), answers, req.limit)
  }

  /** A first page, with names, of the rows a requester is entitled to: it holds only such
      rows, in order and within the limit, and one left out loses to a full page. */
  ghost predicate IsPageOfEntitled(req: Request, all: seq<Workspace>, rows: seq<Row>, response: seq<Hit>) {
    exists page ::
      && response == NameAll(Accessible(req, all), page)
      && Sorted(page)
      && |page| <= req.limit
      && (forall h :: h in page ==> Entitled(req, all, rows, h))
      && (forall h :: Entitled(req, all, rows, h) ==> h in page || BeatenBy(page, req.limit, h))
  }

  /** The higher rank first, and of equal ranks the more recent row. */
  ghost predicate InOrder(response: seq<Hit>) {
    forall i, j :: 0 <= i < j < |response| ==>
      || response[i].rank > response[j].rank
      || (response[i].rank == response[j].rank && response[i].createdAt >= response[j].createdAt)
  }

  lemma NamesKeepOrder(ws: seq<Workspace>, page: seq<Hit>)
    requires Sorted(page)
    ensures InOrder(NameAll(ws, page)) && forall h :: h in NameAll(ws, page) ==> NamedFrom(ws, h)
  {
    var named := NameAll(ws, page);
    forall i, j | 0 <= i < j < |named|
      ensures named[i].rank > named[j].rank
              || (named[i].rank == named[j].rank && named[i].createdAt >= named[j].createdAt)
    {
      assert NotAfter(page[i], page[j]);
    }
    forall h | h in named ensures NamedFrom(ws, h) {
      var i :| 0 <= i < |named| && named[i] == h;
      NamedIsNamedFrom(ws, page[i]);
    }
  }

  lemma ResponseIsPageOfEntitled(req: Request, all: seq<Workspace>, rows: seq<Row>, jobs: seq<Kind>,
                                 answers: seq<seq<Hit>>)
    requires UniqueIds(all) && ResolveAccessibleWorkspaces(all, req.user, req.scope).Ok?
    requires AsksFor(req, Accessible(req, all), jobs)
    requires AnswersAll(answers, Sources(req, Accessible(req, all), rows, jobs), req.limit)
    ensures IsPageOfEntitled(req, all, rows, Response(req, all, answers))
    ensures InOrder(Response(req, all, answers)) && |Response(req, all, answers)| <= req.limit
    ensures forall h :: h in Response(req, all, answers) ==> NamedFrom(Accessible(req, all), h)
  {
    var accessible := Accessible(req, all);
    var offered := Flat(Sources(req, accessible, rows, jobs));
    SearchIsTop(accessible, answers, Sources(req, accessible, rows, jobs), req.limit);
    var page :| IsTop(page, multiset(offered), req.limit) && Response(req, all, answers) == NameAll(accessible, page);
    forall h
      ensures h in page ==> Entitled(req, all, rows, h)
      ensures Entitled(req, all, rows, h) ==> h in page || BeatenBy(page, req.limit, h)
    {
      SourcesAreFindable(req, all, rows, jobs, h);
      TopMembers(page, offered, req.limit, h);
    }
    NamesKeepOrder(accessible, page);
  }

  /** The workspace query orders by creation time alone; at its one constant rank that
      is the common order. */
  lemma ConstantRankOrdersByTime(xs: seq<Hit>, rank: real)
    requires forall i :: 0 <= i < |xs| ==> xs[i].rank == rank
    ensures Sorted(xs) <==> forall i, j :: 0 <= i < j < |xs| ==> xs[i].createdAt >= xs[j].createdAt
  {
    forall i, j | 0 <= i < j < |xs| ensures NotAfter(xs[i], xs[j]) <==> xs[i].createdAt >= xs[j].createdAt { }
  }
}
