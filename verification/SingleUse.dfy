/**
 Single-use tickets: a password-reset token is spent by the delete that precedes the
 password write, an exchange code by the delete that precedes everything else. Any
 number of requests for the same ticket interleave between look-up, delete and effect.
 The rules are stated for any reset row: the look-up does not read a row's type.
 */
module SingleUse {
  import opened Wrappers

  type RequestId = nat
  type UserId = nat

  datatype Ticket = ResetToken(id: nat) | ExchangeCode(id: nat)

  datatype Row = Row(user: UserId, expiresAt: int)

  /** A request that found its row; one whose delete removed the row. */
  datatype Phase = Found(ticket: Ticket, row: Row) | Holds(ticket: Ticket, row: Row)

  /** `minted` and `spent` are history: every ticket ever issued, and for each password
      write or session the ticket it came from. */
  datatype State = State(
    rows: map<Ticket, Row>,
    requests: map<RequestId, Phase>,
    suspended: set<UserId>,
    now: int,
    minted: set<Ticket>,
    spent: multiset<Ticket>)

  datatype Event =
    | Mint(ticket: Ticket, row: Row)
    | LookUp(p: RequestId, ticket: Ticket)
    | Reject(ticket: Ticket)
    | Consume(p: RequestId)
    | Finish(p: RequestId)
    | Abort(p: RequestId)
    | Sweep(tickets: set<Ticket>)
    | SetSuspended(users: set<UserId>)
    | Tick(d: nat)

  /** Tickets are fresh random values. Looking a reset token up is passing all its
      read-only checks, of which expiry is one; a code is looked up unchecked. */
  predicate Enabled(s: State, e: Event) {
    match e
    case Mint(ticket, _) => ticket !in s.minted
    case LookUp(p, ticket) =>
      p !in s.requests && ticket in s.rows && (ticket.ResetToken? ==> s.rows[ticket].expiresAt >= s.now)
    case Reject(ticket) => ticket.ResetToken?
    case Consume(p) => p in s.requests && s.requests[p].Found?
    case Finish(p) => p in s.requests && s.requests[p].Holds?
    case Abort(p) => p in s.requests
    case _ => true
  }

  /** What a held ticket is worth: a reset always writes, a code only if it has not
      expired and its user is active. */
  predicate Honoured(s: State, h: Phase) {
    h.ticket.ExchangeCode? ==> h.row.expiresAt >= s.now && h.row.user !in s.suspended
  }

  function Next(s: State, e: Event): State
    requires Enabled(s, e)
  {
    match e
    case Mint(ticket, row) => s.(rows := s.rows[ticket := row], minted := s.minted + {ticket})
    case LookUp(p, ticket) => s.(requests := s.requests[p := Found(ticket, s.rows[ticket])])
    case Reject(_) => s
    case Consume(p) =>
      var t := s.requests[p].ticket;
      if t in s.rows
      then s.(rows := s.rows - {t}, requests := s.requests[p := Holds(t, s.requests[p].row)])
      else s.(requests := s.requests - {p})
    case Finish(p) =>
      var h := s.requests[p];
      s.(requests := s.requests - {p}, spent := if Honoured(s, h) then s.spent + multiset{h.ticket} else s.spent)
    case Abort(p) => s.(requests := s.requests - {p})
    case Sweep(tickets) => s.(rows := s.rows - tickets)
    case SetSuspended(users) => s.(suspended := users)
    case Tick(d) => s.(now := s.now + d)
  }

  predicate IsRun(s: State, es: seq<Event>)
    decreases |es|
  {
    es != [] ==> Enabled(s, es[0]) && IsRun(Next(s, es[0]), es[1..])
  }

  function After(s: State, es: seq<Event>): State
    requires IsRun(s, es)
    decreases |es|
  {
    if es == [] then s else After(Next(s, es[0]), es[1..])
  }

  function Holders(s: State, t: Ticket): set<RequestId> {
    set p | p in s.requests && s.requests[p].Holds? && s.requests[p].ticket == t
  }

  /** How often the ticket's worth exists: as a row, with a request, or spent. */
  function Shares(s: State, t: Ticket): nat {
    (if t in s.rows then 1 else 0) + |Holders(s, t)| + s.spent[t]
  }

  lemma HoldersStep(s: State, e: Event, t: Ticket)
    requires Enabled(s, e)
    ensures Holders(Next(s, e), t) ==
            if e.Consume? && s.requests[e.p].ticket == t && t in s.rows then Holders(s, t) + {e.p}
            else if e.Finish? || e.Abort? then Holders(s, t) - {e.p}
            else Holders(s, t)
  {
  }

  /** Serving requests neither creates nor loses a ticket: its shares stay the same at
      every step but minting (one more), and clean-up, a failed request, or an expired
      or suspended exchange (at most as many). */
  lemma SharesAreConserved(s: State, e: Event, t: Ticket)
    requires Enabled(s, e)
    ensures var before, after := Shares(s, t), Shares(Next(s, e), t);
      && (e.Mint? && e.ticket == t ==> after <= before + 1)
      && (!(e.Mint? && e.ticket == t) ==> after <= before)
      && (e.LookUp? || e.Reject? || e.Consume? || e.Tick? || e.SetSuspended? || (e.Mint? && e.ticket != t) ==>
            after == before)
      && (e.Finish? && Honoured(s, s.requests[e.p]) ==> after == before)
  {
    HoldersStep(s, e, t);
    if e.Finish? || e.Abort? { SubsetCardinality(Holders(s, t) - {e.p}, Holders(s, t)); }
  }

  ghost predicate Inv(s: State) {
    forall t :: Shares(s, t) <= (if t in s.minted then 1 else 0)
  }

  const Initial := State(map[], map[], {}, 0, {}, multiset{})

  lemma {:induction false} RunKeeps(s: State, es: seq<Event>)
    requires Inv(s) && IsRun(s, es)
    ensures Inv(After(s, es))
    decreases |es|
  {
    if es != [] {
      forall t ensures Shares(Next(s, es[0]), t) <= (if t in Next(s, es[0]).minted then 1 else 0) {
        SharesAreConserved(s, es[0], t);
        assert Shares(s, t) <= (if t in s.minted then 1 else 0);
      }
      RunKeeps(Next(s, es[0]), es[1..]);
    }
  }

  /** Whatever the interleaving, one reset token leads to at most one password write
      and one exchange code to at most one session; a ticket once spent or held is gone
      from the table and held by nobody else. */
  lemma SpentAtMostOnce(es: seq<Event>, t: Ticket)
    requires IsRun(Initial, es)
    ensures var s := After(Initial, es);
      && s.spent[t] <= 1
      && |Holders(s, t)| <= 1
      && (s.spent[t] == 1 ==> t !in s.rows && Holders(s, t) == {})
      && (Holders(s, t) != {} ==> t !in s.rows)
  {
    forall x: Ticket ensures Shares(Initial, x) == 0 { assert Holders(Initial, x) == {}; }
    RunKeeps(Initial, es);
    assert Shares(After(Initial, es), t) <= 1;
  }

  /** However many requests found the row, the first delete wins and every other one
      ends without effect. */
  lemma OneDeleteWins(s: State, p: RequestId, q: RequestId)
    requires Inv(s) && p != q && Enabled(s, Consume(p)) && Enabled(s, Consume(q))
    requires s.requests[p].ticket == s.requests[q].ticket && s.requests[p].ticket in s.rows
    ensures var s' := Next(s, Consume(p));
      && Holders(s', s.requests[p].ticket) == {p}
      && Enabled(s', Consume(q))
      && Next(s', Consume(q)) == s'.(requests := s'.requests - {q})
  {
    assert Shares(s, s.requests[p].ticket) <= 1;
    HoldersStep(s, Consume(p), s.requests[p].ticket);
  }

  lemma UnheldStep(s: State, e: Event, t: Ticket)
    requires Enabled(s, e) && t in s.minted && t !in s.rows && Holders(s, t) == {}
    ensures var s' := Next(s, e);
      t in s'.minted && t !in s'.rows && Holders(s', t) == {} && s'.spent[t] == s.spent[t]
  {
    HoldersStep(s, e, t);
  }

  lemma {:induction false} UnheldRun(s: State, es: seq<Event>, t: Ticket)
    requires IsRun(s, es) && t in s.minted && t !in s.rows && Holders(s, t) == {}
    ensures After(s, es).spent[t] == s.spent[t]
    decreases |es|
  {
    if es != [] {
      UnheldStep(s, es[0], t);
      UnheldRun(Next(s, es[0]), es[1..], t);
    }
  }

  /** A ticket that is swept before any request got hold of it is never worth anything,
      even to the requests that have found its row. */
  lemma SweptIsNeverSpent(s: State, tickets: set<Ticket>, es: seq<Event>, t: Ticket)
    requires t in s.minted && t in tickets && Holders(s, t) == {} && IsRun(Next(s, Sweep(tickets)), es)
    ensures After(Next(s, Sweep(tickets)), es).spent[t] == s.spent[t]
  {
    HoldersStep(s, Sweep(tickets), t);
    UnheldRun(Next(s, Sweep(tickets)), es, t);
  }

  /** A fresh ticket can be looked up, a reset token for as long as its time lasts. */
  lemma MintedIsFound(s: State, ticket: Ticket, row: Row, d: nat, p: RequestId)
    requires Enabled(s, Mint(ticket, row)) && p !in s.requests
    ensures Enabled(Next(Next(s, Mint(ticket, row)), Tick(d)), LookUp(p, ticket)) <==>
              ticket.ExchangeCode? || s.now + d <= row.expiresAt
  {
  }

  /** A code in hand is worth nothing once its time has passed or its user is suspended. */
  lemma HeldTooLong(s: State, e: Event, p: RequestId)
    requires Enabled(s, Finish(p)) && s.requests[p].ticket.ExchangeCode?
    requires (e.Tick? && s.requests[p].row.expiresAt < s.now + e.d)
             || (e.SetSuspended? && s.requests[p].row.user in e.users)
    ensures Next(Next(s, e), Finish(p)).spent == s.spent
  {
  }

  // ---- Each operation run to completion ----

  datatype TicketError = Breached | InvalidTicket | ExpiredTicket | Reused | AccountSuspended

  /** Look-up, delete and effect, with nothing in between. */
  ghost predicate Serves(s: State, t: Ticket, s': State) {
    var es := [LookUp(0, t), Consume(0), Finish(0)];
    IsRun(s, es) && s' == After(s, es)
  }

  class TicketDesk {
    var rows: map<Ticket, Row>
    var suspended: set<UserId>
    var now: int
    ghost var minted: set<Ticket>
    ghost var spent: multiset<Ticket>

    ghost function Snapshot(): State
      reads this
    {
      State(rows, map[], suspended, now, minted, spent)
    }

    ghost predicate Valid()
      reads this
    {
      Inv(Snapshot())
    }

    /** A reset refused for a breached password, an expired or unknown token or a reused
        password leaves the row for another try; otherwise it is spent exactly once. */
    method ResetPassword(id: nat, breached: bool, userExists: bool, reused: bool)
      returns (r: Result<UserId, TicketError>)
      requires Valid()
      modifies this
      ensures Valid()
      ensures r.Err? ==> Snapshot() == old(Snapshot())
      ensures r == if breached then Err(Breached)
                   else if ResetToken(id) !in old(rows) then Err(InvalidTicket)
                   else if old(rows)[ResetToken(id)].expiresAt < now then Err(ExpiredTicket)
                   else if !userExists then Err(InvalidTicket)
                   else if reused then Err(Reused) else Ok(old(rows)[ResetToken(id)].user)
      ensures r.Ok? ==> rows == old(rows) - {ResetToken(id)} && spent == old(spent) + multiset{ResetToken(id)}
      ensures unchanged(this`suspended) && unchanged(this`now) && unchanged(this`minted)
      ensures r.Ok? ==> Serves(old(Snapshot()), ResetToken(id), Snapshot())
    {
      var t := ResetToken(id);
      ghost var s := Snapshot();
      if breached { return Err(Breached); }
      if t !in rows { return Err(InvalidTicket); }
      var row := rows[t];
      if row.expiresAt < now { return Err(ExpiredTicket); }
      if !userExists { return Err(InvalidTicket); }
      if reused { return Err(Reused); }
      rows := rows - {t};
      spent := spent + multiset{t};
      WholeRequest(s, t);
      return Ok(row.user);
    }

    /** A code is burnt whatever comes of it, and is worth a session only before its
        expiry and for an active user. */
    method ExchangeForTokens(id: nat) returns (r: Result<UserId, TicketError>)
      requires Valid()
      modifies this
      ensures Valid()
      ensures ExchangeCode(id) !in rows && rows == old(rows) - {ExchangeCode(id)}
      ensures r == if ExchangeCode(id) !in old(rows) then Err(InvalidTicket)
                   else if old(rows)[ExchangeCode(id)].expiresAt < now then Err(ExpiredTicket)
                   else if old(rows)[ExchangeCode(id)].user in suspended then Err(AccountSuspended)
                   else Ok(old(rows)[ExchangeCode(id)].user)
      ensures Snapshot() == old(Snapshot()).(rows := rows,
                spent := if r.Ok? then old(spent) + multiset{ExchangeCode(id)} else old(spent))
      ensures ExchangeCode(id) in old(rows) ==> Serves(old(Snapshot()), ExchangeCode(id), Snapshot())
    {
      var t := ExchangeCode(id);
      ghost var s := Snapshot();
      if t !in rows { return Err(InvalidTicket); }
      var row := rows[t];
      rows := rows - {t};
      WholeRequest(s, t);
      if row.expiresAt < now { return Err(ExpiredTicket); }
      if row.user in suspended { return Err(AccountSuspended); }
      spent := spent + multiset{t};
      return Ok(row.user);
    }
  }

  /** A request that meets no other is look-up, delete, effect. */
  lemma WholeRequest(s: State, t: Ticket)
    requires Inv(s) && s.requests == map[] && Enabled(s, LookUp(0, t))
    ensures var es := [LookUp(0, t), Consume(0), Finish(0)];
      && IsRun(s, es) && Inv(After(s, es))
      && After(s, es) == s.(rows := s.rows - {t},
           spent := if Honoured(s, Holds(t, s.rows[t])) then s.spent + multiset{t} else s.spent)
  {
    var es := [LookUp(0, t), Consume(0), Finish(0)];
    var s1 := Next(s, es[0]);
    var s2 := Next(s1, es[1]);
    var s3 := Next(s2, es[2]);
    assert s3.requests == map[];
    assert es[1..] == [es[1], es[2]] && es[1..][1..] == [es[2]] && es[1..][1..][1..] == [];
    assert IsRun(s2, es[1..][1..]) && After(s2, es[1..][1..]) == s3;
    assert IsRun(s1, es[1..]) && After(s1, es[1..]) == s3;
    RunKeeps(s, es);
  }
}
