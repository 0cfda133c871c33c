/** Which users hold an open socket, by user. A user's entry goes with its last socket. */
module Presence {
  import opened Wrappers

  type UserId = nat
  type SocketId = nat
  type Sockets = map<UserId, set<SocketId>>

  predicate Holds(m: Sockets, u: UserId, s: SocketId) {
    u in m && s in m[u]
  }

  predicate NoneEmpty(m: Sockets) {
    forall u :: u in m ==> m[u] != {}
  }

  function Added(m: Sockets, u: UserId, s: SocketId): Sockets {
    m[u := (if u in m then m[u] else {}) + {s}]
  }

  function Removed(m: Sockets, u: UserId, s: SocketId): Sockets {
    if u !in m then m
    else if m[u] - {s} == {} then m - {u}
    else m[u := m[u] - {s}]
  }

  /** As a relation, the registry gains or loses exactly the one pair. */
  lemma AddedRelation(m: Sockets, u: UserId, s: SocketId)
    requires NoneEmpty(m)
    ensures NoneEmpty(Added(m, u, s))
    ensures forall v, t :: Holds(Added(m, u, s), v, t) <==> Holds(m, v, t) || (v == u && t == s)
  {
    assert s in Added(m, u, s)[u];
  }

  lemma RemovedRelation(m: Sockets, u: UserId, s: SocketId)
    requires NoneEmpty(m)
    ensures NoneEmpty(Removed(m, u, s))
    ensures forall v, t :: Holds(Removed(m, u, s), v, t) <==> Holds(m, v, t) && !(v == u && t == s)
  {
    if u in m && m[u] - {s} == {} {
      var mine := m[u];
      assert forall t :: t in mine ==> t in mine - {s} || t == s;
    }
  }

  lemma OnlineWhileHolding(m: Sockets, u: UserId)
    requires NoneEmpty(m)
    ensures u in m <==> exists s :: Holds(m, u, s)
  {
    if u in m {
      var s :| s in m[u];
      assert Holds(m, u, s);
    }
  }

  // ---- Runs ----

  datatype SocketEvent = Opens(user: UserId, socket: SocketId) | Closes(user: UserId, socket: SocketId)

  function After(es: seq<SocketEvent>): Sockets
    decreases |es|
  {
    if es == [] then map[]
    else
      var m := After(es[..|es| - 1]);
      match es[|es| - 1]
      case Opens(u, s) => Added(m, u, s)
      case Closes(u, s) => Removed(m, u, s)
  }

  /** The last thing that happened to this user's socket was that it connected. */
  predicate Open(es: seq<SocketEvent>, u: UserId, s: SocketId)
    decreases |es|
  {
    if es == [] then false
    else
      var e := es[|es| - 1];
      if e == Opens(u, s) then true else e != Closes(u, s) && Open(es[..|es| - 1], u, s)
  }

  /** In every run the registry is the history. */
  lemma {:induction false} RegistryFollowsHistory(es: seq<SocketEvent>)
    ensures NoneEmpty(After(es))
    ensures forall u, s :: Holds(After(es), u, s) <==> Open(es, u, s)
    decreases |es|
  {
    if es != [] {
      var front := es[..|es| - 1];
      RegistryFollowsHistory(front);
      match es[|es| - 1]
      case Opens(u, s) => AddedRelation(After(front), u, s);
      case Closes(u, s) => RemovedRelation(After(front), u, s);
    }
  }

  ghost predicate AnyOpen(es: seq<SocketEvent>, u: UserId) {
    exists s {:trigger Holds(After(es), u, s)} :: Open(es, u, s)
  }

  /** A user is online exactly while one of their sockets is open. */
  lemma OnlineWhileOpen(es: seq<SocketEvent>, u: UserId)
    ensures u in After(es) <==> AnyOpen(es, u)
  {
    RegistryFollowsHistory(es);
    OnlineWhileHolding(After(es), u);
    if u in After(es) {
      var s :| Holds(After(es), u, s);
      assert Open(es, u, s);
    }
  }

  class PresenceService {
    var socketsByUser: Sockets

    ghost predicate Valid()
      reads this
    {
      NoneEmpty(socketsByUser)
    }

    constructor ()
      ensures Valid() && socketsByUser == map[]
    {
      socketsByUser := map[];
    }

    method Add(userId: UserId, socketId: SocketId)
      requires Valid()
      modifies this
      ensures Valid() && socketsByUser == Added(old(socketsByUser), userId, socketId)
    {
      AddedRelation(socketsByUser, userId, socketId);
      if userId in socketsByUser {
        socketsByUser := socketsByUser[userId := socketsByUser[userId] + {socketId}];
      } else {
        socketsByUser := socketsByUser[userId := {socketId}];
      }
      assert {} + {socketId} == {socketId};
      assert socketsByUser == Added(old(socketsByUser), userId, socketId);
    }

    method Remove(userId: UserId, socketId: SocketId)
      requires Valid()
      modifies this
      ensures Valid() && socketsByUser == Removed(old(socketsByUser), userId, socketId)
    {
      RemovedRelation(socketsByUser, userId, socketId);
      if userId !in socketsByUser { return; }
      var sockets := socketsByUser[userId] - {socketId};
      socketsByUser := socketsByUser[userId := sockets];
      if |sockets| == 0 {
        socketsByUser := socketsByUser - {userId};
      }
      assert socketsByUser == Removed(old(socketsByUser), userId, socketId);
    }

    method IsOnline(userId: UserId) returns (online: bool)
      requires Valid()
      ensures online <==> exists s :: Holds(socketsByUser, userId, s)
    {
      OnlineWhileHolding(socketsByUser, userId);
      online := userId in socketsByUser;
    }

    method GetSocketIds(userId: UserId) returns (ids: seq<SocketId>)
      ensures Distinct(ids) && forall s :: s in ids <==> Holds(socketsByUser, userId, s)
    {
      ids := Listed(if userId in socketsByUser then socketsByUser[userId] else {});
    }
  }
}
