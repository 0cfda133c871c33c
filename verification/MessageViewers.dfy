/**
 The chat gateway's registry of open Messages tabs: workspace to user to sockets, with a
 back-pointer on every socket. A handler runs as one step.
 */
module MessageViewers {
  import opened Wrappers
  import opened Presence
  import opened Notifications

  type Viewers = map<WorkspaceId, Sockets>

  predicate Views(m: Viewers, w: WorkspaceId, u: UserId, s: SocketId) {
    w in m && Holds(m[w], u, s)
  }

  /** No inner map and no inner set is empty. */
  predicate Tidy(m: Viewers) {
    forall w :: w in m ==> m[w] != map[] && NoneEmpty(m[w])
  }

  function Inner(m: Viewers, w: WorkspaceId): Sockets {
    if w in m then m[w] else map[]
  }

  function Opened(m: Viewers, w: WorkspaceId, u: UserId, s: SocketId): Viewers {
    m[w := Added(Inner(m, w), u, s)]
  }

  function Closed(m: Viewers, w: WorkspaceId, u: UserId, s: SocketId): Viewers {
    if w !in m then m
    else
      var byUser := Removed(m[w], u, s);
      if byUser == map[] then m - {w} else m[w := byUser]
  }

  lemma OpenedRelation(m: Viewers, w: WorkspaceId, u: UserId, s: SocketId)
    requires Tidy(m)
    ensures Tidy(Opened(m, w, u, s))
    ensures forall v, x, t :: Views(Opened(m, w, u, s), v, x, t) <==> Views(m, v, x, t) || (v == w && x == u && t == s)
  {
    AddedRelation(Inner(m, w), u, s);
    assert u in Added(Inner(m, w), u, s);
  }

  lemma ClosedRelation(m: Viewers, w: WorkspaceId, u: UserId, s: SocketId)
    requires Tidy(m)
    ensures Tidy(Closed(m, w, u, s))
    ensures forall v, x, t :: Views(Closed(m, w, u, s), v, x, t) <==> Views(m, v, x, t) && !(v == w && x == u && t == s)
  {
    if w in m { RemovedRelation(m[w], u, s); }
  }

  // ---- The gateway's state ----

  /** What an open socket carries: its user and the workspace whose tab it has open. */
  datatype Socket = Socket(user: UserId, viewing: Option<WorkspaceId>)

  datatype State = State(viewers: Viewers, sockets: map<SocketId, Socket>, online: Sockets)

  datatype Event =
    | Connect(id: SocketId, user: UserId)
    | Join(id: SocketId, workspace: WorkspaceId)
    | Leave(id: SocketId, workspace: WorkspaceId)
    | Disconnect(id: SocketId)

  function WithoutViewer(s: State, w: WorkspaceId, id: SocketId): State
    requires id in s.sockets
  {
    var c := s.sockets[id];
    State(Closed(s.viewers, w, c.user, id),
          s.sockets[id := Socket(c.user, if c.viewing == Some(w) then None else c.viewing)],
          s.online)
  }

  /** The state once the socket has left any other workspace. */
  function Elsewhere(s: State, w: WorkspaceId, id: SocketId): (r: State)
    requires id in s.sockets
    ensures id in r.sockets
  {
    var viewing := s.sockets[id].viewing;
    if viewing.Some? && viewing.value != w then WithoutViewer(s, viewing.value, id) else s
  }

  function Placed(s: State, w: WorkspaceId, id: SocketId): State
    requires id in s.sockets
  {
    var user := s.sockets[id].user;
    State(Opened(s.viewers, w, user, id), s.sockets[id := Socket(user, Some(w))], s.online)
  }

  function WithViewer(s: State, w: WorkspaceId, id: SocketId): State
    requires id in s.sockets
  {
    Placed(Elsewhere(s, w, id), w, id)
  }

  function Gone(s: State, id: SocketId): State
    requires id in s.sockets
  {
    var c := s.sockets[id];
    var left := if c.viewing.Some? then WithoutViewer(s, c.viewing.value, id) else s;
    State(left.viewers, left.sockets - {id}, Removed(left.online, c.user, id))
  }

  /** Socket ids are not used twice; the other events come from an open socket. */
  predicate Enabled(s: State, e: Event) {
    if e.Connect? then e.id !in s.sockets else e.id in s.sockets
  }

  function Step(s: State, e: Event): State
    requires Enabled(s, e)
  {
    match e
    case Connect(id, u) => State(s.viewers, s.sockets[id := Socket(u, None)], Added(s.online, u, id))
    case Join(id, w) => WithViewer(s, w, id)
    case Leave(id, w) => WithoutViewer(s, w, id)
    case Disconnect(id) => Gone(s, id)
  }

  ghost predicate Run(s: State, es: seq<Event>, t: State)
    decreases |es|
  {
    if es == [] then s == t else Enabled(s, es[0]) && Run(Step(s, es[0]), es[1..], t)
  }

  // ---- What every step keeps ----

  /** A socket is under (workspace, user) exactly while it is an open socket of that user
      whose back-pointer names that workspace. */
  ghost predicate PointersAgree(viewers: Viewers, sockets: map<SocketId, Socket>) {
    forall w: WorkspaceId, u: UserId, id: SocketId ::
      Views(viewers, w, u, id) <==> id in sockets && sockets[id] == Socket(u, Some(w))
  }

  /** Presence holds exactly the open sockets. */
  ghost predicate PresenceAgrees(online: Sockets, sockets: map<SocketId, Socket>) {
    forall u: UserId, id: SocketId :: Holds(online, u, id) <==> id in sockets && sockets[id].user == u
  }

  ghost predicate Inv(s: State) {
    Tidy(s.viewers) && NoneEmpty(s.online) && PointersAgree(s.viewers, s.sockets) && PresenceAgrees(s.online, s.sockets)
  }

  lemma WithoutViewerKeeps(s: State, w: WorkspaceId, id: SocketId)
    requires Inv(s) && id in s.sockets
    ensures Inv(WithoutViewer(s, w, id))
  {
    ClosedRelation(s.viewers, w, s.sockets[id].user, id);
  }

  lemma PlacedKeeps(s: State, w: WorkspaceId, id: SocketId)
    requires Inv(s) && id in s.sockets && (s.sockets[id].viewing.None? || s.sockets[id].viewing == Some(w))
    ensures Inv(Placed(s, w, id))
  {
    OpenedRelation(s.viewers, w, s.sockets[id].user, id);
  }

  lemma JoinKeeps(s: State, w: WorkspaceId, id: SocketId)
    requires Inv(s) && id in s.sockets
    ensures Inv(WithViewer(s, w, id))
  {
    var viewing := s.sockets[id].viewing;
    if viewing.Some? && viewing.value != w { WithoutViewerKeeps(s, viewing.value, id); }
    PlacedKeeps(Elsewhere(s, w, id), w, id);
  }

  lemma CloseKeeps(s: State, id: SocketId)
    requires Inv(s) && id in s.sockets && s.sockets[id].viewing.None?
    ensures Inv(State(s.viewers, s.sockets - {id}, Removed(s.online, s.sockets[id].user, id)))
  {
    RemovedRelation(s.online, s.sockets[id].user, id);
  }

  lemma DisconnectKeeps(s: State, id: SocketId)
    requires Inv(s) && id in s.sockets
    ensures Inv(Gone(s, id))
  {
    var c := s.sockets[id];
    if c.viewing.Some? {
      WithoutViewerKeeps(s, c.viewing.value, id);
      CloseKeeps(WithoutViewer(s, c.viewing.value, id), id);
    } else {
      CloseKeeps(s, id);
    }
  }

  lemma ConnectKeeps(s: State, id: SocketId, u: UserId)
    requires Inv(s) && id !in s.sockets
    ensures Inv(Step(s, Connect(id, u)))
  {
    AddedRelation(s.online, u, id);
  }

  lemma StepKeeps(s: State, e: Event)
    requires Inv(s) && Enabled(s, e)
    ensures Inv(Step(s, e))
  {
    match e
    case Connect(id, u) => ConnectKeeps(s, id, u);
    case Join(id, w) => JoinKeeps(s, w, id);
    case Leave(id, w) => WithoutViewerKeeps(s, w, id);
    case Disconnect(id) => DisconnectKeeps(s, id);
  }

  /** What a handler does to the open tabs; by Inv the registries follow. Joining opens the
      workspace's tab on the socket in place of any other, leaving closes that tab only. */
  lemma TabsFollow(s: State, e: Event)
    requires Inv(s) && Enabled(s, e)
    ensures Inv(Step(s, e))
    ensures Step(s, e).sockets ==
              match e
              case Connect(id, u) => s.sockets[id := Socket(u, None)]
              case Join(id, w) => s.sockets[id := Socket(s.sockets[id].user, Some(w))]
              case Leave(id, w) =>
                if s.sockets[id].viewing == Some(w) then s.sockets[id := Socket(s.sockets[id].user, None)]
                else s.sockets
              case Disconnect(id) => s.sockets - {id}
  {
    StepKeeps(s, e);
  }

  lemma {:induction false} RunKeeps(s: State, es: seq<Event>, t: State)
    requires Inv(s) && Run(s, es, t)
    ensures Inv(t)
    decreases |es|
  {
    if es != [] {
      StepKeeps(s, es[0]);
      RunKeeps(Step(s, es[0]), es[1..], t);
    }
  }

  /** In every run: registry and back-pointers agree, nothing empty is kept, and no
      socket is in two places. */
  lemma RegistryIsExact(es: seq<Event>, t: State)
    requires Run(State(map[], map[], map[]), es, t)
    ensures Tidy(t.viewers) && PointersAgree(t.viewers, t.sockets) && PresenceAgrees(t.online, t.sockets)
    ensures forall w, v, u, x, id :: Views(t.viewers, w, u, id) && Views(t.viewers, v, x, id) ==> w == v && u == x
  {
    RunKeeps(State(map[], map[], map[]), es, t);
  }

  /** The user has an open socket with this workspace's tab open. */
  ghost predicate Watches(s: State, w: WorkspaceId, u: UserId) {
    exists id :: id in s.sockets && s.sockets[id] == Socket(u, Some(w))
  }

  lemma ViewersWatch(s: State, w: WorkspaceId, u: UserId)
    requires Inv(s)
    ensures u in Inner(s.viewers, w) <==> Watches(s, w, u)
  {
    OnlineWhileHolding(Inner(s.viewers, w), u) by { assert w in s.viewers ==> NoneEmpty(s.viewers[w]); }
    if u in Inner(s.viewers, w) {
      var id :| Holds(Inner(s.viewers, w), u, id);
      assert Views(s.viewers, w, u, id);
    }
    if Watches(s, w, u) {
      var id :| id in s.sockets && s.sockets[id] == Socket(u, Some(w));
      assert Views(s.viewers, w, u, id);
    }
  }

  ghost predicate HasSocket(s: State, u: UserId) {
    exists id :: id in s.sockets && s.sockets[id].user == u
  }

  lemma OnlineHasSocket(s: State, u: UserId)
    requires Inv(s)
    ensures u in s.online <==> HasSocket(s, u)
  {
    OnlineWhileHolding(s.online, u);
    if u in s.online {
      var id :| Holds(s.online, u, id);
    }
    if HasSocket(s, u) {
      var id :| id in s.sockets && s.sockets[id].user == u;
      assert Holds(s.online, u, id);
    }
  }

  /** What a message sent in any reachable state does, told by the sockets alone: a row
      for each participant but the sender and whoever has the tab open on some socket, and
      a mail to those of them with no socket at all; each once. */
  lemma MessageReaches(es: seq<Event>, s: State, ws: Workspace, sender: UserId, viewers: seq<UserId>, u: UserId)
    requires Run(State(map[], map[], map[]), es, s)
    requires forall v :: v in viewers <==> v in Inner(s.viewers, ws.id)
    ensures var reached := Reached(Announced(ws, sender, viewers).keys, {});
      && Distinct(reached) && Distinct(Offline(reached, s.online))
      && (u in reached <==> Participates(ws, u) && u != sender && !Watches(s, ws.id, u))
      && (u in Offline(reached, s.online) <==> Participates(ws, u) && u != sender && !HasSocket(s, u))
  {
    RunKeeps(State(map[], map[], map[]), es, s);
    EachIsToldOnce(ws, sender, viewers, s.online, u);
    ViewersWatch(s, ws.id, u);
    OnlineHasSocket(s, u);
  }

  // ---- The gateway ----

  /** A socket as the handlers see it. */
  class Client {
    const id: SocketId
    const userId: UserId
    var viewingWorkspaceId: Option<WorkspaceId>

    constructor (id: SocketId, userId: UserId)
      ensures this.id == id && this.userId == userId && viewingWorkspaceId == None
    {
      this.id, this.userId, viewingWorkspaceId := id, userId, None;
    }
  }

  /** The update of one workspace's map when a socket is added to it. */
  method AddSocket(byUser: Sockets, user: UserId, id: SocketId) returns (r: Sockets)
    ensures r == Added(byUser, user, id)
  {
    if user in byUser {
      r := byUser[user := byUser[user] + {id}];
    } else {
      r := byUser[user := {id}];
      assert {} + {id} == {id};
    }
  }

  /** The update when one is taken out, with the user's entry once it is empty. */
  method DeleteSocket(byUser: Sockets, user: UserId, id: SocketId) returns (r: Sockets)
    ensures r == Removed(byUser, user, id)
  {
    r := byUser;
    if user in byUser {
      var sockets := byUser[user] - {id};
      r := r[user := sockets];
      if |sockets| == 0 {
        r := r - {user};
      }
    }
  }

  datatype Message = Message(workspace: WorkspaceId, sender: UserId, content: string)

  class MessageGateway {
    const presence: PresenceService
    const notifications: NotificationService
    var messageViewers: Viewers
    /** The message table, and what was broadcast to a workspace's room. */
    var saved: seq<Message>
    var broadcast: seq<Message>
    /** The open sockets, by id. */
    ghost var connected: map<SocketId, Client>

    ghost function Pointers(): map<SocketId, Socket>
      reads this`connected, connected.Values
    {
      map id | id in connected :: Socket(connected[id].userId, connected[id].viewingWorkspaceId)
    }

    ghost function View(): State
      reads this, presence, connected.Values
    {
      State(messageViewers, Pointers(), presence.socketsByUser)
    }

    ghost predicate Wired()
      reads this
    {
      notifications.presence == presence && forall id :: id in connected ==> connected[id].id == id
    }

    /** Enough to run every handler; what the registries then hold is Inv(View()), which
        each step keeps. */
    ghost predicate Valid()
      reads this, presence
    {
      Wired() && presence.Valid()
    }

    ghost predicate Serves(client: Client)
      reads this
    {
      client.id in connected && connected[client.id] == client
    }

    /** Setting one socket's back-pointer changes that entry only. */
    twostate lemma PointerMoves(client: Client)
      requires Wired() && Serves(client) && connected == old(connected)
      requires forall c :: c in connected.Values && c != client ==> c.viewingWorkspaceId == old(c.viewingWorkspaceId)
      ensures Pointers() == old(Pointers())[client.id := Socket(client.userId, client.viewingWorkspaceId)]
    {
      var moved := old(Pointers())[client.id := Socket(client.userId, client.viewingWorkspaceId)];
      assert Pointers().Keys == moved.Keys;
      forall id | id in connected ensures Pointers()[id] == moved[id] { assert connected[id] in connected.Values; }
    }

    constructor ()
      ensures Valid() && View() == State(map[], map[], map[]) && Inv(View()) && fresh(presence) && fresh(notifications)
    {
      var registry := new PresenceService();
      presence := registry;
      notifications := new NotificationService(registry);
      messageViewers, connected, saved, broadcast := map[], map[], [], [];
    }

    /** Puts the socket under the workspace, and takes it from any other. */
    method AddViewer(workspaceId: WorkspaceId, client: Client)
      requires Wired() && Serves(client)
      modifies this`messageViewers, client
      ensures View() == WithViewer(old(View()), workspaceId, client.id)
    {
      if client.viewingWorkspaceId.Some? && client.viewingWorkspaceId.value != workspaceId {
        RemoveViewer(client.viewingWorkspaceId.value, client);
      }
      assert View() == Elsewhere(old(View()), workspaceId, client.id);
      label Left:
      if workspaceId !in messageViewers {
        messageViewers := messageViewers[workspaceId := map[]];
      }
      var byUser := AddSocket(messageViewers[workspaceId], client.userId, client.id);
      messageViewers := messageViewers[workspaceId := byUser];
      assert messageViewers == Opened(old@Left(messageViewers), workspaceId, client.userId, client.id);
      client.viewingWorkspaceId := Some(workspaceId);
      PointerMoves@Left(client);
      assert View() == Placed(old@Left(View()), workspaceId, client.id);
    }

    /** Takes the socket from under this workspace only. */
    method RemoveViewer(workspaceId: WorkspaceId, client: Client)
      requires Wired() && Serves(client)
      modifies this`messageViewers, client
      ensures View() == WithoutViewer(old(View()), workspaceId, client.id)
    {
      if workspaceId in messageViewers {
        var byUser := DeleteSocket(messageViewers[workspaceId], client.userId, client.id);
        messageViewers := messageViewers[workspaceId := byUser];
        if |byUser| == 0 {
          messageViewers := messageViewers - {workspaceId};
        }
      }
      assert messageViewers == Closed(old(messageViewers), workspaceId, client.userId, client.id);
      if client.viewingWorkspaceId == Some(workspaceId) {
        client.viewingWorkspaceId := None;
      }
      PointerMoves(client);
    }

    /** The users with an open socket that has this workspace's tab open. */
    method GetViewerIds(workspaceId: WorkspaceId) returns (ids: seq<UserId>)
      requires Inv(View())
      ensures Distinct(ids) && forall u :: u in ids <==> Watches(View(), workspaceId, u)
    {
      forall u ensures u in Inner(messageViewers, workspaceId) <==> Watches(View(), workspaceId, u) {
        ViewersWatch(View(), workspaceId, u);
      }
      ids := Listed(Inner(messageViewers, workspaceId).Keys);
    }

    method HandleConnection(client: Client)
      requires Valid() && client.id !in connected && client.viewingWorkspaceId == None
      modifies this`connected, presence
      ensures Valid() && Serves(client)
      ensures View() == Step(old(View()), Connect(client.id, client.userId))
    {
      presence.Add(client.userId, client.id);
      connected := connected[client.id := client];
    }

    method HandleDisconnect(client: Client)
      requires Valid() && Serves(client)
      modifies this`messageViewers, this`connected, presence, client
      ensures Valid() && View() == Step(old(View()), Disconnect(client.id))
    {
      ghost var before := View();
      presence.Remove(client.userId, client.id);
      assert View() == before.(online := Removed(before.online, client.userId, client.id));
      if client.viewingWorkspaceId.Some? {
        RemoveViewer(client.viewingWorkspaceId.value, client);
      }
      ghost var left := View();
      connected := connected - {client.id};
      assert View() == left.(sockets := left.sockets - {client.id});
    }

    /** An expired session is disconnected, and a stranger is turned away. */
    method HandleJoinRoom(workspaceId: WorkspaceId, client: Client, expired: bool, isMember: bool)
      requires Valid() && Serves(client)
      modifies this`messageViewers, this`connected, presence, client
      ensures Valid()
      ensures View() == if expired then Step(old(View()), Disconnect(client.id))
                        else if isMember then Step(old(View()), Join(client.id, workspaceId))
                        else old(View())
    {
      if expired { HandleDisconnect(client); return; }
      if !isMember { return; }
      AddViewer(workspaceId, client);
    }

    method HandleLeaveRoom(workspaceId: WorkspaceId, client: Client, expired: bool)
      requires Valid() && Serves(client)
      modifies this`messageViewers, this`connected, presence, client
      ensures Valid()
      ensures View() == Step(old(View()), if expired then Disconnect(client.id) else Leave(client.id, workspaceId))
    {
      if expired { HandleDisconnect(client); return; }
      RemoveViewer(workspaceId, client);
    }

    /** Saves a message, broadcasts it, and announces it to whoever is not the sender and
        not watching; an empty message, or one from a stranger, is dropped. The text is taken as trimmed, and
        `workspace` is what the notification's own lookup finds. */
    method HandleSendMessage(client: Client, workspaceId: WorkspaceId, trimmed: string, senderName: string,
                             expired: bool, isMember: bool, workspace: Option<Workspace>,
                             rowFails: set<UserId>, mailFails: set<UserId>)
      returns (ghost viewers: seq<UserId>)
      requires Valid() && Inv(View()) && Serves(client) && (workspace.Some? ==> workspace.value.id == workspaceId)
      modifies this, presence, client, notifications
      ensures Valid()
      ensures View() == if expired then Step(old(View()), Disconnect(client.id)) else old(View())
      ensures forall u :: u in viewers <==> old(Watches(View(), workspaceId, u))
      ensures var message :=
          if expired || trimmed == "" || !isMember then [] else [Message(workspaceId, client.userId, trimmed)];
        saved == old(saved) + message && broadcast == old(broadcast) + message
      ensures expired || trimmed == "" || !isMember || workspace.None? ==>
                notifications.View() == old(notifications.View())
      ensures !expired && trimmed != "" && isMember && workspace.Some? ==>
                var to := Announced(workspace.value, client.userId, viewers);
                var reached := Reached(to.keys, rowFails);
                && AllIn(reached, to.entries)
                && notifications.View() ==
                     Delivered(old(notifications.View()), reached,
                               MessagePost(workspaceId, client.userId, senderName, trimmed), to.entries,
                               presence.socketsByUser, mailFails)
    {
      var ids := GetViewerIds(workspaceId);
      viewers := ids;
      if expired { HandleDisconnect(client); return; }
      if trimmed == "" || !isMember { return; }
      var message := Message(workspaceId, client.userId, trimmed);
      saved := saved + [message];
      broadcast := broadcast + [message];
      var ok := notifications.NotifyNewMessage(workspace, client.userId, senderName, trimmed, ids, rowFails, mailFails);
    }
  }
}
