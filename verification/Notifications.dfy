/**
 Who is told about new activity in a workspace, and how: a row for every participant but
 the author and those already watching, and an email for those of them who are offline.
 A JavaScript Map iterates in insertion order and keeps a key's place when it is set
 again; Recipients models that.
 */
module Notifications {
  import opened Wrappers
  import opened Presence

  type WorkspaceId = nat

  const PREVIEW_MAX_LENGTH := 140

  datatype Role = FREELANCER | CLIENT
  datatype Recipient = Recipient(email: string, role: Role)
  datatype Member = Member(user: UserId, email: string, role: Role)
  datatype Workspace = Workspace(id: WorkspaceId, name: string, owner: UserId, ownerEmail: string, members: seq<Member>)

  datatype Recipients = Recipients(keys: seq<UserId>, entries: map<UserId, Recipient>)

  datatype Row = Row(user: UserId, workspace: WorkspaceId, sender: UserId, preview: string)
  datatype Mail = Mail(to: string, portal: bool, body: string, delivered: bool)

  /** What is announced: the row's data and the mail's text. */
  datatype Post = Post(workspace: WorkspaceId, sender: UserId, preview: string, body: string)

  /** Everything sent so far. */
  datatype Log = Log(rows: seq<Row>, pushes: seq<UserId>, mails: seq<Mail>)

  // ---- The map of recipients ----

  ghost predicate WellFormed(r: Recipients) {
    Distinct(r.keys) && forall u :: u in r.keys <==> u in r.entries
  }

  function Put(r: Recipients, u: UserId, x: Recipient): Recipients {
    Recipients(if u in r.entries then r.keys else r.keys + [u], r.entries[u := x])
  }

  function Without(keys: seq<UserId>, u: UserId): seq<UserId> {
    if keys == [] then []
    else if keys[0] == u then Without(keys[1..], u)
    else [keys[0]] + Without(keys[1..], u)
  }

  function Drop(r: Recipients, u: UserId): Recipients {
    Recipients(Without(r.keys, u), r.entries - {u})
  }

  lemma DistinctCons(x: UserId, xs: seq<UserId>)
    ensures Distinct([x] + xs) <==> Distinct(xs) && x !in xs
  {
    var all := [x] + xs;
    if Distinct(all) {
      forall i | 0 <= i < |xs| ensures xs[i] != x { assert all[i + 1] != all[0]; }
      forall i, j | 0 <= i < j < |xs| ensures xs[i] != xs[j] { assert all[i + 1] != all[j + 1]; }
    }
  }

  lemma {:induction false} WithoutMembers(keys: seq<UserId>, u: UserId)
    ensures forall v :: v in Without(keys, u) <==> v in keys && v != u
    ensures Distinct(keys) ==> Distinct(Without(keys, u))
    decreases |keys|
  {
    if keys != [] {
      WithoutMembers(keys[1..], u);
      assert keys == [keys[0]] + keys[1..];
      DistinctCons(keys[0], keys[1..]);
      DistinctCons(keys[0], Without(keys[1..], u));
    }
  }

  lemma DropKeeps(r: Recipients, u: UserId)
    requires WellFormed(r)
    ensures WellFormed(Drop(r, u))
  {
    WithoutMembers(r.keys, u);
  }

  // ---- Recipients ----

  /** The owner, then the first n members, a later entry replacing an earlier one. */
  function Collected(ws: Workspace, n: nat): Recipients
    requires n <= |ws.members|
  {
    if n == 0 then Recipients([ws.owner], map[ws.owner := Recipient(ws.ownerEmail, FREELANCER)])
    else
      var m := ws.members[n - 1];
      Put(Collected(ws, n - 1), m.user, Recipient(m.email, m.role))
  }

  function Audience(ws: Workspace, exclude: UserId): Recipients {
    Drop(Collected(ws, |ws.members|), exclude)
  }

  predicate Participates(ws: Workspace, u: UserId) {
    u == ws.owner || exists i :: 0 <= i < |ws.members| && ws.members[i].user == u
  }

  lemma {:induction false} CollectedMembers(ws: Workspace, n: nat)
    requires n <= |ws.members|
    ensures WellFormed(Collected(ws, n))
    ensures forall u ::
              u in Collected(ws, n).entries <==> u == ws.owner || exists i :: 0 <= i < n && ws.members[i].user == u
  {
    if n > 0 { CollectedMembers(ws, n - 1); }
  }

  /** Every participant but the excluded one, once. */
  lemma AudienceIsExact(ws: Workspace, exclude: UserId)
    ensures WellFormed(Audience(ws, exclude))
    ensures forall u :: u in Audience(ws, exclude).entries <==> Participates(ws, u) && u != exclude
  {
    CollectedMembers(ws, |ws.members|);
    DropKeeps(Collected(ws, |ws.members|), exclude);
  }

  lemma {:induction false} CollectedContact(ws: Workspace, n: nat, i: nat)
    requires i < n <= |ws.members|
    requires forall j :: i < j < n ==> ws.members[j].user != ws.members[i].user
    ensures ws.members[i].user in Collected(ws, n).entries
    ensures Collected(ws, n).entries[ws.members[i].user] == Recipient(ws.members[i].email, ws.members[i].role)
  {
    if i < n - 1 { CollectedContact(ws, n - 1, i); }
  }

  /** A member is addressed by the role of their membership, whoever owns the workspace:
      a client gets the portal link even as the owner. */
  lemma MemberRoleWins(ws: Workspace, exclude: UserId, i: nat)
    requires i < |ws.members| && ws.members[i].user != exclude
    requires forall j :: 0 <= j < |ws.members| && ws.members[j].user == ws.members[i].user ==> j <= i
    ensures ws.members[i].user in Audience(ws, exclude).entries
    ensures Audience(ws, exclude).entries[ws.members[i].user] == Recipient(ws.members[i].email, ws.members[i].role)
  {
    CollectedContact(ws, |ws.members|, i);
  }

  lemma {:induction false} CollectedOwner(ws: Workspace, n: nat)
    requires n <= |ws.members| && forall i :: 0 <= i < n ==> ws.members[i].user != ws.owner
    ensures ws.owner in Collected(ws, n).entries
    ensures Collected(ws, n).entries[ws.owner] == Recipient(ws.ownerEmail, FREELANCER)
  {
    if n > 0 { CollectedOwner(ws, n - 1); }
  }

  /** An owner who is not listed as a member is addressed as a freelancer. */
  lemma OwnerIsFreelancer(ws: Workspace, exclude: UserId)
    requires ws.owner != exclude && forall i :: 0 <= i < |ws.members| ==> ws.members[i].user != ws.owner
    ensures ws.owner in Audience(ws, exclude).entries
    ensures Audience(ws, exclude).entries[ws.owner] == Recipient(ws.ownerEmail, FREELANCER)
  {
    CollectedOwner(ws, |ws.members|);
  }

  function DropAll(r: Recipients, viewers: seq<UserId>): Recipients
    decreases |viewers|
  {
    if viewers == [] then r else Drop(DropAll(r, viewers[..|viewers| - 1]), viewers[|viewers| - 1])
  }

  lemma {:induction false} DropAllKeeps(r: Recipients, viewers: seq<UserId>)
    requires WellFormed(r)
    ensures WellFormed(DropAll(r, viewers))
    ensures forall u :: u in DropAll(r, viewers).entries <==> u in r.entries && u !in viewers
    decreases |viewers|
  {
    if viewers != [] {
      var front := viewers[..|viewers| - 1];
      DropAllKeeps(r, front);
      DropKeeps(DropAll(r, front), viewers[|viewers| - 1]);
      assert viewers == front + [viewers[|viewers| - 1]];
    }
  }

  /** Whom a message is announced to, in order. */
  function Announced(ws: Workspace, sender: UserId, viewers: seq<UserId>): Recipients {
    DropAll(Audience(ws, sender), viewers)
  }

  /** Exactly the participants who neither sent it nor are watching, each once. */
  lemma AnnouncedIsExact(ws: Workspace, sender: UserId, viewers: seq<UserId>)
    ensures WellFormed(Announced(ws, sender, viewers))
    ensures forall u ::
              u in Announced(ws, sender, viewers).keys <==> Participates(ws, u) && u != sender && u !in viewers
  {
    AudienceIsExact(ws, sender);
    DropAllKeeps(Audience(ws, sender), viewers);
  }

  // ---- Delivery ----

  /** Those reached before the first whose row could not be created. */
  function Reached(keys: seq<UserId>, rowFails: set<UserId>): seq<UserId> {
    if keys == [] || keys[0] in rowFails then [] else [keys[0]] + Reached(keys[1..], rowFails)
  }

  lemma {:induction false} ReachedIsPrefix(keys: seq<UserId>, rowFails: set<UserId>)
    ensures Reached(keys, rowFails) <= keys
    ensures forall u :: u in Reached(keys, rowFails) ==> u !in rowFails
    ensures |Reached(keys, rowFails)| < |keys| ==> keys[|Reached(keys, rowFails)|] in rowFails
    decreases |keys|
  {
    if keys != [] { ReachedIsPrefix(keys[1..], rowFails); }
  }

  /** A step of the delivery loop extends what was reached by one. */
  lemma {:induction false} ReachedStep(keys: seq<UserId>, rowFails: set<UserId>, n: nat)
    requires n < |keys| && forall i :: 0 <= i < n ==> keys[i] !in rowFails
    ensures keys[n] in rowFails ==> Reached(keys, rowFails) == keys[..n]
    ensures keys[n] !in rowFails && n + 1 == |keys| ==> Reached(keys, rowFails) == keys
    decreases n
  {
    if n > 0 {
      ReachedStep(keys[1..], rowFails, n - 1);
      assert keys[..n] == [keys[0]] + keys[1..][..n - 1];
    }
  }

  function RowFor(u: UserId, post: Post): Row {
    Row(u, post.workspace, post.sender, post.preview)
  }

  function RowsFor(users: seq<UserId>, post: Post): (r: seq<Row>)
    ensures |r| == |users| && forall i :: 0 <= i < |r| ==> r[i].user == users[i]
  {
    seq(|users|, i requires 0 <= i < |users| => RowFor(users[i], post))
  }

  function Offline(users: seq<UserId>, online: Sockets): seq<UserId>
    decreases |users|
  {
    if users == [] then []
    else
      var front := Offline(users[..|users| - 1], online);
      if users[|users| - 1] in online then front else front + [users[|users| - 1]]
  }

  lemma {:induction false} OfflineMembers(users: seq<UserId>, online: Sockets)
    ensures forall u :: u in Offline(users, online) <==> u in users && u !in online
    ensures Distinct(users) ==> Distinct(Offline(users, online))
    decreases |users|
  {
    if users != [] {
      var front := users[..|users| - 1];
      OfflineMembers(front, online);
      assert users == front + [users[|users| - 1]];
    }
  }

  function MailTo(r: Recipient, body: string, delivered: bool): Mail {
    Mail(r.email, r.role == CLIENT, body, delivered)
  }

  function MailsFor(users: seq<UserId>, entries: map<UserId, Recipient>, body: string,
                    mailFails: set<UserId>): (r: seq<Mail>)
    requires forall u :: u in users ==> u in entries
    ensures |r| == |users|
    ensures forall i :: 0 <= i < |r| ==>
              r[i].to == entries[users[i]].email && (r[i].delivered <==> users[i] !in mailFails)
  {
    seq(|users|, i requires 0 <= i < |users| => MailTo(entries[users[i]], body, users[i] !in mailFails))
  }

  lemma OfflineStep(keys: seq<UserId>, n: nat, online: Sockets)
    requires n < |keys|
    ensures Offline(keys[..n + 1], online) == Offline(keys[..n], online) + (if keys[n] in online then [] else [keys[n]])
  {
    assert keys[..n + 1][..n] == keys[..n];
  }

  ghost predicate AllIn(users: seq<UserId>, entries: map<UserId, Recipient>) {
    forall u :: u in users ==> u in entries
  }

  lemma OfflineWithin(users: seq<UserId>, entries: map<UserId, Recipient>, online: Sockets)
    requires AllIn(users, entries)
    ensures AllIn(Offline(users, online), entries)
  {
    OfflineMembers(users, online);
  }

  /** A row and a live push for each user, and a mail for each of them who is offline. */
  ghost function Delivered(log: Log, users: seq<UserId>, post: Post, entries: map<UserId, Recipient>,
                           online: Sockets, mailFails: set<UserId>): Log
    requires AllIn(users, entries)
  {
    OfflineWithin(users, entries, online);
    Log(log.rows + RowsFor(users, post),
        log.pushes + users,
        log.mails + MailsFor(Offline(users, online), entries, post.body, mailFails))
  }

  /** What was sent, by recipient: one row with the post's workspace, sender and preview,
      one push, and to each of the offline one mail at their address, with the portal's
      link for clients and the workspace's for everybody else. */
  lemma WhatEachGets(log: Log, users: seq<UserId>, post: Post, entries: map<UserId, Recipient>, online: Sockets,
                     mailFails: set<UserId>)
    requires AllIn(users, entries)
    ensures var t := Delivered(log, users, post, entries, online, mailFails);
      var away := Offline(users, online);
      && log.rows <= t.rows && |t.rows| == |log.rows| + |users|
      && (forall i :: 0 <= i < |users| ==>
            t.rows[|log.rows| + i] == Row(users[i], post.workspace, post.sender, post.preview))
      && t.pushes == log.pushes + users
      && log.mails <= t.mails && |t.mails| == |log.mails| + |away|
      && (forall i :: 0 <= i < |away| ==>
            var u := away[i];
            && u in entries
            && t.mails[|log.mails| + i] ==
                 Mail(entries[u].email, entries[u].role == CLIENT, post.body, u !in mailFails))
  {
    OfflineWithin(users, entries, online);
  }

  lemma RowsStep(keys: seq<UserId>, n: nat, post: Post)
    requires n < |keys|
    ensures RowsFor(keys[..n + 1], post) == RowsFor(keys[..n], post) + [RowFor(keys[n], post)]
  {
  }

  lemma MailsStep(keys: seq<UserId>, n: nat, entries: map<UserId, Recipient>, online: Sockets, body: string,
                  mailFails: set<UserId>)
    requires n < |keys| && AllIn(keys, entries)
    ensures AllIn(Offline(keys[..n], online), entries) && AllIn(Offline(keys[..n + 1], online), entries)
    ensures MailsFor(Offline(keys[..n + 1], online), entries, body, mailFails) ==
              MailsFor(Offline(keys[..n], online), entries, body, mailFails)
              + (if keys[n] in online then [] else [MailTo(entries[keys[n]], body, keys[n] !in mailFails)])
  {
    OfflineStep(keys, n, online);
    OfflineWithin(keys[..n], entries, online);
    OfflineWithin(keys[..n + 1], entries, online);
  }

  lemma DeliveredStep(log: Log, keys: seq<UserId>, n: nat, post: Post, entries: map<UserId, Recipient>,
                      online: Sockets, mailFails: set<UserId>)
    requires n < |keys| && AllIn(keys, entries)
    ensures var before := Delivered(log, keys[..n], post, entries, online, mailFails);
      Delivered(log, keys[..n + 1], post, entries, online, mailFails) ==
        Log(before.rows + [RowFor(keys[n], post)],
            before.pushes + [keys[n]],
            if keys[n] in online then before.mails
            else before.mails + [MailTo(entries[keys[n]], post.body, keys[n] !in mailFails)])
  {
    RowsStep(keys, n, post);
    MailsStep(keys, n, entries, online, post.body, mailFails);
    assert keys[..n + 1] == keys[..n] + [keys[n]];
  }

  /** The text is taken as trimmed. */
  function Truncate(trimmed: string, max: nat): (r: string)
    requires max > 0
    ensures |r| <= max
    ensures if |trimmed| <= max then r == trimmed
            else |r| == max && r[..max - 1] == trimmed[..max - 1] && r[max - 1] == '\U{2026}'
  {
    if |trimmed| > max then trimmed[..max - 1] + ['\U{2026}'] else trimmed
  }

  /** All a dispatch depends on. */
  datatype Dispatching = Dispatching(keys: seq<UserId>, post: Post, entries: map<UserId, Recipient>, online: Sockets,
                                     rowFails: set<UserId>, mailFails: set<UserId>)

  /** The first n recipients are served, `log` being what was sent before. */
  ghost predicate SentTo(log: Log, now: Log, run: Dispatching, n: nat) {
    && n <= |run.keys| && AllIn(run.keys, run.entries)
    && (forall j :: 0 <= j < n ==> run.keys[j] !in run.rowFails)
    && now == Delivered(log, run.keys[..n], run.post, run.entries, run.online, run.mailFails)
  }

  lemma SentToOneMore(log: Log, now: Log, later: Log, run: Dispatching, n: nat)
    requires SentTo(log, now, run, n) && n < |run.keys| && run.keys[n] !in run.rowFails
    requires later == Log(now.rows + [RowFor(run.keys[n], run.post)],
                          now.pushes + [run.keys[n]],
                          if run.keys[n] in run.online then now.mails
                          else now.mails
                               + [MailTo(run.entries[run.keys[n]], run.post.body, run.keys[n] !in run.mailFails)])
    ensures SentTo(log, later, run, n + 1)
  {
    DeliveredStep(log, run.keys, n, run.post, run.entries, run.online, run.mailFails);
  }

  /** What the dispatch is to have sent in the end. */
  ghost predicate SentToReached(log: Log, now: Log, run: Dispatching) {
    var reached := Reached(run.keys, run.rowFails);
    AllIn(reached, run.entries) && now == Delivered(log, reached, run.post, run.entries, run.online, run.mailFails)
  }

  lemma StoppedAt(log: Log, now: Log, run: Dispatching, n: nat)
    requires SentTo(log, now, run, n) && n < |run.keys| && run.keys[n] in run.rowFails
    ensures SentToReached(log, now, run)
  {
    ReachedStep(run.keys, run.rowFails, n);
  }

  lemma SentToAll(log: Log, now: Log, run: Dispatching)
    requires SentTo(log, now, run, |run.keys|)
    ensures SentToReached(log, now, run) && forall u :: u in run.keys ==> u !in run.rowFails
  {
    assert run.keys[..|run.keys|] == run.keys;
    AllReached(run.keys, run.rowFails);
  }

  class NotificationService {
    const presence: PresenceService
    var rows: seq<Row>
    var pushes: seq<UserId>
    var mails: seq<Mail>

    constructor (presence: PresenceService)
      ensures this.presence == presence && rows == [] && pushes == [] && mails == []
    {
      this.presence := presence;
      rows, pushes, mails := [], [], [];
    }

    method ResolveRecipients(workspace: Option<Workspace>, exclude: UserId) returns (r: Option<Recipients>)
      ensures r == if workspace.None? then None else Some(Audience(workspace.value, exclude))
    {
      if workspace.None? { return None; }
      var ws := workspace.value;
      var recipients := Recipients([ws.owner], map[ws.owner := Recipient(ws.ownerEmail, FREELANCER)]);
      for i := 0 to |ws.members|
        invariant recipients == Collected(ws, i)
      {
        var m := ws.members[i];
        recipients := Put(recipients, m.user, Recipient(m.email, m.role));
      }
      return Some(Drop(recipients, exclude));
    }

    ghost function View(): Log
      reads this
    {
      Log(rows, pushes, mails)
    }

    /** Stops at the first row that cannot be created; a mail that fails stops nothing. */
    method Dispatch(post: Post, recipients: Recipients, rowFails: set<UserId>, mailFails: set<UserId>)
      returns (ok: bool)
      requires WellFormed(recipients) && presence.Valid()
      modifies this
      ensures ok <==> forall u :: u in recipients.keys ==> u !in rowFails
      ensures AllIn(Reached(recipients.keys, rowFails), recipients.entries)
      ensures View() == Delivered(old(View()), Reached(recipients.keys, rowFails), post, recipients.entries,
                                  presence.socketsByUser, mailFails)
    {
      var keys := recipients.keys;
      ghost var run := Dispatching(keys, post, recipients.entries, presence.socketsByUser, rowFails, mailFails);
      for i := 0 to |keys|
        invariant SentTo(old(View()), View(), run, i)
      {
        var user := keys[i];
        ghost var before := View();
        if user in rowFails {
          StoppedAt(old(View()), before, run, i);
          return false;
        }
        rows := rows + [RowFor(user, post)];
        pushes := pushes + [user];
        var isOnline := presence.IsOnline(user);
        if !isOnline {
          mails := mails + [MailTo(recipients.entries[user], post.body, user !in mailFails)];
        }
        OnlineWhileHolding(presence.socketsByUser, user);
        SentToOneMore(old(View()), before, View(), run, i);
      }
      SentToAll(old(View()), View(), run);
      return true;
    }

    /** A workspace that is gone, or one with nobody left to tell, is not an error. */
    method NotifyNewMessage(workspace: Option<Workspace>, sender: UserId, senderName: string, content: string,
                            viewers: seq<UserId>, rowFails: set<UserId>, mailFails: set<UserId>)
      returns (ok: bool)
      requires presence.Valid()
      modifies this
      ensures workspace.None? ==> ok && View() == old(View())
      ensures workspace.Some? ==>
                var to := Announced(workspace.value, sender, viewers);
                var reached := Reached(to.keys, rowFails);
                && (ok <==> forall u :: u in to.keys ==> u !in rowFails)
                && AllIn(reached, to.entries)
                && View() == Delivered(old(View()), reached,
                                       MessagePost(workspace.value.id, sender, senderName, content), to.entries,
                                       presence.socketsByUser, mailFails)
    {
      var resolved := ResolveRecipients(workspace, sender);
      if resolved.None? { return true; }
      var recipients := resolved.value;
      for i := 0 to |viewers|
        invariant recipients == DropAll(resolved.value, viewers[..i])
        invariant View() == old(View())
      {
        recipients := Drop(recipients, viewers[i]);
        assert viewers[..i + 1][..i] == viewers[..i];
      }
      assert viewers[..|viewers|] == viewers;
      AnnouncedIsExact(workspace.value, sender, viewers);
      if |recipients.keys| == 0 { return true; }
      ok := Dispatch(MessagePost(workspace.value.id, sender, senderName, content), recipients, rowFails, mailFails);
    }
  }

  function MessagePost(ws: WorkspaceId, sender: UserId, senderName: string, content: string): Post {
    var preview := Truncate(content, PREVIEW_MAX_LENGTH);
    Post(ws, sender, preview, senderName + ": " + preview)
  }

  /** The row previews up to 140 characters, and the mail names the sender before them. */
  lemma MessageSays(ws: WorkspaceId, sender: UserId, senderName: string, content: string)
    ensures var post := MessagePost(ws, sender, senderName, content);
      && post.workspace == ws && post.sender == sender && post.body == senderName + ": " + post.preview
      && (if |content| <= 140 then post.preview == content
          else post.preview == content[..139] + ['\U{2026}'])
  {
    var preview := Truncate(content, PREVIEW_MAX_LENGTH);
    if |content| > 140 { assert preview == preview[..139] + [preview[139]]; }
  }

  lemma {:induction false} AllReached(keys: seq<UserId>, rowFails: set<UserId>)
    requires forall u :: u in keys ==> u !in rowFails
    ensures Reached(keys, rowFails) == keys
    decreases |keys|
  {
    if keys != [] { AllReached(keys[1..], rowFails); }
  }

  /** With no failing database, a message makes one row for each participant but the
      sender and the watchers, and mails exactly those of them with no open socket, once
      each, whichever mails fail. */
  lemma EachIsToldOnce(ws: Workspace, sender: UserId, viewers: seq<UserId>, online: Sockets, u: UserId)
    ensures var reached := Reached(Announced(ws, sender, viewers).keys, {});
      && Distinct(reached)
      && (u in reached <==> Participates(ws, u) && u != sender && u !in viewers)
      && Distinct(Offline(reached, online))
      && (u in Offline(reached, online) <==> u in reached && u !in online)
  {
    AnnouncedIsExact(ws, sender, viewers);
    var keys := Announced(ws, sender, viewers).keys;
    AllReached(keys, {});
    OfflineMembers(keys, online);
  }
}
