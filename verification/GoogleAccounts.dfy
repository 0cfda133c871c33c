/**
 Google identities: how a Google sign-in finds or creates its user, how the identity is
 linked and relinked, and what disconnecting it leaves. Google is the one provider the
 program links, so every account row here is a Google row. Each operation is one step.
 */
module GoogleAccounts {
  import opened Wrappers
  import opened PasswordLogin

  type UserId = nat
  type AccountId = nat
  type Email = string
  type Subject = string

  datatype User = User(email: Email, hasPassword: bool, signUpMethod: AuthMethod, isVerified: bool, active: bool)

  datatype Account = Account(user: UserId, subject: Option<Subject>)

  datatype State = State(users: map<UserId, User>, accounts: map<AccountId, Account>)

  const Initial := State(map[], map[])

  datatype Profile = Profile(subject: Option<Subject>, email: Option<Email>, emailVerified: bool)

  datatype GoogleError = NoEmail | GoogleEmailNotVerified | LocalNotVerified | UserSuspended

  /** What the look-ups of one sign-in return, and the ids of rows it may create. */
  datatype Lookup = Lookup(
    bySubject: Option<AccountId>,
    byEmail: Option<UserId>,
    byUser: Option<AccountId>,
    newUser: UserId,
    newAccount: AccountId)

  datatype Event =
    | Register(u: UserId, email: Email)
    | VerifyEmail(u: UserId)
    | GoogleSignIn(profile: Profile, found: Lookup)
    | ChangeEmail(u: UserId, email: Email)
    | PutPassword(u: UserId)
    | SetActive(u: UserId, active: bool)
    | Disconnect(u: UserId)
    | DeleteAccount(u: UserId)

  predicate EmailTaken(s: State, email: Email) {
    exists u :: u in s.users && s.users[u].email == email
  }

  predicate Answers(s: State, profile: Profile, f: Lookup) {
    && f.newUser !in s.users && f.newAccount !in s.accounts
    && (if f.bySubject.Some?
        then profile.subject.Some? && f.bySubject.value in s.accounts
             && s.accounts[f.bySubject.value].subject == profile.subject
        else profile.subject.Some? ==> forall a :: a in s.accounts ==> s.accounts[a].subject != profile.subject)
    && (if f.byEmail.Some?
        then profile.email.Some? && f.byEmail.value in s.users && s.users[f.byEmail.value].email == profile.email.value
        else profile.email.Some? ==> !EmailTaken(s, profile.email.value))
    && (if f.byUser.Some?
        then f.byEmail.Some? && f.byUser.value in s.accounts && s.accounts[f.byUser.value].user == f.byEmail.value
        else f.byEmail.Some? ==> forall a :: a in s.accounts ==> s.accounts[a].user != f.byEmail.value)
  }

  predicate Enabled(s: State, e: Event) {
    match e
    case Register(u, email) => u !in s.users && !EmailTaken(s, email)
    case GoogleSignIn(profile, f) => Answers(s, profile, f)
    case ChangeEmail(u, email) => u in s.users && !EmailTaken(s, email)
    case VerifyEmail(u) => u in s.users
    case PutPassword(u) => u in s.users
    case SetActive(u, _) => u in s.users
    case Disconnect(u) => u in s.users
    case DeleteAccount(u) => u in s.users
  }

  function AccountsOf(s: State, u: UserId): set<AccountId> {
    set a | a in s.accounts && s.accounts[a].user == u
  }

  /** Whom a profile belongs to, or why it is refused; the known subject decides before
      the email. */
  function Match(s: State, profile: Profile, f: Lookup): Result<UserId, GoogleError>
    requires Answers(s, profile, f)
  {
    if profile.email.None? then Err(NoEmail)
    else if !profile.emailVerified then Err(GoogleEmailNotVerified)
    else if f.bySubject.Some? then Ok(s.accounts[f.bySubject.value].user)
    else if f.byEmail.Some? then
      if s.users[f.byEmail.value].isVerified then Ok(f.byEmail.value) else Err(LocalNotVerified)
    else Ok(f.newUser)
  }

  /** Who a sign-in signs in. A suspended user is refused last, when the identity is
      linked already. */
  function SignInVerdict(s: State, profile: Profile, f: Lookup): Result<UserId, GoogleError>
    requires Answers(s, profile, f)
  {
    var matched := Match(s, profile, f);
    if matched.Ok? && matched.value in s.users && !s.users[matched.value].active then Err(UserSuspended) else matched
  }

  /** The account row a link writes: the one the user has, with the new subject if the
      profile carries one, or a new row. */
  function Linked(s: State, u: UserId, profile: Profile, existing: Option<AccountId>,
                  newAccount: AccountId): map<AccountId, Account> {
    if existing.Some? && existing.value in s.accounts then
      s.accounts[existing.value := Account(u,
        if profile.subject.Some? then profile.subject else s.accounts[existing.value].subject)]
    else s.accounts[newAccount := Account(u, profile.subject)]
  }

  function AfterSignIn(s: State, profile: Profile, f: Lookup): State
    requires Answers(s, profile, f)
  {
    if Match(s, profile, f).Err? || f.bySubject.Some? then s
    else if f.byEmail.Some? then
      s.(accounts := Linked(s, f.byEmail.value, profile, f.byUser, f.newAccount))
    else
      State(s.users[f.newUser := User(profile.email.value, false, GOOGLE, true, true)],
            Linked(s, f.newUser, profile, None, f.newAccount))
  }

  /** A disconnect is refused for nothing linked, and for the last counted method. */
  predicate MayDisconnect(s: State, u: UserId)
    requires u in s.users
  {
    AccountsOf(s, u) != {} && s.users[u].hasPassword
  }

  function Next(s: State, e: Event): State
    requires Enabled(s, e)
  {
    match e
    case Register(u, email) => s.(users := s.users[u := User(email, true, CREDENTIALS, false, true)])
    case VerifyEmail(u) => s.(users := s.users[u := s.users[u].(isVerified := true)])
    case GoogleSignIn(profile, f) => AfterSignIn(s, profile, f)
    case ChangeEmail(u, email) => s.(users := s.users[u := s.users[u].(email := email)])
    case PutPassword(u) => s.(users := s.users[u := s.users[u].(hasPassword := true)])
    case SetActive(u, active) => s.(users := s.users[u := s.users[u].(active := active)])
    case Disconnect(u) => if MayDisconnect(s, u) then s.(accounts := s.accounts - AccountsOf(s, u)) else s
    case DeleteAccount(u) => State(s.users - {u}, s.accounts - AccountsOf(s, u))
  }

  predicate IsRun(s: State, es: seq<Event>)
    decreases |es|
  {
    es != [] ==> Enabled(s, es[0]) && IsRun(Next(s, es[0]), es[1..])
  }

  function After(s: State, es: seq<Event>): State
    requires IsRun(s, es)
    decreases |es|
  {
    if es == [] then s else After(Next(s, es[0]), es[1..])
  }

  lemma RunCons(s: State, e: Event, es: seq<Event>)
    requires Enabled(s, e) && IsRun(Next(s, e), es)
    ensures IsRun(s, [e] + es) && After(s, [e] + es) == After(Next(s, e), es)
  {
    assert ([e] + es)[1..] == es;
  }

  // ---- Identities stay separate, and nobody loses the last method ----

  predicate EmailsDiffer(s: State) {
    forall u, v :: u in s.users && v in s.users && u != v ==> s.users[u].email != s.users[v].email
  }

  predicate LinksAreOwned(s: State) {
    forall a :: a in s.accounts ==> s.accounts[a].user in s.users && s.users[s.accounts[a].user].isVerified
  }

  ghost predicate IdentitiesDiffer(s: State) {
    forall a, b :: a in s.accounts && b in s.accounts && a != b ==> DifferentIdentities(s.accounts[a], s.accounts[b])
  }

  ghost predicate AllKeepMethod(s: State) {
    forall u :: u in s.users ==> KeepsMethod(s, u)
  }

  ghost predicate Inv(s: State) {
    EmailsDiffer(s) && LinksAreOwned(s) && IdentitiesDiffer(s) && AllKeepMethod(s)
  }

  ghost predicate DifferentIdentities(a: Account, b: Account) {
    a.user != b.user && (a.subject.Some? ==> a.subject != b.subject)
  }

  ghost predicate KeepsMethod(s: State, u: UserId) {
    u in s.users && (s.users[u].hasPassword || exists a :: a in s.accounts && s.accounts[a].user == u)
  }

  predicate SameSubject(a: Account, b: Account) {
    a.subject.Some? && a.subject == b.subject
  }

  lemma OneRow(s: State, a: AccountId, b: AccountId)
    requires Inv(s) && a in s.accounts && b in s.accounts
    requires s.accounts[a].user == s.accounts[b].user || SameSubject(s.accounts[a], s.accounts[b])
    ensures a == b
  {
    assert a != b ==> DifferentIdentities(s.accounts[a], s.accounts[b]);
  }

  /** Nobody loses a linked account or a password. */
  ghost predicate MethodsGrow(s: State, t: State) {
    && (forall u :: u in s.users && u in t.users && s.users[u].hasPassword ==> t.users[u].hasPassword)
    && (forall a :: a in s.accounts ==> a in t.accounts && t.accounts[a].user == s.accounts[a].user)
  }

  lemma MethodStays(s: State, t: State, u: UserId)
    requires MethodsGrow(s, t) && KeepsMethod(s, u) && u in t.users
    ensures KeepsMethod(t, u)
  {
    if !t.users[u].hasPassword {
      var a :| a in s.accounts && s.accounts[a].user == u;
      assert a in t.accounts && t.accounts[a].user == u;
    }
  }

  lemma LinkDiffers(s: State, profile: Profile, f: Lookup)
    requires Inv(s) && Answers(s, profile, f) && Match(s, profile, f).Ok? && f.bySubject.None?
    ensures IdentitiesDiffer(AfterSignIn(s, profile, f))
  {
    var t := AfterSignIn(s, profile, f);
    forall a, b | a in t.accounts && b in t.accounts && a != b
      ensures DifferentIdentities(t.accounts[a], t.accounts[b])
    {
      if a in s.accounts && b in s.accounts { assert DifferentIdentities(s.accounts[a], s.accounts[b]); }
    }
  }

  lemma LinkKeeps(s: State, profile: Profile, f: Lookup)
    requires Inv(s) && Answers(s, profile, f) && Match(s, profile, f).Ok? && f.bySubject.None? && f.byEmail.Some?
    ensures Inv(AfterSignIn(s, profile, f))
  {
    var t := AfterSignIn(s, profile, f);
    LinkDiffers(s, profile, f);
    forall u | u in t.users ensures KeepsMethod(t, u) { MethodStays(s, t, u); }
  }

  lemma SignUpKeeps(s: State, profile: Profile, f: Lookup)
    requires Inv(s) && Answers(s, profile, f) && Match(s, profile, f).Ok? && f.bySubject.None? && f.byEmail.None?
    ensures Inv(AfterSignIn(s, profile, f))
  {
    var t := AfterSignIn(s, profile, f);
    LinkDiffers(s, profile, f);
    assert t.accounts[f.newAccount].user == f.newUser;
    forall u | u in t.users ensures KeepsMethod(t, u) {
      if u != f.newUser { MethodStays(s, t, u); }
    }
    forall u | u in s.users ensures s.users[u].email != profile.email.value {
      assert !EmailTaken(s, profile.email.value);
    }
  }

  lemma RemovalKeeps(s: State, e: Event)
    requires Inv(s) && Enabled(s, e) && (e.Disconnect? || e.DeleteAccount?)
    ensures Inv(Next(s, e))
  {
    var t := Next(s, e);
    forall u | u in t.users ensures KeepsMethod(t, u) {
      assert KeepsMethod(s, u);
      if !t.users[u].hasPassword {
        var a :| a in s.accounts && s.accounts[a].user == u;
        assert a in t.accounts && t.accounts[a].user == u;
      }
    }
  }

  lemma OtherKeeps(s: State, e: Event)
    requires Inv(s) && Enabled(s, e) && !e.GoogleSignIn? && !e.Disconnect? && !e.DeleteAccount?
    ensures Inv(Next(s, e))
  {
    var t := Next(s, e);
    forall u | u in t.users ensures KeepsMethod(t, u) {
      if u in s.users { MethodStays(s, t, u); }
    }
  }

  lemma StepKeeps(s: State, e: Event)
    requires Inv(s) && Enabled(s, e)
    ensures Inv(Next(s, e))
  {
    if e.Disconnect? || e.DeleteAccount? {
      RemovalKeeps(s, e);
    } else if !e.GoogleSignIn? {
      OtherKeeps(s, e);
    } else if Match(s, e.profile, e.found).Ok? && e.found.bySubject.None? {
      if e.found.byEmail.Some? { LinkKeeps(s, e.profile, e.found); } else { SignUpKeeps(s, e.profile, e.found); }
    }
  }

  lemma {:induction false} RunKeeps(s: State, es: seq<Event>)
    requires Inv(s) && IsRun(s, es)
    ensures Inv(After(s, es))
    decreases |es|
  {
    if es != [] {
      StepKeeps(s, es[0]);
      RunKeeps(Next(s, es[0]), es[1..]);
    }
  }

  /** In every reachable state a user has at most one Google row, a subject belongs to
      at most one user, and every user keeps a password or a linked account. */
  lemma IdentitiesAreSeparate(es: seq<Event>)
    requires IsRun(Initial, es)
    ensures var s := After(Initial, es);
      && (forall a, b :: a in s.accounts && b in s.accounts && s.accounts[a].user == s.accounts[b].user ==> a == b)
      && (forall a, b :: a in s.accounts && b in s.accounts && SameSubject(s.accounts[a], s.accounts[b]) ==>
            s.accounts[a].user == s.accounts[b].user)
      && (forall u :: u in s.users ==> s.users[u].hasPassword || AccountsOf(s, u) != {})
  {
    RunKeeps(Initial, es);
    var s := After(Initial, es);
    forall a, b | a in s.accounts && b in s.accounts
      && (s.accounts[a].user == s.accounts[b].user || SameSubject(s.accounts[a], s.accounts[b])) ensures a == b {
      OneRow(s, a, b);
    }
    forall u | u in s.users && !s.users[u].hasPassword ensures AccountsOf(s, u) != {} {
      assert KeepsMethod(s, u);
      var a :| a in s.accounts && s.accounts[a].user == u;
      assert a in AccountsOf(s, u);
    }
  }

  // ---- A subject keeps its user ----

  ghost predicate RoutesTo(s: State, sub: Subject, u: UserId) {
    exists a :: a in s.accounts && s.accounts[a] == Account(u, Some(sub))
  }

  /** The step unlinks the user, deletes it, or gives its row another subject. */
  predicate Unroutes(s: State, e: Event, sub: Subject, u: UserId)
    requires Enabled(s, e)
  {
    || e == Disconnect(u)
    || e == DeleteAccount(u)
    || (e.GoogleSignIn? && Match(s, e.profile, e.found) == Ok(u) && e.found.bySubject.None?
        && e.profile.subject.Some? && e.profile.subject != Some(sub))
  }

  predicate NeverUnrouted(s: State, es: seq<Event>, sub: Subject, u: UserId)
    requires IsRun(s, es)
    decreases |es|
  {
    es != [] ==> !Unroutes(s, es[0], sub, u) && NeverUnrouted(Next(s, es[0]), es[1..], sub, u)
  }

  lemma RouteStep(s: State, e: Event, sub: Subject, u: UserId)
    requires Inv(s) && Enabled(s, e) && RoutesTo(s, sub, u) && !Unroutes(s, e, sub, u)
    ensures RoutesTo(Next(s, e), sub, u)
  {
    var a :| a in s.accounts && s.accounts[a] == Account(u, Some(sub));
    var t := Next(s, e);
    if e.GoogleSignIn? && e.found.byUser == Some(a) && Match(s, e.profile, e.found).Ok? && e.found.bySubject.None? {
      assert e.found.byEmail == Some(u);
    }
    assert a in t.accounts && t.accounts[a] == Account(u, Some(sub));
  }

  lemma {:induction false} RoutePersists(s: State, es: seq<Event>, sub: Subject, u: UserId)
    requires Inv(s) && IsRun(s, es) && RoutesTo(s, sub, u) && NeverUnrouted(s, es, sub, u)
    ensures Inv(After(s, es)) && RoutesTo(After(s, es), sub, u)
    decreases |es|
  {
    if es != [] {
      StepKeeps(s, es[0]);
      RouteStep(s, es[0], sub, u);
      RoutePersists(Next(s, es[0]), es[1..], sub, u);
    }
  }

  /** Once linked, a subject signs in the same user, whatever either side's email has
      become, until the link is cut or replaced. */
  lemma SubjectKeepsItsUser(s: State, es: seq<Event>, sub: Subject, u: UserId, profile: Profile, f: Lookup)
    requires Inv(s) && IsRun(s, es) && RoutesTo(s, sub, u) && NeverUnrouted(s, es, sub, u)
    requires Answers(After(s, es), profile, f)
    requires profile.subject == Some(sub) && profile.email.Some? && profile.emailVerified
    ensures var t := After(s, es);
      && u in t.users && Match(t, profile, f) == Ok(u) && AfterSignIn(t, profile, f) == t
      && SignInVerdict(t, profile, f) == if t.users[u].active then Ok(u) else Err(UserSuspended)
  {
    RoutePersists(s, es, sub, u);
    var t := After(s, es);
    var a :| a in t.accounts && t.accounts[a] == Account(u, Some(sub));
    if f.bySubject.Some? { OneRow(t, a, f.bySubject.value); }
  }

  // ---- An address nobody has verified ----

  /** The user came by a password form and has not been verified. */
  ghost predicate Unproven(s: State, u: UserId) {
    u in s.users && s.users[u].signUpMethod == CREDENTIALS ==> !s.users[u].isVerified
  }

  lemma UnprovenStep(s: State, e: Event, u: UserId)
    requires Enabled(s, e) && Unproven(s, u) && e != VerifyEmail(u)
    ensures Unproven(Next(s, e), u)
  {
  }

  lemma {:induction false} UnprovenRun(s: State, es: seq<Event>, u: UserId)
    requires IsRun(s, es) && Unproven(s, u) && VerifyEmail(u) !in es
    ensures Unproven(After(s, es), u)
    decreases |es|
  {
    if es != [] {
      UnprovenStep(s, es[0], u);
      UnprovenRun(Next(s, es[0]), es[1..], u);
    }
  }

  /** Registering an address does not make it one's own: in every run without its
      verification, a registered user is linked to no Google identity and lets none in. */
  lemma UnverifiedIsNeverAdopted(es: seq<Event>, u: UserId, profile: Profile, f: Lookup)
    requires IsRun(Initial, es) && VerifyEmail(u) !in es
    requires u in After(Initial, es).users && After(Initial, es).users[u].signUpMethod == CREDENTIALS
    requires Answers(After(Initial, es), profile, f)
    ensures AccountsOf(After(Initial, es), u) == {} && Match(After(Initial, es), profile, f) != Ok(u)
  {
    RunKeeps(Initial, es);
    UnprovenRun(Initial, es, u);
  }

  /** What is done to one user leaves every other user's row and links as they were, and
      changes one column of their own at most. */
  lemma OneColumnOfOneUser(s: State, e: Event, v: UserId)
    requires Enabled(s, e) && !e.GoogleSignIn? && v in s.users
    ensures v != e.u || (!e.Disconnect? && !e.DeleteAccount?) ==>
              AccountsOf(Next(s, e), v) == AccountsOf(s, v)
              && forall a :: a in AccountsOf(s, v) ==> Next(s, e).accounts[a] == s.accounts[a]
    ensures v in Next(s, e).users <==> e != DeleteAccount(v)
    ensures e != DeleteAccount(v) ==>
              var before, after := s.users[v], Next(s, e).users[v];
              && after.signUpMethod == before.signUpMethod
              && (after.isVerified <==> before.isVerified || e == VerifyEmail(v))
              && (after.hasPassword <==> before.hasPassword || e == PutPassword(v))
              && after.email == (if e.ChangeEmail? && e.u == v then e.email else before.email)
              && after.active == (if e.SetActive? && e.u == v then e.active else before.active)
  {
  }

  // ---- What a sign-in decides, told by the rows alone ----

  ghost predicate Presentable(profile: Profile) {
    profile.email.Some? && profile.emailVerified
  }

  /** The row carries the profile's subject. */
  ghost predicate Known(s: State, profile: Profile, a: AccountId) {
    a in s.accounts && profile.subject.Some? && s.accounts[a].subject == profile.subject
  }

  /** A verified address is needed; then the subject decides, then the address, for
      verified users only; a stranger becomes a new user; the suspended are refused last. */
  lemma SignInDecides(s: State, profile: Profile, f: Lookup)
    requires Inv(s) && Answers(s, profile, f)
    ensures var r := SignInVerdict(s, profile, f);
      && (profile.email.None? <==> r == Err(NoEmail))
      && (profile.email.Some? && !profile.emailVerified <==> r == Err(GoogleEmailNotVerified))
      && (forall a :: Presentable(profile) && Known(s, profile, a) ==>
            s.accounts[a].user in s.users
            && r == if s.users[s.accounts[a].user].active then Ok(s.accounts[a].user) else Err(UserSuspended))
      && (forall u ::
            Presentable(profile) && (forall a :: !Known(s, profile, a))
            && u in s.users && s.users[u].email == profile.email.value ==>
              r == if !s.users[u].isVerified then Err(LocalNotVerified)
                   else if s.users[u].active then Ok(u) else Err(UserSuspended))
      && (Presentable(profile) && (forall a :: !Known(s, profile, a))
          && (forall u :: u in s.users ==> s.users[u].email != profile.email.value) ==>
            r == Ok(f.newUser) && f.newUser !in s.users)
  {
    forall a | Known(s, profile, a) && f.bySubject.Some? ensures a == f.bySubject.value {
      OneRow(s, a, f.bySubject.value);
    }
    if f.bySubject.Some? { assert Known(s, profile, f.bySubject.value); }
  }

  /** The user has one row in the new table, with the profile's subject if it carries one;
      all other users' rows are as before. */
  ghost predicate LinksOne(s: State, t: State, u: UserId, profile: Profile) {
    && (forall a :: a in t.accounts && t.accounts[a].user != u ==> a in s.accounts && t.accounts[a] == s.accounts[a])
    && (forall a :: a in s.accounts ==> a in t.accounts && (s.accounts[a].user != u ==> t.accounts[a] == s.accounts[a]))
    && (exists a ::
          && a in t.accounts && t.accounts[a].user == u
          && (profile.subject.Some? ==> t.accounts[a].subject == profile.subject))
  }

  /** Only a sign-in that finds its user by address links them, and only one that finds
      nobody creates a user: verified, active, without a password. */
  lemma SignInLinks(s: State, profile: Profile, f: Lookup)
    requires Inv(s) && Answers(s, profile, f)
    ensures var t := Next(s, GoogleSignIn(profile, f));
      && (!Presentable(profile) || (exists a :: Known(s, profile, a)) ==> t == s)
      && (forall u ::
            Presentable(profile) && (forall a :: !Known(s, profile, a))
            && u in s.users && s.users[u].email == profile.email.value ==>
              t.users == s.users && if s.users[u].isVerified then LinksOne(s, t, u, profile) else t == s)
      && (Presentable(profile) && (forall a :: !Known(s, profile, a))
          && (forall u :: u in s.users ==> s.users[u].email != profile.email.value) ==>
            && t.users == s.users[f.newUser := User(profile.email.value, false, GOOGLE, true, true)]
            && t.accounts == s.accounts[f.newAccount := Account(f.newUser, profile.subject)])
  {
    var t := Next(s, GoogleSignIn(profile, f));
    if Presentable(profile) && f.bySubject.Some? { assert Known(s, profile, f.bySubject.value); }
    if Presentable(profile) && f.bySubject.None? && f.byEmail.Some? && s.users[f.byEmail.value].isVerified {
      var row := if f.byUser.Some? then f.byUser.value else f.newAccount;
      assert row in t.accounts && t.accounts[row].user == f.byEmail.value;
      assert LinksOne(s, t, f.byEmail.value, profile);
    }
  }

  // ---- Counted and usable methods ----

  /** What the password sign-in asks of the row before it looks at a password. */
  predicate PasswordSignInOpen(s: State, u: UserId)
    requires u in s.users
  {
    SignInOpen(s.users[u].signUpMethod, s.users[u].hasPassword)
  }

  /** The password form lets the user through, given the right password. */
  predicate PasswordLetsIn(s: State, u: UserId)
    requires u in s.users
  {
    PasswordSignInOpen(s, u) && s.users[u].active && s.users[u].isVerified
  }

  /** The user can sign in by one form or the other, with this Google identity. */
  predicate CanSignIn(s: State, u: UserId, profile: Profile, f: Lookup)
    requires u in s.users && Answers(s, profile, f)
  {
    PasswordLetsIn(s, u) || SignInVerdict(s, profile, f) == Ok(u)
  }

  /** A verified Google identity that is linked to nobody but the user. */
  ghost predicate OwnIdentity(s: State, u: UserId, profile: Profile) {
    && profile.email.Some? && profile.emailVerified
    && (forall a :: a in s.accounts && profile.subject.Some? && s.accounts[a].subject == profile.subject ==>
          s.accounts[a].user == u)
  }

  lemma UserOfEmail(s: State, u: UserId, profile: Profile, f: Lookup)
    requires Inv(s) && u in s.users && Answers(s, profile, f)
    ensures profile.email == Some(s.users[u].email) ==> f.byEmail == Some(u)
    ensures profile.email != Some(s.users[u].email) ==> f.byEmail != Some(u) || profile.email.None?
  {
    if profile.email == Some(s.users[u].email) { assert EmailTaken(s, profile.email.value); }
  }

  lemma UsableAfterDisconnect(s: State, u: UserId, profile: Profile, f: Lookup)
    requires Inv(s) && u in s.users && MayDisconnect(s, u) && OwnIdentity(s, u, profile)
    requires Answers(Next(s, Disconnect(u)), profile, f)
    ensures CanSignIn(Next(s, Disconnect(u)), u, profile, f) <==>
              s.users[u].active && (s.users[u].signUpMethod == CREDENTIALS || profile.email == Some(s.users[u].email))
  {
    var t := Next(s, Disconnect(u));
    StepKeeps(s, Disconnect(u));
    UserOfEmail(t, u, profile, f);
    var linked :| linked in AccountsOf(s, u);
    assert s.users[u].isVerified by { assert s.accounts[linked].user == u; }
    assert f.bySubject.None?;
  }

  /** What an accepted disconnect leaves in any reachable state: no linked account, and a
      password that is counted. With the Google identity that was linked, or any other
      that is nobody else's, the user can still sign in if and only if they are active and
      either signed up with a password or have that identity's address as their own. In
      the latter case the identity is found by its address and linked again. */
  lemma DisconnectLeavesUsableIff(es: seq<Event>, u: UserId, profile: Profile, f: Lookup)
    requires IsRun(Initial, es) && u in After(Initial, es).users && MayDisconnect(After(Initial, es), u)
    requires OwnIdentity(After(Initial, es), u, profile)
    requires Answers(Next(After(Initial, es), Disconnect(u)), profile, f)
    ensures var s := After(Initial, es); var t := Next(s, Disconnect(u));
      && AccountsOf(t, u) == {} && KeepsMethod(t, u)
      && (PasswordSignInOpen(t, u) <==> s.users[u].signUpMethod == CREDENTIALS)
      && (CanSignIn(t, u, profile, f) <==>
            s.users[u].active && (s.users[u].signUpMethod == CREDENTIALS || profile.email == Some(s.users[u].email)))
  {
    RunKeeps(Initial, es);
    UsableAfterDisconnect(After(Initial, es), u, profile, f);
  }

  /** A Google sign-up that sets a password and disconnects Google is let through, and
      then has no linked account and no open password form. */
  lemma CountedButNotUsable() returns (es: seq<Event>, u: UserId)
    ensures IsRun(Initial, es) && u in After(Initial, es).users
    ensures AccountsOf(After(Initial, es), u) == {} && !PasswordSignInOpen(After(Initial, es), u)
  {
    u := 0;
    var profile := Profile(Some("g"), Some("a@b"), true);
    var signUp := GoogleSignIn(profile, Lookup(None, None, None, 0, 0));
    var s1 := Next(Initial, signUp);
    var s2 := Next(s1, PutPassword(0));
    assert 0 in AccountsOf(s2, 0);
    var s3 := Next(s2, Disconnect(0));
    RunCons(s2, Disconnect(0), []);
    RunCons(s1, PutPassword(0), [Disconnect(0)] + []);
    es := [signUp] + ([PutPassword(0)] + ([Disconnect(0)] + []));
    RunCons(Initial, signUp, [PutPassword(0)] + ([Disconnect(0)] + []));
    assert After(Initial, es) == s3;
  }

  /** If the user has also moved to another address, nothing is left: the password form
      is closed, and the Google identity they came with is made a new user. */
  lemma DisconnectLocksOut() returns (es: seq<Event>, u: UserId, profile: Profile)
    ensures IsRun(Initial, es + [Disconnect(u)])
    ensures IsRun(Initial, es) && profile.subject.Some? && RoutesTo(After(Initial, es), profile.subject.value, u)
    ensures var t := After(Initial, es + [Disconnect(u)]);
      && u in t.users && t.users[u].active && t.users[u].isVerified && t.users[u].hasPassword
      && (forall f :: Answers(t, profile, f) ==>
            !CanSignIn(t, u, profile, f) && SignInVerdict(t, profile, f) == Ok(f.newUser) && f.newUser != u)
  {
    u, profile := 0, Profile(Some("g"), Some("a@b"), true);
    var e0 := GoogleSignIn(profile, Lookup(None, None, None, 0, 0));
    var e1, e2, e3 := PutPassword(0), ChangeEmail(0, "c@d"), Disconnect(0);
    var s1 := Next(Initial, e0);
    var s2 := Next(s1, e1);
    assert "a@b"[0] != "c@d"[0];
    var s3 := Next(s2, e2);
    assert s3.accounts[0] == Account(0, Some("g")) && 0 in AccountsOf(s3, 0);
    var t := Next(s3, e3);
    RunFour(e0, e1, e2, e3);
    es := [e0, e1, e2];
    assert es + [e3] == [e0, e1, e2, e3];
    forall f | Answers(t, profile, f)
      ensures !CanSignIn(t, u, profile, f) && SignInVerdict(t, profile, f) == Ok(f.newUser) && f.newUser != u
    {
      assert f.bySubject.None? && f.byEmail.None?;
    }
  }

  lemma RunFour(e0: Event, e1: Event, e2: Event, e3: Event)
    requires Enabled(Initial, e0) && Enabled(Next(Initial, e0), e1) && Enabled(Next(Next(Initial, e0), e1), e2)
    requires Enabled(Next(Next(Next(Initial, e0), e1), e2), e3)
    ensures IsRun(Initial, [e0, e1, e2]) && After(Initial, [e0, e1, e2]) == Next(Next(Next(Initial, e0), e1), e2)
    ensures IsRun(Initial, [e0, e1, e2, e3])
    ensures After(Initial, [e0, e1, e2, e3]) == Next(Next(Next(Next(Initial, e0), e1), e2), e3)
  {
    var s1 := Next(Initial, e0);
    var s2 := Next(s1, e1);
    var s3 := Next(s2, e2);
    RunCons(s3, e3, []);
    RunCons(s2, e2, [e3] + []);
    RunCons(s1, e1, [e2] + ([e3] + []));
    RunCons(Initial, e0, [e1] + ([e2] + ([e3] + [])));
    assert [e0, e1, e2, e3] == [e0] + ([e1] + ([e2] + ([e3] + [])));
    RunCons(s2, e2, []);
    RunCons(s1, e1, [e2] + []);
    RunCons(Initial, e0, [e1] + ([e2] + []));
    assert [e0, e1, e2] == [e0] + ([e1] + ([e2] + []));
  }

  // ---- The service ----

  /** The two look-ups every sign-in makes, and the one a link makes. */
  lemma WholeLookup(s: State, profile: Profile, bySubject: Option<AccountId>, byEmail: Option<UserId>, newUser: UserId,
                    newAccount: AccountId) returns (f: Lookup)
    requires newUser !in s.users && newAccount !in s.accounts
    requires if bySubject.Some?
             then bySubject.value in s.accounts && profile.subject.Some?
                  && s.accounts[bySubject.value].subject == profile.subject
             else profile.subject.Some? ==> forall a :: a in s.accounts ==> s.accounts[a].subject != profile.subject
    requires if byEmail.Some?
             then byEmail.value in s.users && profile.email == Some(s.users[byEmail.value].email)
             else profile.email.Some? ==> !EmailTaken(s, profile.email.value)
    ensures Answers(s, profile, f) && f == Lookup(bySubject, byEmail, f.byUser, newUser, newAccount)
  {
    f := Lookup(bySubject, byEmail, None, newUser, newAccount);
    if byEmail.Some? {
      if a :| a in s.accounts && s.accounts[a].user == byEmail.value { f := f.(byUser := Some(a)); }
    }
  }

  class AccountLinks {
    var users: map<UserId, User>
    var accounts: map<AccountId, Account>

    ghost function Snapshot(): State
      reads this
    {
      State(users, accounts)
    }

    ghost predicate Valid()
      reads this
    {
      Inv(Snapshot())
    }

    method FindAccount(p: Account -> bool) returns (r: Option<AccountId>)
      ensures if r.Some? then r.value in accounts && p(accounts[r.value])
              else forall a :: a in accounts ==> !p(accounts[a])
    {
      var left := accounts.Keys;
      while left != {}
        invariant left <= accounts.Keys && forall a :: a in accounts && a !in left ==> !p(accounts[a])
        decreases |left|
      {
        var a :| a in left;
        if p(accounts[a]) { return Some(a); }
        left := left - {a};
      }
      return None;
    }

    method FindByEmail(email: Email) returns (r: Option<UserId>)
      ensures if r.Some? then r.value in users && users[r.value].email == email else !EmailTaken(Snapshot(), email)
    {
      var left := users.Keys;
      while left != {}
        invariant left <= users.Keys && forall u :: u in users && u !in left ==> users[u].email != email
        decreases |left|
      {
        var u :| u in left;
        if users[u].email == email { return Some(u); }
        left := left - {u};
      }
      return None;
    }

    method LinkGoogleAccount(u: UserId, profile: Profile, newAccount: AccountId) returns (existing: Option<AccountId>)
      modifies this`accounts
      ensures if existing.Some? then existing.value in old(accounts) && old(accounts[existing.value]).user == u
              else forall a :: a in old(accounts) ==> old(accounts)[a].user != u
      ensures accounts == old(Linked(Snapshot(), u, profile, existing, newAccount))
    {
      existing := FindAccount((a: Account) => a.user == u);
      if existing.Some? {
        var row := accounts[existing.value];
        accounts := accounts[existing.value :=
          row.(subject := if profile.subject.Some? then profile.subject else row.subject)];
      } else {
        accounts := accounts[newAccount := Account(u, profile.subject)];
      }
    }

    /** The end of every Google sign-in, before its session is issued. */
    method LoginGoogleUser(u: UserId) returns (r: Result<UserId, GoogleError>)
      requires u in users
      ensures r == if users[u].active then Ok(u) else Err(UserSuspended)
    {
      if !users[u].active { return Err(UserSuspended); }
      return Ok(u);
    }

    method FindOrCreateGoogleUser(profile: Profile, newUser: UserId, newAccount: AccountId)
      returns (r: Result<UserId, GoogleError>, ghost f: Lookup)
      requires Valid() && newUser !in users && newAccount !in accounts
      modifies this
      ensures Valid()
      ensures Answers(old(Snapshot()), profile, f)
      ensures r == SignInVerdict(old(Snapshot()), profile, f)
      ensures Snapshot() == Next(old(Snapshot()), GoogleSignIn(profile, f))
    {
      ghost var s := Snapshot();
      var byEmail: Option<UserId> := None;
      var bySubject: Option<AccountId> := None;
      if profile.email.Some? { byEmail := FindByEmail(profile.email.value); }
      if profile.subject.Some? { bySubject := FindAccount((a: Account) => a.subject == profile.subject); }
      f := WholeLookup(s, profile, bySubject, byEmail, newUser, newAccount);
      StepKeeps(s, GoogleSignIn(profile, f));
      if profile.email.None? { return Err(NoEmail), f; }
      if !profile.emailVerified { return Err(GoogleEmailNotVerified), f; }
      if bySubject.Some? {
        r := LoginGoogleUser(accounts[bySubject.value].user);
        return r, f;
      }
      if byEmail.Some? {
        if !users[byEmail.value].isVerified { return Err(LocalNotVerified), f; }
        var existing := LinkGoogleAccount(byEmail.value, profile, newAccount);
        assert existing == f.byUser by {
          if existing.Some? && f.byUser.Some? { OneRow(s, existing.value, f.byUser.value); }
        }
        r := LoginGoogleUser(byEmail.value);
        return r, f;
      }
      users := users[newUser := User(profile.email.value, false, GOOGLE, true, true)];
      var existing := LinkGoogleAccount(newUser, profile, newAccount);
      r := LoginGoogleUser(newUser);
      return r, f;
    }

    method DisconnectProvider(u: UserId) returns (ok: bool)
      requires Valid()
      modifies this`accounts
      ensures Valid()
      ensures ok <==> u in users && users[u].hasPassword && exists a :: a in old(accounts) && old(accounts)[a].user == u
      ensures accounts.Keys == set a | a in old(accounts) && (ok ==> old(accounts)[a].user != u)
      ensures forall a :: a in accounts ==> accounts[a] == old(accounts)[a]
      ensures Snapshot() == if u in users then Next(old(Snapshot()), Disconnect(u)) else old(Snapshot())
    {
      if u !in users { return false; }
      StepKeeps(Snapshot(), Disconnect(u));
      var linked := set a | a in accounts && accounts[a].user == u;
      assert forall a :: a in accounts && accounts[a].user == u ==> a in linked;
      if |linked| == 0 { return false; }
      var remaining := if users[u].hasPassword then 1 else 0;
      if remaining == 0 { return false; }
      accounts := accounts - linked;
      return true;
    }
  }
}
