/**
 Two-factor sign-in: the per-token guess budget and the single-use backup codes. Each
 verification, enablement, regeneration and disablement is one step.
 */
module TwoFactor {
  import opened Wrappers

  type UserId = nat
  type TokenId = nat
  type CodeId = nat

  const MAX_VERIFY_ATTEMPTS_PER_TOKEN := 5
  const BACKUP_CODE_COUNT := 10

  /** The row that tracks one pre-authentication token. */
  datatype Attempt = Attempt(user: UserId, attempts: nat, consumed: bool, expiresAt: int)

  datatype BackupCode = BackupCode(user: UserId, hash: string, used: bool)

  datatype Evaluation = Evaluation(token: TokenId, success: bool)

  /** `evaluations` and `redeemed` are history: each code that was actually checked, and
      each backup-code row used; `tokensIssued` and `codesIssued` keep ids fresh. */
  datatype State = State(
    attempts: map<TokenId, Attempt>,
    codes: map<CodeId, BackupCode>,
    enabled: set<UserId>,
    suspended: set<UserId>,
    now: int,
    tokensIssued: set<TokenId>,
    codesIssued: set<CodeId>,
    evaluations: seq<Evaluation>,
    redeemed: seq<CodeId>)

  datatype Proof = Totp(valid: bool) | Backup(typed: string, row: Option<CodeId>)

  datatype VerifyError = InvalidSession | Suspended | NotConfigured | InvalidCode

  datatype Event =
    | IssueToken(token: TokenId, user: UserId, expiresAt: int)
    | Verify(token: TokenId, proof: Proof)
    | IssueCodes(user: UserId, hashes: map<CodeId, string>)
    | Disable(user: UserId)
    | SetSuspended(users: set<UserId>)
    | Sweep(tokens: set<TokenId>)
    | Tick(d: nat)

  /** Codes are shown as xxxx-xxxx and hashed without the first hyphen typed. */
  function HashBackupCode(code: string): string
    decreases |code|
  {
    if code == "" then ""
    else if code[0] == '-' then code[1..]
    else [code[0]] + HashBackupCode(code[1..])
  }

  function Shown(raw: string): string
    requires |raw| >= 4
  {
    raw[..4] + "-" + raw[4..]
  }

  lemma {:induction false} HashSkipsHyphen(a: string, b: string)
    requires '-' !in a
    ensures HashBackupCode(a + "-" + b) == a + b
  {
    if a == "" {
      assert (a + "-" + b)[1..] == b;
    } else {
      HashSkipsHyphen(a[1..], b);
      assert (a + "-" + b)[1..] == a[1..] + "-" + b;
      assert a + b == [a[0]] + (a[1..] + b);
    }
  }

  lemma {:induction false} HashKeepsPlain(a: string)
    requires '-' !in a
    ensures HashBackupCode(a) == a
  {
    if a != "" { HashKeepsPlain(a[1..]); }
  }

  /** A code matches as shown and as typed without its hyphen, and two codes with
      different digits never match each other. */
  lemma HyphenIsOptional(raw: string, raw': string)
    requires |raw| == |raw'| == 8 && '-' !in raw && '-' !in raw'
    ensures HashBackupCode(Shown(raw)) == HashBackupCode(raw)
    ensures HashBackupCode(Shown(raw)) == HashBackupCode(Shown(raw')) ==> raw == raw'
  {
    HashSkipsHyphen(raw[..4], raw[4..]);
    HashSkipsHyphen(raw'[..4], raw'[4..]);
    HashKeepsPlain(raw);
    assert raw == raw[..4] + raw[4..] && raw' == raw'[..4] + raw'[4..];
  }

  function OthersCodes(codes: map<CodeId, BackupCode>, u: UserId): map<CodeId, BackupCode> {
    codes - (set c | c in codes && codes[c].user == u)
  }

  function UnusedCodes(u: UserId, hashes: map<CodeId, string>): map<CodeId, BackupCode> {
    map c | c in hashes :: BackupCode(u, hashes[c], false)
  }

  /** The table once the user's rows are replaced by fresh, unused ones. */
  function Replaced(codes: map<CodeId, BackupCode>, u: UserId, hashes: map<CodeId, string>): map<CodeId, BackupCode> {
    OthersCodes(codes, u) + UnusedCodes(u, hashes)
  }

  function CodesOf(s: State, u: UserId): set<CodeId> {
    set c | c in s.codes && s.codes[c].user == u
  }

  predicate Redeemable(s: State, u: UserId, typed: string, c: CodeId) {
    c in s.codes && s.codes[c] == BackupCode(u, HashBackupCode(typed), false)
  }

  /** Everything checked before a code is looked at. */
  function Gate(s: State, token: TokenId): Option<VerifyError> {
    if token !in s.attempts || s.attempts[token].consumed || s.attempts[token].expiresAt < s.now
    then Some(InvalidSession)
    else if s.attempts[token].user in s.suspended then Some(Suspended)
    else if s.attempts[token].user !in s.enabled then Some(NotConfigured)
    else None
  }

  function Correct(proof: Proof): bool {
    match proof
    case Totp(valid) => valid
    case Backup(_, row) => row.Some?
  }

  predicate Enabled(s: State, e: Event) {
    match e
    case IssueToken(token, _, _) => token !in s.tokensIssued
    case Verify(token, Backup(typed, row)) =>
      token in s.attempts ==>
        if row.Some? then Redeemable(s, s.attempts[token].user, typed, row.value)
        else forall c :: c in s.codes ==> !Redeemable(s, s.attempts[token].user, typed, c)
    case IssueCodes(_, hashes) => |hashes| == BACKUP_CODE_COUNT && hashes.Keys !! s.codesIssued
    case _ => true
  }

  function Failed(a: Attempt): Attempt {
    a.(attempts := a.attempts + 1, consumed := a.attempts + 1 >= MAX_VERIFY_ATTEMPTS_PER_TOKEN)
  }

  function Used(s: State, proof: Proof): map<CodeId, BackupCode> {
    if proof.Backup? && proof.row.Some? && proof.row.value in s.codes
    then s.codes[proof.row.value := s.codes[proof.row.value].(used := true)]
    else s.codes
  }

  function Next(s: State, e: Event): State {
    match e
    case IssueToken(token, user, expiresAt) =>
      s.(attempts := s.attempts[token := Attempt(user, 0, false, expiresAt)], tokensIssued := s.tokensIssued + {token})
    case Verify(token, proof) =>
      if Gate(s, token).Some? then s
      else
        var a := s.attempts[token];
        s.(attempts := s.attempts[token := if Correct(proof) then a.(consumed := true) else Failed(a)],
           codes := Used(s, proof),
           evaluations := s.evaluations + [Evaluation(token, Correct(proof))],
           redeemed := if proof.Backup? && proof.row.Some? then s.redeemed + [proof.row.value] else s.redeemed)
    case IssueCodes(user, hashes) =>
      s.(enabled := s.enabled + {user},
         codes := Replaced(s.codes, user, hashes),
         codesIssued := s.codesIssued + hashes.Keys)
    case Disable(user) => s.(enabled := s.enabled - {user}, codes := s.codes - CodesOf(s, user))
    case SetSuspended(users) => s.(suspended := users)
    case Sweep(tokens) => s.(attempts := s.attempts - tokens)
    case Tick(d) => s.(now := s.now + d)
  }

  predicate IsRun(s: State, es: seq<Event>)
    decreases |es|
  {
    es != [] ==> Enabled(s, es[0]) && IsRun(Next(s, es[0]), es[1..])
  }

  function After(s: State, es: seq<Event>): State
    decreases |es|
  {
    if es == [] then s else After(Next(s, es[0]), es[1..])
  }

  const Initial := State(map[], map[], {}, {}, 0, {}, {}, [], [])

  // ---- The guess budget ----

  function Evaluated(log: seq<Evaluation>, token: TokenId): nat {
    if log == [] then 0
    else Evaluated(log[..|log| - 1], token) + (if log[|log| - 1].token == token then 1 else 0)
  }

  ghost predicate Succeeded(log: seq<Evaluation>, token: TokenId) {
    Evaluation(token, true) in log
  }

  /** A token's row accounts for every code checked against it; without a row at most
      the whole budget has been used. */
  ghost predicate BudgetInv(s: State, token: TokenId) {
    var n, done := Evaluated(s.evaluations, token), Succeeded(s.evaluations, token);
    && n <= MAX_VERIFY_ATTEMPTS_PER_TOKEN
    && (token !in s.tokensIssued ==> n == 0 && !done && token !in s.attempts)
    && (token in s.attempts ==>
          var a := s.attempts[token];
          && n == a.attempts + (if done then 1 else 0)
          && (a.consumed <==> done || a.attempts == MAX_VERIFY_ATTEMPTS_PER_TOKEN))
  }

  /** Nothing is checked against a token after a success. */
  ghost predicate SuccessIsLast(log: seq<Evaluation>) {
    forall i, j :: 0 <= i < j < |log| && log[i].success ==> log[j].token != log[i].token
  }

  lemma BudgetStep(s: State, e: Event, token: TokenId)
    requires Enabled(s, e) && BudgetInv(s, token)
    ensures BudgetInv(Next(s, e), token)
  {
  }

  lemma SuccessStep(s: State, e: Event)
    requires Enabled(s, e) && SuccessIsLast(s.evaluations) && (forall token :: BudgetInv(s, token))
    ensures SuccessIsLast(Next(s, e).evaluations)
  {
    if e.Verify? && Gate(s, e.token).None? {
      assert BudgetInv(s, e.token);
      assert !Succeeded(s.evaluations, e.token);
      forall i | 0 <= i < |s.evaluations| && s.evaluations[i].success ensures s.evaluations[i].token != e.token {
        assert s.evaluations[i] == Evaluation(s.evaluations[i].token, true);
      }
    }
  }

  lemma {:induction false} BudgetRun(s: State, es: seq<Event>)
    requires IsRun(s, es) && SuccessIsLast(s.evaluations) && forall token :: BudgetInv(s, token)
    ensures SuccessIsLast(After(s, es).evaluations) && forall token :: BudgetInv(After(s, es), token)
    decreases |es|
  {
    if es != [] {
      forall token ensures BudgetInv(Next(s, es[0]), token) { BudgetStep(s, es[0], token); }
      SuccessStep(s, es[0]);
      BudgetRun(Next(s, es[0]), es[1..]);
    }
  }

  /** Over any run, at most five codes are ever evaluated against one token, at most one
      of them succeeds, and none is evaluated after it. */
  lemma TokenBudget(es: seq<Event>, token: TokenId)
    requires IsRun(Initial, es)
    ensures var log := After(Initial, es).evaluations;
      && Evaluated(log, token) <= 5
      && (forall i, j :: 0 <= i < j < |log| && log[i] == Evaluation(token, true) ==> log[j].token != token)
  {
    BudgetRun(Initial, es);
    assert BudgetInv(After(Initial, es), token);
  }

  /** A token whose row was swept is dead: in no later state is a code checked against it. */
  lemma {:induction false} SweptStaysDead(s: State, es: seq<Event>, token: TokenId)
    requires IsRun(s, es) && token in s.tokensIssued && token !in s.attempts
    ensures token !in After(s, es).attempts
    ensures Evaluated(After(s, es).evaluations, token) == Evaluated(s.evaluations, token)
    decreases |es|
  {
    if es != [] {
      var t := Next(s, es[0]);
      if t.evaluations != s.evaluations { assert t.evaluations[..|t.evaluations| - 1] == s.evaluations; }
      SweptStaysDead(t, es[1..], token);
    }
  }

  lemma SweptIsDead(s: State, tokens: set<TokenId>, es: seq<Event>, token: TokenId)
    requires IsRun(Next(s, Sweep(tokens)), es) && token in tokens && token in s.tokensIssued
    ensures Evaluated(After(Next(s, Sweep(tokens)), es).evaluations, token) == Evaluated(s.evaluations, token)
  {
    SweptStaysDead(Next(s, Sweep(tokens)), es, token);
  }

  lemma {:induction false} ClockFollowsTicks(s: State, es: seq<Event>)
    ensures After(s, es).now == s.now + Elapsed(es)
    decreases |es|
  {
    if es != [] { ClockFollowsTicks(Next(s, es[0]), es[1..]); }
  }

  function Elapsed(es: seq<Event>): nat
    decreases |es|
  {
    if es == [] then 0 else (if es[0].Tick? then es[0].d else 0) + Elapsed(es[1..])
  }

  /** A token whose time has passed, or whose user is suspended, is checked against nothing. */
  lemma NotLookedAt(s: State, e: Event, token: TokenId, proof: Proof)
    requires token in s.attempts
    requires (e.Tick? && s.attempts[token].expiresAt < s.now + e.d)
             || (e.SetSuspended? && s.attempts[token].user in e.users)
    ensures Next(Next(s, e), Verify(token, proof)) == Next(s, e)
  {
  }

  // ---- The backup codes ----

  ghost predicate CodesInv(s: State) {
    && s.codes.Keys <= s.codesIssued
    && (forall u :: |CodesOf(s, u)| == if u in s.enabled then BACKUP_CODE_COUNT else 0)
    && Distinct(s.redeemed)
    && (forall c :: c in s.redeemed ==> c in s.codesIssued && (c in s.codes ==> s.codes[c].used))
  }

  lemma VerifyKeepsCodes(s: State, e: Event)
    requires CodesInv(s) && Enabled(s, e) && e.Verify?
    ensures CodesInv(Next(s, e))
  {
    forall u ensures CodesOf(Next(s, e), u) == CodesOf(s, u) { }
  }

  lemma IssueGivesTen(s: State, e: Event, u: UserId)
    requires CodesInv(s) && Enabled(s, e) && e.IssueCodes?
    ensures |CodesOf(Next(s, e), u)| == if u in Next(s, e).enabled then BACKUP_CODE_COUNT else 0
  {
    if u == e.user {
      assert CodesOf(Next(s, e), u) == e.hashes.Keys;
    } else {
      assert CodesOf(Next(s, e), u) == CodesOf(s, u);
    }
  }

  lemma IssueKeepsCodes(s: State, e: Event)
    requires CodesInv(s) && Enabled(s, e) && e.IssueCodes?
    ensures CodesInv(Next(s, e))
  {
    var t := Next(s, e);
    forall u ensures |CodesOf(t, u)| == if u in t.enabled then BACKUP_CODE_COUNT else 0 { IssueGivesTen(s, e, u); }
  }

  lemma DisableKeepsCodes(s: State, e: Event)
    requires CodesInv(s) && Enabled(s, e) && e.Disable?
    ensures CodesInv(Next(s, e))
  {
    var t := Next(s, e);
    forall u ensures |CodesOf(t, u)| == if u in t.enabled then BACKUP_CODE_COUNT else 0 {
      assert CodesOf(t, u) == if u == e.user then {} else CodesOf(s, u);
    }
  }

  lemma {:induction false} CodesRun(s: State, es: seq<Event>)
    requires IsRun(s, es) && CodesInv(s)
    ensures CodesInv(After(s, es))
    decreases |es|
  {
    if es != [] {
      var t := Next(s, es[0]);
      match es[0] {
        case Verify(_, _) => VerifyKeepsCodes(s, es[0]);
        case IssueCodes(_, _) => IssueKeepsCodes(s, es[0]);
        case Disable(_) => DisableKeepsCodes(s, es[0]);
        case _ => assert forall u :: CodesOf(t, u) == CodesOf(s, u);
      }
      CodesRun(t, es[1..]);
    }
  }

  /** In every reachable state a user with 2FA has exactly ten codes, used ones included,
      and a user without has none; no code row is ever redeemed twice. */
  lemma TenCodesOneUseEach(es: seq<Event>, u: UserId)
    requires IsRun(Initial, es)
    ensures var s := After(Initial, es);
      && |CodesOf(s, u)| == (if u in s.enabled then 10 else 0)
      && Distinct(s.redeemed)
      && (forall c :: c in s.redeemed && c in s.codes ==> s.codes[c].used)
  {
    forall v: UserId ensures CodesOf(Initial, v) == {} { }
    CodesRun(Initial, es);
  }

  // ---- The service ----

  /** The user has an unused code with the hash of what was typed. */
  ghost predicate CodeAvailable(codes: map<CodeId, BackupCode>, u: UserId, typed: string) {
    exists c :: c in codes && codes[c].user == u && codes[c].hash == HashBackupCode(typed) && !codes[c].used
  }

  /** The refusals in the code's order; what passes them is let in for a right code only. */
  ghost predicate VerifyAnswers(attempts: map<TokenId, Attempt>, codes: map<CodeId, BackupCode>, enabled: set<UserId>,
                                suspended: set<UserId>, now: int, token: TokenId, totpValid: bool,
                                backup: Option<string>, r: Result<UserId, VerifyError>) {
    if token !in attempts || attempts[token].consumed || attempts[token].expiresAt < now then r == Err(InvalidSession)
    else
      var u := attempts[token].user;
      if u in suspended then r == Err(Suspended)
      else if u !in enabled then r == Err(NotConfigured)
      else if (if backup.None? then totpValid else CodeAvailable(codes, u, backup.value)) then r == Ok(u)
      else r == Err(InvalidCode)
  }

  /** A sign-in by backup code uses up one matching row; by authenticator, none. */
  ghost predicate RedeemsOne(codes: map<CodeId, BackupCode>, codes': map<CodeId, BackupCode>, u: UserId,
                             backup: Option<string>) {
    && (backup.None? ==> codes' == codes)
    && (backup.Some? ==>
          exists c ::
            && c in codes && codes[c] == BackupCode(u, HashBackupCode(backup.value), false)
            && codes' == codes[c := BackupCode(u, HashBackupCode(backup.value), true)])
  }

  lemma IssuesCodes(s: State, t: State, u: UserId, hashes: map<CodeId, string>)
    requires t == s.(enabled := s.enabled + {u}, codes := Replaced(s.codes, u, hashes),
                     codesIssued := s.codesIssued + hashes.Keys)
    ensures t == Next(s, IssueCodes(u, hashes))
  {
  }

  /** A new set takes the place of the user's codes; everybody else keeps theirs. */
  ghost predicate FreshSet(codes: map<CodeId, BackupCode>, codes': map<CodeId, BackupCode>, u: UserId,
                           plain: map<CodeId, string>) {
    && (forall c :: c in codes' <==> c in plain || (c in codes && codes[c].user != u))
    && (forall c :: c in plain ==> codes'[c] == BackupCode(u, HashBackupCode(plain[c]), false))
    && (forall c :: c in codes' && c !in plain ==> codes'[c] == codes[c])
  }

  lemma ReplacedIsFreshSet(codes: map<CodeId, BackupCode>, u: UserId, plain: map<CodeId, string>)
    ensures FreshSet(codes, Replaced(codes, u, Hashed(plain)), u, plain)
  {
    assert Hashed(plain).Keys == plain.Keys;
  }

  class TwoFactorService {
    var attempts: map<TokenId, Attempt>
    var codes: map<CodeId, BackupCode>
    var enabled: set<UserId>
    var suspended: set<UserId>
    var now: int
    /** Staged secrets by user, with their expiry. */
    var pendingSetups: map<UserId, int>
    ghost var tokensIssued: set<TokenId>
    ghost var codesIssued: set<CodeId>
    ghost var evaluations: seq<Evaluation>
    ghost var redeemed: seq<CodeId>

    ghost function Snapshot(): State
      reads this
    {
      State(attempts, codes, enabled, suspended, now, tokensIssued, codesIssued, evaluations, redeemed)
    }

    /** The row behind the token that a right password earns a user with 2FA. */
    method IssuePendingToken(token: TokenId, u: UserId)
      requires token !in tokensIssued
      modifies this`attempts, this`tokensIssued
      ensures attempts == old(attempts)[token := Attempt(u, 0, false, now + 300000)]
      ensures Enabled(old(Snapshot()), IssueToken(token, u, now + 300000))
      ensures Snapshot() == Next(old(Snapshot()), IssueToken(token, u, now + 300000))
    {
      var tempTokenTtlMs := 5 * 60 * 1000;
      attempts := attempts[token := Attempt(u, 0, false, now + tempTokenTtlMs)];
      tokensIssued := tokensIssued + {token};
    }

    method RegisterFailedVerifyAttempt(token: TokenId, priorAttempts: nat)
      requires token in attempts
      modifies this`attempts
      ensures attempts == old(attempts)[token := old(attempts[token]).(attempts := priorAttempts + 1,
                consumed := priorAttempts + 1 >= 5)]
    {
      var nextAttempts := priorAttempts + 1;
      var shouldBurn := nextAttempts >= MAX_VERIFY_ATTEMPTS_PER_TOKEN;
      attempts := attempts[token := attempts[token].(attempts := nextAttempts, consumed := shouldBurn)];
    }

    /** Any unused row of the user with the typed code's hash. */
    method FindUnusedCode(u: UserId, typed: string) returns (row: Option<CodeId>)
      ensures if row.Some? then Redeemable(Snapshot(), u, typed, row.value)
              else forall c :: c in codes ==> !Redeemable(Snapshot(), u, typed, c)
    {
      var hash := HashBackupCode(typed);
      var left := codes.Keys;
      while left != {}
        invariant left <= codes.Keys
        invariant forall c :: c in codes && c !in left ==> !Redeemable(Snapshot(), u, typed, c)
        decreases |left|
      {
        var c :| c in left;
        if codes[c].user == u && codes[c].hash == hash && !codes[c].used { return Some(c); }
        left := left - {c};
      }
      return None;
    }

    /** With `backup` given the authenticator code is ignored; either way a wrong code
        costs one attempt and a right one burns the token. */
    method VerifyTwoFactorForLogin(token: TokenId, totpValid: bool, backup: Option<string>)
      returns (r: Result<UserId, VerifyError>, ghost proof: Proof)
      modifies this
      ensures proof == if backup.Some? then Backup(backup.value, if proof.Backup? then proof.row else None)
                       else Totp(totpValid)
      ensures Enabled(old(Snapshot()), Verify(token, proof))
      ensures Snapshot() == Next(old(Snapshot()), Verify(token, proof))
      ensures VerifyAnswers(old(attempts), old(codes), enabled, suspended, now, token, totpValid, backup, r)
      ensures r.Ok? ==> attempts == old(attempts)[token := old(attempts)[token].(consumed := true)]
      ensures r.Err? ==> codes == old(codes)
      ensures r.Err? && !r.error.InvalidCode? ==> attempts == old(attempts)
      ensures r.Err? && r.error.InvalidCode? ==>
                var a := old(attempts)[token];
                attempts == old(attempts)[token := Attempt(a.user, a.attempts + 1, a.attempts + 1 >= 5, a.expiresAt)]
      ensures r.Ok? ==> RedeemsOne(old(codes), codes, r.value, backup)
      ensures enabled == old(enabled) && suspended == old(suspended) && now == old(now)
      ensures evaluations == old(evaluations) + if r.Ok? || r.error.InvalidCode? then [Evaluation(token, r.Ok?)] else []
    {
      var row: Option<CodeId> := None;
      if backup.Some? && token in attempts { row := FindUnusedCode(attempts[token].user, backup.value); }
      proof := if backup.Some? then Backup(backup.value, row) else Totp(totpValid);
      if token !in attempts || attempts[token].consumed || attempts[token].expiresAt < now {
        return Err(InvalidSession), proof;
      }
      var a := attempts[token];
      if a.user in suspended { return Err(Suspended), proof; }
      if a.user !in enabled { return Err(NotConfigured), proof; }
      evaluations := evaluations + [Evaluation(token, Correct(proof))];
      if backup.Some? {
        if row.None? {
          RegisterFailedVerifyAttempt(token, a.attempts);
          return Err(InvalidCode), proof;
        }
        codes := codes[row.value := codes[row.value].(used := true)];
        redeemed := redeemed + [row.value];
      } else if !totpValid {
        RegisterFailedVerifyAttempt(token, a.attempts);
        return Err(InvalidCode), proof;
      }
      attempts := attempts[token := a.(consumed := true)];
      return Ok(a.user), proof;
    }

    /** The codes in the form shown to the user, one per draw of randomness. */
    method GeneratePlainBackupCodes(draws: seq<string>) returns (plain: seq<string>)
      requires |draws| == BACKUP_CODE_COUNT && forall i :: 0 <= i < |draws| ==> |draws[i]| == 8 && '-' !in draws[i]
      ensures |plain| == 10
      ensures forall i :: 0 <= i < |plain| ==>
                HashBackupCode(plain[i]) == draws[i] && plain[i] == draws[i][..4] + "-" + draws[i][4..]
    {
      plain := [];
      for i := 0 to BACKUP_CODE_COUNT
        invariant |plain| == i
        invariant forall j :: 0 <= j < i ==>
          HashBackupCode(plain[j]) == draws[j] && plain[j] == draws[j][..4] + "-" + draws[j][4..]
      {
        HyphenIsOptional(draws[i], draws[i]);
        HashKeepsPlain(draws[i]);
        plain := plain + [draws[i][..4] + "-" + draws[i][4..]];
      }
    }

    /** Replaces the user's whole set, used codes included. */
    method StoreBackupCodes(u: UserId, plain: map<CodeId, string>)
      modifies this`codes, this`codesIssued
      ensures codes == Replaced(old(codes), u, Hashed(plain)) && codesIssued == old(codesIssued) + Hashed(plain).Keys
      ensures FreshSet(old(codes), codes, u, plain)
    {
      ReplacedIsFreshSet(codes, u, plain);
      assert Hashed(plain).Keys == plain.Keys;
      codes := codes - (set c | c in codes && codes[c].user == u);
      var issued := map c | c in plain :: BackupCode(u, HashBackupCode(plain[c]), false);
      assert issued == UnusedCodes(u, Hashed(plain));
      codes := codes + issued;
      codesIssued := codesIssued + plain.Keys;
    }

    method SwitchOn(u: UserId, plain: map<CodeId, string>)
      modifies this`codes, this`enabled, this`codesIssued
      ensures enabled == old(enabled) + {u} && FreshSet(old(codes), codes, u, plain)
      ensures Snapshot() == Next(old(Snapshot()), IssueCodes(u, Hashed(plain)))
    {
      enabled := enabled + {u};
      StoreBackupCodes(u, plain);
      IssuesCodes(old(Snapshot()), Snapshot(), u, Hashed(plain));
    }

    /** Uses up a staged setup, or drops one that has expired. */
    method EnableTwoFactor(u: UserId, codeValid: bool, plain: map<CodeId, string>) returns (r: Result<(), VerifyError>)
      requires |plain| == BACKUP_CODE_COUNT && plain.Keys !! codesIssued
      modifies this`codes, this`enabled, this`codesIssued, this`pendingSetups
      ensures r == if u !in old(pendingSetups) || old(pendingSetups)[u] < now then Err(NotConfigured)
                   else if !codeValid then Err(InvalidCode) else Ok(())
      ensures pendingSetups == if r.Ok? || (u in old(pendingSetups) && old(pendingSetups)[u] < now)
                               then old(pendingSetups) - {u} else old(pendingSetups)
      ensures enabled == if r.Ok? then old(enabled) + {u} else old(enabled)
      ensures r.Err? ==> codes == old(codes)
      ensures r.Ok? ==> FreshSet(old(codes), codes, u, plain)
      ensures Enabled(old(Snapshot()), IssueCodes(u, Hashed(plain)))
      ensures Snapshot() == if r.Ok? then Next(old(Snapshot()), IssueCodes(u, Hashed(plain))) else old(Snapshot())
    {
      HashedSize(plain);
      if u !in pendingSetups { return Err(NotConfigured); }
      if pendingSetups[u] < now {
        pendingSetups := pendingSetups - {u};
        return Err(NotConfigured);
      }
      if !codeValid { return Err(InvalidCode); }
      pendingSetups := pendingSetups - {u};
      SwitchOn(u, plain);
      return Ok(());
    }

    method RegenerateBackupCodes(u: UserId, codeValid: bool, plain: map<CodeId, string>)
      returns (r: Result<(), VerifyError>)
      requires |plain| == BACKUP_CODE_COUNT && plain.Keys !! codesIssued
      modifies this`codes, this`codesIssued
      ensures r == if u !in enabled then Err(NotConfigured) else if !codeValid then Err(InvalidCode) else Ok(())
      ensures r.Err? ==> codes == old(codes)
      ensures r.Ok? ==> FreshSet(old(codes), codes, u, plain)
      ensures Enabled(old(Snapshot()), IssueCodes(u, Hashed(plain)))
      ensures Snapshot() == if r.Ok? then Next(old(Snapshot()), IssueCodes(u, Hashed(plain))) else old(Snapshot())
    {
      HashedSize(plain);
      if u !in enabled { return Err(NotConfigured); }
      if !codeValid { return Err(InvalidCode); }
      StoreBackupCodes(u, plain);
      assert enabled == enabled + {u};
      IssuesCodes(old(Snapshot()), Snapshot(), u, Hashed(plain));
      return Ok(());
    }

    /** Needs the authenticator and the password; an account without one cannot. */
    method DisableTwoFactor(u: UserId, passwordMatches: Option<bool>, codeValid: bool)
      returns (r: Result<(), VerifyError>)
      modifies this`codes, this`enabled
      ensures r == if old(u !in enabled) || passwordMatches.None? then Err(NotConfigured)
                   else if passwordMatches.value && codeValid then Ok(()) else Err(InvalidCode)
      ensures enabled == if r.Ok? then old(enabled) - {u} else old(enabled)
      ensures codes.Keys == set c | c in old(codes) && (r.Ok? ==> old(codes)[c].user != u)
      ensures forall c :: c in codes ==> codes[c] == old(codes)[c]
      ensures Snapshot() == if r.Ok? then Next(old(Snapshot()), Disable(u)) else old(Snapshot())
    {
      if u !in enabled { return Err(NotConfigured); }
      if passwordMatches.None? { return Err(NotConfigured); }
      if !passwordMatches.value || !codeValid { return Err(InvalidCode); }
      enabled := enabled - {u};
      codes := codes - (set c | c in codes && codes[c].user == u);
      return Ok(());
    }
  }

  function Hashed(plain: map<CodeId, string>): map<CodeId, string> {
    map c | c in plain :: HashBackupCode(plain[c])
  }

  lemma HashedSize(plain: map<CodeId, string>)
    ensures Hashed(plain).Keys == plain.Keys && |Hashed(plain)| == |plain|
  {
    assert Hashed(plain).Keys == plain.Keys;
  }
}
