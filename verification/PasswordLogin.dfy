/**
 The password sign-in of one account, run to completion, with its counter and lock.
 Each call is a run of the statements in module Lockout that nothing interleaves with.
 */
module PasswordLogin {
  import opened Wrappers
  import opened Lockout

  datatype AuthMethod = CREDENTIALS | GOOGLE

  /** What is asked of a row before its password is looked at. */
  predicate SignInOpen(signUpMethod: AuthMethod, hasPassword: bool) {
    signUpMethod == CREDENTIALS && hasPassword
  }

  datatype Outcome =
    | InvalidCredentials
    | AccountLocked(minutesLeft: int)
    | TooManyAttempts
    | AccountSuspended
    | EmailNotVerified
    | TwoFactorRequired
    | SignedIn

  /** The statements of one attempt on a row in state `s`. */
  function AttemptEvents(s: State, matches: bool, active: bool): seq<Event> {
    if LockInForce(s) then []
    else if matches then [Look(0), Right(0, active)]
    else if s.failedAttempts + 1 >= MAX_FAILED_LOGIN_ATTEMPTS then [Look(0), Wrong(0), Lock(0)]
    else [Look(0), Wrong(0)]
  }

  function CeilDiv(n: int, d: int): (q: int)
    requires d > 0
    ensures (q - 1) * d < n <= q * d
  {
    (n + d - 1) / d
  }

  lemma TwoSteps(s: State, e0: Event, e1: Event)
    requires Enabled(s, e0) && Enabled(Next(s, e0), e1)
    ensures IsRun(s, [e0, e1]) && After(s, [e0, e1]) == Next(Next(s, e0), e1)
  {
    var t := Next(s, e0);
    assert [e0, e1][1..] == [e1] && [e1][1..] == [];
    assert IsRun(t, [e1]) && After(t, [e1]) == After(Next(t, e1), []);
  }

  lemma ThreeSteps(s: State, e0: Event, e1: Event, e2: Event)
    requires Enabled(s, e0) && Enabled(Next(s, e0), e1) && Enabled(Next(Next(s, e0), e1), e2)
    ensures IsRun(s, [e0, e1, e2]) && After(s, [e0, e1, e2]) == Next(Next(Next(s, e0), e1), e2)
  {
    TwoSteps(Next(s, e0), e1, e2);
    assert [e0, e1, e2][1..] == [e1, e2];
  }

  class Account {
    var password: Option<string>
    var signUpMethod: AuthMethod
    var active: bool
    var isVerified: bool
    var isTwoFactorEnabled: bool
    var failedLoginAttempts: nat
    var lockedUntil: Option<int>
    var now: int
    ghost var wrong: seq<int>

    ghost function Snapshot(): State
      reads this
    {
      State(failedLoginAttempts, lockedUntil, now, map[], wrong)
    }

    ghost predicate Valid()
      reads this
    {
      failedLoginAttempts == |wrong|
    }

    /** The answer followed a look at a password that was wrong. */
    ghost predicate EvaluatedWrong(o: Outcome)
      reads this
    {
      o.TooManyAttempts? || (o.InvalidCredentials? && signUpMethod == CREDENTIALS && password.Some?)
    }

    method RegisterFailedLogin() returns (attempts: nat, locked: bool)
      modifies this`failedLoginAttempts, this`lockedUntil, this`wrong
      ensures attempts == failedLoginAttempts == old(failedLoginAttempts) + 1 && wrong == old(wrong) + [now]
      ensures locked == (attempts >= 5)
      ensures lockedUntil == if locked then Some(now + 900000) else old(lockedUntil)
    {
      failedLoginAttempts := failedLoginAttempts + 1;
      wrong := wrong + [now];
      attempts := failedLoginAttempts;
      locked := attempts >= MAX_FAILED_LOGIN_ATTEMPTS;
      if locked {
        lockedUntil := Some(now + LOCKOUT_DURATION_MS);
      }
    }

    /** The row changes exactly as a run of the attempt's statements; an account without
        a password sign-in is never touched, and the answer reveals no count. */
    method Login(candidate: string) returns (o: Outcome)
      requires Valid()
      modifies this`failedLoginAttempts, this`lockedUntil, this`wrong
      ensures Valid()
      ensures !SignInOpen(signUpMethod, password.Some?) ==> Snapshot() == old(Snapshot())
      ensures SignInOpen(signUpMethod, password.Some?) ==>
                var es := AttemptEvents(old(Snapshot()), candidate == password.value, active);
                IsRun(old(Snapshot()), es) && Snapshot() == After(old(Snapshot()), es)
      ensures o == if signUpMethod == GOOGLE || password.None? then InvalidCredentials
                   else if old(lockedUntil.Some? && lockedUntil.value > now)
                   then AccountLocked(CeilDiv(lockedUntil.value - now, 60000))
                   else if password.value != candidate then
                     if old(failedLoginAttempts) >= 4 then TooManyAttempts else InvalidCredentials
                   else if !active then AccountSuspended
                   else if !isVerified then EmailNotVerified
                   else if isTwoFactorEnabled then TwoFactorRequired else SignedIn
      ensures o.AccountLocked? ==>
                (o.minutesLeft - 1) * 60000 < lockedUntil.value - now <= o.minutesLeft * 60000 && o.minutesLeft > 0
      ensures failedLoginAttempts ==
                if EvaluatedWrong(o) then old(failedLoginAttempts) + 1
                else if o.EmailNotVerified? || o.TwoFactorRequired? || o.SignedIn? then 0
                else old(failedLoginAttempts)
      ensures lockedUntil ==
                if o.TooManyAttempts? then Some(now + 900000)
                else if o.EmailNotVerified? || o.TwoFactorRequired? || o.SignedIn? then None
                else old(lockedUntil)
    {
      ghost var s := Snapshot();
      if signUpMethod != CREDENTIALS || password.None? { return InvalidCredentials; }
      if lockedUntil.Some? && lockedUntil.value > now {
        return AccountLocked(CeilDiv(lockedUntil.value - now, 60000));
      }
      assert Next(s, Look(0)).requests - {0} == map[];
      if candidate != password.value {
        var attempts, locked := RegisterFailedLogin();
        if locked {
          ThreeSteps(s, Look(0), Wrong(0), Lock(0));
          assert Next(Next(s, Look(0)), Wrong(0)).requests - {0} == map[];
          return TooManyAttempts;
        }
        TwoSteps(s, Look(0), Wrong(0));
        return InvalidCredentials;
      }
      TwoSteps(s, Look(0), Right(0, active));
      if !active { return AccountSuspended; }
      if failedLoginAttempts > 0 || lockedUntil.Some? {
        failedLoginAttempts, lockedUntil, wrong := 0, None, [];
      }
      if !isVerified { return EmailNotVerified; }
      if isTwoFactorEnabled { return TwoFactorRequired; }
      return SignedIn;
    }
  }
}
