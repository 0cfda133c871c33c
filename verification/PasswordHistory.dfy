/**
 Password history: a new password may match neither the current one nor the last five
 replaced ones. Hashes are salted, so two hashes of one password differ; verifying a
 candidate against a hash compares the passwords.
 */
module PasswordHistory {
  import opened Wrappers

  type Password = string

  datatype Hash = Hash(password: Password, salt: nat)

  const HISTORY_LIMIT := 5

  predicate Verify(h: Hash, candidate: Password) {
    h.password == candidate
  }

  datatype PasswordError = AlreadySet | NotSet | WrongCurrent | Breached | Reused

  /** The columns a user's passwords live in: the current hash and the remembered ones,
      newest first. */
  datatype Columns = Columns(current: Option<Hash>, remembered: seq<Hash>)

  datatype Op =
    | Change(claimed: Password, p: Password, breached: bool)
    | Reset(p: Password, breached: bool)
    | Set(p: Password, breached: bool)

  predicate Matches(c: Columns, candidate: Password) {
    || (c.current.Some? && Verify(c.current.value, candidate))
    || (exists h :: h in c.remembered[..Min(|c.remembered|, HISTORY_LIMIT)] && Verify(h, candidate))
  }

  /** The first check that refuses the operation, in the order they are made. */
  function Refusal(c: Columns, op: Op): Option<PasswordError> {
    match op
    case Change(claimed, p, breached) =>
      if c.current.None? then Some(NotSet)
      else if !Verify(c.current.value, claimed) then Some(WrongCurrent)
      else if breached then Some(Breached)
      else if Matches(c, p) then Some(Reused) else None
    case Reset(p, breached) =>
      if breached then Some(Breached) else if Matches(c, p) then Some(Reused) else None
    case Set(_, breached) =>
      if c.current.Some? then Some(AlreadySet) else if breached then Some(Breached) else None
  }

  /** The remembered hashes once the current one is replaced. */
  function Recorded(c: Columns): seq<Hash> {
    if c.current.None? then c.remembered
    else
      var all := [c.current.value] + c.remembered;
      all[..Min(|all|, HISTORY_LIMIT)]
  }

  function Apply(c: Columns, op: Op, salt: nat): Columns {
    if Refusal(c, op).Some? then c else Columns(Some(Hash(op.p, salt)), Recorded(c))
  }

  function Run(c: Columns, ops: seq<Op>, salt: nat): Columns
    decreases |ops|
  {
    if ops == [] then c else Run(Apply(c, ops[0], salt), ops[1..], salt + 1)
  }

  /** The hashes the run stored, in order. */
  function Stored(c: Columns, ops: seq<Op>, salt: nat): seq<Hash>
    decreases |ops|
  {
    if ops == [] then []
    else
      var rest := Stored(Apply(c, ops[0], salt), ops[1..], salt + 1);
      if Refusal(c, ops[0]).Some? then rest else [Hash(ops[0].p, salt)] + rest
  }

  // ---- The reference: the whole sequence of passwords a user ever had ----

  function LastOf<T>(xs: seq<T>, n: nat): seq<T> {
    if |xs| <= n then xs else xs[|xs| - n..]
  }

  function Newest<T>(xs: seq<T>): (r: seq<T>)
    ensures |r| == |xs| && forall i :: 0 <= i < |xs| ==> r[i] == xs[|xs| - 1 - i]
  {
    seq(|xs|, i requires 0 <= i < |xs| => xs[|xs| - 1 - i])
  }

  /** `trail` lists all hashes the user ever had, oldest first; the columns hold the
      last one and, newest first, up to five before it. */
  ghost predicate Holds(c: Columns, trail: seq<Hash>) {
    if trail == [] then c == Columns(None, [])
    else
      var replaced := trail[..|trail| - 1];
      c.current == Some(trail[|trail| - 1]) && c.remembered == Newest(LastOf(replaced, 5))
  }

  /** No password among any seven consecutive ones repeats. */
  ghost predicate SevenDistinct(trail: seq<Hash>) {
    forall i, j :: 0 <= i < j < |trail| && j - i <= 6 ==> trail[i].password != trail[j].password
  }

  /** What the policy forbids, read off the trail: the last six passwords. */
  ghost predicate RecentlyUsed(trail: seq<Hash>, candidate: Password) {
    exists i :: 0 <= i < |trail| && |trail| - i <= 6 && trail[i].password == candidate
  }

  lemma NewestIsRemembered(c: Columns, trail: seq<Hash>, i: nat)
    requires Holds(c, trail) && i < |c.remembered|
    ensures |trail| >= 2 + i && c.remembered[i] == trail[|trail| - 2 - i]
    ensures |c.remembered| == Min(|trail| - 1, HISTORY_LIMIT)
  {
  }

  /** The stored columns decide the policy on the whole trail. */
  lemma ColumnsDecide(c: Columns, trail: seq<Hash>, candidate: Password)
    requires Holds(c, trail)
    ensures RecentlyUsed(trail, candidate) <==> Matches(c, candidate)
  {
    var n := |trail|;
    if RecentlyUsed(trail, candidate) {
      var i :| 0 <= i < n && n - i <= HISTORY_LIMIT + 1 && trail[i].password == candidate;
      if i < n - 1 {
        assert c.remembered[n - 2 - i] == trail[i];
        assert c.remembered[n - 2 - i] in c.remembered[..Min(|c.remembered|, HISTORY_LIMIT)];
      }
    }
  }

  lemma RecordedIsNewest(c: Columns, trail: seq<Hash>)
    requires Holds(c, trail)
    ensures Recorded(c) == Newest(LastOf(trail, HISTORY_LIMIT))
  {
    if trail != [] {
      forall i | 0 <= i < |Recorded(c)| ensures Recorded(c)[i] == Newest(LastOf(trail, HISTORY_LIMIT))[i] {
        if i > 0 { NewestIsRemembered(c, trail, i - 1); }
      }
    }
  }

  lemma StepKeeps(c: Columns, trail: seq<Hash>, op: Op, salt: nat)
    requires Holds(c, trail) && SevenDistinct(trail) && Refusal(c, op).None?
    ensures Holds(Apply(c, op, salt), trail + [Hash(op.p, salt)]) && SevenDistinct(trail + [Hash(op.p, salt)])
  {
    RecordedIsNewest(c, trail);
    ColumnsDecide(c, trail, op.p);
    assert (trail + [Hash(op.p, salt)])[..|trail|] == trail;
    assert !RecentlyUsed(trail, op.p);
  }

  lemma {:induction false} RunKeeps(c: Columns, trail: seq<Hash>, ops: seq<Op>, salt: nat)
    requires Holds(c, trail) && SevenDistinct(trail)
    ensures Holds(Run(c, ops, salt), trail + Stored(c, ops, salt))
    ensures SevenDistinct(trail + Stored(c, ops, salt))
    decreases |ops|
  {
    if ops == [] {
      assert trail + Stored(c, ops, salt) == trail;
    } else if Refusal(c, ops[0]).Some? {
      RunKeeps(c, trail, ops[1..], salt + 1);
    } else {
      StepKeeps(c, trail, ops[0], salt);
      var h := Hash(ops[0].p, salt);
      RunKeeps(Apply(c, ops[0], salt), trail + [h], ops[1..], salt + 1);
      var rest := Stored(Apply(c, ops[0], salt), ops[1..], salt + 1);
      assert trail + [h] + rest == trail + ([h] + rest);
    }
  }

  /** Over any run of password changes, resets and first passwords, starting with or
      without a password: any seven consecutive passwords are pairwise distinct, the
      history is exactly the last five replaced ones, and it is empty without a password. */
  lemma HistoryIsExact(initial: Option<Password>, ops: seq<Op>)
    ensures var start := if initial.Some? then [Hash(initial.value, 0)] else [];
      var c0 := Columns(if initial.Some? then Some(Hash(initial.value, 0)) else None, []);
      && SevenDistinct(start + Stored(c0, ops, 1))
      && Holds(Run(c0, ops, 1), start + Stored(c0, ops, 1))
  {
    var start := if initial.Some? then [Hash(initial.value, 0)] else [];
    var c0 := Columns(if initial.Some? then Some(Hash(initial.value, 0)) else None, []);
    if initial.Some? { assert start[..0] == []; }
    RunKeeps(c0, start, ops, 1);
  }

  /** The window is exactly seven: the eighth password may be the first again. */
  lemma EighthMayRepeat(c: Columns, trail: seq<Hash>)
    requires Holds(c, trail) && SevenDistinct(trail) && |trail| == HISTORY_LIMIT + 2
    ensures !RecentlyUsed(trail, trail[0].password) && Refusal(c, Reset(trail[0].password, false)).None?
  {
    ColumnsDecide(c, trail, trail[0].password);
    forall i | 0 <= i < |trail| && |trail| - i <= HISTORY_LIMIT + 1 ensures trail[i].password != trail[0].password {
      assert trail[0].password != trail[i].password;
    }
  }

  // ---- The service ----

  /** The candidate is the current password or one of the five newest remembered. */
  ghost predicate Recent(current: Option<Hash>, remembered: seq<Hash>, candidate: Password) {
    || (current.Some? && current.value.password == candidate)
    || (exists i :: 0 <= i < |remembered| && i < 5 && remembered[i].password == candidate)
  }

  /** A new current hash, with the replaced one on top of at most five remembered. */
  ghost predicate Replaces(c: Columns, p: Password, salt: nat, c': Columns) {
    && c'.current == Some(Hash(p, salt))
    && (c.current.None? ==> c'.remembered == c.remembered)
    && (c.current.Some? ==>
          var all := [c.current.value] + c.remembered;
          c'.remembered == if |all| > 5 then all[..5] else all)
  }

  class UserPasswords {
    var current: Option<Hash>
    var remembered: seq<Hash>
    var salts: nat

    ghost function Stored(): Columns
      reads this
    {
      Columns(current, remembered)
    }

    /** An account created with a password, or without one (Google sign-up). */
    constructor (initial: Option<Password>)
      ensures Stored() == Columns(if initial.Some? then Some(Hash(initial.value, 0)) else None, []) && salts == 1
    {
      current := if initial.Some? then Some(Hash(initial.value, 0)) else None;
      remembered, salts := [], 1;
    }

    method AssertNotReused(candidate: Password) returns (reused: bool)
      ensures reused <==> Matches(Stored(), candidate)
      ensures reused <==> Recent(current, remembered, candidate)
    {
      if current.Some? && Verify(current.value, candidate) { return true; }
      var history := remembered[..Min(|remembered|, HISTORY_LIMIT)];
      for i := 0 to |history|
        invariant forall j :: 0 <= j < i ==> !Verify(history[j], candidate)
      {
        if Verify(history[i], candidate) {
          assert remembered[i].password == candidate;
          return true;
        }
      }
      forall i | 0 <= i < |remembered| && i < 5 ensures remembered[i].password != candidate {
        assert history[i] == remembered[i];
      }
      return false;
    }

    /** Puts the replaced hash on top, then deletes the stale ones beyond the fifth. */
    method Record(replaced: Option<Hash>)
      requires replaced == current
      modifies this`remembered
      ensures remembered == old(Recorded(Stored()))
    {
      if replaced.None? { return; }
      remembered := [replaced.value] + remembered;
      var stale := remembered[Min(|remembered|, HISTORY_LIMIT)..];
      if |stale| > 0 {
        remembered := remembered[..HISTORY_LIMIT];
      }
    }

    method ChangePassword(claimed: Password, p: Password, breached: bool) returns (r: Option<PasswordError>)
      modifies this
      ensures r == if old(current).None? then Some(NotSet)
                   else if old(current).value.password != claimed then Some(WrongCurrent)
                   else if breached then Some(Breached)
                   else if Recent(old(current), old(remembered), p) then Some(Reused) else None
      ensures if r.None? then Replaces(old(Stored()), p, old(salts), Stored()) else Stored() == old(Stored())
      ensures r == Refusal(old(Stored()), Change(claimed, p, breached))
      ensures Stored() == Apply(old(Stored()), Change(claimed, p, breached), old(salts))
    {
      if current.None? { return Some(NotSet); }
      if !Verify(current.value, claimed) { return Some(WrongCurrent); }
      if breached { return Some(Breached); }
      var reused := AssertNotReused(p);
      if reused { return Some(Reused); }
      Record(current);
      current, salts := Some(Hash(p, salts)), salts + 1;
      return None;
    }

    /** The password part of a reset: no current password is asked for, and an account
        without one may get its first. */
    method ResetPassword(p: Password, breached: bool) returns (r: Option<PasswordError>)
      modifies this
      ensures r == if breached then Some(Breached)
                   else if Recent(old(current), old(remembered), p) then Some(Reused) else None
      ensures if r.None? then Replaces(old(Stored()), p, old(salts), Stored()) else Stored() == old(Stored())
      ensures r == Refusal(old(Stored()), Reset(p, breached))
      ensures Stored() == Apply(old(Stored()), Reset(p, breached), old(salts))
    {
      if breached { return Some(Breached); }
      var reused := AssertNotReused(p);
      if reused { return Some(Reused); }
      Record(current);
      current, salts := Some(Hash(p, salts)), salts + 1;
      return None;
    }

    /** A first password; the history is not consulted. */
    method SetPassword(p: Password, breached: bool) returns (r: Option<PasswordError>)
      modifies this
      ensures r == if old(current).Some? then Some(AlreadySet) else if breached then Some(Breached) else None
      ensures if r.None? then Replaces(old(Stored()), p, old(salts), Stored()) else Stored() == old(Stored())
      ensures r == Refusal(old(Stored()), Set(p, breached))
      ensures Stored() == Apply(old(Stored()), Set(p, breached), old(salts))
    {
      if current.Some? { return Some(AlreadySet); }
      if breached { return Some(Breached); }
      current, salts := Some(Hash(p, salts)), salts + 1;
      return None;
    }
  }
}
