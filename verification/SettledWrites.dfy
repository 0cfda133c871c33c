/**
 Which scene updates the whiteboard debounce saves: exactly those followed by 2000 ms of
 silence, in order, unless an update overtakes a timer that is due.
 */
module SettledWrites {
  import opened Whiteboard

  /** No timer is due. */
  predicate Quiet(s: State) {
    forall id :: id in s.armed ==> s.now < s.armed[id].due
  }

  /** The update re-arms its board's timer although that timer is due already, only its
      callback has not run yet. */
  predicate Overtakes(s: State, e: Event) {
    && e.SceneUpdate? && e.board in s.pendingTimers && s.pendingTimers[e.board] in s.armed
    && s.armed[s.pendingTimers[e.board]].due <= s.now
  }

  /** No update of the run overtakes a due timer; timers may be late otherwise. */
  ghost predicate NoneOvertakes(s: State, es: seq<Event>)
    decreases |es|
  {
    es != [] && Enabled(s, es[0]) ==> !Overtakes(s, es[0]) && NoneOvertakes(Step(s, es[0]), es[1..])
  }

  predicate Has(ws: seq<Write>, i: nat) {
    exists k :: 0 <= k < |ws| && ws[k].timer == i
  }

  /** An update is pending, written, or was overtaken within its 2000 ms. */
  predicate Accounted(s: State, i: nat)
    requires i < |s.updates|
  {
    i in s.armed || Has(s.writes, i) || !Silent(s.updates, i)
  }

  predicate AllAccounted(s: State) {
    forall i :: 0 <= i < |s.updates| ==> Accounted(s, i)
  }

  /** An update that comes before the timer is due breaks the silence of the pending one. */
  lemma RearmedInTime(s: State, b: BoardId, p: Scene, i: nat)
    requires i in s.armed && CarriesLast(s, i) && s.armed[i].board == b && s.now < s.armed[i].due
    ensures !Silent(Schedule(s, b, p).updates, i)
  {
    var t := Schedule(s, b, p);
    assert t.updates[|s.updates|].board == s.updates[i].board;
  }

  lemma UpdateAccounts(s: State, b: BoardId, p: Scene, i: nat)
    requires Inv(s) && !Overtakes(s, SceneUpdate(b, p)) && i < |s.updates| && Accounted(s, i)
    ensures Accounted(Schedule(s, b, p), i)
  {
    var t := Schedule(s, b, p);
    if !Silent(s.updates, i) {
      var j :| i < j < |s.updates| && s.updates[j].board == s.updates[i].board
               && s.updates[i].at + 2000 > s.updates[j].at;
      assert t.updates[j] == s.updates[j];
    } else if i in s.armed && i !in t.armed {
      assert CarriesLast(s, i);
      RearmedInTime(s, b, p, i);
    } else if Has(s.writes, i) {
      assert t.writes == s.writes;
    }
  }

  lemma FireAccounts(s: State, id: TimerId, i: nat)
    requires Inv(s) && Enabled(s, Fire(id)) && i < |s.updates| && Accounted(s, i)
    ensures Accounted(Callback(s, id), i)
  {
    var t := Callback(s, id);
    if i == id {
      assert t.writes[|s.writes|].timer == i;
    } else if Has(s.writes, i) {
      var k :| 0 <= k < |s.writes| && s.writes[k].timer == i;
      assert t.writes[k].timer == i;
    }
  }

  lemma StepAccounts(s: State, e: Event)
    requires Inv(s) && Enabled(s, e) && !Overtakes(s, e) && AllAccounted(s)
    ensures AllAccounted(Step(s, e))
  {
    var t := Step(s, e);
    forall i | 0 <= i < |t.updates| ensures Accounted(t, i) {
      match e
      case SceneUpdate(b, p) => if i < |s.updates| { UpdateAccounts(s, b, p, i); }
      case Tick(_) => assert Accounted(s, i);
      case Fire(id) => FireAccounts(s, id, i);
    }
  }

  lemma {:induction false} RunAccounts(s: State, es: seq<Event>, t: State)
    requires Inv(s) && Run(s, es, t) && NoneOvertakes(s, es) && AllAccounted(s)
    ensures AllAccounted(t)
    decreases |es|
  {
    if es != [] {
      StepKeeps(s, es[0]);
      StepAccounts(s, es[0]);
      RunAccounts(Step(s, es[0]), es[1..], t);
    }
  }

  /** The writes a debounce should make by a given time, in order. */
  function Settled(updates: seq<Update>, now: int, n: nat): (r: seq<Write>)
    requires n <= |updates|
    ensures forall k :: 0 <= k < |r| ==> r[k].timer < n
  {
    if n == 0 then []
    else
      var i := n - 1;
      var rest := Settled(updates, now, i);
      if IsSettled(updates, now, i)
      then rest + [Write(i, updates[i].board, updates[i].scene)]
      else rest
  }

  predicate MatchingBelow(ws: seq<Write>, updates: seq<Update>, now: int, n: nat) {
    forall k :: 0 <= k < |ws| ==> ws[k].timer < n && Matches(updates, now, ws[k])
  }

  predicate MissesNone(ws: seq<Write>, updates: seq<Update>, now: int, n: nat)
    requires n <= |updates|
  {
    forall i :: 0 <= i < n && IsSettled(updates, now, i) ==> Has(ws, i)
  }

  lemma {:induction false} TimersGrow(ws: seq<Write>, k: nat)
    requires Ordered(ws) && k < |ws|
    ensures k <= ws[k].timer
  {
    if k > 0 { TimersGrow(ws, k - 1); }
  }

  lemma OrderedFits(ws: seq<Write>, n: nat)
    requires Ordered(ws) && forall k :: 0 <= k < |ws| ==> ws[k].timer < n
    ensures |ws| <= n
  {
    if |ws| > 0 { TimersGrow(ws, |ws| - 1); }
  }

  lemma FrontBelow(ws: seq<Write>, updates: seq<Update>, now: int, i: nat)
    requires i < |updates| && Ordered(ws) && MatchingBelow(ws, updates, now, i + 1) && Has(ws, i)
    requires MissesNone(ws, updates, now, i + 1)
    ensures |ws| > 0 && ws[|ws| - 1].timer == i
    ensures Ordered(ws[..|ws| - 1]) && MatchingBelow(ws[..|ws| - 1], updates, now, i)
    ensures MissesNone(ws[..|ws| - 1], updates, now, i)
  {
    var front := ws[..|ws| - 1];
    forall j | 0 <= j < i && IsSettled(updates, now, j) ensures Has(front, j) {
      var m :| 0 <= m < |ws| && ws[m].timer == j;
      assert front[m].timer == j;
    }
  }

  /** A list in order, of matching writes only, that misses none below n, is that list. */
  lemma {:induction false} OrderedIsSettled(ws: seq<Write>, updates: seq<Update>, now: int, n: nat)
    requires n <= |updates| && Ordered(ws) && MatchingBelow(ws, updates, now, n) && MissesNone(ws, updates, now, n)
    ensures ws == Settled(updates, now, n)
    decreases n
  {
    if n == 0 {
      OrderedFits(ws, 0);
    } else {
      var i := n - 1;
      if IsSettled(updates, now, i) {
        FrontBelow(ws, updates, now, i);
        OrderedIsSettled(ws[..|ws| - 1], updates, now, i);
        assert ws == ws[..|ws| - 1] + [ws[|ws| - 1]];
      } else {
        OrderedIsSettled(ws, updates, now, i);
      }
    }
  }

  /** In every run, late timers included, a write happens only after its silence, and
      writes keep the order of their updates. */
  lemma WritesFollowSilence(now: int, base: map<BoardId, Scene>, es: seq<Event>, t: State, k: nat)
    requires Run(Start(now, base), es, t) && k < |t.writes|
    ensures Matches(t.updates, t.now, t.writes[k])
    ensures forall l :: k < l < |t.writes| ==> t.writes[k].timer < t.writes[l].timer
  {
    RunKeeps(Start(now, base), es, t);
    assert Matches(t.updates, t.now, t.writes[k]);
  }

  // ---- When a settled update is lost ----

  /** Update i had its silence, and is neither written nor about to be. */
  predicate Lost(s: State, i: nat) {
    i < |s.updates| && i !in s.armed && !Has(s.writes, i) && IsSettled(s.updates, s.now, i)
  }

  lemma LossIsFinal(s: State, e: Event, i: nat)
    requires Inv(s) && Enabled(s, e) && Lost(s, i)
    ensures Lost(Step(s, e), i)
  {
    match e
    case SceneUpdate(b, p) =>
    case Tick(_) =>
    case Fire(_) =>
  }

  lemma {:induction false} LossRun(s: State, es: seq<Event>, t: State, i: nat)
    requires Inv(s) && Run(s, es, t) && Lost(s, i)
    ensures Lost(t, i)
    decreases |es|
  {
    if es != [] {
      StepKeeps(s, es[0]);
      LossIsFinal(s, es[0], i);
      LossRun(Step(s, es[0]), es[1..], t, i);
    }
  }

  lemma {:induction false} SomethingIsLost(s: State, es: seq<Event>, t: State) returns (i: nat)
    requires Inv(s) && Run(s, es, t) && !NoneOvertakes(s, es)
    ensures Lost(t, i)
    decreases |es|
  {
    StepKeeps(s, es[0]);
    if Overtakes(s, es[0]) {
      i := s.pendingTimers[es[0].board];
      LossRun(Step(s, es[0]), es[1..], t, i);
    } else {
      i := SomethingIsLost(Step(s, es[0]), es[1..], t);
    }
  }

  lemma {:induction false} SettledHas(updates: seq<Update>, now: int, n: nat, i: nat)
    requires i < n <= |updates| && IsSettled(updates, now, i)
    ensures Has(Settled(updates, now, n), i)
    decreases n
  {
    var r := Settled(updates, now, n);
    if i == n - 1 {
      assert r[|r| - 1].timer == i;
    } else {
      SettledHas(updates, now, n - 1, i);
      var rest := Settled(updates, now, n - 1);
      var k :| 0 <= k < |rest| && rest[k].timer == i;
      assert r[k] == rest[k];
    }
  }

  lemma NothingLostIsExact(s: State, es: seq<Event>, t: State)
    requires Inv(s) && AllAccounted(s) && Run(s, es, t) && NoneOvertakes(s, es) && Quiet(t)
    ensures t.writes == Settled(t.updates, t.now, |t.updates|)
  {
    RunKeeps(s, es, t);
    RunAccounts(s, es, t);
    forall i | 0 <= i < |t.updates| && IsSettled(t.updates, t.now, i) ensures Has(t.writes, i) {
      assert Accounted(t, i);
      assert i in t.armed ==> CarriesLast(t, i);
    }
    OrderedIsSettled(t.writes, t.updates, t.now, |t.updates|);
  }

  /** Once no timer is due, the writes are exactly the updates followed by 2000 ms of
      silence, in order, if and only if no update came in for a board whose own timer was
      due and still waiting for its callback. Timers may be late in any other way. */
  lemma WritesAreExactIff(now: int, base: map<BoardId, Scene>, es: seq<Event>, t: State)
    requires Run(Start(now, base), es, t) && Quiet(t)
    ensures t.writes == Settled(t.updates, t.now, |t.updates|) <==> NoneOvertakes(Start(now, base), es)
  {
    if NoneOvertakes(Start(now, base), es) {
      NothingLostIsExact(Start(now, base), es, t);
    } else {
      var i := SomethingIsLost(Start(now, base), es, t);
      SettledHas(t.updates, t.now, |t.updates|, i);
    }
  }

  /** Such a run: an update comes in before a late callback and takes the place of one
      that already had its silence. */
  lemma LateTimerSkips() returns (es: seq<Event>, t: State)
    ensures Run(Start(0, map[]), es, t) && Quiet(t)
    ensures |t.writes| == 0 && |Settled(t.updates, t.now, |t.updates|)| == 1
  {
    var s0 := Start(0, map[]);
    var e0, e1, e2 := SceneUpdate(0, 7), Tick(2001), SceneUpdate(0, 8);
    var s1 := Step(s0, e0);
    var s2 := Step(s1, e1);
    t := Step(s2, e2);
    es := [e0, e1, e2];
    assert Run(t, [], t);
    assert [e2][1..] == [] && Run(s2, [e2], t);
    assert [e1, e2][1..] == [e2] && Run(s1, [e1, e2], t);
    assert [e0, e1, e2][1..] == [e1, e2] && Run(s0, [e0, e1, e2], t);
    assert t.updates == [Update(0, 7, 0), Update(0, 8, 2001)];
    assert Settled(t.updates, t.now, 0) == [];
    assert Silent(t.updates, 0);
    assert Settled(t.updates, t.now, 1) == [Write(0, 0, 7)];
    assert Settled(t.updates, t.now, 2) == [Write(0, 0, 7)];
  }

  // ---- Due timers can run ----

  lemma {:induction false} Least(ids: set<TimerId>) returns (least: TimerId)
    requires ids != {}
    ensures least in ids && forall j :: j in ids ==> least <= j
    decreases |ids|
  {
    var first :| first in ids;
    var rest := ids - {first};
    least := first;
    assert ids == rest + {first};
    if rest != {} {
      var other := Least(rest);
      if other < least { least := other; }
    }
  }

  /** The earliest timer is due whenever any is. */
  lemma EarliestIsDue(s: State, id: TimerId)
    requires Inv(s) && id in s.armed && (forall j :: j in s.armed ==> id <= j) && !Quiet(s)
    ensures s.armed[id].due <= s.now && Enabled(s, Fire(id))
  {
    var k :| k in s.armed && s.armed[k].due <= s.now;
    assert CarriesLast(s, k) && CarriesLast(s, id) && id <= k;
    assert s.armed[id].due == s.updates[id].at + 2000 && s.armed[k].due == s.updates[k].at + 2000;
    assert id == k || s.updates[id].at <= s.updates[k].at;
  }

  /** From every state the callbacks alone, without time passing, reach a state in which no
      timer is due. */
  lemma {:induction false} TimersRunOut(s: State) returns (es: seq<Event>, t: State)
    requires Inv(s)
    ensures Run(s, es, t) && Quiet(t) && t.now == s.now && t.updates == s.updates
    ensures forall e :: e in es ==> e.Fire?
    decreases |s.armed|
  {
    es, t := [], s;
    if !Quiet(s) {
      var id := Least(s.armed.Keys);
      EarliestIsDue(s, id);
      StepKeeps(s, Fire(id));
      var s1 := Step(s, Fire(id));
      assert s1.armed.Keys == s.armed.Keys - {id} && |s1.armed.Keys| < |s.armed.Keys|;
      var rest;
      rest, t := TimersRunOut(s1);
      es := [Fire(id)] + rest;
      assert es[1..] == rest;
    }
  }
}
