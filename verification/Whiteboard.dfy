/**
 The whiteboard gateway's trailing-edge debounce: every socket scene update re-arms a
 2000 ms timer for its board, the timer's callback saves the latest scene, and shutdown
 flushes what is still pending.

 The event loop is part of the state: the clock, and the timers that are armed. It runs
 one callback at a time, the earliest due first, possibly late. Timer handles count the
 calls that armed them, so handle i belongs to the i-th update of the run.
 */
module Whiteboard {
  type BoardId = nat
  type TimerId = nat
  type Scene = nat

  const PERSIST_DEBOUNCE_MS := 2000

  datatype Update = Update(board: BoardId, scene: Scene, at: int)
  datatype Timer = Timer(board: BoardId, due: int)

  /** A write to the database, with the handle of the timer that made it. */
  datatype Write = Write(timer: TimerId, board: BoardId, scene: Scene)

  datatype State = State(
    now: int,
    pendingTimers: map<BoardId, TimerId>,
    pendingPayloads: map<BoardId, Scene>,
    armed: map<TimerId, Timer>,
    stored: map<BoardId, Scene>,
    updates: seq<Update>,
    writes: seq<Write>)

  datatype Event = SceneUpdate(board: BoardId, scene: Scene) | Tick(d: nat) | Fire(timer: TimerId)

  function Start(now: int, stored: map<BoardId, Scene>): State {
    State(now, map[], map[], map[], stored, [], [])
  }

  // ---- Steps ----

  function Schedule(s: State, b: BoardId, p: Scene): State {
    var id := |s.updates|;
    var cleared := if b in s.pendingTimers then s.armed - {s.pendingTimers[b]} else s.armed;
    s.(pendingPayloads := s.pendingPayloads[b := p],
       armed := cleared[id := Timer(b, s.now + PERSIST_DEBOUNCE_MS)],
       pendingTimers := s.pendingTimers[b := id],
       updates := s.updates + [Update(b, p, s.now)])
  }

  function Callback(s: State, id: TimerId): State
    requires id in s.armed
  {
    var b := s.armed[id].board;
    var run := s.(armed := s.armed - {id},
                  pendingTimers := s.pendingTimers - {b},
                  pendingPayloads := s.pendingPayloads - {b});
    if b !in s.pendingPayloads then run
    else
      var latest := s.pendingPayloads[b];
      run.(stored := s.stored[b := latest], writes := s.writes + [Write(id, b, latest)])
  }

  /** A timer may run once it is due, the earliest first. */
  predicate Enabled(s: State, e: Event) {
    e.Fire? ==> && e.timer in s.armed && s.armed[e.timer].due <= s.now
                && (forall j :: j in s.armed ==> e.timer <= j)
  }

  function Step(s: State, e: Event): State
    requires Enabled(s, e)
  {
    match e
    case SceneUpdate(b, p) => Schedule(s, b, p)
    case Tick(d) => s.(now := s.now + d)
    case Fire(id) => Callback(s, id)
  }

  ghost predicate Run(s: State, es: seq<Event>, t: State)
    decreases |es|
  {
    if es == [] then s == t else Enabled(s, es[0]) && Run(Step(s, es[0]), es[1..], t)
  }

  // ---- What every step keeps ----

  /** Timers and payloads have the same boards. */
  predicate KeysAgree(s: State) {
    s.pendingTimers.Keys == s.pendingPayloads.Keys
  }

  /** Each pending board has one armed timer, and no other timer is armed. */
  predicate OneTimerPerBoard(s: State) {
    && (forall b :: b in s.pendingTimers ==> s.pendingTimers[b] in s.armed && s.armed[s.pendingTimers[b]].board == b)
    && (forall id :: id in s.armed ==> s.armed[id].board in s.pendingTimers && s.pendingTimers[s.armed[id].board] == id)
    && (forall id :: id in s.armed ==> id < |s.updates|)
  }

  predicate LastOfBoard(updates: seq<Update>, i: nat)
    requires i < |updates|
  {
    forall j :: i < j < |updates| ==> updates[j].board != updates[i].board
  }

  /** An armed timer carries its own update, which is its board's last. */
  predicate CarriesLast(s: State, id: TimerId)
    requires id in s.armed
  {
    && id < |s.updates|
    && s.armed[id] == Timer(s.updates[id].board, s.updates[id].at + 2000)
    && (s.armed[id].board in s.pendingPayloads ==> s.pendingPayloads[s.armed[id].board] == s.updates[id].scene)
    && LastOfBoard(s.updates, id)
  }

  predicate TimersCarryLast(s: State) {
    forall id :: id in s.armed ==> CarriesLast(s, id)
  }

  /** Updates lie in the past and in the order of time. */
  predicate Past(s: State) {
    && (forall i :: 0 <= i < |s.updates| ==> s.updates[i].at <= s.now)
    && (forall i, j :: 0 <= i < j < |s.updates| ==> s.updates[i].at <= s.updates[j].at)
  }

  /** Update i was followed by 2000 ms without another update of its board. */
  predicate Silent(updates: seq<Update>, i: nat)
    requires i < |updates|
  {
    forall j :: i < j < |updates| && updates[j].board == updates[i].board ==>
      updates[i].at + 2000 <= updates[j].at
  }

  /** Update i had its silence. */
  predicate IsSettled(updates: seq<Update>, now: int, i: nat)
    requires i < |updates|
  {
    updates[i].at + 2000 <= now && Silent(updates, i)
  }

  /** A write saves its own timer's update, which had its silence. */
  predicate Matches(updates: seq<Update>, now: int, w: Write) {
    && w.timer < |updates| && w.board == updates[w.timer].board && w.scene == updates[w.timer].scene
    && IsSettled(updates, now, w.timer)
  }

  predicate WritesAreSettled(s: State) {
    forall k :: 0 <= k < |s.writes| ==> Matches(s.updates, s.now, s.writes[k])
  }

  predicate Ordered(ws: seq<Write>) {
    forall k, l :: 0 <= k < l < |ws| ==> ws[k].timer < ws[l].timer
  }

  predicate AllBefore(ws: seq<Write>, id: TimerId) {
    forall k :: 0 <= k < |ws| ==> ws[k].timer < id
  }

  /** Writes are made in the order of their updates, and before those still to come. */
  predicate InOrder(s: State) {
    Ordered(s.writes) && AllBefore(s.writes, |s.updates|) && forall id :: id in s.armed ==> AllBefore(s.writes, id)
  }

  predicate Inv(s: State) {
    KeysAgree(s) && OneTimerPerBoard(s) && TimersCarryLast(s) && Past(s) && WritesAreSettled(s) && InOrder(s)
  }

  lemma StepKeepsTimers(s: State, e: Event)
    requires KeysAgree(s) && OneTimerPerBoard(s) && Enabled(s, e)
    ensures KeysAgree(Step(s, e)) && OneTimerPerBoard(Step(s, e))
  {
  }

  lemma ScheduleKeepsCarried(s: State, b: BoardId, p: Scene)
    requires Inv(s)
    ensures TimersCarryLast(Schedule(s, b, p)) && Past(Schedule(s, b, p))
  {
    var t := Schedule(s, b, p);
    forall id | id in t.armed ensures CarriesLast(t, id) {
      assert id in s.armed ==> CarriesLast(s, id);
    }
  }

  lemma StepKeepsCarried(s: State, e: Event)
    requires Inv(s) && Enabled(s, e)
    ensures TimersCarryLast(Step(s, e)) && Past(Step(s, e))
  {
    match e
    case SceneUpdate(b, p) => ScheduleKeepsCarried(s, b, p);
    case _ =>
      forall id | id in Step(s, e).armed ensures CarriesLast(Step(s, e), id) { assert CarriesLast(s, id); }
  }

  lemma FireKeepsOrder(s: State, id: TimerId)
    requires InOrder(s) && id in s.armed && id < |s.updates| && s.armed[id].board in s.pendingPayloads
    requires forall j :: j in s.armed ==> id <= j
    ensures InOrder(Callback(s, id))
  {
    var t := Callback(s, id);
    var w := Write(id, s.armed[id].board, s.pendingPayloads[s.armed[id].board]);
    assert t.writes == s.writes + [w];
    forall j | j in t.armed ensures AllBefore(t.writes, j) { }
  }

  lemma StepKeepsOrder(s: State, e: Event)
    requires Inv(s) && Enabled(s, e)
    ensures InOrder(Step(s, e))
  {
    if e.Fire? { FireKeepsOrder(s, e.timer); }
  }

  lemma StepKeeps(s: State, e: Event)
    requires Inv(s) && Enabled(s, e)
    ensures Inv(Step(s, e))
  {
    StepKeepsTimers(s, e);
    StepKeepsCarried(s, e);
    StepKeepsOrder(s, e);
  }

  lemma {:induction false} RunKeeps(s: State, es: seq<Event>, t: State)
    requires Inv(s) && Run(s, es, t)
    ensures Inv(t)
    decreases |es|
  {
    if es != [] {
      StepKeeps(s, es[0]);
      RunKeeps(Step(s, es[0]), es[1..], t);
    }
  }

  // ---- Nothing is forgotten ----

  /** What the boards should hold: the last scene anyone sent, else what was there. */
  function Latest(base: map<BoardId, Scene>, updates: seq<Update>): map<BoardId, Scene>
    decreases |updates|
  {
    if updates == [] then base
    else
      var last := updates[|updates| - 1];
      Latest(base, updates[..|updates| - 1])[last.board := last.scene]
  }

  /** What is stored, and over it what is pending. */
  function Known(s: State): map<BoardId, Scene> {
    s.stored + s.pendingPayloads
  }

  lemma StepConserves(s: State, e: Event, base: map<BoardId, Scene>)
    requires Enabled(s, e) && Known(s) == Latest(base, s.updates)
    requires (e.Fire? ==> s.armed[e.timer].board in s.pendingPayloads)
    ensures Known(Step(s, e)) == Latest(base, Step(s, e).updates)
  {
    match e
    case SceneUpdate(b, p) =>
    case Tick(_) =>
    case Fire(id) =>
  }

  lemma {:induction false} RunConserves(s: State, es: seq<Event>, t: State, base: map<BoardId, Scene>)
    requires Inv(s) && Run(s, es, t) && Known(s) == Latest(base, s.updates)
    ensures Known(t) == Latest(base, t.updates)
    decreases |es|
  {
    if es != [] {
      StepKeeps(s, es[0]);
      StepConserves(s, es[0], base);
      RunConserves(Step(s, es[0]), es[1..], t, base);
    }
  }

  /** Shutdown: every pending scene is saved and nothing stays pending. */
  function Flushed(s: State): State {
    s.(pendingTimers := map[], pendingPayloads := map[], armed := map[], stored := s.stored + s.pendingPayloads)
  }

  /** In every run, whatever is stored or pending is the last scene sent for each board;
      so a shutdown flush leaves exactly that in the database. */
  lemma FlushSavesLast(now: int, base: map<BoardId, Scene>, es: seq<Event>, t: State)
    requires Run(Start(now, base), es, t)
    ensures Inv(t)
    ensures Known(t) == Latest(base, t.updates)
    ensures Flushed(t).stored == Latest(base, t.updates) && Inv(Flushed(t))
  {
    assert base + map[] == base;
    RunKeeps(Start(now, base), es, t);
    RunConserves(Start(now, base), es, t, base);
  }

  // ---- The gateway ----

  /** Every pending scene but those of the boards left is stored. */
  ghost predicate Saves(stored: map<BoardId, Scene>, before: map<BoardId, Scene>, pending: map<BoardId, Scene>,
                        left: set<BoardId>) {
    forall b ::
      && (b in stored <==> b in before || (b in pending && b !in left))
      && (b in stored ==> stored[b] == if b in pending && b !in left then pending[b] else before[b])
  }

  /** Only the timers of the boards left are armed. */
  ghost predicate Cancels(armed: map<TimerId, Timer>, before: map<TimerId, Timer>, left: set<BoardId>) {
    && (forall id :: id in armed <==> id in before && before[id].board in left)
    && (forall id :: id in armed ==> armed[id] == before[id])
  }

  class WhiteboardGateway {
    var pendingTimers: map<BoardId, TimerId>
    var pendingPayloads: map<BoardId, Scene>
    // The event loop and the database.
    var armed: map<TimerId, Timer>
    var handles: nat
    var now: int
    var stored: map<BoardId, Scene>
    ghost var updates: seq<Update>
    ghost var writes: seq<Write>

    ghost function View(): State
      reads this
    {
      State(now, pendingTimers, pendingPayloads, armed, stored, updates, writes)
    }

    ghost predicate Valid()
      reads this
    {
      KeysAgree(View()) && OneTimerPerBoard(View()) && handles == |updates|
    }

    constructor (clock: int, boards: map<BoardId, Scene>)
      ensures Valid() && View() == Start(clock, boards)
    {
      pendingTimers, pendingPayloads, armed, handles := map[], map[], map[], 0;
      now, stored, updates, writes := clock, boards, [], [];
    }

    method SchedulePersist(boardId: BoardId, payload: Scene)
      requires Valid()
      modifies this
      ensures Valid() && View() == Step(old(View()), SceneUpdate(boardId, payload))
    {
      ghost var before := View();
      pendingPayloads := pendingPayloads[boardId := payload];
      if boardId in pendingTimers {
        armed := armed - {pendingTimers[boardId]};
      }
      var timer := handles;
      handles := handles + 1;
      armed := armed[timer := Timer(boardId, now + PERSIST_DEBOUNCE_MS)];
      pendingTimers := pendingTimers[boardId := timer];
      updates := updates + [Update(boardId, payload, now)];
      assert View() == Schedule(before, boardId, payload);
      StepKeepsTimers(before, SceneUpdate(boardId, payload));
    }

    /** The callback of an armed timer. */
    method RunTimer(timer: TimerId)
      requires Valid() && Enabled(View(), Fire(timer))
      modifies this
      ensures Valid() && View() == Step(old(View()), Fire(timer))
    {
      ghost var before := View();
      var boardId := armed[timer].board;
      armed := armed - {timer};
      var pending := boardId in pendingPayloads;
      var latest := if pending then pendingPayloads[boardId] else 0;
      pendingTimers := pendingTimers - {boardId};
      pendingPayloads := pendingPayloads - {boardId};
      if pending {
        stored := stored[boardId := latest];
        writes := writes + [Write(timer, boardId, latest)];
      }
      assert View() == Callback(before, timer);
      StepKeepsTimers(before, Fire(timer));
    }

    method OnModuleDestroy()
      requires Valid()
      modifies this
      ensures Valid() && View() == Flushed(old(View()))
      ensures pendingTimers == map[] && pendingPayloads == map[] && armed == map[]
      ensures stored == old(stored) + old(pendingPayloads)
    {
      var left := pendingTimers.Keys;
      while left != {}
        modifies `armed, `stored
        invariant left <= pendingTimers.Keys
        invariant Saves(stored, old(stored), pendingPayloads, left)
        invariant Cancels(armed, old(armed), left)
      {
        var boardId :| boardId in left;
        armed := armed - {pendingTimers[boardId]};
        if boardId in pendingPayloads {
          stored := stored[boardId := pendingPayloads[boardId]];
        }
        left := left - {boardId};
      }
      assert armed == map[];
      assert stored == old(stored) + pendingPayloads;
      pendingTimers := map[];
      pendingPayloads := map[];
    }
  }
}
