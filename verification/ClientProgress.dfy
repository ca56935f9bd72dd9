/**
 When the client goes on, and exactly when it gets stuck.
 */
module ClientProgress {
  import opened Wrappers
  import opened ClientModel
  import opened ClientInvariant
  import opened ClientFrame
  import opened ClientRuns
  import opened ClientIds
  import opened ClientSafety

  // ---- A destructor inside the handler ----------------------------------------------------------------

  /** The supervision callback dropped the last reference: the destructor runs on the notification
      thread, below a handler that holds the callback lock. */
  predicate SelfDestructs(s: State, t: Tid) {
    t in s.threads && s.threads[t].Destroying? && s.threads[t].ret.BackToHandler?
  }

  /** Thread `t` can take a step. */
  ghost predicate Enabled(s: State, t: Tid) {
    exists l: Label, s' :: l.t == t && Step(s, l, s')
  }

  /** The thread's reference to `o` is the only one. */
  ghost predicate OnlyHolder(s: State, t: Tid, o: SessionRef) {
    Entries(s.table, o) == {} && Locals(s.threads, o) == {t}
  }

  lemma LastReferenceIff(s: State, t: Tid, o: SessionRef)
    requires Inv(s) && t in s.threads && HeldRef(s.threads[t]) == Some(o) && o in s.sessions
    ensures s.sessions[o].refs == 1 <==> OnlyHolder(s, t, o)
  {
    assert CountOk(s, o);
    assert t in Locals(s.threads, o);
    if s.sessions[o].refs == 1 {
      assert |Locals(s.threads, o) - {t}| == 0;
    }
  }

  lemma ResetEndDestructsIff(s: State, t: Tid)
    requires Inv(s) && CanResetEnd(s, t)
    ensures SelfDestructs(DoResetEnd(s, t), t) <==> OnlyHolder(s, t, s.threads[t].target)
  {
    LastReferenceIff(s, t, s.threads[t].target);
  }

  lemma LandsDestructing(s: State, l: Label, pc: Pc)
    requires Fits(s, l) && Lands(s, l, pc) && pc.Destroying? && pc.ret.BackToHandler?
    ensures l.ResetEnd? || (DestructorLabel(l) && s.threads[l.t] == pc)
  {
  }

  /** A thread comes to destroy a session below the handler only at the end of a supervision callback. */
  lemma DestructsByReset(s: State, l: Label, s': State, t: Tid)
    requires Step(s, l, s') && !SelfDestructs(s, t) && SelfDestructs(s', t)
    ensures l == ResetEnd(t)
  {
    if l.t != t {
      OtherThreads(s, l, s', t);
    } else {
      StepFits(s, l, s');
      LandsDestructing(s, l, s'.threads[t]);
    }
  }

  /** A supervision callback ends, and its reference to the session is the last. */
  ghost predicate DropsLast(s: State, l: Label, t: Tid) {
    l == ResetEnd(t) && t in s.threads && s.threads[t].Resetting? && OnlyHolder(s, t, s.threads[t].target)
  }

  lemma DestructsIff(s: State, l: Label, s': State, t: Tid)
    requires Inv(s) && Step(s, l, s') && !SelfDestructs(s, t)
    ensures SelfDestructs(s', t) <==> DropsLast(s, l, t)
  {
    if l == ResetEnd(t) {
      ReleaseByLabel(s, l, s');
      assert CanResetEnd(s, t) && s' == DoResetEnd(s, t);
      ResetEndDestructsIff(s, t);
    } else if SelfDestructs(s', t) {
      DestructsByReset(s, l, s', t);
    }
  }

  /** In every run, a thread begins to destroy a session below the handler exactly when a supervision
      callback ends and its reference to that session is the last. */
  lemma SelfDestructIff(run: seq<State>, labels: seq<Label>, i: nat, t: Tid)
    requires Behaviour(run, labels) && i < |labels| && !SelfDestructs(run[i], t)
    ensures SelfDestructs(run[i + 1], t) <==> DropsLast(run[i], labels[i], t)
  {
    Reachable(run, labels, i);
    assert StepAt(run, labels, i);
    DestructsIff(run[i], labels[i], run[i + 1], t);
  }

  /** Nobody but `t` has a local reference to `o`. */
  ghost predicate NobodyElse(s: State, t: Tid, o: SessionRef) {
    forall u :: u in s.threads && u != t ==> HeldRef(s.threads[u]) != Some(o)
  }

  lemma OnlyHolderIff(s: State, t: Tid, o: SessionRef)
    requires t in s.threads && HeldRef(s.threads[t]) == Some(o)
    ensures OnlyHolder(s, t, o) <==> (forall id :: !MapsTo(s, id, o)) && NobodyElse(s, t, o)
  {
    if OnlyHolder(s, t, o) {
      forall id ensures !MapsTo(s, id, o) { assert id !in Entries(s.table, o); }
      forall u | u in s.threads && u != t ensures HeldRef(s.threads[u]) != Some(o) {
        assert u !in Locals(s.threads, o);
      }
    } else if NobodyElse(s, t, o) {
      assert Locals(s.threads, o) == {t};
      var id :| id in Entries(s.table, o);
      assert MapsTo(s, id, o);
    }
  }

  /** Within 2^32 sessions, in terms a caller knows: the callback's session was issued one id, and the
      thread begins to destroy it below the handler exactly when that id is closed and nobody else holds
      the session. */
  lemma SelfDestructWhenClosed(run: seq<State>, labels: seq<Label>, i: nat, t: Tid) returns (id: nat)
    requires Behaviour(run, labels) && i < |labels| && labels[i] == ResetEnd(t) && |run[i].issued| <= ID_SPACE
    ensures t in run[i].threads && run[i].threads[t].Resetting?
    ensures forall k :: 0 <= k < |run[i].issued| ==> (run[i].issued[k] == run[i].threads[t].target <==> k == id)
    ensures id < |run[i].issued|
    ensures SelfDestructs(run[i + 1], t) <==>
      id in run[i].closed && NobodyElse(run[i], t, run[i].threads[t].target)
  {
    var s := run[i];
    assert StepAt(run, labels, i);
    StepFits(s, labels[i], run[i + 1]);
    var o := s.threads[t].target;
    ResettingIssued(run, labels, i, t);
    id :| 0 <= id < |s.issued| && s.issued[id] == o;
    forall k | 0 <= k < |s.issued| ensures s.issued[k] == o <==> k == id {
      if k < id { IssuedOnce(run, labels, i, k, id); }
      if id < k { IssuedOnce(run, labels, i, id, k); }
    }
    SelfDestructIff(run, labels, i, t);
    OnlyHolderIff(s, t, o);
    ReachableIds(run, labels, i);
    ClosedIff(s, id, o);
  }

  lemma ClosedIff(s: State, id: nat, o: SessionRef)
    requires IdsOk(s) && |s.issued| <= ID_SPACE && id < |s.issued|
    requires forall k :: 0 <= k < |s.issued| ==> (s.issued[k] == o <==> k == id)
    ensures id in s.closed <==> forall other :: !MapsTo(s, other, o)
  {
    assert id !in s.closed ==> MapsTo(s, id, o);
  }

  lemma DestroyingFits(s: State, l: Label)
    requires Fits(s, l) && l.t in s.threads && s.threads[l.t].Destroying?
    ensures DestructorLabel(l)
  {
  }

  lemma CallbackLockHeld(s: State, l: Label, s': State)
    requires Step(s, l, s') && s.callbackReaders != {}
    ensures !l.EraseCallbacks? && !l.SubAdd?
  {
  }

  lemma SelfDestructStep(s: State, l: Label, s': State, t: Tid)
    requires Inv(s) && Step(s, l, s') && SelfDestructs(s, t)
    ensures t in s'.threads && s'.threads[t] == s.threads[t] && !l.EraseCallbacks? && !l.SubAdd?
  {
    PastErase(s, t);
    if l.t == t {
      StepFits(s, l, s');
      DestroyingFits(s, l);
      DestructorByLabel(s, l, s');
      DestructorNotInHandler(s, l, s');
    } else {
      ThreadStays(s, l, s', t);
      CallbackLockHeld(s, l, s');
    }
  }

  /** From then on the thread never moves, no session's callbacks are ever erased again and no callback
      is ever added again. */
  lemma {:induction false} SelfDestructBlocksForEver(run: seq<State>, labels: seq<Label>, i: nat, j: nat, t: Tid)
    requires Behaviour(run, labels) && i <= j < |run| && SelfDestructs(run[i], t)
    ensures SelfDestructs(run[j], t) && run[j].threads[t] == run[i].threads[t] && !Enabled(run[j], t)
    ensures j < |labels| ==> !labels[j].EraseCallbacks? && !labels[j].SubAdd?
    decreases j
  {
    if i < j {
      SelfDestructBlocksForEver(run, labels, i, j - 1, t);
      Reachable(run, labels, j - 1);
      assert StepAt(run, labels, j - 1);
      SelfDestructStep(run[j - 1], labels[j - 1], run[j], t);
    }
    if j < |labels| {
      Reachable(run, labels, j);
      assert StepAt(run, labels, j);
      SelfDestructStep(run[j], labels[j], run[j + 1], t);
    }
    Reachable(run, labels, j);
    SelfDestructStuck(run[j], t);
  }

  lemma SelfDestructStuck(s: State, t: Tid)
    requires Inv(s) && SelfDestructs(s, t)
    ensures !Enabled(s, t)
  {
    if l: Label, s' :| l.t == t && Step(s, l, s') {
      StepFits(s, l, s');
      DestroyingFits(s, l);
      DestructorByLabel(s, l, s');
      DestructorNotInHandler(s, l, s');
    }
  }

  // ---- Some thread at work can go on ------------------------------------------------------------------

  /** The thread waits for nothing but a new call, a notification or the end of its session. */
  predicate AtRest(pc: Pc) {
    pc.Finished? || pc.Idle? || pc.StreamWaiting?
  }

  predicate Busy(s: State, t: Tid) {
    t in s.threads && !AtRest(s.threads[t])
  }

  ghost predicate NoSelfDestruct(s: State) {
    forall t {:trigger SelfDestructs(s, t)} :: !SelfDestructs(s, t)
  }

  lemma {:induction false} FreshThread(ts: set<Tid>) returns (d: Tid)
    ensures forall t :: t in ts ==> t < d
  {
    d := 0;
    if ts != {} {
      var t :| t in ts;
      var e := FreshThread(ts - {t});
      d := if e <= t then t + 1 else e;
      forall u | u in ts ensures u < d { if u != t { assert u in ts - {t}; } }
    }
  }

  /** Inside the handler there is always a next step. */
  lemma HandlerEnabled(s: State, t: Tid)
    requires Inv(s) && t in s.threads && HoldsCallbacks(s.threads[t]) && !SelfDestructs(s, t)
    ensures Busy(s, t) && Enabled(s, t)
  {
    assert ThreadOk(s, t);
    match s.threads[t]
    case Handling(f) => HandlingEnabled(s, t);
    case Calling(f, cb) => assert Step(s, CallEnd(t), DoCallEnd(s, t));
    case Resetting(f, x) => ResettingEnabled(s, t);
    case _ =>
  }

  lemma ResettingEnabled(s: State, t: Tid)
    requires Inv(s) && t in s.threads && s.threads[t].Resetting?
    ensures Enabled(s, t)
  {
    assert ThreadOk(s, t);
    var x := s.threads[t].target;
    HeldAlive(s, t, x);
    assert CountOk(s, x);
    assert Step(s, ResetEnd(t), DoResetEnd(s, t));
  }

  lemma HandlingEnabled(s: State, t: Tid)
    requires Inv(s) && t in s.threads && s.threads[t].Handling?
    ensures Enabled(s, t)
  {
    assert ThreadOk(s, t);
    if CanCallNext(s, t) {
      assert Step(s, CallNext(t), DoCallNext(s, t));
    } else {
      assert Step(s, HandlerLeave(t), DoHandlerLeave(s, t));
    }
  }

  /** Whoever holds the callback lock can go on. */
  lemma CallbackReaderEnabled(s: State) returns (u: Tid)
    requires Inv(s) && NoSelfDestruct(s) && s.callbackReaders != {}
    ensures Busy(s, u) && Enabled(s, u)
  {
    u :| u in s.callbackReaders;
    assert !SelfDestructs(s, u);
    HandlerEnabled(s, u);
  }

  lemma SubAddedEnabled(s: State, t: Tid)
    requires Inv(s) && t in s.threads && s.threads[t].SubAdded?
    ensures Enabled(s, t)
  {
    assert ThreadOk(s, t);
    var d := FreshThread(s.threads.Keys);
    assert Step(s, SubDispatch(t, d, false), DoSubDispatch(s, t, d, false));
  }

  lemma SubRunningEnabled(s: State, t: Tid)
    requires Inv(s) && t in s.threads && s.threads[t].SubRunning?
    ensures Enabled(s, t)
  {
    assert ThreadOk(s, t);
    assert Step(s, SubPromise(t), DoSubPromise(s, t));
  }

  /** Someone inside addNotificationCallback's section, or blocked there by a running callback, goes on. */
  lemma SectionEnabled(s: State, t: Tid, o: SessionRef) returns (u: Tid)
    requires Inv(s) && NoSelfDestruct(s) && t in s.threads && InCallbackSection(s.threads[t], o)
    ensures Busy(s, u) && Enabled(s, u)
  {
    u := t;
    if s.threads[t].SubAdded? {
      SubAddedEnabled(s, t);
    } else if s.threads[t].SubRunning? {
      SubRunningEnabled(s, t);
    } else if s.callbackReaders == {} {
      assert ThreadOk(s, t);
      assert Step(s, SubAdd(t), DoSubAdd(s, t));
    } else {
      u := CallbackReaderEnabled(s);
    }
  }

  lemma FulfillingEnabled(s: State, t: Tid)
    requires Destroys(s, t, FulfilPromises)
    ensures Busy(s, t) && Enabled(s, t)
  {
    if CanPromiseFulfil(s, t) {
      assert Step(s, PromiseFulfil(t), DoPromiseFulfil(s, t));
    } else {
      assert Step(s, PromisesUnlock(t), DoPromisesUnlock(s, t));
    }
  }

  /** Whoever holds a session's mutex, or someone it waits for, goes on. */
  lemma MutexEnabled(s: State, o: SessionRef) returns (u: Tid)
    requires Inv(s) && NoSelfDestruct(s) && o in s.sessions && s.sessions[o].mutex.Some?
    ensures Busy(s, u) && Enabled(s, u)
  {
    assert SessionOk(s, o);
    u := s.sessions[o].mutex.value;
    if InCallbackSection(s.threads[u], o) {
      u := SectionEnabled(s, u, o);
    } else {
      FulfillingEnabled(s, u);
    }
  }

  lemma SubFoundEnabled(s: State, t: Tid) returns (u: Tid)
    requires Inv(s) && NoSelfDestruct(s) && t in s.threads && s.threads[t].SubFound?
    ensures Busy(s, u) && Enabled(s, u)
  {
    u := t;
    assert ThreadOk(s, t);
    if s.sessions[s.threads[t].o].mutex.None? {
      assert Step(s, SubLock(t), DoSubLock(s, t));
    } else {
      u := MutexEnabled(s, s.threads[t].o);
    }
  }

  /** Whoever holds the table lock, or someone it waits for, goes on. */
  lemma TableReaderEnabled(s: State, t: Tid) returns (u: Tid)
    requires Inv(s) && NoSelfDestruct(s) && t in s.threads && HoldsTable(s.threads[t])
    ensures Busy(s, u) && Enabled(s, u)
  {
    u := t;
    if s.threads[t].RpcBusy? {
      assert Step(s, RpcReturn(t), DoRpcReturn(s, t));
    } else if s.threads[t].SubFound? {
      u := SubFoundEnabled(s, t);
    } else if s.threads[t].SubDone? {
      assert Step(s, SubLeave(t), DoSubLeave(s, t));
    } else {
      u := SectionEnabled(s, t, s.threads[t].o);
    }
  }

  lemma AddingEnabled(s: State, t: Tid) returns (u: Tid)
    requires Inv(s) && NoSelfDestruct(s) && t in s.threads && (s.threads[t].Adding? || s.threads[t].Removing?)
    ensures Busy(s, u) && Enabled(s, u)
  {
    if s.tableReaders != {} {
      u :| u in s.tableReaders;
      u := TableReaderEnabled(s, u);
    } else {
      u := t;
      assert ThreadOk(s, t);
      if s.threads[t].Adding? {
        assert Step(s, AddSession(t), DoAddSession(s, t));
      } else {
        assert Step(s, RemoveSession(t), DoRemoveSession(s, t));
      }
    }
  }

  lemma ReturningEnabled(s: State, t: Tid)
    requires Inv(s) && t in s.threads && (s.threads[t].Added? || s.threads[t].Removed?)
    ensures Enabled(s, t)
  {
    assert ThreadOk(s, t);
    var o := s.threads[t].o;
    HeldAlive(s, t, o);
    assert CountOk(s, o);
    if s.threads[t].Added? {
      assert Step(s, ConnectReturn(t), DoConnectReturn(s, t));
    } else {
      assert Step(s, DisconnectReturn(t), DoDisconnectReturn(s, t));
    }
  }

  lemma CallEnabled(s: State, t: Tid)
    requires Inv(s) && t in s.threads && (s.threads[t].RpcStart? || s.threads[t].SubStart? || s.threads[t].Notified?)
    ensures Enabled(s, t)
  {
    assert ThreadOk(s, t);
    match s.threads[t]
    case RpcStart(_) => assert Step(s, RpcEnter(t), DoRpcEnter(s, t));
    case SubStart(_, _) => assert Step(s, SubEnter(t), DoSubEnter(s, t));
    case Notified(_, _) => assert Step(s, HandlerEnter(t), DoHandlerEnter(s, t));
  }

  /** `nc_session_free` waits at most for a notification thread that can go on. */
  lemma FreeingEnabled(s: State, t: Tid) returns (u: Tid)
    requires Inv(s) && NoSelfDestruct(s) && Destroys(s, t, FreeHandle)
    ensures Busy(s, u) && Enabled(s, u)
  {
    u := t;
    var a := s.sessions[s.threads[t].o].handle;
    if CanFree(s, t) {
      assert Step(s, Free(t), DoFree(s, t));
    } else {
      u := s.dispatch[a];
      assert AddressOk(s, a) && !SelfDestructs(s, t) && !SelfDestructs(s, u);
      if s.threads[u].Notified? { CallEnabled(s, u); } else { HandlerEnabled(s, u); }
    }
  }

  lemma ErasingEnabled(s: State, t: Tid) returns (u: Tid)
    requires Inv(s) && NoSelfDestruct(s) && Destroys(s, t, Erase)
    ensures Busy(s, u) && Enabled(s, u)
  {
    u := t;
    if s.callbackReaders == {} {
      assert Step(s, EraseCallbacks(t), DoEraseCallbacks(s, t));
    } else {
      u := CallbackReaderEnabled(s);
    }
  }

  lemma LockingEnabled(s: State, t: Tid) returns (u: Tid)
    requires Inv(s) && NoSelfDestruct(s) && Destroys(s, t, LockPromises)
    ensures Busy(s, u) && Enabled(s, u)
  {
    u := t;
    if s.sessions[s.threads[t].o].mutex.None? {
      assert Step(s, PromisesLock(t), DoPromisesLock(s, t));
    } else {
      u := MutexEnabled(s, s.threads[t].o);
    }
  }

  lemma DestroyingEnabled(s: State, t: Tid) returns (u: Tid)
    requires Inv(s) && NoSelfDestruct(s) && t in s.threads && s.threads[t].Destroying?
    ensures Busy(s, u) && Enabled(s, u)
  {
    u := t;
    assert ThreadOk(s, t);
    match s.sessions[s.threads[t].o].life.stage
    case Erase => u := ErasingEnabled(s, t);
    case LockPromises => u := LockingEnabled(s, t);
    case FulfilPromises => FulfillingEnabled(s, t);
    case CloseSession => assert Step(s, SendClose(t), DoSendClose(s, t));
    case FreeHandle => u := FreeingEnabled(s, t);
  }

  /** While some thread is at work and none destroys a session below the handler, some thread at work
      can take a step. */
  lemma SomeEnabled(s: State, t: Tid) returns (u: Tid)
    requires Inv(s) && NoSelfDestruct(s) && Busy(s, t)
    ensures Busy(s, u) && Enabled(s, u)
  {
    u := t;
    var pc := s.threads[t];
    if HoldsTable(pc) {
      u := TableReaderEnabled(s, t);
    } else if pc.Destroying? {
      u := DestroyingEnabled(s, t);
    } else if HoldsCallbacks(pc) {
      assert !SelfDestructs(s, t);
      HandlerEnabled(s, t);
    } else if pc.Adding? || pc.Removing? {
      u := AddingEnabled(s, t);
    } else if pc.Added? || pc.Removed? {
      ReturningEnabled(s, t);
    } else {
      CallEnabled(s, t);
    }
  }

  /** In every run: the client is never stuck, unless a thread destroys a session below the handler. */
  lemma NoDeadlock(run: seq<State>, labels: seq<Label>, i: nat, t: Tid) returns (u: Tid)
    requires Behaviour(run, labels) && i < |run| && NoSelfDestruct(run[i]) && Busy(run[i], t)
    ensures Busy(run[i], u) && Enabled(run[i], u)
  {
    Reachable(run, labels, i);
    u := SomeEnabled(run[i], t);
  }

  // ---- A run that comes to it ---------------------------------------------------------------------------

  const CONNECTED: State := State(
    map[0 := Finished], map[0 := Session(0, 1, 0, 0, None, Alive, 0, 0)], map[0 := 0], 1, {},
    map[], {}, map[0 := 0], map[], [0], [], [])

  lemma ConnectedReaches()
    ensures Reaches(CONNECTED)
  {
    InitialReaches();
    var s1 := DoConnect(INITIAL, 0, 0, 0);
    ReachStep(INITIAL, Connect(0, 0, 0), s1);
    var s2 := DoAddSession(s1, 0);
    ReachStep(s1, AddSession(0), s2);
    ReachStep(s2, ConnectReturn(0), CONNECTED);
  }

  const SUPERVISED: State := CONNECTED.(
    threads := map[0 := Finished, 1 := Finished, 2 := Idle(0)],
    sessions := map[0 := Session(0, 1, 1, 0, None, Alive, 1, 0)],
    callbacks := map[0 := [Supervision(0)]], dispatch := map[0 := 2])

  const REGISTERED: State := CONNECTED.(
    threads := map[0 := Finished, 1 := SubAdded(0, 0, false)],
    sessions := map[0 := Session(0, 1, 0, 0, Some(1), Alive, 0, 0)],
    tableReaders := {1}, callbacks := map[0 := [Supervision(0)]])

  const FOUND: State := CONNECTED.(
    threads := map[0 := Finished, 1 := SubFound(0, 0, false)], tableReaders := {1})

  lemma FoundReaches()
    ensures Reaches(FOUND)
  {
    ConnectedReaches();
    var s1 := DoCallSubscribe(CONNECTED, 1, 0, false);
    ReachStep(CONNECTED, CallSubscribe(1, 0, false), s1);
    assert DoSubEnter(s1, 1) == FOUND;
    ReachStep(s1, SubEnter(1), FOUND);
  }

  const LOCKED: State := FOUND.(
    threads := map[0 := Finished, 1 := SubLocked(0, 0, false)],
    sessions := map[0 := Session(0, 1, 0, 0, Some(1), Alive, 0, 0)])

  lemma LockedReaches()
    ensures Reaches(LOCKED)
  {
    FoundReaches();
    assert DoSubLock(FOUND, 1) == LOCKED;
    ReachStep(FOUND, SubLock(1), LOCKED);
  }

  lemma RegisteredReaches()
    ensures Reaches(REGISTERED)
  {
    LockedReaches();
    assert [] + [Supervision(0)] == [Supervision(0)];
    assert WithCallback(map[], 0, Supervision(0)) == REGISTERED.callbacks;
    assert DoSubAdd(LOCKED, 1) == REGISTERED;
    ReachStep(LOCKED, SubAdd(1), REGISTERED);
  }

  const STARTED: State := REGISTERED.(
    threads := map[0 := Finished, 1 := SubRunning(0, 0, false), 2 := Idle(0)],
    sessions := map[0 := Session(0, 1, 0, 0, Some(1), Alive, 1, 0)], dispatch := map[0 := 2])

  lemma StartedReaches()
    ensures Reaches(STARTED)
  {
    RegisteredReaches();
    assert DoSubDispatch(REGISTERED, 1, 2, true) == STARTED;
    ReachStep(REGISTERED, SubDispatch(1, 2, true), STARTED);
  }

  const PROMISED: State := STARTED.(
    threads := map[0 := Finished, 1 := SubDone(0, 0, false, 0), 2 := Idle(0)],
    sessions := map[0 := Session(0, 1, 1, 0, None, Alive, 1, 0)])

  lemma PromisedReaches()
    ensures Reaches(PROMISED)
  {
    StartedReaches();
    assert DoSubPromise(STARTED, 1) == PROMISED;
    ReachStep(STARTED, SubPromise(1), PROMISED);
  }

  lemma SupervisedReaches()
    ensures Reaches(SUPERVISED)
  {
    PromisedReaches();
    assert DoSubLeave(PROMISED, 1) == SUPERVISED;
    ReachStep(PROMISED, SubLeave(1), SUPERVISED);
  }

  const HELD: Frame := Frame(0, 0, [Supervision(0)], 0, [Supervision(0)])

  const HANDLING: State := SUPERVISED.(
    threads := map[0 := Finished, 1 := Finished, 2 := Handling(HELD.(got := []))], callbackReaders := {2})

  lemma HandlingReaches()
    ensures Reaches(HANDLING)
  {
    SupervisedReaches();
    var s1 := DoNotify(SUPERVISED, 2, 0);
    ReachStep(SUPERVISED, Notify(2, 0), s1);
    assert DoHandlerEnter(s1, 2) == HANDLING;
    ReachStep(s1, HandlerEnter(2), HANDLING);
  }

  const CALLING: State := HANDLING.(threads := map[0 := Finished, 1 := Finished, 2 := Calling(HELD, Supervision(0))])

  lemma NextCallback()
    ensures CanCallNext(HANDLING, 2) && DoCallNext(HANDLING, 2) == CALLING
  {
    assert Registered(HANDLING.callbacks, 0) == [Supervision(0)];
    assert [] + [Supervision(0)] == [Supervision(0)];
  }

  lemma CallingReaches()
    ensures Reaches(CALLING)
  {
    HandlingReaches();
    NextCallback();
    ReachStep(HANDLING, CallNext(2), CALLING);
  }

  const RESETTING: State := CALLING.(
    threads := map[0 := Finished, 1 := Finished, 2 := Resetting(HELD, 0)],
    sessions := map[0 := Session(0, 2, 1, 0, None, Alive, 1, 0)])

  lemma ResettingReaches()
    ensures Reaches(RESETTING)
  {
    CallingReaches();
    assert DoWeakLock(CALLING, 2) == RESETTING;
    ReachStep(CALLING, WeakLock(2), RESETTING);
  }

  const CLOSED: State := RESETTING.(
    threads := map[0 := Finished, 1 := Finished, 2 := Resetting(HELD, 0), 3 := Removed(0)],
    table := map[], closed := [0])

  lemma ClosedReaches()
    ensures Reaches(CLOSED)
  {
    ResettingReaches();
    var s1 := DoCallDisconnect(RESETTING, 3, 0);
    ReachStep(RESETTING, CallDisconnect(3, 0), s1);
    assert DoRemoveSession(s1, 3) == CLOSED;
    ReachStep(s1, RemoveSession(3), CLOSED);
  }

  /** A disconnect during the watchdog reset of a supervision callback is enough. */
  lemma SelfDestructReaches()
    ensures exists s :: Reaches(s) && SelfDestructs(s, 2)
  {
    ClosedReaches();
    var s1 := DoDisconnectReturn(CLOSED, 3);
    ReachStep(CLOSED, DisconnectReturn(3), s1);
    var s2 := DoResetEnd(s1, 2);
    ReachStep(s1, ResetEnd(2), s2);
    assert SelfDestructs(s2, 2);
  }
}
