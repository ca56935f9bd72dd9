/**
 All work comes to an end: without new calls, connections and notifications only finitely many actions
 follow, unless a thread destroys a session below the handler. The proof is a rank of three numbers. The
 first counts what calls still have to do, the second what destructors still have to do, the third what
 notification threads and waiting calls still have to do; each action makes one of them smaller and none
 before it bigger.
 */
module ClientTermination {
  import opened Wrappers
  import opened ClientModel
  import opened ClientInvariant
  import opened ClientFrame
  import opened ClientRuns
  import opened ClientSafety
  import opened ClientProgress

  // ---- Sums over threads ------------------------------------------------------------------------------

  type Weight = Tid -> nat

  ghost function Sum(ts: set<Tid>, w: Weight): nat {
    if ts == {} then 0 else
    var t :| t in ts;
    w(t) + Sum(ts - {t}, w)
  }

  lemma {:induction false} SumPick(ts: set<Tid>, w: Weight, t: Tid)
    requires t in ts
    ensures Sum(ts, w) == w(t) + Sum(ts - {t}, w)
  {
    var u :| u in ts && Sum(ts, w) == w(u) + Sum(ts - {u}, w);
    if u != t {
      SumPick(ts - {u}, w, t);
      SumPick(ts - {t}, w, u);
      assert ts - {u} - {t} == ts - {t} - {u};
    }
  }

  /** Threads that come in weigh nothing and no thread gets heavier. */
  ghost predicate NoHeavier(ts: set<Tid>, w: Weight, ts': set<Tid>, w': Weight) {
    ts <= ts' && (forall u :: u in ts' ==> w'(u) <= if u in ts then w(u) else 0)
  }

  lemma {:induction false} SumNoHeavier(ts: set<Tid>, w: Weight, ts': set<Tid>, w': Weight)
    requires NoHeavier(ts, w, ts', w')
    ensures Sum(ts', w') <= Sum(ts, w)
    decreases |ts'|
  {
    if ts' != {} {
      var u :| u in ts';
      SumPick(ts', w', u);
      if u in ts { SumPick(ts, w, u); }
      assert u !in ts ==> ts - {u} == ts;
      SumNoHeavier(ts - {u}, w, ts' - {u}, w');
    }
  }

  lemma SumLighter(ts: set<Tid>, w: Weight, ts': set<Tid>, w': Weight, t: Tid)
    requires NoHeavier(ts, w, ts', w') && t in ts && w'(t) < w(t)
    ensures Sum(ts', w') < Sum(ts, w)
  {
    SumPick(ts, w, t);
    SumPick(ts', w', t);
    SumNoHeavier(ts - {t}, w, ts' - {t}, w');
  }

  // ---- What is left to do -----------------------------------------------------------------------------

  /** A call's own actions. */
  function CallWork(pc: Pc): nat {
    match pc
    case SubStart(_, _) => 7
    case SubFound(_, _, _) => 6
    case SubLocked(_, _, _) => 5
    case SubAdded(_, _, _) => 4
    case SubRunning(_, _, _) => 3
    case SubDone(_, _, _, _) => 2
    case RpcStart(_) => 2
    case RpcBusy(_, _) => 1
    case Adding(_) => 2
    case Added(_, _) => 1
    case Removing(_) => 2
    case Removed(_) => 1
    case _ => 0
  }

  function StageWork(stage: Stage, promises: nat): nat {
    match stage
    case Erase => 5 + promises
    case LockPromises => 4 + promises
    case FulfilPromises => 3 + promises
    case CloseSession => 2
    case FreeHandle => 1
  }

  /** A destructor's actions, with one for each promise not yet fulfilled. */
  function DestructorWork(s: State, pc: Pc): nat {
    if pc.Destroying? && pc.o in s.sessions && s.sessions[pc.o].life.Dying? then
      var x := s.sessions[pc.o];
      StageWork(x.life.stage, if x.fulfilled <= x.promises then x.promises - x.fulfilled else 0)
    else 0
  }

  function FrameWork(f: Frame): nat {
    if f.pos <= |f.want| then 2 + 3 * (|f.want| - f.pos) else 2
  }

  /** The actions of a notification thread, and the return of a waiting call. */
  function HandlerWork(s: State, pc: Pc): nat {
    match pc
    case StreamWaiting(_, _) => 1
    case Idle(_) => 1
    case Notified(o, _) => if o in s.sessions then 3 + 3 * |Registered(s.callbacks, s.sessions[o].handle)| else 3
    case Handling(f) => FrameWork(f)
    case Calling(f, _) => FrameWork(f) - 1
    case Resetting(f, _) => FrameWork(f) - 2
    case _ => 0
  }

  ghost function Calls(s: State): Weight {
    t => if t in s.threads then CallWork(s.threads[t]) else 0
  }

  ghost function Destructors(s: State): Weight {
    t => if t in s.threads then DestructorWork(s, s.threads[t]) else 0
  }

  ghost function Handlers(s: State): Weight {
    t => if t in s.threads then HandlerWork(s, s.threads[t]) else 0
  }

  ghost function CallSum(s: State): nat {
    Sum(s.threads.Keys, Calls(s))
  }

  ghost function DestructorSum(s: State): nat {
    Sum(s.threads.Keys, Destructors(s))
  }

  ghost function HandlerSum(s: State): nat {
    Sum(s.threads.Keys, Handlers(s))
  }

  /** Everything but new connections, new calls and new notifications. */
  predicate Work(l: Label) {
    !l.Connect? && !l.CallDisconnect? && !l.CallRpc? && !l.CallSubscribe? && !l.Notify?
  }

  predicate HandlerLabel(l: Label) {
    || l.StreamReturn? || l.HandlerEnter? || l.CallNext? || l.CallEnd? || l.WeakLock? || l.ResetEnd?
    || l.HandlerLeave? || l.DispatchExit?
  }

  // ---- Calls ------------------------------------------------------------------------------------------

  lemma CallWorkFalls(s: State, l: Label, pc: Pc)
    requires Fits(s, l) && Lands(s, l, pc) && Work(l)
    ensures CallWork(pc) <= CallWork(s.threads[l.t])
    ensures DestructorLabel(l) || HandlerLabel(l) || CallWork(pc) < CallWork(s.threads[l.t])
  {
  }

  /** Threads that do not act get no heavier: they stay, finish or have just been started. */
  lemma CallsNoHeavier(s: State, l: Label, s': State)
    requires ThreadsFramed(s, l, s') && l.t in s.threads && CallWork(s'.threads[l.t]) <= CallWork(s.threads[l.t])
    ensures NoHeavier(s.threads.Keys, Calls(s), s'.threads.Keys, Calls(s'))
  {
  }

  lemma CallsFall(s: State, l: Label, s': State)
    requires Framed(s, l, s') && Work(l)
    ensures CallSum(s') <= CallSum(s)
    ensures DestructorLabel(l) || HandlerLabel(l) || CallSum(s') < CallSum(s)
  {
    CallWorkFalls(s, l, s'.threads[l.t]);
    CallsNoHeavier(s, l, s');
    SumNoHeavier(s.threads.Keys, Calls(s), s'.threads.Keys, Calls(s'));
    if !(DestructorLabel(l) || HandlerLabel(l)) {
      SumLighter(s.threads.Keys, Calls(s), s'.threads.Keys, Calls(s'), l.t);
    }
  }

  // ---- Destructors ------------------------------------------------------------------------------------

  /** The destructor on thread `t` has less to do, and no other session changed. */
  predicate DestructorFalls(s: State, s': State, t: Tid) {
    && t in s.threads && s.threads[t].Destroying? && t in s'.threads
    && DestructorWork(s', s'.threads[t]) < DestructorWork(s, s.threads[t])
    && (forall o :: o in s.sessions && o != s.threads[t].o ==> o in s'.sessions && s'.sessions[o] == s.sessions[o])
  }

  lemma EraseCallbacksFalls(s: State, t: Tid)
    requires Inv(s) && CanEraseCallbacks(s, t)
    ensures DestructorFalls(s, DoEraseCallbacks(s, t), t)
  {
    assert SessionOk(s, s.threads[t].o);
  }

  lemma PromisesLockFalls(s: State, t: Tid)
    requires Inv(s) && CanPromisesLock(s, t)
    ensures DestructorFalls(s, DoPromisesLock(s, t), t)
  {
    assert SessionOk(s, s.threads[t].o);
  }

  lemma PromiseFulfilFalls(s: State, t: Tid)
    requires Inv(s) && CanPromiseFulfil(s, t)
    ensures DestructorFalls(s, DoPromiseFulfil(s, t), t)
  {
    assert SessionOk(s, s.threads[t].o);
  }

  lemma PromisesUnlockFalls(s: State, t: Tid)
    requires Inv(s) && CanPromisesUnlock(s, t)
    ensures DestructorFalls(s, DoPromisesUnlock(s, t), t)
  {
    assert SessionOk(s, s.threads[t].o);
  }

  lemma SendCloseFalls(s: State, t: Tid)
    requires Inv(s) && CanSendClose(s, t)
    ensures DestructorFalls(s, DoSendClose(s, t), t)
  {
    assert SessionOk(s, s.threads[t].o);
  }

  lemma FreeFalls(s: State, t: Tid)
    requires Inv(s) && CanFree(s, t)
    ensures DestructorFalls(s, DoFree(s, t), t)
  {
    assert SessionOk(s, s.threads[t].o);
    PastErase(s, t);
  }

  lemma DestructorStepFalls(s: State, l: Label, s': State)
    requires Inv(s) && DestructorStep(s, l, s')
    ensures DestructorFalls(s, s', l.t)
  {
    match l
    case EraseCallbacks(t) => EraseCallbacksFalls(s, t);
    case PromisesLock(t) => PromisesLockFalls(s, t);
    case PromiseFulfil(t) => PromiseFulfilFalls(s, t);
    case PromisesUnlock(t) => PromisesUnlockFalls(s, t);
    case SendClose(t) => SendCloseFalls(s, t);
    case Free(t) => FreeFalls(s, t);
  }

  /** Every other destructor works on another session. */
  lemma DestructorsDiffer(s: State, t: Tid, u: Tid)
    requires Inv(s) && t in s.threads && u in s.threads && t != u
    requires s.threads[t].Destroying? && s.threads[u].Destroying?
    ensures s.threads[t].o != s.threads[u].o && s.threads[u].o in s.sessions
  {
    assert ThreadOk(s, t) && ThreadOk(s, u);
  }

  lemma OtherDestructor(s: State, l: Label, s': State, u: Tid)
    requires Inv(s) && ThreadsFramed(s, l, s') && DestructorFalls(s, s', l.t) && u in s'.threads && u != l.t
    ensures Destructors(s')(u) <= Destructors(s)(u)
  {
    if s'.threads[u].Destroying? {
      StaysDestroying(s, l, s', u);
      DestructorsDiffer(s, l.t, u);
    }
  }

  lemma StaysDestroying(s: State, l: Label, s': State, u: Tid)
    requires ThreadsFramed(s, l, s') && u in s'.threads && u != l.t && s'.threads[u].Destroying?
    ensures u in s.threads && s'.threads[u] == s.threads[u]
  {
  }

  lemma DestructorsFall(s: State, l: Label, s': State)
    requires Inv(s) && ThreadsFramed(s, l, s') && DestructorFalls(s, s', l.t)
    ensures DestructorSum(s') < DestructorSum(s)
  {
    forall u | u in s'.threads
      ensures Destructors(s')(u) <= if u in s.threads.Keys then Destructors(s)(u) else 0
    {
      if u != l.t { OtherDestructor(s, l, s', u); }
    }
    SumLighter(s.threads.Keys, Destructors(s), s'.threads.Keys, Destructors(s'), l.t);
  }

  // ---- Notification threads and waiting calls ---------------------------------------------------------

  /** Nothing changed that destructors or other handlers count. */
  predicate SameProgress(s: State, s': State) {
    && s'.callbacks == s.callbacks && s'.sessions.Keys == s.sessions.Keys
    && (forall o :: o in s.sessions ==>
          && s'.sessions[o].handle == s.sessions[o].handle && s'.sessions[o].life == s.sessions[o].life
          && s'.sessions[o].promises == s.sessions[o].promises && s'.sessions[o].fulfilled == s.sessions[o].fulfilled)
  }

  predicate HandlerFalls(s: State, s': State, t: Tid) {
    && SameProgress(s, s') && t in s.threads && t in s'.threads && !s'.threads[t].Destroying?
    && HandlerWork(s', s'.threads[t]) < HandlerWork(s, s.threads[t])
  }

  lemma StreamReturnFalls(s: State, t: Tid)
    requires Inv(s) && CanStreamReturn(s, t)
    ensures HandlerFalls(s, DoStreamReturn(s, t), t)
  {
    assert ThreadOk(s, t);
  }

  lemma HandlerEnterFalls(s: State, t: Tid)
    requires Inv(s) && CanHandlerEnter(s, t)
    ensures HandlerFalls(s, DoHandlerEnter(s, t), t)
  {
    assert ThreadOk(s, t);
  }

  lemma CallNextFalls(s: State, t: Tid)
    requires Inv(s) && CanCallNext(s, t)
    ensures HandlerFalls(s, DoCallNext(s, t), t)
  {
    assert ThreadOk(s, t);
  }

  lemma CallEndFalls(s: State, t: Tid)
    requires Inv(s) && CanCallEnd(s, t)
    ensures HandlerFalls(s, DoCallEnd(s, t), t)
  {
    assert ThreadOk(s, t);
  }

  /** Only a reference count changes. */
  lemma RefsMove(s: State, t: Tid, pc: Pc, o: SessionRef, x: Session)
    requires o in s.sessions && x == s.sessions[o].(refs := x.refs) && t in s.threads && !pc.Destroying?
    requires HandlerWork(s, pc) < HandlerWork(s, s.threads[t]) && !pc.Notified?
    ensures HandlerFalls(s, Move(s, t, pc, o, x), t)
  {
  }

  lemma MidCallback(s: State, t: Tid)
    requires Inv(s) && t in s.threads && (s.threads[t].Calling? || s.threads[t].Resetting?)
    ensures s.threads[t].frame.pos < |s.threads[t].frame.want|
  {
    assert ThreadOk(s, t);
  }

  lemma WeakLockFalls(s: State, t: Tid)
    requires Inv(s) && CanWeakLock(s, t)
    ensures HandlerFalls(s, DoWeakLock(s, t), t)
  {
    var Calling(f, cb) := s.threads[t];
    var x := s.sessions[cb.target];
    MidCallback(s, t);
    RefsMove(s, t, Resetting(f, cb.target), cb.target, x.(refs := x.refs + 1));
  }

  lemma HandlerLeaveFalls(s: State, t: Tid)
    requires Inv(s) && CanHandlerLeave(s, t)
    ensures HandlerFalls(s, DoHandlerLeave(s, t), t)
  {
    assert ThreadOk(s, t);
  }

  lemma DispatchExitFalls(s: State, t: Tid)
    requires Inv(s) && CanDispatchExit(s, t)
    ensures HandlerFalls(s, DoDispatchExit(s, t), t)
  {
    assert ThreadOk(s, t);
  }

  lemma ResetEndFalls(s: State, t: Tid)
    requires Inv(s) && CanResetEnd(s, t) && !SelfDestructs(DoResetEnd(s, t), t)
    ensures HandlerFalls(s, DoResetEnd(s, t), t)
  {
    var Resetting(f, o) := s.threads[t];
    var x := s.sessions[o];
    MidCallback(s, t);
    RefsMove(s, t, Handling(f.(pos := f.pos + 1)), o, x.(refs := x.refs - 1));
  }

  lemma HandlerStepFalls(s: State, l: Label, s': State)
    requires Inv(s) && HandlerStep(s, l, s') && Work(l)
    ensures HandlerFalls(s, s', l.t)
  {
    match l
    case HandlerEnter(t) => HandlerEnterFalls(s, t);
    case CallNext(t) => CallNextFalls(s, t);
    case CallEnd(t) => CallEndFalls(s, t);
    case WeakLock(t) => WeakLockFalls(s, t);
    case HandlerLeave(t) => HandlerLeaveFalls(s, t);
    case DispatchExit(t) => DispatchExitFalls(s, t);
  }

  lemma HandlerLabelFalls(s: State, l: Label, s': State)
    requires Inv(s) && Step(s, l, s') && HandlerLabel(l) && !SelfDestructs(s', l.t)
    ensures HandlerFalls(s, s', l.t)
  {
    if l.ResetEnd? {
      ReleaseByLabel(s, l, s');
      ResetEndFalls(s, l.t);
    } else if l.StreamReturn? {
      StreamReturnFalls(s, l.t);
    } else {
      HandlerOrExit(s, l, s');
      HandlerStepFalls(s, l, s');
    }
  }

  lemma HandlerOrExit(s: State, l: Label, s': State)
    requires Step(s, l, s') && HandlerLabel(l) && !l.ResetEnd? && !l.StreamReturn?
    ensures HandlerStep(s, l, s')
  {
  }

  lemma SameWork(s: State, s': State, pc: Pc)
    requires SameProgress(s, s')
    ensures DestructorWork(s', pc) == DestructorWork(s, pc) && HandlerWork(s', pc) == HandlerWork(s, pc)
  {
  }

  /** A thread that does not act has no more to do; one just started is idle, which no handler does. */
  lemma OtherHandler(s: State, l: Label, s': State, u: Tid)
    requires ThreadsFramed(s, l, s') && SameProgress(s, s') && u in s'.threads && u in s.threads && u != l.t
    ensures Destructors(s')(u) <= Destructors(s)(u) && Handlers(s')(u) <= Handlers(s)(u)
  {
    SameWork(s, s', s.threads[u]);
  }

  lemma HandlersFall(s: State, l: Label, s': State)
    requires ThreadsFramed(s, l, s') && HandlerFalls(s, s', l.t) && s'.threads.Keys == s.threads.Keys
    ensures DestructorSum(s') <= DestructorSum(s) && HandlerSum(s') < HandlerSum(s)
  {
    forall u | u in s'.threads && u != l.t
      ensures Destructors(s')(u) <= Destructors(s)(u) && Handlers(s')(u) <= Handlers(s)(u)
    {
      OtherHandler(s, l, s', u);
    }
    SumNoHeavier(s.threads.Keys, Destructors(s), s'.threads.Keys, Destructors(s'));
    SumLighter(s.threads.Keys, Handlers(s), s'.threads.Keys, Handlers(s'), l.t);
  }

  // ---- All work ends ----------------------------------------------------------------------------------

  /** One of the three sums is smaller, and none before it bigger. */
  ghost predicate Lower(s': State, s: State) {
    || CallSum(s') < CallSum(s)
    || (CallSum(s') == CallSum(s) && DestructorSum(s') < DestructorSum(s))
    || (CallSum(s') == CallSum(s) && DestructorSum(s') == DestructorSum(s) && HandlerSum(s') < HandlerSum(s))
  }

  lemma HandlerKeepsThreads(s: State, l: Label, s': State)
    requires ThreadsFramed(s, l, s') && HandlerLabel(l) && l.t in s.threads
    ensures s'.threads.Keys == s.threads.Keys
  {
  }

  lemma WorkLowers(s: State, l: Label, s': State)
    requires Inv(s) && Step(s, l, s') && Work(l) && !SelfDestructs(s', l.t)
    ensures Lower(s', s)
  {
    StepFramed(s, l, s');
    CallsFall(s, l, s');
    if DestructorLabel(l) {
      DestructorByLabel(s, l, s');
      DestructorStepFalls(s, l, s');
      DestructorsFall(s, l, s');
    } else if HandlerLabel(l) {
      HandlerLabelFalls(s, l, s');
      HandlerKeepsThreads(s, l, s');
      HandlersFall(s, l, s');
    }
  }

  /** Step `i` of the sequence is an action that is no new connection, call or notification. */
  ghost predicate WorksOn(run: nat -> State, labels: nat -> Label, i: nat) {
    Step(run(i), labels(i), run(i + 1)) && Work(labels(i)) && NoSelfDestruct(run(i + 1))
  }

  /** From a reachable state on, no sequence of states goes on working for ever. */
  lemma {:induction false} WorkEnds(run: nat -> State, labels: nat -> Label, i: nat)
    requires Inv(run(i))
    ensures exists j :: i <= j && !WorksOn(run, labels, j)
    decreases CallSum(run(i)), DestructorSum(run(i)), HandlerSum(run(i))
  {
    if WorksOn(run, labels, i) {
      assert !SelfDestructs(run(i + 1), labels(i).t);
      StepKeeps(run(i), labels(i), run(i + 1));
      WorkLowers(run(i), labels(i), run(i + 1));
      WorkEnds(run, labels, i + 1);
    }
  }

  /** The run goes on from `s` by work alone. */
  ghost predicate WorkFrom(s: State, run: seq<State>, labels: seq<Label>) {
    && |run| == |labels| + 1 && run[0] == s
    && (forall i {:trigger StepAt(run, labels, i)} :: 0 <= i < |labels| ==> StepAt(run, labels, i) && Work(labels[i]))
  }

  lemma BusyWorks(s: State, l: Label)
    requires Fits(s, l) && Busy(s, l.t)
    ensures Work(l)
  {
  }

  lemma WorkFromOn(s: State, l: Label, s': State, run: seq<State>, labels: seq<Label>)
    requires Step(s, l, s') && Work(l) && WorkFrom(s', run, labels)
    ensures WorkFrom(s, [s] + run, [l] + labels)
  {
    var run', labels' := [s] + run, [l] + labels;
    forall i: nat | i < |labels'| ensures StepAt(run', labels', i) && Work(labels'[i]) {
      if i > 0 { assert StepAt(run, labels, i - 1); }
    }
  }

  ghost predicate Settled(s: State) {
    (forall t :: !Busy(s, t)) || exists t :: SelfDestructs(s, t)
  }

  /** Working on from `s` can lead to a settled state. */
  ghost predicate Settles(s: State) {
    exists run, labels :: WorkFrom(s, run, labels) && Settled(run[|labels|])
  }

  lemma SettledSettles(s: State)
    requires Settled(s)
    ensures Settles(s)
  {
    var run: seq<State>, labels: seq<Label> := [s], [];
    assert WorkFrom(s, run, labels) && Settled(run[|labels|]);
  }

  lemma SettlesBefore(s: State, l: Label, s': State)
    requires Step(s, l, s') && Work(l) && Settles(s')
    ensures Settles(s)
  {
    var run, labels :| WorkFrom(s', run, labels) && Settled(run[|labels|]);
    WorkFromOn(s, l, s', run, labels);
    assert ([s] + run)[|[l] + labels|] == run[|labels|];
  }

  /** A state that is not at rest has a next one, which has a lower rank or is the bad one. */
  lemma NextWork(s: State, t: Tid) returns (s': State)
    requires Inv(s) && NoSelfDestruct(s) && Busy(s, t)
    ensures Inv(s') && (Settles(s') ==> Settles(s)) && (Settled(s') || Lower(s', s))
  {
    var u := SomeEnabled(s, t);
    var l: Label;
    l, s' :| l.t == u && Step(s, l, s');
    StepFits(s, l, s');
    BusyWorks(s, l);
    StepKeeps(s, l, s');
    if Settles(s') { SettlesBefore(s, l, s'); }
    if !SelfDestructs(s', u) { WorkLowers(s, l, s'); }
  }

  /** From every state that satisfies the invariant, working on leads to a state in which every thread is
      at rest, or to one in which a thread destroys a session below the handler. */
  lemma {:induction false} WorkSettles(s: State)
    requires Inv(s)
    ensures Settles(s)
    decreases CallSum(s), DestructorSum(s), HandlerSum(s)
  {
    if Settled(s) {
      SettledSettles(s);
    } else {
      var t :| Busy(s, t);
      var s' := NextWork(s, t);
      if Settled(s') { SettledSettles(s'); } else { WorkSettles(s'); }
    }
  }

  /** So it does from every state of every run. */
  lemma ComesToRest(run: seq<State>, labels: seq<Label>, i: nat)
    requires Behaviour(run, labels) && i < |run|
    ensures Settles(run[i])
  {
    Reachable(run, labels, i);
    WorkSettles(run[i]);
  }
}
