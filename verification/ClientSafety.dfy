/**
 What the invariant buys: statements about every run of the client.
 */
module ClientSafety {
  import opened Wrappers
  import opened ClientModel
  import opened ClientInvariant
  import opened ClientFrame
  import opened ClientRuns

  // ---- Callbacks and the writer they capture --------------------------------------------------------

  /** Thread `d` is inside a callback that was registered for session `o`. */
  predicate InCallback(pc: Pc, o: SessionRef) {
    || ((pc.Calling? || pc.Resetting?) && pc.frame.session == o)
    || (pc.Destroying? && pc.ret.BackToHandler? && pc.ret.frame.session == o)
  }

  lemma RunningCallbackIsRegistered(s: State, d: Tid, o: SessionRef)
    requires Inv(s) && d in s.threads && InCallback(s.threads[d], o)
    ensures o in s.sessions && Registering(s.sessions[o].life) && s.sessions[o].fulfilled == 0
  {
    assert ThreadOk(s, d);
    assert AddressOk(s, s.sessions[o].handle) && SessionOk(s, o);
  }

  /** Once any done-promise of a session is fulfilled, no callback of that session runs, then or later. */
  lemma FulfilledMeansQuiet(run: seq<State>, labels: seq<Label>, i: nat, j: nat, o: SessionRef, d: Tid)
    requires Behaviour(run, labels) && i <= j < |run|
    requires o in run[i].sessions && run[i].sessions[o].fulfilled > 0
    requires d in run[j].threads
    ensures !InCallback(run[j].threads[d], o)
  {
    RunGrows(run, labels, i, j);
    Reachable(run, labels, j);
    if InCallback(run[j].threads[d], o) {
      RunningCallbackIsRegistered(run[j], d, o);
    }
  }

  /** While a stream callback runs, the call whose frame holds its `writer` has not returned. */
  lemma WriterInScope(run: seq<State>, labels: seq<Label>, i: nat, d: Tid)
    requires Behaviour(run, labels) && i < |run|
    requires d in run[i].threads && run[i].threads[d].Calling? && run[i].threads[d].cb.Stream?
    ensures var t := run[i].threads[d].cb.call;
            && t in run[i].threads && Streaming(run[i].threads[t])
            && run[i].threads[t].o == run[i].threads[d].frame.session
  {
    var s := run[i];
    Reachable(run, labels, i);
    assert ThreadOk(s, d);
    var f := s.threads[d].frame;
    var a := s.sessions[f.session].handle;
    assert SessionOk(s, f.session) && AddressOk(s, a) && CallbackOk(s, a, f.pos);
  }

  /** A call that has returned never has its `writer` used again. */
  lemma WriterNeverUsedAfterReturn(run: seq<State>, labels: seq<Label>, i: nat, j: nat, t: Tid, d: Tid)
    requires Behaviour(run, labels) && i <= j < |run|
    requires t in run[i].threads && run[i].threads[t].Finished?
    requires d in run[j].threads && run[j].threads[d].Calling?
    ensures run[j].threads[d].cb != Stream(t)
  {
    RunGrows(run, labels, i, j);
    if run[j].threads[d].cb == Stream(t) {
      WriterInScope(run, labels, j, d);
    }
  }

  // ---- Handles ---------------------------------------------------------------------------------------

  /** Whoever passes an `nc_session` to libnetconf2 is protected: by the shared table lock with the
      session's entry present, by a strong reference of its own, or by being its destructor. */
  ghost predicate Protected(s: State, t: Tid, o: SessionRef)
    requires t in s.threads
  {
    || (t in s.tableReaders && exists id :: AtTable(s, id, o))
    || HeldRef(s.threads[t]) == Some(o)
    || (o in s.sessions && s.sessions[o].life.Dying? && s.sessions[o].life.thread == t)
  }

  /** No freed `nc_session` is used, and none that has been handed out again to another session. */
  lemma NoUseAfterFree(run: seq<State>, labels: seq<Label>, i: nat, t: Tid, o: SessionRef)
    requires Behaviour(run, labels) && i < |run| && t in run[i].threads && Uses(run[i].threads[t]) == Some(o)
    ensures Protected(run[i], t, o)
    ensures o in run[i].sessions && !run[i].sessions[o].life.Freed?
    ensures run[i].sessions[o].handle in run[i].live && run[i].live[run[i].sessions[o].handle] == o
  {
    var s := run[i];
    Reachable(run, labels, i);
    assert ThreadOk(s, t);
    assert HoldsTable(s.threads[t]) ==> t in s.tableReaders && AtTable(s, s.threads[t].id, o);
    if HoldsTable(s.threads[t]) { InTableAlive(s, s.threads[t].id); }
    if HeldRef(s.threads[t]).Some? { HeldAlive(s, t, o); }
    assert SessionOk(s, o);
  }

  /** A session at a recycled address starts with no callbacks and no notification thread. */
  lemma RecycledAddressIsClean(run: seq<State>, labels: seq<Label>, i: nat)
    requires Behaviour(run, labels) && i < |labels| && labels[i].Connect?
    ensures Registered(run[i + 1].callbacks, labels[i].a) == [] && labels[i].a !in run[i + 1].dispatch
  {
    Reachable(run, labels, i);
    assert StepAt(run, labels, i) && AddressOk(run[i], labels[i].a);
  }

  /** The reference count of every session is the number of references there are, and a session whose
      count is positive has not begun to die. */
  lemma CountIsExact(run: seq<State>, labels: seq<Label>, i: nat, o: SessionRef)
    requires Behaviour(run, labels) && i < |run| && o in run[i].sessions
    ensures run[i].sessions[o].refs == |Entries(run[i].table, o)| + |Locals(run[i].threads, o)|
    ensures run[i].sessions[o].refs > 0 <==> run[i].sessions[o].life.Alive?
  {
    Reachable(run, labels, i);
    assert CountOk(run[i], o);
  }

  // ---- Notifications ---------------------------------------------------------------------------------

  /** A session has at most one notification thread; if none has ended, at most one was ever started. */
  lemma OneNotificationThread(run: seq<State>, labels: seq<Label>, i: nat, d: Tid, e: Tid, o: SessionRef)
    requires Behaviour(run, labels) && i < |run| && d in run[i].threads && e in run[i].threads
    requires DispatchOf(run[i].threads[d]) == DispatchOf(run[i].threads[e]) == Some(o)
    ensures d == e
    ensures o in run[i].sessions && run[i].sessions[o].starts == run[i].sessions[o].exits + 1
  {
    Reachable(run, labels, i);
    assert ThreadOk(run[i], d) && ThreadOk(run[i], e) && SessionOk(run[i], o);
  }

  lemma StartsBounded(run: seq<State>, labels: seq<Label>, i: nat, o: SessionRef)
    requires Behaviour(run, labels) && i < |run| && o in run[i].sessions && !run[i].sessions[o].life.Freed?
    ensures run[i].sessions[o].exits <= run[i].sessions[o].starts <= run[i].sessions[o].exits + 1
  {
    Reachable(run, labels, i);
    assert SessionOk(run[i], o);
  }

  /** While the mutex is free and the destructor has not started, there is a promise for each callback. */
  lemma PromisePerCallback(run: seq<State>, labels: seq<Label>, i: nat, o: SessionRef)
    requires Behaviour(run, labels) && i < |run| && o in run[i].sessions
    requires run[i].sessions[o].life.Alive? && run[i].sessions[o].mutex.None?
    ensures |Registered(run[i].callbacks, run[i].sessions[o].handle)| == run[i].sessions[o].promises
  {
    Reachable(run, labels, i);
    assert SessionOk(run[i], o);
  }

  function FrameOf(pc: Pc): Option<Frame> {
    match pc
    case Handling(f) => Some(f)
    case Calling(f, _) => Some(f)
    case Resetting(f, _) => Some(f)
    case Destroying(_, BackToHandler(f)) => Some(f)
    case _ => None
  }

  /** Thread `d` is inside an activation of the handler for session `o` whose list was `want`. */
  predicate Serving(s: State, d: Tid, o: SessionRef, note: nat, want: seq<Callback>) {
    && d in s.threads && FrameOf(s.threads[d]).Some?
    && var f := FrameOf(s.threads[d]).value;
       f.session == o && f.note == note && f.want == want
  }

  /** A destructor that runs below the handler does not get to its first statement. */
  lemma DestructorNotInHandler(s: State, l: Label, s': State)
    requires Inv(s) && DestructorStep(s, l, s')
    ensures s.threads[l.t].Destroying? && s.threads[l.t].ret.EndCall?
  {
    PastErase(s, l.t);
  }

  lemma CallNextServes(s: State, t: Tid, o: SessionRef, note: nat, want: seq<Callback>)
    requires CanCallNext(s, t) && Serving(s, t, o, note, want)
    ensures Serving(DoCallNext(s, t), t, o, note, want)
  {
  }

  lemma CallEndServes(s: State, t: Tid, o: SessionRef, note: nat, want: seq<Callback>)
    requires CanCallEnd(s, t) && Serving(s, t, o, note, want)
    ensures Serving(DoCallEnd(s, t), t, o, note, want)
  {
  }

  lemma WeakLockServes(s: State, t: Tid, o: SessionRef, note: nat, want: seq<Callback>)
    requires CanWeakLock(s, t) && Serving(s, t, o, note, want)
    ensures Serving(DoWeakLock(s, t), t, o, note, want)
  {
  }

  lemma ResetEndServes(s: State, t: Tid, o: SessionRef, note: nat, want: seq<Callback>)
    requires CanResetEnd(s, t) && Serving(s, t, o, note, want)
    ensures Serving(DoResetEnd(s, t), t, o, note, want)
  {
  }

  /** The steps a thread inside the handler can take itself. */
  lemma OwnHandlerStep(s: State, l: Label, s': State, o: SessionRef, note: nat, want: seq<Callback>)
    requires HandlerStep(s, l, s') && Serving(s, l.t, o, note, want) && !l.HandlerLeave?
    ensures Serving(s', l.t, o, note, want)
  {
    match l
    case CallNext(t) => CallNextServes(s, t, o, note, want);
    case CallEnd(t) => CallEndServes(s, t, o, note, want);
    case WeakLock(t) => WeakLockServes(s, t, o, note, want);
    case _ =>
  }

  lemma OwnReleaseStep(s: State, l: Label, s': State, o: SessionRef, note: nat, want: seq<Callback>)
    requires ReleaseStep(s, l, s') && Serving(s, l.t, o, note, want)
    ensures Serving(s', l.t, o, note, want)
  {
    match l
    case ResetEnd(t) => ResetEndServes(s, t, o, note, want);
    case _ =>
  }

  /** The actions of a thread inside the handler. */
  lemma ServingFits(s: State, l: Label)
    requires Fits(s, l) && l.t in s.threads && FrameOf(s.threads[l.t]).Some?
    ensures l.CallNext? || l.CallEnd? || l.WeakLock? || l.HandlerLeave? || l.ResetEnd? || DestructorLabel(l)
  {
  }

  lemma OwnServingStep(s: State, l: Label, s': State, o: SessionRef, note: nat, want: seq<Callback>)
    requires Inv(s) && Step(s, l, s') && Serving(s, l.t, o, note, want) && !l.HandlerLeave?
    ensures Serving(s', l.t, o, note, want)
  {
    StepFits(s, l, s');
    ServingFits(s, l);
    if l.ResetEnd? {
      ReleaseByLabel(s, l, s');
      OwnReleaseStep(s, l, s', o, note, want);
    } else if DestructorLabel(l) {
      DestructorByLabel(s, l, s');
      DestructorNotInHandler(s, l, s');
    } else {
      HandlerByLabel(s, l, s');
      OwnHandlerStep(s, l, s', o, note, want);
    }
  }

  lemma ServingStep(s: State, l: Label, s': State, d: Tid, o: SessionRef, note: nat, want: seq<Callback>)
    requires Inv(s) && Step(s, l, s') && Serving(s, d, o, note, want) && l != HandlerLeave(d)
    ensures Serving(s', d, o, note, want)
  {
    if l.t == d {
      OwnServingStep(s, l, s', o, note, want);
    } else {
      ThreadStays(s, l, s', d);
    }
  }

  lemma {:induction false} ServingRun(run: seq<State>, labels: seq<Label>, i: nat, j: nat, d: Tid, o: SessionRef,
                                      note: nat, want: seq<Callback>)
    requires Behaviour(run, labels) && i <= j < |run| && Serving(run[i], d, o, note, want)
    requires forall k :: i <= k < j ==> labels[k] != HandlerLeave(d)
    ensures Serving(run[j], d, o, note, want)
    decreases j - i
  {
    if i < j {
      Reachable(run, labels, i);
      assert StepAt(run, labels, i);
      ServingStep(run[i], labels[i], run[i + 1], d, o, note, want);
      ServingRun(run, labels, i + 1, j, d, o, note, want);
    }
  }

  lemma EnterAt(run: seq<State>, labels: seq<Label>, i: nat, d: Tid)
    requires Behaviour(run, labels) && i < |labels| && labels[i] == HandlerEnter(d)
    ensures CanHandlerEnter(run[i], d) && run[i + 1] == DoHandlerEnter(run[i], d)
  {
    assert StepAt(run, labels, i);
  }

  lemma LeaveAt(run: seq<State>, labels: seq<Label>, j: nat, d: Tid)
    requires Behaviour(run, labels) && j < |labels| && labels[j] == HandlerLeave(d)
    ensures CanHandlerLeave(run[j], d) && run[j + 1] == DoHandlerLeave(run[j], d)
  {
    assert StepAt(run, labels, j);
  }

  lemma LeavingLogs(s: State, d: Tid, o: SessionRef, note: nat, want: seq<Callback>)
    requires Inv(s) && CanHandlerLeave(s, d) && Serving(s, d, o, note, want)
    ensures DoHandlerLeave(s, d).log == s.log + [Delivery(o, note, want, want)]
  {
    assert ThreadOk(s, d);
    var f := s.threads[d].frame;
    assert f.pos == |f.want| && f.want[..|f.want|] == f.want;
  }

  /** Notification `note` of session `o`, whose handler entered at step `i` and left at step `j`, was given
      to exactly the callbacks registered for that session at step `i`, once each, in registration order. */
  lemma NotificationDelivered(run: seq<State>, labels: seq<Label>, i: nat, j: nat, d: Tid, o: SessionRef, note: nat)
    requires Behaviour(run, labels) && i < j < |labels|
    requires d in run[i].threads && run[i].threads[d] == Notified(o, note)
    requires labels[i] == HandlerEnter(d) && labels[j] == HandlerLeave(d)
    requires forall k :: i < k < j ==> labels[k] != HandlerLeave(d)
    ensures o in run[i].sessions
    ensures var want := Registered(run[i].callbacks, run[i].sessions[o].handle);
            run[j + 1].log == run[j].log + [Delivery(o, note, want, want)]
  {
    EnterAt(run, labels, i, d);
    LeaveAt(run, labels, j, d);
    var want := Registered(run[i].callbacks, run[i].sessions[o].handle);
    ServingRun(run, labels, i + 1, j, d, o, note, want);
    Reachable(run, labels, j);
    LeavingLogs(run[j], d, o, note, want);
  }
}
