/**
 What no action undoes: threads that do not act stay where they are, sessions keep their address and
 never come back to life, and the histories only grow. Also, for each label, where the acting thread is
 before the action (`Fits`) and after it (`Lands`). The lemmas take one action each; those that follow
 them take the groups of actions, and then every step. None of them needs the invariant, except that a
 session whose count is positive is alive. What is said about a step here is what the proofs
 about runs use, so that these do not have to look into the actions themselves.
 */
module ClientFrame {
  import opened ClientModel

  /** Thread `u` is not the one that acts, and not a notification thread ended by a free. */
  predicate Bystander(s: State, l: Label, u: Tid) {
    u in s.threads && u != l.t && !(l.Free? && s.threads[u].Idle?)
  }

  /** A session keeps its address, its fulfilled promises and its end, and its callbacks once erased. */
  predicate SessionGrows(x: Session, x': Session) {
    && x'.handle == x.handle && x.fulfilled <= x'.fulfilled
    && (x.life.Freed? ==> x'.life.Freed?) && (x'.life.Alive? ==> x.life.Alive?)
    && (Registering(x'.life) ==> Registering(x.life))
  }

  /** What a step leaves alone, whatever the state it starts from. */
  ghost predicate ThreadsFramed(s: State, l: Label, s': State) {
    && (forall u :: Bystander(s, l, u) ==> u in s'.threads && s'.threads[u] == s.threads[u])
    && (forall u :: u in s.threads && s.threads[u].Finished? ==> u in s'.threads && s'.threads[u].Finished?)
    && (forall u :: u in s'.threads && u !in s.threads ==> u == l.t || (l.SubDispatch? && s'.threads[u].Idle?))
    && (forall u :: u in s.threads && u != l.t ==>
          u in s'.threads && (s'.threads[u] == s.threads[u] || s'.threads[u] == Finished))
    && l.t in s'.threads && Fits(s, l) && Lands(s, l, s'.threads[l.t])
  }

  /** Where the acting thread is when it takes this action. */
  predicate Fits(s: State, l: Label) {
    if l.Connect? || l.CallDisconnect? || l.CallRpc? || l.CallSubscribe? then l.t !in s.threads
    else l.t in s.threads && match l
      case AddSession(t) => s.threads[t].Adding?
      case ConnectReturn(t) => s.threads[t].Added?
      case RemoveSession(t) => s.threads[t].Removing?
      case DisconnectReturn(t) => s.threads[t].Removed?
      case RpcEnter(t) => s.threads[t].RpcStart?
      case RpcReturn(t) => s.threads[t].RpcBusy?
      case SubEnter(t) => s.threads[t].SubStart?
      case SubLock(t) => s.threads[t].SubFound?
      case SubAdd(t) => s.threads[t].SubLocked?
      case SubDispatch(t, _, _) => s.threads[t].SubAdded?
      case SubPromise(t) => s.threads[t].SubRunning?
      case SubLeave(t) => s.threads[t].SubDone?
      case StreamReturn(t) => s.threads[t].StreamWaiting?
      case Notify(t, _) => s.threads[t].Idle?
      case HandlerEnter(t) => s.threads[t].Notified?
      case CallNext(t) => s.threads[t].Handling?
      case CallEnd(t) => s.threads[t].Calling?
      case WeakLock(t) => s.threads[t].Calling?
      case ResetEnd(t) => s.threads[t].Resetting?
      case HandlerLeave(t) => s.threads[t].Handling?
      case DispatchExit(t) => s.threads[t].Idle?
      case _ => s.threads[l.t].Destroying?
  }

  /** Where the acting thread is afterwards. */
  predicate Lands(s: State, l: Label, pc: Pc)
    requires Fits(s, l)
  {
    match l
    case Connect(_, o, _) => pc == Adding(o)
    case AddSession(t) => pc == Added(s.threads[t].o, s.counter)
    case ConnectReturn(t) => pc.Finished? || pc == Destroying(s.threads[t].o, EndCall)
    case CallDisconnect(_, id) => pc == Removing(id)
    case RemoveSession(t) => var id := s.threads[t].id; pc == if id in s.table then Removed(s.table[id]) else Finished
    case DisconnectReturn(t) => pc.Finished? || pc == Destroying(s.threads[t].o, EndCall)
    case CallRpc(_, id) => pc == RpcStart(id)
    case RpcEnter(t) => var id := s.threads[t].id; pc == if id in s.table then RpcBusy(id, s.table[id]) else Finished
    case RpcReturn(_) => pc.Finished?
    case CallSubscribe(_, id, stream) => pc == SubStart(id, stream)
    case SubEnter(t) =>
      var SubStart(id, stream) := s.threads[t];
      pc == if id in s.table then SubFound(id, s.table[id], stream) else Finished
    case SubLock(t) => var SubFound(id, o, stream) := s.threads[t]; pc == SubLocked(id, o, stream)
    case SubAdd(t) => var SubLocked(id, o, stream) := s.threads[t]; pc == SubAdded(id, o, stream)
    case SubDispatch(t, _, _) => var SubAdded(id, o, stream) := s.threads[t]; pc == SubRunning(id, o, stream)
    case SubPromise(t) =>
      var SubRunning(id, o, stream) := s.threads[t];
      o in s.sessions && pc == SubDone(id, o, stream, s.sessions[o].promises)
    case SubLeave(t) =>
      var SubDone(_, o, stream, p) := s.threads[t];
      pc == if stream then StreamWaiting(o, p) else Finished
    case StreamReturn(_) => pc.Finished?
    case Notify(_, _) => pc.Notified?
    case HandlerEnter(_) => pc.Handling?
    case CallNext(_) => pc.Calling?
    case CallEnd(_) => pc.Handling?
    case WeakLock(t) => pc.Resetting? && s.threads[t].cb == Supervision(pc.target)
    case ResetEnd(t) => pc.Handling? || pc == Destroying(s.threads[t].target, BackToHandler(s.threads[t].frame))
    case HandlerLeave(_) => pc.Idle?
    case DispatchExit(_) => pc.Finished?
    case Free(t) => if s.threads[t].ret.EndCall? then pc.Finished? else pc.Handling?
    case _ => pc == s.threads[l.t]
  }

  ghost predicate SessionsFramed(s: State, s': State) {
    forall o :: o in s.sessions && (s.sessions[o].refs > 0 ==> s.sessions[o].life.Alive?) ==>
                  o in s'.sessions && SessionGrows(s.sessions[o], s'.sessions[o])
  }

  /** The thread pushes its promise for session `o`. */
  predicate Promises(s: State, l: Label, o: SessionRef) {
    l.SubPromise? && l.t in s.threads && s.threads[l.t].SubRunning? && s.threads[l.t].o == o
  }

  /** Sessions, promises and the end of a session come from one place only. */
  ghost predicate SourcesFramed(s: State, l: Label, s': State) {
    && (forall o :: o in s.sessions ==>
          o in s'.sessions && (Promises(s, l, o) || s'.sessions[o].promises == s.sessions[o].promises))
    && (forall o :: o in s'.sessions && o !in s.sessions ==> l.Connect? && l.o == o)
    && (DestructorLabel(l) ||
          forall o :: o in s.sessions && o in s'.sessions ==> NoFurther(s.sessions[o], s'.sessions[o]))
  }

  predicate DestructorLabel(l: Label) {
    l.EraseCallbacks? || l.PromisesLock? || l.PromiseFulfil? || l.PromisesUnlock? || l.SendClose? || l.Free?
  }

  /** At most the destructor begins. */
  predicate NoFurther(x: Session, x': Session) {
    x'.life == x.life || (x'.life.Dying? && x'.life.stage.Erase?)
  }

  ghost predicate TablesFramed(s: State, l: Label, s': State) {
    && s.issued <= s'.issued && s.closed <= s'.closed && s.log <= s'.log
    && (!l.AddSession? && !l.RemoveSession? ==>
          s'.table == s.table && s'.counter == s.counter && s'.issued == s.issued && s'.closed == s.closed)
    && (!l.AddSession? ==> s'.issued == s.issued)
    && (forall a :: a in s.live && a in s'.live ==> s'.live[a] == s.live[a])
    && (!l.SubAdd? && !l.EraseCallbacks? ==> s'.callbacks == s.callbacks)
  }

  ghost predicate Framed(s: State, l: Label, s': State) {
    ThreadsFramed(s, l, s') && SessionsFramed(s, s') && TablesFramed(s, l, s') && SourcesFramed(s, l, s')
  }

  // ---- One action at a time -----------------------------------------------------------------------

  /** A thread that is not finished and runs no destructor moves. */
  lemma MovedThread(s: State, l: Label, s': State, pc: Pc)
    requires l.t in s.threads && !s.threads[l.t].Finished? && !s.threads[l.t].Destroying?
    requires s'.threads == s.threads[l.t := pc] && Fits(s, l) && Lands(s, l, pc)
    ensures ThreadsFramed(s, l, s')
  {
  }

  /** The tables and histories are left alone. */
  predicate SameTables(s: State, s': State) {
    && s'.table == s.table && s'.counter == s.counter && s'.callbacks == s.callbacks
    && s'.issued == s.issued && s'.closed == s.closed && s'.log == s.log && s'.live == s.live
  }

  lemma SameTablesFramed(s: State, l: Label, s': State)
    requires SameTables(s, s')
    ensures TablesFramed(s, l, s')
  {
  }

  lemma SameSessionsFramed(s: State, l: Label, s': State)
    requires s'.sessions == s.sessions
    ensures SessionsFramed(s, s') && SourcesFramed(s, l, s')
  {
  }

  lemma ReleaseTables(s: State, t: Tid, o: SessionRef, ret: Return)
    requires Counted(s, o)
    ensures SameTables(s, Release(s, t, o, ret))
    ensures Release(s, t, o, ret).threads == s.threads[t := Release(s, t, o, ret).threads[t]]
  {
  }

  lemma ReleaseSessions(s: State, t: Tid, o: SessionRef, ret: Return)
    requires Counted(s, o)
    ensures SessionsFramed(s, Release(s, t, o, ret))
  {
  }

  lemma OneSession(s: State, l: Label, s': State, o: SessionRef, x: Session)
    requires o in s.sessions && s'.sessions == s.sessions[o := x]
    requires x.promises == s.sessions[o].promises && NoFurther(s.sessions[o], x)
    ensures SourcesFramed(s, l, s')
  {
  }

  lemma ReleasedSession(s: State, t: Tid, o: SessionRef, ret: Return) returns (x: Session)
    requires Counted(s, o)
    ensures Release(s, t, o, ret).sessions == s.sessions[o := x]
    ensures x.promises == s.sessions[o].promises && NoFurther(s.sessions[o], x)
  {
    x := Release(s, t, o, ret).sessions[o];
  }

  lemma ReleaseSources(s: State, l: Label, o: SessionRef, ret: Return)
    requires Counted(s, o)
    ensures SourcesFramed(s, l, Release(s, l.t, o, ret))
  {
    var x := ReleasedSession(s, l.t, o, ret);
    OneSession(s, l, Release(s, l.t, o, ret), o, x);
  }

  lemma ReleaseFramed(s: State, l: Label, o: SessionRef, ret: Return)
    requires Counted(s, o) && l.t in s.threads && !s.threads[l.t].Finished? && !s.threads[l.t].Destroying? && Fits(s, l)
    requires !l.AddSession? && !l.SubAdd? && !l.EraseCallbacks?
    requires Lands(s, l, Release(s, l.t, o, ret).threads[l.t])
    ensures Framed(s, l, Release(s, l.t, o, ret))
  {
    var s' := Release(s, l.t, o, ret);
    ReleaseSessions(s, l.t, o, ret);
    ReleaseSources(s, l, o, ret);
    ReleaseTables(s, l.t, o, ret);
    SameTablesFramed(s, l, s');
    MovedThread(s, l, s', s'.threads[l.t]);
  }

  lemma ConnectFramed(s: State, t: Tid, o: SessionRef, a: Addr)
    requires CanConnect(s, t, o, a)
    ensures Framed(s, Connect(t, o, a), DoConnect(s, t, o, a))
  {
  }

  lemma AddSessionFramed(s: State, t: Tid)
    requires CanAddSession(s, t)
    ensures Framed(s, AddSession(t), DoAddSession(s, t))
  {
  }

  lemma ConnectReturnFramed(s: State, t: Tid)
    requires CanConnectReturn(s, t)
    ensures Framed(s, ConnectReturn(t), DoConnectReturn(s, t))
  {
    ReleaseFramed(s, ConnectReturn(t), s.threads[t].o, EndCall);
  }

  lemma CallDisconnectFramed(s: State, t: Tid, id: nat)
    requires CanCallDisconnect(s, t, id)
    ensures Framed(s, CallDisconnect(t, id), DoCallDisconnect(s, t, id))
  {
  }

  lemma RemoveSessionFramed(s: State, t: Tid)
    requires CanRemoveSession(s, t)
    ensures Framed(s, RemoveSession(t), DoRemoveSession(s, t))
  {
    var s' := DoRemoveSession(s, t);
    MovedThread(s, RemoveSession(t), s', s'.threads[t]);
    SameSessionsFramed(s, RemoveSession(t), s');
  }

  lemma DisconnectReturnFramed(s: State, t: Tid)
    requires CanDisconnectReturn(s, t)
    ensures Framed(s, DisconnectReturn(t), DoDisconnectReturn(s, t))
  {
    ReleaseFramed(s, DisconnectReturn(t), s.threads[t].o, EndCall);
  }

  lemma CallRpcFramed(s: State, t: Tid, id: nat)
    requires CanCallRpc(s, t, id)
    ensures Framed(s, CallRpc(t, id), DoCallRpc(s, t, id))
  {
  }

  lemma RpcEnterFramed(s: State, t: Tid)
    requires CanRpcEnter(s, t)
    ensures Framed(s, RpcEnter(t), DoRpcEnter(s, t))
  {
    var s' := DoRpcEnter(s, t);
    MovedThread(s, RpcEnter(t), s', s'.threads[t]);
    SameSessionsFramed(s, RpcEnter(t), s');
    SameTablesFramed(s, RpcEnter(t), s');
  }

  lemma RpcReturnFramed(s: State, t: Tid)
    requires CanRpcReturn(s, t)
    ensures Framed(s, RpcReturn(t), DoRpcReturn(s, t))
  {
  }

  lemma CallSubscribeFramed(s: State, t: Tid, id: nat, stream: bool)
    requires CanCallSubscribe(s, t, id, stream)
    ensures Framed(s, CallSubscribe(t, id, stream), DoCallSubscribe(s, t, id, stream))
  {
  }

  lemma SubEnterFramed(s: State, t: Tid)
    requires CanSubEnter(s, t)
    ensures Framed(s, SubEnter(t), DoSubEnter(s, t))
  {
    var s' := DoSubEnter(s, t);
    MovedThread(s, SubEnter(t), s', s'.threads[t]);
    SameSessionsFramed(s, SubEnter(t), s');
    SameTablesFramed(s, SubEnter(t), s');
  }

  lemma SubLockFramed(s: State, t: Tid)
    requires CanSubLock(s, t)
    ensures Framed(s, SubLock(t), DoSubLock(s, t))
  {
  }

  lemma SubAddFramed(s: State, t: Tid)
    requires CanSubAdd(s, t)
    ensures Framed(s, SubAdd(t), DoSubAdd(s, t))
  {
  }

  lemma SubDispatchFramed(s: State, t: Tid, d: Tid, ok: bool)
    requires CanSubDispatch(s, t, d, ok)
    ensures Framed(s, SubDispatch(t, d, ok), DoSubDispatch(s, t, d, ok))
  {
  }

  lemma SubPromiseFramed(s: State, t: Tid)
    requires CanSubPromise(s, t)
    ensures Framed(s, SubPromise(t), DoSubPromise(s, t))
  {
  }

  lemma SubLeaveFramed(s: State, t: Tid)
    requires CanSubLeave(s, t)
    ensures Framed(s, SubLeave(t), DoSubLeave(s, t))
  {
  }

  lemma StreamReturnFramed(s: State, t: Tid)
    requires CanStreamReturn(s, t)
    ensures Framed(s, StreamReturn(t), DoStreamReturn(s, t))
  {
  }

  lemma NotifyFramed(s: State, t: Tid, note: nat)
    requires CanNotify(s, t, note)
    ensures Framed(s, Notify(t, note), DoNotify(s, t, note))
  {
  }

  lemma HandlerEnterFramed(s: State, t: Tid)
    requires CanHandlerEnter(s, t)
    ensures Framed(s, HandlerEnter(t), DoHandlerEnter(s, t))
  {
  }

  lemma CallNextFramed(s: State, t: Tid)
    requires CanCallNext(s, t)
    ensures Framed(s, CallNext(t), DoCallNext(s, t))
  {
  }

  lemma CallEndFramed(s: State, t: Tid)
    requires CanCallEnd(s, t)
    ensures Framed(s, CallEnd(t), DoCallEnd(s, t))
  {
  }

  lemma WeakLockFramed(s: State, t: Tid)
    requires CanWeakLock(s, t)
    ensures Framed(s, WeakLock(t), DoWeakLock(s, t))
  {
  }

  lemma ResetEndFramed(s: State, t: Tid)
    requires CanResetEnd(s, t)
    ensures Framed(s, ResetEnd(t), DoResetEnd(s, t))
  {
    ReleaseFramed(s, ResetEnd(t), s.threads[t].target, BackToHandler(s.threads[t].frame));
  }

  lemma HandlerLeaveFramed(s: State, t: Tid)
    requires CanHandlerLeave(s, t)
    ensures Framed(s, HandlerLeave(t), DoHandlerLeave(s, t))
  {
  }

  lemma DispatchExitFramed(s: State, t: Tid)
    requires CanDispatchExit(s, t)
    ensures Framed(s, DispatchExit(t), DoDispatchExit(s, t))
  {
  }

  lemma EraseCallbacksFramed(s: State, t: Tid)
    requires CanEraseCallbacks(s, t)
    ensures Framed(s, EraseCallbacks(t), DoEraseCallbacks(s, t))
  {
  }

  lemma PromisesLockFramed(s: State, t: Tid)
    requires CanPromisesLock(s, t)
    ensures Framed(s, PromisesLock(t), DoPromisesLock(s, t))
  {
  }

  lemma PromiseFulfilFramed(s: State, t: Tid)
    requires CanPromiseFulfil(s, t)
    ensures Framed(s, PromiseFulfil(t), DoPromiseFulfil(s, t))
  {
  }

  lemma PromisesUnlockFramed(s: State, t: Tid)
    requires CanPromisesUnlock(s, t)
    ensures Framed(s, PromisesUnlock(t), DoPromisesUnlock(s, t))
  {
  }

  lemma SendCloseFramed(s: State, t: Tid)
    requires CanSendClose(s, t)
    ensures Framed(s, SendClose(t), DoSendClose(s, t))
  {
  }

  lemma FreeFramed(s: State, t: Tid)
    requires CanFree(s, t)
    ensures Framed(s, Free(t), DoFree(s, t))
  {
  }

  // ---- Every action -------------------------------------------------------------------------------

  lemma CallStepFramed(s: State, l: Label, s': State)
    requires CallStep(s, l, s')
    ensures Framed(s, l, s')
  {
    match l
    case CallDisconnect(t, id) => CallDisconnectFramed(s, t, id);
    case CallRpc(t, id) => CallRpcFramed(s, t, id);
    case CallSubscribe(t, id, stream) => CallSubscribeFramed(s, t, id, stream);
  }

  lemma ReleaseStepFramed(s: State, l: Label, s': State)
    requires ReleaseStep(s, l, s')
    ensures Framed(s, l, s')
  {
    match l
    case ConnectReturn(t) => ConnectReturnFramed(s, t);
    case DisconnectReturn(t) => DisconnectReturnFramed(s, t);
    case ResetEnd(t) => ResetEndFramed(s, t);
  }

  lemma TableReadFramed(s: State, l: Label, s': State)
    requires TableStep(s, l, s') && (l.RpcEnter? || l.RpcReturn? || l.StreamReturn?)
    ensures Framed(s, l, s')
  {
    match l
    case RpcEnter(t) => RpcEnterFramed(s, t);
    case RpcReturn(t) => RpcReturnFramed(s, t);
    case StreamReturn(t) => StreamReturnFramed(s, t);
  }

  lemma TableStepFramed(s: State, l: Label, s': State)
    requires TableStep(s, l, s')
    ensures Framed(s, l, s')
  {
    match l
    case Connect(t, o, a) => ConnectFramed(s, t, o, a);
    case AddSession(t) => AddSessionFramed(s, t);
    case RemoveSession(t) => RemoveSessionFramed(s, t);
    case _ => TableReadFramed(s, l, s');
  }

  lemma SubscribeStepFramed(s: State, l: Label, s': State)
    requires SubscribeStep(s, l, s')
    ensures Framed(s, l, s')
  {
    match l
    case SubEnter(t) => SubEnterFramed(s, t);
    case SubLock(t) => SubLockFramed(s, t);
    case SubAdd(t) => SubAddFramed(s, t);
    case SubDispatch(t, d, ok) => SubDispatchFramed(s, t, d, ok);
    case SubPromise(t) => SubPromiseFramed(s, t);
    case SubLeave(t) => SubLeaveFramed(s, t);
  }

  lemma HandlerStepFramed(s: State, l: Label, s': State)
    requires HandlerStep(s, l, s')
    ensures Framed(s, l, s')
  {
    match l
    case Notify(t, note) => NotifyFramed(s, t, note);
    case HandlerEnter(t) => HandlerEnterFramed(s, t);
    case CallNext(t) => CallNextFramed(s, t);
    case CallEnd(t) => CallEndFramed(s, t);
    case WeakLock(t) => WeakLockFramed(s, t);
    case HandlerLeave(t) => HandlerLeaveFramed(s, t);
    case DispatchExit(t) => DispatchExitFramed(s, t);
  }

  lemma DestructorStepFramed(s: State, l: Label, s': State)
    requires DestructorStep(s, l, s')
    ensures Framed(s, l, s')
  {
    match l
    case EraseCallbacks(t) => EraseCallbacksFramed(s, t);
    case PromisesLock(t) => PromisesLockFramed(s, t);
    case PromiseFulfil(t) => PromiseFulfilFramed(s, t);
    case PromisesUnlock(t) => PromisesUnlockFramed(s, t);
    case SendClose(t) => SendCloseFramed(s, t);
    case Free(t) => FreeFramed(s, t);
  }

  lemma StepFramed(s: State, l: Label, s': State)
    requires Step(s, l, s')
    ensures Framed(s, l, s')
  {
    if CallStep(s, l, s') {
      CallStepFramed(s, l, s');
    } else if ReleaseStep(s, l, s') {
      ReleaseStepFramed(s, l, s');
    } else if TableStep(s, l, s') {
      TableStepFramed(s, l, s');
    } else if SubscribeStep(s, l, s') {
      SubscribeStepFramed(s, l, s');
    } else if HandlerStep(s, l, s') {
      HandlerStepFramed(s, l, s');
    } else {
      DestructorStepFramed(s, l, s');
    }
  }

  // ---- From the label to the action ---------------------------------------------------------------

  lemma StepFits(s: State, l: Label, s': State)
    requires Step(s, l, s')
    ensures Fits(s, l) && l.t in s'.threads && Lands(s, l, s'.threads[l.t])
  {
    StepFramed(s, l, s');
  }

  /** A thread that does not act stays where it is, is a notification thread that a free ended, or is
      one that was just started. */
  lemma OtherThreads(s: State, l: Label, s': State, u: Tid)
    requires Step(s, l, s') && u in s'.threads && u != l.t
    ensures if u in s.threads then s'.threads[u] == s.threads[u] || s'.threads[u] == Finished else s'.threads[u].Idle?
  {
    StepFramed(s, l, s');
  }

  lemma ThreadStays(s: State, l: Label, s': State, u: Tid)
    requires Step(s, l, s') && u in s.threads && u != l.t && !s.threads[u].Idle?
    ensures u in s'.threads && s'.threads[u] == s.threads[u]
  {
    StepFramed(s, l, s');
    assert Bystander(s, l, u);
  }

  lemma DestructorByLabel(s: State, l: Label, s': State)
    requires Step(s, l, s') && DestructorLabel(l)
    ensures DestructorStep(s, l, s')
  {
    assert !TableStep(s, l, s') && !SubscribeStep(s, l, s') && !HandlerStep(s, l, s');
  }

  lemma HandlerByLabel(s: State, l: Label, s': State)
    requires Step(s, l, s') && (l.CallNext? || l.CallEnd? || l.WeakLock? || l.HandlerLeave?)
    ensures HandlerStep(s, l, s')
  {
  }

  lemma ReleaseByLabel(s: State, l: Label, s': State)
    requires Step(s, l, s') && (l.ConnectReturn? || l.DisconnectReturn? || l.ResetEnd?)
    ensures ReleaseStep(s, l, s')
  {
  }
}
