/** What a call does for its caller, over whole runs. */
module ClientCalls {
  import opened Wrappers
  import opened ClientModel
  import opened ClientInvariant
  import opened ClientFrame
  import opened ClientRuns
  import opened ClientIds
  import opened ClientSafety
  import opened ClientProgress

  // ---- The callbacks of a session only grow, until they are erased ----------------------------------

  lemma AddAt(run: seq<State>, labels: seq<Label>, i: nat, t: Tid)
    requires Behaviour(run, labels) && i < |labels| && labels[i] == SubAdd(t)
    ensures CanSubAdd(run[i], t) && run[i + 1] == DoSubAdd(run[i], t)
  {
    assert StepAt(run, labels, i);
  }

  /** Two sessions that are not freed have different addresses. */
  lemma OwnAddress(s: State, o: SessionRef, p: SessionRef)
    requires Inv(s) && o in s.sessions && p in s.sessions && !s.sessions[o].life.Freed? && !s.sessions[p].life.Freed?
    requires s.sessions[o].handle == s.sessions[p].handle
    ensures o == p
  {
    assert SessionOk(s, o) && SessionOk(s, p);
  }

  lemma AddGrows(s: State, t: Tid, o: SessionRef)
    requires CanSubAdd(s, t) && o in s.sessions
    ensures CallbacksOf(s, o) <= CallbacksOf(DoSubAdd(s, t), o)
  {
  }

  lemma ErasesOthers(s: State, t: Tid, o: SessionRef)
    requires Inv(s) && CanEraseCallbacks(s, t) && o in s.sessions
    requires Registering(DoEraseCallbacks(s, t).sessions[o].life)
    ensures CallbacksOf(DoEraseCallbacks(s, t), o) == CallbacksOf(s, o)
  {
    var e := s.threads[t].o;
    if s.sessions[e].handle == s.sessions[o].handle { OwnAddress(s, o, e); }
  }

  lemma AddByLabel(s: State, l: Label, s': State)
    requires Step(s, l, s') && l.SubAdd?
    ensures CanSubAdd(s, l.t) && s' == DoSubAdd(s, l.t)
  {
  }

  lemma EraseByLabel(s: State, l: Label, s': State)
    requires Step(s, l, s') && l.EraseCallbacks?
    ensures CanEraseCallbacks(s, l.t) && s' == DoEraseCallbacks(s, l.t)
  {
  }

  lemma CallbacksGrow(s: State, l: Label, s': State, o: SessionRef)
    requires Inv(s) && Step(s, l, s') && o in s.sessions && o in s'.sessions && Registering(s'.sessions[o].life)
    ensures Registering(s.sessions[o].life) && s'.sessions[o].handle == s.sessions[o].handle
    ensures CallbacksOf(s, o) <= CallbacksOf(s', o)
    ensures l.SubAdd? || CallbacksOf(s, o) == CallbacksOf(s', o)
  {
    StepFramed(s, l, s');
    StepGrows(s, l, s');
    if l.SubAdd? {
      AddByLabel(s, l, s');
      AddGrows(s, l.t, o);
    } else if l.EraseCallbacks? {
      EraseByLabel(s, l, s');
      ErasesOthers(s, l.t, o);
    }
  }

  lemma {:induction false} RunCallbacksGrow(run: seq<State>, labels: seq<Label>, i: nat, j: nat, o: SessionRef)
    requires Behaviour(run, labels) && i <= j < |run| && o in run[i].sessions && o in run[j].sessions
    requires Registering(run[j].sessions[o].life)
    ensures Registering(run[i].sessions[o].life) && run[j].sessions[o].handle == run[i].sessions[o].handle
    ensures CallbacksOf(run[i], o) <= CallbacksOf(run[j], o)
    decreases j
  {
    if i < j {
      RunGrows(run, labels, i, j - 1);
      Reachable(run, labels, j - 1);
      assert StepAt(run, labels, j - 1);
      CallbacksGrow(run[j - 1], labels[j - 1], run[j], o);
      RunCallbacksGrow(run, labels, i, j - 1, o);
    }
  }

  // ---- A call after its registration ----------------------------------------------------------------

  /** The call has registered its callback; its promise is, or will be, number `p`. */
  predicate Subscribed(s: State, t: Tid, id: nat, o: SessionRef, stream: bool, p: nat) {
    && t in s.threads && o in s.sessions
    && match s.threads[t]
       case SubAdded(_, _, _) => s.threads[t] == SubAdded(id, o, stream) && p == s.sessions[o].promises
       case SubRunning(_, _, _) => s.threads[t] == SubRunning(id, o, stream) && p == s.sessions[o].promises
       case SubDone(_, _, _, _) => s.threads[t] == SubDone(id, o, stream, p)
       case StreamWaiting(_, _) => stream && s.threads[t] == StreamWaiting(o, p)
       case Finished => true
       case _ => false
  }

  lemma AddSubscribes(s: State, t: Tid)
    requires Inv(s) && CanSubAdd(s, t)
    ensures var SubLocked(id, o, stream) := s.threads[t];
      Subscribed(DoSubAdd(s, t), t, id, o, stream, |CallbacksOf(s, o)|)
    ensures |CallbacksOf(s, s.threads[t].o)| == s.sessions[s.threads[t].o].promises
    ensures IsAlive(s, s.threads[t].o)
  {
    assert ThreadOk(s, t);
    InTableAlive(s, s.threads[t].id);
    assert SessionOk(s, s.threads[t].o);
  }

  lemma LandsSubscribed(s: State, l: Label, s': State, id: nat, o: SessionRef, stream: bool, p: nat)
    requires Subscribed(s, l.t, id, o, stream, p) && Fits(s, l) && l.t in s'.threads && Lands(s, l, s'.threads[l.t])
    requires o in s'.sessions && (Promises(s, l, o) || s'.sessions[o].promises == s.sessions[o].promises)
    ensures Subscribed(s', l.t, id, o, stream, p)
  {
  }

  /** Only the owner of the mutex pushes a promise. */
  lemma OneSection(s: State, t: Tid, u: Tid, o: SessionRef)
    requires Inv(s) && t in s.threads && u in s.threads
    requires InCallbackSection(s.threads[t], o) && InCallbackSection(s.threads[u], o)
    ensures t == u
  {
    assert ThreadOk(s, t) && ThreadOk(s, u);
  }

  lemma OthersSubscribed(s: State, l: Label, s': State, t: Tid, id: nat, o: SessionRef, stream: bool, p: nat)
    requires Inv(s) && Subscribed(s, t, id, o, stream, p) && l.t != t
    requires t in s'.threads && s'.threads[t] == s.threads[t]
    requires o in s'.sessions && (Promises(s, l, o) || s'.sessions[o].promises == s.sessions[o].promises)
    ensures Subscribed(s', t, id, o, stream, p)
  {
    if InCallbackSection(s.threads[t], o) && Promises(s, l, o) { OneSection(s, t, l.t, o); }
  }

  lemma SubscribedStep(s: State, l: Label, s': State, t: Tid, id: nat, o: SessionRef, stream: bool, p: nat)
    requires Inv(s) && Step(s, l, s') && Subscribed(s, t, id, o, stream, p)
    ensures Subscribed(s', t, id, o, stream, p)
  {
    PromisesStay(s, l, s', o);
    if l.t == t {
      StepFits(s, l, s');
      LandsSubscribed(s, l, s', id, o, stream, p);
    } else {
      ThreadStays(s, l, s', t);
      OthersSubscribed(s, l, s', t, id, o, stream, p);
    }
  }

  lemma PromisesStay(s: State, l: Label, s': State, o: SessionRef)
    requires Step(s, l, s') && o in s.sessions
    ensures o in s'.sessions && (Promises(s, l, o) || s'.sessions[o].promises == s.sessions[o].promises)
  {
    StepFramed(s, l, s');
  }

  lemma {:induction false} SubscribedRun(run: seq<State>, labels: seq<Label>, i: nat, j: nat, t: Tid, id: nat,
                                         o: SessionRef, stream: bool, p: nat)
    requires Behaviour(run, labels) && i <= j < |run| && Subscribed(run[i], t, id, o, stream, p)
    ensures Subscribed(run[j], t, id, o, stream, p)
    decreases j
  {
    if i < j {
      SubscribedRun(run, labels, i, j - 1, t, id, o, stream, p);
      Reachable(run, labels, j - 1);
      assert StepAt(run, labels, j - 1);
      SubscribedStep(run[j - 1], labels[j - 1], run[j], t, id, o, stream, p);
    }
  }

  // ---- Which callback it is ----------------------------------------------------------------------------

  /** The callback of a stream call sits at the number of its promise and nowhere else. */
  lemma StreamPosition(s: State, t: Tid, id: nat, o: SessionRef, stream: bool, p: nat, q: nat)
    requires Inv(s) && Subscribed(s, t, id, o, stream, p) && !s.sessions[o].life.Freed?
    requires q < |CallbacksOf(s, o)| && CallbacksOf(s, o)[q] == Stream(t)
    ensures stream && q == p
  {
    assert SessionOk(s, o) && CallbackOk(s, s.sessions[o].handle, q);
  }

  /** From its registration until the session's callbacks are erased, the callback of a call is where it was
      put: behind those that were registered before, at the number of the call's promise. A stream call's
      callback writes to that call's own writer and is there only once; a supervision call's callback refers
      to its own session. */
  lemma RegisteredFrom(run: seq<State>, labels: seq<Label>, i: nat, j: nat, t: Tid, id: nat, o: SessionRef,
                       stream: bool)
    requires Behaviour(run, labels) && i < j < |run| && labels[i] == SubAdd(t)
    requires t in run[i].threads && run[i].threads[t] == SubLocked(id, o, stream)
    requires o in run[j].sessions && Registering(run[j].sessions[o].life)
    ensures o in run[i].sessions
    ensures var p := |Registered(run[i].callbacks, run[i].sessions[o].handle)|;
      var callbacks := Registered(run[j].callbacks, run[j].sessions[o].handle);
      && p < |callbacks| && callbacks[p] == (if stream then Stream(t) else Supervision(o))
      && (forall q :: 0 <= q < |callbacks| && callbacks[q] == Stream(t) ==> stream && q == p)
      && Subscribed(run[j], t, id, o, stream, p)
  {
    AddAt(run, labels, i, t);
    Reachable(run, labels, i);
    AddSubscribes(run[i], t);
    var p := |CallbacksOf(run[i], o)|;
    SubscribedRun(run, labels, i + 1, j, t, id, o, stream, p);
    RunCallbacksGrow(run, labels, i + 1, j, o);
    Reachable(run, labels, j);
    forall q | 0 <= q < |CallbacksOf(run[j], o)| && CallbacksOf(run[j], o)[q] == Stream(t) ensures stream && q == p {
      StreamPosition(run[j], t, id, o, stream, p, q);
    }
  }

  /** A notification that arrived and whose handler has not entered yet. */
  lemma {:induction false} NotifiedUntil(run: seq<State>, labels: seq<Label>, n: nat, k: nat, d: Tid, o: SessionRef,
                                         note: nat)
    requires Behaviour(run, labels) && n < k < |run| && labels[n] == Notify(d, note)
    requires d in run[n].threads && run[n].threads[d] == Idle(o) && forall m :: n < m < k ==> labels[m].t != d
    ensures d in run[k].threads && run[k].threads[d] == Notified(o, note)
    decreases k
  {
    assert StepAt(run, labels, k - 1);
    if n + 1 < k {
      NotifiedUntil(run, labels, n, k - 1, d, o, note);
      ThreadStays(run[k - 1], labels[k - 1], run[k], d);
    }
  }

  /** Every notification that arrives for the session and whose handler enters between the registration of a
      stream call and the erasure of the session's callbacks is written to that call's writer exactly once. */
  lemma StreamDelivered(run: seq<State>, labels: seq<Label>, i: nat, n: nat, k: nat, j: nat, t: Tid, id: nat,
                        o: SessionRef, d: Tid, note: nat)
    returns (p: nat, got: seq<Callback>)
    requires Behaviour(run, labels) && i < k && n < k < j < |labels|
    requires labels[i] == SubAdd(t) && t in run[i].threads && run[i].threads[t] == SubLocked(id, o, true)
    requires labels[n] == Notify(d, note) && d in run[n].threads && run[n].threads[d] == Idle(o)
    requires labels[k] == HandlerEnter(d) && forall m :: n < m < k ==> labels[m].t != d
    requires labels[j] == HandlerLeave(d) && forall m :: k < m < j ==> labels[m] != HandlerLeave(d)
    requires o in run[k].sessions && Registering(run[k].sessions[o].life)
    ensures run[j + 1].log == run[j].log + [Delivery(o, note, got, got)]
    ensures p < |got| && got[p] == Stream(t) && forall q :: 0 <= q < |got| && q != p ==> got[q] != Stream(t)
  {
    NotifiedUntil(run, labels, n, k, d, o, note);
    RegisteredFrom(run, labels, i, k, t, id, o, true);
    p := |Registered(run[i].callbacks, run[i].sessions[o].handle)|;
    got := Registered(run[k].callbacks, run[k].sessions[o].handle);
    NotificationDelivered(run, labels, k, j, d, o, note);
  }

  // ---- Nothing else is registered ------------------------------------------------------------------------

  lemma NewSession(s: State, l: Label, s': State, o: SessionRef)
    requires Step(s, l, s') && o in s'.sessions && o !in s.sessions
    ensures l.Connect? && s'.sessions[o].handle == l.a
  {
    StepFramed(s, l, s');
    ConnectByLabel(s, l, s');
  }

  lemma ConnectByLabel(s: State, l: Label, s': State)
    requires Step(s, l, s') && l.Connect?
    ensures CanConnect(s, l.t, l.o, l.a) && s' == DoConnect(s, l.t, l.o, l.a)
  {
  }

  lemma NoCallbacksYet(run: seq<State>, labels: seq<Label>, i: nat, o: SessionRef)
    requires Behaviour(run, labels) && i < |labels| && o !in run[i].sessions && o in run[i + 1].sessions
    ensures CallbacksOf(run[i + 1], o) == []
  {
    assert StepAt(run, labels, i);
    NewSession(run[i], labels[i], run[i + 1], o);
    RecycledAddressIsClean(run, labels, i);
  }

  lemma AddsTo(s: State, t: Tid, o: SessionRef)
    requires Inv(s) && CanSubAdd(s, t) && o in s.sessions && Registering(s.sessions[o].life)
    ensures if s.threads[t].o == o then |CallbacksOf(DoSubAdd(s, t), o)| == |CallbacksOf(s, o)| + 1
      else CallbacksOf(DoSubAdd(s, t), o) == CallbacksOf(s, o)
  {
    assert ThreadOk(s, t);
    InTableAlive(s, s.threads[t].id);
    if s.sessions[s.threads[t].o].handle == s.sessions[o].handle { OwnAddress(s, o, s.threads[t].o); }
  }

  /** Callback number `q` of session `o` was registered by thread `t` at step `i`. */
  ghost predicate AddedBy(run: seq<State>, labels: seq<Label>, i: nat, t: Tid, o: SessionRef, q: nat) {
    && i < |labels| && i < |run| && labels[i] == SubAdd(t) && t in run[i].threads && run[i].threads[t].SubLocked?
    && run[i].threads[t].o == o && o in run[i].sessions && |CallbacksOf(run[i], o)| == q
  }

  lemma LastAdded(run: seq<State>, labels: seq<Label>, i: nat, o: SessionRef, q: nat)
    requires Behaviour(run, labels) && i < |labels| && o in run[i].sessions && o in run[i + 1].sessions
    requires Registering(run[i + 1].sessions[o].life) && |CallbacksOf(run[i], o)| <= q < |CallbacksOf(run[i + 1], o)|
    ensures AddedBy(run, labels, i, labels[i].t, o, q)
  {
    Reachable(run, labels, i);
    assert StepAt(run, labels, i);
    CallbacksGrow(run[i], labels[i], run[i + 1], o);
    AddByLabel(run[i], labels[i], run[i + 1]);
    AddsTo(run[i], labels[i].t, o);
  }

  /** Every callback a session has was registered by a call that found that session. */
  lemma {:induction false} CallbackFrom(run: seq<State>, labels: seq<Label>, j: nat, o: SessionRef, q: nat)
    returns (i: nat, t: Tid)
    requires Behaviour(run, labels) && j < |run| && o in run[j].sessions && Registering(run[j].sessions[o].life)
    requires q < |Registered(run[j].callbacks, run[j].sessions[o].handle)|
    ensures i < j && AddedBy(run, labels, i, t, o, q)
    decreases j
  {
    i, t := j - 1, labels[j - 1].t;
    if o !in run[j - 1].sessions {
      NoCallbacksYet(run, labels, j - 1, o);
    } else if q < |CallbacksOf(run[j - 1], o)| {
      RunCallbacksGrow(run, labels, j - 1, j, o);
      i, t := CallbackFrom(run, labels, j - 1, o, q);
    } else {
      LastAdded(run, labels, j - 1, o, q);
    }
  }

  // ---- What a call was asked for -----------------------------------------------------------------------

  /** The call that a thread at this point is working on. */
  function CallOf(t: Tid, pc: Pc): Option<Label> {
    match pc
    case Removing(id) => Some(CallDisconnect(t, id))
    case RpcStart(id) => Some(CallRpc(t, id))
    case RpcBusy(id, _) => Some(CallRpc(t, id))
    case SubStart(id, stream) => Some(CallSubscribe(t, id, stream))
    case SubFound(id, _, stream) => Some(CallSubscribe(t, id, stream))
    case SubLocked(id, _, stream) => Some(CallSubscribe(t, id, stream))
    case SubAdded(id, _, stream) => Some(CallSubscribe(t, id, stream))
    case SubRunning(id, _, stream) => Some(CallSubscribe(t, id, stream))
    case SubDone(id, _, stream, _) => Some(CallSubscribe(t, id, stream))
    case _ => None
  }

  lemma LandsCalled(s: State, l: Label, pc: Pc)
    requires Fits(s, l) && Lands(s, l, pc) && CallOf(l.t, pc).Some?
    ensures CallOf(l.t, pc) == Some(l) || (l.t in s.threads && CallOf(l.t, s.threads[l.t]) == CallOf(l.t, pc))
  {
  }

  lemma CalledStep(s: State, l: Label, s': State, t: Tid)
    requires Step(s, l, s') && t in s'.threads && CallOf(t, s'.threads[t]).Some?
    ensures CallOf(t, s'.threads[t]) == Some(l)
         || (t in s.threads && CallOf(t, s.threads[t]) == CallOf(t, s'.threads[t]))
  {
    if l.t == t {
      StepFits(s, l, s');
      LandsCalled(s, l, s'.threads[t]);
    } else {
      OtherThreads(s, l, s', t);
      OthersCalled(s, s', t);
    }
  }

  lemma OthersCalled(s: State, s': State, t: Tid)
    requires t in s'.threads && CallOf(t, s'.threads[t]).Some?
    requires if t in s.threads then s'.threads[t] == s.threads[t] || s'.threads[t] == Finished else s'.threads[t].Idle?
    ensures t in s.threads && CallOf(t, s.threads[t]) == CallOf(t, s'.threads[t])
  {
  }

  lemma {:induction false} Called(run: seq<State>, labels: seq<Label>, i: nat, t: Tid) returns (h: nat)
    requires Behaviour(run, labels) && i < |run| && t in run[i].threads && CallOf(t, run[i].threads[t]).Some?
    ensures h < i && Some(labels[h]) == CallOf(t, run[i].threads[t])
    decreases i
  {
    h := i - 1;
    assert StepAt(run, labels, i - 1);
    CalledStep(run[i - 1], labels[i - 1], run[i], t);
    if Some(labels[i - 1]) != CallOf(t, run[i].threads[t]) { h := Called(run, labels, i - 1, t); }
  }

  predicate IsCall(l: Label) {
    l.CallDisconnect? || l.CallRpc? || l.CallSubscribe?
  }

  lemma StepRemembers(s: State, l: Label, s': State, t: Tid)
    requires Step(s, l, s')
    ensures t in s.threads || t == l.t ==> t in s'.threads
    ensures IsCall(l) ==> l.t !in s.threads
  {
    StepFramed(s, l, s');
  }

  lemma {:induction false} Remembered(run: seq<State>, labels: seq<Label>, i: nat, j: nat)
    requires Behaviour(run, labels) && i < j < |run|
    ensures labels[i].t in run[j].threads
    decreases j
  {
    assert StepAt(run, labels, j - 1);
    StepRemembers(run[j - 1], labels[j - 1], run[j], labels[i].t);
    if i < j - 1 { Remembered(run, labels, i, j - 1); }
  }

  /** A thread number stands for one call. */
  lemma OneCall(run: seq<State>, labels: seq<Label>, g: nat, h: nat)
    requires Behaviour(run, labels) && g < |labels| && h < |labels|
    requires IsCall(labels[g]) && IsCall(labels[h]) && labels[g].t == labels[h].t
    ensures g == h
  {
    assert StepAt(run, labels, g) && StepAt(run, labels, h);
    StepRemembers(run[g], labels[g], run[g + 1], 0);
    StepRemembers(run[h], labels[h], run[h + 1], 0);
    if g < h { Remembered(run, labels, g, h); }
    if h < g { Remembered(run, labels, h, g); }
  }

  /** While a call is at work, it is at work on what it was called with. */
  lemma CalledWith(run: seq<State>, labels: seq<Label>, h: nat, i: nat, t: Tid)
    requires Behaviour(run, labels) && h < |labels| && i < |run| && IsCall(labels[h]) && labels[h].t == t
    requires t in run[i].threads && CallOf(t, run[i].threads[t]).Some?
    ensures h < i && CallOf(t, run[i].threads[t]) == Some(labels[h])
  {
    var g := Called(run, labels, i, t);
    OneCall(run, labels, g, h);
  }

  // ---- Which session a call finds -------------------------------------------------------------------------

  predicate LooksUp(l: Label) {
    l.RpcEnter? || l.SubEnter? || l.RemoveSession?
  }

  lemma LookUpFits(s: State, l: Label, t: Tid)
    requires Fits(s, l) && LooksUp(l) && l.t == t
    ensures t in s.threads && CallOf(t, s.threads[t]).Some?
  {
  }

  lemma FindsEntry(s: State, l: Label, pc: Pc, t: Tid, id: nat)
    requires Fits(s, l) && Lands(s, l, pc) && LooksUp(l) && l.t == t
    requires t in s.threads && CallOf(t, s.threads[t]).Some? && CallOf(t, s.threads[t]).value.id == id
    ensures id !in s.table ==> pc.Finished?
    ensures id in s.table ==> match l
      case RpcEnter(_) => pc == RpcBusy(id, s.table[id])
      case SubEnter(_) => pc == SubFound(id, s.table[id], CallOf(t, s.threads[t]).value.stream)
      case _ => pc == Removed(s.table[id])
  {
  }

  /** Within 2^32 sessions: a call with an id finds the session the id was issued for, exactly when it was
      issued and has not been closed; otherwise it returns without one. */
  lemma CallFinds(run: seq<State>, labels: seq<Label>, h: nat, i: nat, t: Tid, id: nat)
    requires Behaviour(run, labels) && h < |labels| && i < |labels| && |run[i].issued| <= ID_SPACE
    requires IsCall(labels[h]) && labels[h].t == t && labels[h].id == id && LooksUp(labels[i]) && labels[i].t == t
    ensures t in run[i + 1].threads
    ensures !(id < |run[i].issued| && id !in run[i].closed) ==> run[i + 1].threads[t] == Finished
    ensures id < |run[i].issued| && id !in run[i].closed ==> match labels[h]
      case CallRpc(_, _) => run[i + 1].threads[t] == RpcBusy(id, run[i].issued[id])
      case CallSubscribe(_, _, stream) => run[i + 1].threads[t] == SubFound(id, run[i].issued[id], stream)
      case _ => run[i + 1].threads[t] == Removed(run[i].issued[id])
  {
    assert StepAt(run, labels, i);
    StepFits(run[i], labels[i], run[i + 1]);
    LookUpFits(run[i], labels[i], t);
    CalledWith(run, labels, h, i, t);
    FindsEntry(run[i], labels[i], run[i + 1].threads[t], t, id);
    ReachableIds(run, labels, i);
  }

  /** Within 2^32 sessions: a subscription registers for the session its id was issued for. */
  lemma SubscribesTo(run: seq<State>, labels: seq<Label>, h: nat, i: nat, t: Tid, id: nat, stream: bool)
    requires Behaviour(run, labels) && h < |labels| && i < |labels| && |run[i].issued| <= ID_SPACE
    requires labels[h] == CallSubscribe(t, id, stream) && labels[i] == SubAdd(t)
    ensures h < i && t in run[i].threads && id < |run[i].issued|
    ensures run[i].threads[t] == SubLocked(id, run[i].issued[id], stream)
  {
    AddAt(run, labels, i, t);
    CalledWith(run, labels, h, i, t);
    Reachable(run, labels, i);
    assert ThreadOk(run[i], t);
    ReachableIds(run, labels, i);
  }

  // ---- What a dispatch, a destructor and a waiting call do -------------------------------------------------

  /** Some thread is the notification thread of `o`. */
  ghost predicate Listening(s: State, o: SessionRef) {
    exists u :: u in s.threads && DispatchOf(s.threads[u]) == Some(o)
  }

  lemma ListeningIff(s: State, o: SessionRef)
    requires Inv(s) && o in s.sessions && !s.sessions[o].life.Freed?
    ensures Listening(s, o) <==> s.sessions[o].handle in s.dispatch
  {
    var a := s.sessions[o].handle;
    assert SessionOk(s, o) && AddressOk(s, a);
    if u :| u in s.threads && DispatchOf(s.threads[u]) == Some(o) {
      assert ThreadOk(s, u);
    }
  }

  /** A call that gets to start the notification thread starts one exactly when its session has none and the
      start succeeds. */
  lemma DispatchStarts(run: seq<State>, labels: seq<Label>, i: nat, t: Tid, d: Tid, ok: bool)
    requires Behaviour(run, labels) && i < |labels| && labels[i] == SubDispatch(t, d, ok)
    ensures t in run[i].threads && run[i].threads[t].SubAdded? && d !in run[i].threads
    ensures var o := run[i].threads[t].o;
      run[i + 1].threads.Keys == run[i].threads.Keys + if ok && !Listening(run[i], o) then {d} else {}
    ensures d in run[i + 1].threads ==> run[i + 1].threads[d] == Idle(run[i].threads[t].o)
  {
    Reachable(run, labels, i);
    assert StepAt(run, labels, i);
    assert ThreadOk(run[i], t);
    InTableAlive(run[i], run[i].threads[t].id);
    ListeningIff(run[i], run[i].threads[t].o);
  }

  predicate Dies(s: State, o: SessionRef, t: Tid, stage: Stage) {
    o in s.sessions && s.sessions[o].life == Dying(t, stage)
  }

  /** Thread `t`, which destroys `o`, completes `stage`. */
  predicate Completes(s: State, l: Label, o: SessionRef, t: Tid, stage: Stage) {
    && Dies(s, o, t, stage) && t in s.threads && s.threads[t].Destroying? && s.threads[t].o == o
    && match stage
       case Erase => l == EraseCallbacks(t)
       case LockPromises => l == PromisesLock(t)
       case FulfilPromises => l == PromisesUnlock(t)
       case CloseSession => l == SendClose(t)
       case FreeHandle => l == Free(t)
  }

  function Previous(stage: Stage): Stage {
    match stage
    case Erase => Erase
    case LockPromises => Erase
    case FulfilPromises => LockPromises
    case CloseSession => FulfilPromises
    case FreeHandle => CloseSession
  }

  lemma DiesByDestructor(s: State, l: Label, s': State, o: SessionRef, t: Tid, stage: Stage)
    requires DestructorStep(s, l, s') && Dies(s', o, t, stage) && !Dies(s, o, t, stage)
    ensures Completes(s, l, o, t, Previous(stage))
  {
  }

  lemma DiesStep(s: State, l: Label, s': State, o: SessionRef, t: Tid, stage: Stage)
    requires Step(s, l, s') && Dies(s', o, t, stage) && !Dies(s, o, t, stage) && stage != Erase
    ensures Completes(s, l, o, t, Previous(stage))
  {
    if DestructorLabel(l) {
      DestructorByLabel(s, l, s');
      DiesByDestructor(s, l, s', o, t, stage);
    } else {
      NotFurther(s, l, s', o);
    }
  }

  lemma NotFurther(s: State, l: Label, s': State, o: SessionRef)
    requires Step(s, l, s') && !DestructorLabel(l) && o in s'.sessions
    ensures if o in s.sessions then NoFurther(s.sessions[o], s'.sessions[o]) else s'.sessions[o].life.Alive?
  {
    StepFramed(s, l, s');
    if o !in s.sessions { ConnectByLabel(s, l, s'); }
  }

  lemma {:induction false} CompletedBefore(run: seq<State>, labels: seq<Label>, i: nat, o: SessionRef, t: Tid,
                                           stage: Stage)
    returns (h: nat)
    requires Behaviour(run, labels) && i < |run| && Dies(run[i], o, t, stage) && stage != Erase
    ensures h < i && Completes(run[h], labels[h], o, t, Previous(stage))
    decreases i
  {
    h := i - 1;
    assert StepAt(run, labels, i - 1);
    if Dies(run[i - 1], o, t, stage) {
      h := CompletedBefore(run, labels, i - 1, o, t, stage);
    } else {
      DiesStep(run[i - 1], labels[i - 1], run[i], o, t, stage);
    }
  }

  lemma FreeAt(run: seq<State>, labels: seq<Label>, i: nat, t: Tid)
    requires Behaviour(run, labels) && i < |labels| && labels[i] == Free(t)
    ensures Destroys(run[i], t, FreeHandle)
  {
    assert StepAt(run, labels, i);
  }

  /** Step `h` is action `l` of the destructor of `o`. */
  predicate Destructs(run: seq<State>, labels: seq<Label>, h: nat, l: Label, o: SessionRef) {
    && h < |labels| && h < |run| && labels[h] == l
    && l.t in run[h].threads && run[h].threads[l.t].Destroying? && run[h].threads[l.t].o == o
  }

  /** A session's handle is freed only by a thread that has erased its callbacks, locked and fulfilled its
      promises and closed it, in this order. */
  lemma DestructorInOrder(run: seq<State>, labels: seq<Label>, i: nat, t: Tid, o: SessionRef)
    returns (a: nat, b: nat, c: nat, d: nat)
    requires Behaviour(run, labels) && Destructs(run, labels, i, Free(t), o)
    ensures a < b < c < d < i
    ensures Destructs(run, labels, a, EraseCallbacks(t), o) && Destructs(run, labels, b, PromisesLock(t), o)
    ensures Destructs(run, labels, c, PromisesUnlock(t), o) && Destructs(run, labels, d, SendClose(t), o)
    ensures o in run[c].sessions && run[c].sessions[o].fulfilled == run[c].sessions[o].promises
  {
    FreeAt(run, labels, i, t);
    d := CompletedBefore(run, labels, i, o, t, FreeHandle);
    c := CompletedBefore(run, labels, d, o, t, CloseSession);
    b := CompletedBefore(run, labels, c, o, t, FulfilPromises);
    a := CompletedBefore(run, labels, b, o, t, LockPromises);
    UnlockAt(run, labels, c, t);
  }

  lemma UnlockAt(run: seq<State>, labels: seq<Label>, c: nat, t: Tid)
    requires Behaviour(run, labels) && c < |labels| && labels[c] == PromisesUnlock(t)
    ensures Destroys(run[c], t, FulfilPromises)
    ensures var x := run[c].sessions[run[c].threads[t].o]; x.fulfilled == x.promises
  {
    Reachable(run, labels, c);
    assert StepAt(run, labels, c);
    assert SessionOk(run[c], run[c].threads[t].o);
  }

  /** A waiting stream call can return only when the session's callbacks are gone, and it can once the
      destructor has fulfilled the session's promises. */
  lemma StreamEnds(run: seq<State>, labels: seq<Label>, i: nat, t: Tid, o: SessionRef, p: nat)
    requires Behaviour(run, labels) && i < |run| && t in run[i].threads && run[i].threads[t] == StreamWaiting(o, p)
    ensures o in run[i].sessions
    ensures Enabled(run[i], t) ==> run[i].sessions[o].fulfilled > p && !Registering(run[i].sessions[o].life)
    ensures run[i].sessions[o].life.Freed? ==> Enabled(run[i], t)
    ensures run[i].sessions[o].life.Dying? && run[i].sessions[o].life.stage in {CloseSession, FreeHandle} ==>
      Enabled(run[i], t)
  {
    var s := run[i];
    Reachable(run, labels, i);
    assert ThreadOk(s, t) && SessionOk(s, o);
    if CanStreamReturn(s, t) {
      assert Step(s, StreamReturn(t), DoStreamReturn(s, t));
    } else if l: Label, s' :| l.t == t && Step(s, l, s') {
      StepFits(s, l, s');
      WaitingFits(s, l);
      ReturnByLabel(s, l, s');
    }
  }

  lemma WaitingFits(s: State, l: Label)
    requires Fits(s, l) && l.t in s.threads && s.threads[l.t].StreamWaiting?
    ensures l.StreamReturn?
  {
  }

  lemma ReturnByLabel(s: State, l: Label, s': State)
    requires Step(s, l, s') && l.StreamReturn?
    ensures CanStreamReturn(s, l.t)
  {
  }

  predicate Returns(l: Label) {
    l.ConnectReturn? || l.DisconnectReturn?
  }

  lemma ReturnDrops(s: State, l: Label, s': State, o: SessionRef)
    requires Inv(s) && ReleaseStep(s, l, s') && Returns(l) && s.threads[l.t].o == o
    ensures HeldRef(s.threads[l.t]) == Some(o) && o in s.sessions
    ensures s'.threads[l.t] == if s.sessions[o].refs == 1 then Destroying(o, EndCall) else Finished
  {
  }

  /** A call that gives its session back destroys it exactly when nothing else refers to it: no entry of the table
      and no other thread. Otherwise it just returns. */
  lemma ReturnDestroysIff(run: seq<State>, labels: seq<Label>, i: nat, t: Tid, o: SessionRef)
    requires Behaviour(run, labels) && i < |labels| && Returns(labels[i]) && labels[i].t == t
    requires t in run[i].threads && (run[i].threads[t].Added? || run[i].threads[t].Removed?) && run[i].threads[t].o == o
    ensures t in run[i + 1].threads
    ensures if (forall id :: !MapsTo(run[i], id, o)) && NobodyElse(run[i], t, o)
      then run[i + 1].threads[t] == Destroying(o, EndCall) else run[i + 1].threads[t] == Finished
  {
    Reachable(run, labels, i);
    assert StepAt(run, labels, i);
    StepFits(run[i], labels[i], run[i + 1]);
    ReleaseByLabel(run[i], labels[i], run[i + 1]);
    ReturnDrops(run[i], labels[i], run[i + 1], o);
    LastReferenceIff(run[i], t, o);
    OnlyHolderIff(run[i], t, o);
  }

  lemma FreeByLabel(s: State, l: Label, s': State)
    requires Step(s, l, s') && l.Free?
    ensures CanFree(s, l.t) && s' == DoFree(s, l.t)
  {
    DestructorByLabel(s, l, s');
  }

  /** A free ends the session and its notification thread, and its address can be handed out again. */
  lemma FreeEnds(run: seq<State>, labels: seq<Label>, i: nat, t: Tid, o: SessionRef)
    requires Behaviour(run, labels) && Destructs(run, labels, i, Free(t), o)
    ensures o in run[i].sessions && o in run[i + 1].sessions && run[i + 1].sessions[o].life.Freed?
    ensures run[i].sessions[o].handle in run[i].live && run[i].sessions[o].handle !in run[i + 1].live
    ensures !Listening(run[i + 1], o)
  {
    assert StepAt(run, labels, i);
    FreeByLabel(run[i], labels[i], run[i + 1]);
    Reachable(run, labels, i);
    assert SessionOk(run[i], o);
    Reachable(run, labels, i + 1);
    if Listening(run[i + 1], o) { FreedSilent(run[i + 1], o); }
  }

  lemma FreedSilent(s: State, o: SessionRef)
    requires Inv(s) && Listening(s, o)
    ensures o in s.sessions && !s.sessions[o].life.Freed?
  {
    var u :| u in s.threads && DispatchOf(s.threads[u]) == Some(o);
    assert ThreadOk(s, u);
  }
}
