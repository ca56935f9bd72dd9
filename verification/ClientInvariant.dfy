/**
 What every reachable state of the client satisfies, as one inductive invariant, and the proof
 that each action keeps it.

 The invariant has seven parts. `ThreadsOk`: a thread that works on a session found it in the
 table, owns its mutex where it must, and a notification handler has invoked exactly the callbacks
 before its position. `ReadersOk`: each lock records exactly the threads inside its shared sections.
 `SessionsOk`: who may hold a session's mutex, how far its destructor and its promises are, and how
 many callbacks and notification threads it has. `CountsOk`: every strong count is the number of
 references there are. `AddressesOk`: live addresses, notification threads and registered callbacks
 belong to sessions that have not been freed. `CallbacksOk`: a stream callback belongs to a call that
 is still inside its frame. `LogOk`: finished handler activations invoked what was registered.

 Each part is shown to survive each action by itself; the lemmas of one action are then put together.
 */
module ClientInvariant {
  import opened Wrappers
  import opened ClientModel

  /** The strong references to `o`: the table entries and the threads with a local `shared_ptr`. */
  ghost function Entries(table: map<nat, SessionRef>, o: SessionRef): set<nat> {
    set id | id in table && table[id] == o
  }

  ghost function Locals(threads: map<Tid, Pc>, o: SessionRef): set<Tid> {
    set t | t in threads && HeldRef(threads[t]) == Some(o)
  }

  /** The callbacks of session `o`, found through its address. */
  ghost function CallbacksOf(s: State, o: SessionRef): seq<Callback>
    requires o in s.sessions
  {
    Registered(s.callbacks, s.sessions[o].handle)
  }

  predicate AtTable(s: State, id: nat, o: SessionRef) {
    id in s.table && s.table[id] == o && o in s.sessions
  }

  predicate IsAlive(s: State, o: SessionRef) {
    o in s.sessions && s.sessions[o].life.Alive?
  }

  predicate OwnsMutex(s: State, t: Tid, o: SessionRef) {
    o in s.sessions && s.sessions[o].mutex == Some(t)
  }

  predicate IsDispatch(s: State, d: Tid, o: SessionRef) {
    && o in s.sessions && !s.sessions[o].life.Freed?
    && s.sessions[o].handle in s.dispatch && s.dispatch[s.sessions[o].handle] == d
  }

  ghost predicate FrameOk(s: State, d: Tid, f: Frame) {
    IsDispatch(s, d, f.session) && f.want == CallbacksOf(s, f.session) && f.pos <= |f.want|
  }

  /** The loop has invoked `count` callbacks, in the order of the table. */
  ghost predicate Progress(f: Frame, count: nat) {
    count <= |f.want| && f.got == f.want[..count]
  }

  ghost predicate ThreadOk(s: State, t: Tid)
    requires t in s.threads
  {
    match s.threads[t]
    case Adding(o) => o in s.sessions
    case Added(o, _) => o in s.sessions
    case Removed(o) => o in s.sessions
    case RpcBusy(id, o) => AtTable(s, id, o)
    case SubFound(id, o, _) => AtTable(s, id, o)
    case SubLocked(id, o, _) => AtTable(s, id, o) && OwnsMutex(s, t, o)
    case SubAdded(id, o, _) => AtTable(s, id, o) && OwnsMutex(s, t, o)
    case SubRunning(id, o, _) => AtTable(s, id, o) && OwnsMutex(s, t, o)
    case SubDone(id, o, _, p) => AtTable(s, id, o) && p < s.sessions[o].promises
    case StreamWaiting(o, p) => o in s.sessions && p < s.sessions[o].promises
    case Destroying(o, ret) =>
      && o in s.sessions && s.sessions[o].life.Dying? && s.sessions[o].life.thread == t
      && (ret.BackToHandler? ==>
            && s.sessions[o].life.stage.Erase? && FrameOk(s, t, ret.frame)
            && ret.frame.pos < |ret.frame.want| && Progress(ret.frame, ret.frame.pos + 1))
    case Idle(o) => IsDispatch(s, t, o)
    case Notified(o, _) => IsDispatch(s, t, o)
    case Handling(f) => FrameOk(s, t, f) && Progress(f, f.pos)
    case Calling(f, cb) => FrameOk(s, t, f) && Progress(f, f.pos + 1) && cb == f.want[f.pos]
    case Resetting(f, x) =>
      FrameOk(s, t, f) && Progress(f, f.pos + 1) && f.want[f.pos] == Supervision(x) && x in s.sessions
    case _ => true
  }

  ghost predicate ThreadsOk(s: State) {
    forall t {:trigger ThreadOk(s, t)} :: t in s.threads ==> ThreadOk(s, t)
  }

  /** The locks record exactly the threads that are inside their sections. */
  ghost predicate ReadersOk(s: State) {
    && s.tableReaders == (set t | t in s.threads && HoldsTable(s.threads[t]))
    && s.callbackReaders == (set t | t in s.threads && HoldsCallbacks(s.threads[t]))
  }

  predicate InCallbackSection(pc: Pc, o: SessionRef) {
    (pc.SubLocked? || pc.SubAdded? || pc.SubRunning?) && pc.o == o
  }

  /** The mutex owner has registered its callback and not yet pushed its promise. */
  ghost predicate HalfDone(s: State, o: SessionRef)
    requires o in s.sessions
  {
    var m := s.sessions[o].mutex;
    m.Some? && m.value in s.threads && (s.threads[m.value].SubAdded? || s.threads[m.value].SubRunning?)
  }

  ghost predicate SessionOk(s: State, o: SessionRef)
    requires o in s.sessions
  {
    var x := s.sessions[o];
    && (!x.life.Freed? ==> x.handle in s.live && s.live[x.handle] == o)
    && (x.mutex.Some? ==>
          && x.mutex.value in s.threads
          && (InCallbackSection(s.threads[x.mutex.value], o) || x.life == Dying(x.mutex.value, FulfilPromises)))
    && (x.life.Dying? ==>
          && x.life.thread in s.threads && s.threads[x.life.thread].Destroying?
          && s.threads[x.life.thread].o == o
          && (x.life.stage.FulfilPromises? <==> x.mutex == Some(x.life.thread)))
    && x.fulfilled <= x.promises
    && (x.life.Alive? || (x.life.Dying? && (x.life.stage.Erase? || x.life.stage.LockPromises?)) ==> x.fulfilled == 0)
    && (x.life.Freed? || (x.life.Dying? && (x.life.stage.CloseSession? || x.life.stage.FreeHandle?)) ==>
          x.fulfilled == x.promises)
    && (Registering(x.life) ==> |CallbacksOf(s, o)| == x.promises + if HalfDone(s, o) then 1 else 0)
    && (!x.life.Freed? ==> x.starts == x.exits + if x.handle in s.dispatch then 1 else 0)
  }

  ghost predicate SessionsOk(s: State) {
    forall o {:trigger SessionOk(s, o)} :: o in s.sessions ==> SessionOk(s, o)
  }

  /** The control block counts exactly the existing references; the last one gone, the session dies. */
  ghost predicate CountOk(s: State, o: SessionRef)
    requires o in s.sessions
  {
    && s.sessions[o].refs == |Entries(s.table, o)| + |Locals(s.threads, o)|
    && (s.sessions[o].refs == 0 <==> !s.sessions[o].life.Alive?)
  }

  ghost predicate CountsOk(s: State) {
    && (forall id :: id in s.table ==> s.table[id] in s.sessions)
    && (forall o {:trigger CountOk(s, o)} :: o in s.sessions ==> CountOk(s, o))
  }

  ghost predicate AddressOk(s: State, a: Addr) {
    && (a in s.live ==>
          s.live[a] in s.sessions && s.sessions[s.live[a]].handle == a && !s.sessions[s.live[a]].life.Freed?)
    && (a in s.dispatch ==>
          && a in s.live && s.dispatch[a] in s.threads
          && DispatchOf(s.threads[s.dispatch[a]]) == Some(s.live[a]))
    && (a in s.callbacks ==> a in s.live && Registering(s.sessions[s.live[a]].life))
  }

  ghost predicate AddressesOk(s: State) {
    forall a {:trigger AddressOk(s, a)} :: AddressOk(s, a)
  }

  /** The stream call `t` on session `o` has not returned, and its promise is number `j`. */
  ghost predicate Streams(s: State, t: Tid, o: SessionRef, j: nat)
    requires o in s.sessions
  {
    && t in s.threads
    && match s.threads[t]
       case SubAdded(_, o', stream) => o' == o && stream && j == s.sessions[o].promises
       case SubRunning(_, o', stream) => o' == o && stream && j == s.sessions[o].promises
       case SubDone(_, o', stream, p) => o' == o && stream && j == p
       case StreamWaiting(o', p) => o' == o && j == p
       case _ => false
  }

  ghost predicate CallbackOk(s: State, a: Addr, j: nat) {
    a in s.callbacks && j < |s.callbacks[a]| && a in s.live && s.live[a] in s.sessions ==>
      match s.callbacks[a][j]
      case Supervision(x) => x == s.live[a]
      case Stream(t) => Streams(s, t, s.live[a], j)
  }

  ghost predicate CallbacksOk(s: State) {
    forall a, j: nat {:trigger CallbackOk(s, a, j)} :: CallbackOk(s, a, j)
  }

  ghost predicate LogOk(s: State) {
    forall k :: 0 <= k < |s.log| ==> s.log[k].got == s.log[k].want
  }

  ghost predicate Inv(s: State) {
    && ThreadsOk(s) && ReadersOk(s) && SessionsOk(s) && CountsOk(s)
    && AddressesOk(s) && CallbacksOk(s) && LogOk(s)
  }

  // ---- Reference counting ----------------------------------------------------------------------

  predicate HoldsNone(threads: map<Tid, Pc>, t: Tid) {
    t in threads ==> HeldRef(threads[t]).None?
  }

  lemma LocalsSame(threads: map<Tid, Pc>, t: Tid, pc: Pc, o: SessionRef)
    requires if t in threads then HeldRef(threads[t]) == HeldRef(pc) else HeldRef(pc).None?
    ensures Locals(threads[t := pc], o) == Locals(threads, o)
  {
  }

  /** A thread that held nothing now holds `x`: one count grows by one. */
  lemma LocalsGain(threads: map<Tid, Pc>, t: Tid, pc: Pc, x: SessionRef, o: SessionRef)
    requires HoldsNone(threads, t) && HeldRef(pc) == Some(x)
    ensures |Locals(threads[t := pc], o)| == |Locals(threads, o)| + if o == x then 1 else 0
  {
    if o == x {
      assert Locals(threads[t := pc], o) == Locals(threads, o) + {t};
    } else {
      assert Locals(threads[t := pc], o) == Locals(threads, o);
    }
  }

  lemma LocalsLose(threads: map<Tid, Pc>, t: Tid, pc: Pc, x: SessionRef, o: SessionRef)
    requires t in threads && HeldRef(threads[t]) == Some(x) && HeldRef(pc).None?
    ensures |Locals(threads[t := pc], o)| == |Locals(threads, o)| - if o == x then 1 else 0
  {
    if o == x {
      assert Locals(threads, o) == Locals(threads[t := pc], o) + {t};
    } else {
      assert Locals(threads[t := pc], o) == Locals(threads, o);
    }
  }

  lemma EntriesGain(table: map<nat, SessionRef>, id: nat, x: SessionRef, o: SessionRef)
    requires id !in table
    ensures |Entries(table[id := x], o)| == |Entries(table, o)| + if o == x then 1 else 0
  {
    if o == x {
      assert Entries(table[id := x], o) == Entries(table, o) + {id};
    } else {
      assert Entries(table[id := x], o) == Entries(table, o);
    }
  }

  lemma InTableAlive(s: State, id: nat)
    requires CountsOk(s) && id in s.table
    ensures IsAlive(s, s.table[id])
  {
    assert CountOk(s, s.table[id]);
    assert id in Entries(s.table, s.table[id]);
  }

  lemma HeldAlive(s: State, t: Tid, o: SessionRef)
    requires CountsOk(s) && t in s.threads && HeldRef(s.threads[t]) == Some(o) && o in s.sessions
    ensures IsAlive(s, o)
  {
    assert CountOk(s, o);
    assert t in Locals(s.threads, o);
  }

  // ---- Framing: what an action leaves alone stays right ---------------------------------------

  /** The session, if any, that this thread is inside a mutex section or a destructor of. */
  function SectionOf(pc: Pc): Option<SessionRef> {
    match pc
    case SubLocked(_, o, _) => Some(o)
    case SubAdded(_, o, _) => Some(o)
    case SubRunning(_, o, _) => Some(o)
    case Destroying(o, _) => Some(o)
    case _ => None
  }

  /** Threads outside `ts` and sessions outside `os` are as they were, and nothing disappears. */
  ghost predicate Only(s: State, s': State, ts: set<Tid>, os: set<SessionRef>) {
    && (forall u :: u in s.threads ==> u in s'.threads)
    && (forall u :: u in s'.threads && u !in ts ==> u in s.threads && s'.threads[u] == s.threads[u])
    && (forall o :: o in s.sessions ==> o in s'.sessions)
    && (forall o :: o in s'.sessions && o !in os ==> o in s.sessions && s'.sessions[o] == s.sessions[o])
  }

  /** What a change of a session must respect for the threads outside `ts`. */
  ghost predicate Respects(s: State, x: Session, x': Session, ts: set<Tid>) {
    && x'.handle == x.handle && x.promises <= x'.promises
    && (x.mutex.Some? && x.mutex.value !in ts ==> x'.mutex == x.mutex)
    && (x.life.Dying? && x.life.thread !in ts ==> x'.life == x.life)
    && (!x.life.Freed? && x'.life.Freed? ==> x.handle in s.dispatch ==> s.dispatch[x.handle] in ts)
  }

  lemma OtherThread(s: State, s': State, ts: set<Tid>, os: set<SessionRef>, u: Tid)
    requires u in s.threads && u in s'.threads && u !in ts && s'.threads[u] == s.threads[u] && ThreadOk(s, u)
    requires Only(s, s', ts, os)
    requires forall o :: o in os && o in s.sessions ==> Respects(s, s.sessions[o], s'.sessions[o], ts)
    requires HoldsTable(s.threads[u]) ==> forall id :: id in s.table ==> id in s'.table && s'.table[id] == s.table[id]
    requires HoldsCallbacks(s.threads[u]) ==> s'.callbacks == s.callbacks
    requires forall a :: a in s.dispatch && s.dispatch[a] !in ts ==> a in s'.dispatch && s'.dispatch[a] == s.dispatch[a]
    ensures ThreadOk(s', u)
  {
  }

  lemma ThreadsKept(s: State, s': State, ts: set<Tid>, os: set<SessionRef>)
    requires ThreadsOk(s) && ReadersOk(s) && Only(s, s', ts, os)
    requires forall o :: o in os && o in s.sessions ==> Respects(s, s.sessions[o], s'.sessions[o], ts)
    requires s.tableReaders == {} || forall id :: id in s.table ==> id in s'.table && s'.table[id] == s.table[id]
    requires s.callbackReaders == {} || s'.callbacks == s.callbacks
    requires forall a :: a in s.dispatch && s.dispatch[a] !in ts ==> a in s'.dispatch && s'.dispatch[a] == s.dispatch[a]
    requires forall u :: u in ts && u in s'.threads ==> ThreadOk(s', u)
    ensures ThreadsOk(s')
  {
    forall u | u in s'.threads ensures ThreadOk(s', u) {
      if u !in ts {
        assert ThreadOk(s, u);
        assert HoldsTable(s.threads[u]) ==> u in s.tableReaders;
        assert HoldsCallbacks(s.threads[u]) ==> u in s.callbackReaders;
        OtherThread(s, s', ts, os, u);
      }
    }
  }

  lemma OtherSession(s: State, s': State, ts: set<Tid>, os: set<SessionRef>, o: SessionRef)
    requires o in s.sessions && o in s'.sessions && s'.sessions[o] == s.sessions[o] && o !in os
    requires SessionOk(s, o) && Only(s, s', ts, os)
    requires forall u :: u in ts && u in s.threads && SectionOf(s.threads[u]).Some? ==>
               SectionOf(s.threads[u]).value in os
    requires forall a :: a in s.live && s.live[a] !in os ==>
               && a in s'.live && s'.live[a] == s.live[a]
               && Registered(s'.callbacks, a) == Registered(s.callbacks, a)
               && (a in s'.dispatch <==> a in s.dispatch)
    ensures SessionOk(s', o)
  {
  }

  lemma SessionsKept(s: State, s': State, ts: set<Tid>, os: set<SessionRef>)
    requires SessionsOk(s) && Only(s, s', ts, os)
    requires forall u :: u in ts && u in s.threads && SectionOf(s.threads[u]).Some? ==>
               SectionOf(s.threads[u]).value in os
    requires forall a :: a in s.live && s.live[a] !in os ==>
               && a in s'.live && s'.live[a] == s.live[a]
               && Registered(s'.callbacks, a) == Registered(s.callbacks, a)
               && (a in s'.dispatch <==> a in s.dispatch)
    requires forall o :: o in os && o in s'.sessions ==> SessionOk(s', o)
    ensures SessionsOk(s')
  {
    forall o | o in s'.sessions ensures SessionOk(s', o) {
      if o !in os {
        assert SessionOk(s, o);
        OtherSession(s, s', ts, os, o);
      }
    }
  }

  predicate Streaming(pc: Pc) {
    ((pc.SubAdded? || pc.SubRunning? || pc.SubDone?) && pc.stream) || pc.StreamWaiting?
  }

  /** No reference comes or goes. */
  lemma CountsKept(s: State, s': State, t: Tid, pc: Pc)
    requires CountsOk(s) && s'.table == s.table && s'.threads == s.threads[t := pc]
    requires if t in s.threads then HeldRef(s.threads[t]) == HeldRef(pc) else HeldRef(pc).None?
    requires s'.sessions.Keys == s.sessions.Keys
    requires forall o :: o in s.sessions ==>
               && s'.sessions[o].refs == s.sessions[o].refs
               && (s'.sessions[o].life.Alive? <==> s.sessions[o].life.Alive?)
    ensures CountsOk(s')
  {
    forall o | o in s'.sessions ensures CountOk(s', o) {
      assert CountOk(s, o);
      LocalsSame(s.threads, t, pc, o);
    }
  }

  // ---- Actions that move one thread and touch no table and no session ------------------------------

  /** The parts of a program counter that the tables and sessions know about. */
  predicate SameRole(s: State, t: Tid, pc: Pc) {
    var was := if t in s.threads then s.threads[t] else Finished;
    && HeldRef(pc) == HeldRef(was) && DispatchOf(pc) == DispatchOf(was) && SectionOf(pc) == SectionOf(was)
    && pc.SubLocked? == was.SubLocked? && pc.Destroying? == was.Destroying?
  }

  /** A stream call that may have a callback in the table keeps its session and promise. */
  ghost predicate SameStream(s: State, t: Tid, pc: Pc) {
    var s' := s.(threads := s.threads[t := pc]);
    forall o, j: nat {:trigger Streams(s, t, o, j)} ::
      o in s.sessions && Streams(s, t, o, j) && s.sessions[o].fulfilled == 0 ==> Streams(s', t, o, j)
  }

  ghost predicate Quiet(s: State, s': State, t: Tid, pc: Pc) {
    && s'.threads == s.threads[t := pc] && s'.sessions == s.sessions && s'.table == s.table
    && s'.callbacks == s.callbacks && s'.live == s.live && s'.dispatch == s.dispatch
  }

  lemma QuietThreads(s: State, s': State, t: Tid, pc: Pc)
    requires ThreadsOk(s) && Quiet(s, s', t, pc) && ThreadOk(s', t)
    ensures ThreadsOk(s')
  {
    forall u | u in s'.threads ensures ThreadOk(s', u) {
      if u != t { assert ThreadOk(s, u); }
    }
  }

  lemma QuietSessions(s: State, s': State, t: Tid, pc: Pc)
    requires SessionsOk(s) && Quiet(s, s', t, pc) && SameRole(s, t, pc)
    requires t in s.threads ==> ThreadOk(s, t)
    ensures SessionsOk(s')
  {
    forall o | o in s'.sessions ensures SessionOk(s', o) {
      assert SessionOk(s, o);
    }
  }

  lemma QuietTables(s: State, s': State, t: Tid, pc: Pc)
    requires CountsOk(s) && AddressesOk(s) && Quiet(s, s', t, pc) && SameRole(s, t, pc)
    ensures CountsOk(s') && AddressesOk(s')
  {
    CountsKept(s, s', t, pc);
    forall a ensures AddressOk(s', a) { assert AddressOk(s, a); }
  }

  lemma QuietCallback(s: State, s': State, t: Tid, pc: Pc, a: Addr, j: nat)
    requires Quiet(s, s', t, pc) && SameStream(s, t, pc) && CallbackOk(s, a, j) && AddressOk(s, a)
    requires a in s.callbacks ==> SessionOk(s, s.live[a])
    ensures CallbackOk(s', a, j)
  {
  }

  lemma QuietCallbacks(s: State, s': State, t: Tid, pc: Pc)
    requires AddressesOk(s) && SessionsOk(s) && CallbacksOk(s) && Quiet(s, s', t, pc) && SameStream(s, t, pc)
    ensures CallbacksOk(s')
  {
    forall a, j: nat ensures CallbackOk(s', a, j) {
      assert CallbackOk(s, a, j) && AddressOk(s, a);
      if a in s.callbacks { assert SessionOk(s, s.live[a]); }
      QuietCallback(s, s', t, pc, a, j);
    }
  }

  lemma QuietKeeps(s: State, s': State, t: Tid, pc: Pc)
    requires Inv(s) && Quiet(s, s', t, pc) && SameRole(s, t, pc) && SameStream(s, t, pc)
    requires ThreadOk(s', t) && ReadersOk(s') && LogOk(s')
    ensures Inv(s')
  {
    assert t in s.threads ==> ThreadOk(s, t);
    QuietThreads(s, s', t, pc);
    QuietSessions(s, s', t, pc);
    QuietTables(s, s', t, pc);
    QuietCallbacks(s, s', t, pc);
  }

  lemma NoStream(s: State, t: Tid, pc: Pc)
    requires t in s.threads && !Streaming(s.threads[t])
    ensures SameStream(s, t, pc)
  {
  }

  lemma RpcReturnKeeps(s: State, t: Tid)
    requires Inv(s) && CanRpcReturn(s, t)
    ensures Inv(DoRpcReturn(s, t))
  {
    QuietKeeps(s, DoRpcReturn(s, t), t, Finished);
  }

  lemma RpcEnterReaders(s: State, t: Tid)
    requires ReadersOk(s) && CanRpcEnter(s, t)
    ensures ReadersOk(DoRpcEnter(s, t))
  {
  }

  lemma RpcEnterKeeps(s: State, t: Tid)
    requires Inv(s) && CanRpcEnter(s, t)
    ensures Inv(DoRpcEnter(s, t))
  {
    var s' := DoRpcEnter(s, t);
    RpcEnterReaders(s, t);
    NoStream(s, t, s'.threads[t]);
    QuietKeeps(s, s', t, s'.threads[t]);
  }

  lemma SubEnterReaders(s: State, t: Tid)
    requires ReadersOk(s) && CanSubEnter(s, t)
    ensures ReadersOk(DoSubEnter(s, t))
  {
  }

  lemma SubEnterKeeps(s: State, t: Tid)
    requires Inv(s) && CanSubEnter(s, t)
    ensures Inv(DoSubEnter(s, t))
  {
    var s' := DoSubEnter(s, t);
    SubEnterReaders(s, t);
    NoStream(s, t, s'.threads[t]);
    QuietKeeps(s, s', t, s'.threads[t]);
  }

  lemma SubLeaveKeeps(s: State, t: Tid)
    requires Inv(s) && CanSubLeave(s, t)
    ensures Inv(DoSubLeave(s, t))
  {
    var s' := DoSubLeave(s, t);
    assert ThreadOk(s, t);
    QuietKeeps(s, s', t, s'.threads[t]);
  }

  /** A call that returns because its promise is fulfilled has no callback left in the table. */
  lemma StreamReturnKeeps(s: State, t: Tid)
    requires Inv(s) && CanStreamReturn(s, t)
    ensures Inv(DoStreamReturn(s, t))
  {
    QuietKeeps(s, DoStreamReturn(s, t), t, Finished);
  }

  lemma HandlerEnterKeeps(s: State, t: Tid)
    requires Inv(s) && CanHandlerEnter(s, t)
    ensures Inv(DoHandlerEnter(s, t))
  {
    var s' := DoHandlerEnter(s, t);
    assert ThreadOk(s, t);
    QuietKeeps(s, s', t, s'.threads[t]);
  }

  lemma CallNextKeeps(s: State, t: Tid)
    requires Inv(s) && CanCallNext(s, t)
    ensures Inv(DoCallNext(s, t))
  {
    var s' := DoCallNext(s, t);
    assert ThreadOk(s, t);
    QuietKeeps(s, s', t, s'.threads[t]);
  }

  lemma HandlerLeaveKeeps(s: State, t: Tid)
    requires Inv(s) && CanHandlerLeave(s, t)
    ensures Inv(DoHandlerLeave(s, t))
  {
    var s' := DoHandlerLeave(s, t);
    assert ThreadOk(s, t);
    QuietKeeps(s, s', t, s'.threads[t]);
  }

  lemma CallEndKeeps(s: State, t: Tid)
    requires Inv(s) && CanCallEnd(s, t)
    ensures Inv(DoCallEnd(s, t))
  {
    var s' := DoCallEnd(s, t);
    assert ThreadOk(s, t);
    QuietKeeps(s, s', t, s'.threads[t]);
  }

  lemma NotifyKeeps(s: State, t: Tid, note: nat)
    requires Inv(s) && CanNotify(s, t, note)
    ensures Inv(DoNotify(s, t, note))
  {
    var s' := DoNotify(s, t, note);
    assert ThreadOk(s, t);
    QuietKeeps(s, s', t, s'.threads[t]);
  }

  /** A new call: disconnect, netconfRpc, streamNotifications or startSupervision. */
  lemma CallKeeps(s: State, s': State, t: Tid, pc: Pc)
    requires Inv(s) && t !in s.threads && s' == s.(threads := s.threads[t := pc])
    requires pc.Removing? || pc.RpcStart? || pc.SubStart?
    ensures Inv(s')
  {
    QuietKeeps(s, s', t, pc);
  }

  // ---- Actions that move one thread and change one session that is not freed ---------------------

  /** Thread `t` moves to `pc`, session `o` becomes `x`; only callbacks under its address may change. */
  ghost predicate Moves(s: State, s': State, t: Tid, pc: Pc, o: SessionRef, x: Session) {
    && t in s.threads && o in s.sessions && !s.sessions[o].life.Freed? && !x.life.Freed?
    && s'.threads == s.threads[t := pc] && s'.sessions == s.sessions[o := x]
    && s'.table == s.table && s'.live == s.live && s'.dispatch == s.dispatch
    && (s'.callbacks == s.callbacks || s.callbackReaders == {})
    && (forall a :: a != x.handle ==>
          (a in s'.callbacks <==> a in s.callbacks) && (a in s.callbacks ==> s'.callbacks[a] == s.callbacks[a]))
    && (x.handle in s'.callbacks ==> Registering(x.life))
    && Respects(s, s.sessions[o], x, {t})
    && SectionOf(s.threads[t]) in {None, Some(o)} && DispatchOf(pc) == DispatchOf(s.threads[t])
  }

  lemma MoveThreads(s: State, s': State, t: Tid, pc: Pc, o: SessionRef, x: Session)
    requires ThreadsOk(s) && ReadersOk(s) && Moves(s, s', t, pc, o, x) && ThreadOk(s', t)
    ensures ThreadsOk(s')
  {
    ThreadsKept(s, s', {t}, {o});
  }

  lemma MoveSessions(s: State, s': State, t: Tid, pc: Pc, o: SessionRef, x: Session)
    requires SessionsOk(s) && AddressesOk(s) && Moves(s, s', t, pc, o, x) && SessionOk(s', o)
    ensures SessionsOk(s')
  {
    assert SessionOk(s, o);
    SessionsKept(s, s', {t}, {o});
  }

  lemma MoveAddresses(s: State, s': State, t: Tid, pc: Pc, o: SessionRef, x: Session)
    requires SessionsOk(s) && AddressesOk(s) && Moves(s, s', t, pc, o, x)
    ensures AddressesOk(s')
  {
    assert SessionOk(s, o);
    forall a ensures AddressOk(s', a) { assert AddressOk(s, a); }
  }

  lemma MoveCallbacks(s: State, s': State, t: Tid, pc: Pc, o: SessionRef, x: Session)
    requires SessionsOk(s) && AddressesOk(s) && CallbacksOk(s) && Moves(s, s', t, pc, o, x)
    requires Streaming(s.threads[t]) ==> s.threads[t].o == o
    requires forall j: nat {:trigger CallbackOk(s', x.handle, j)} :: CallbackOk(s', x.handle, j)
    ensures CallbacksOk(s')
  {
    assert SessionOk(s, o);
    forall a, j: nat ensures CallbackOk(s', a, j) {
      assert CallbackOk(s, a, j) && AddressOk(s, a);
    }
  }

  lemma MoveKeeps(s: State, s': State, t: Tid, pc: Pc, o: SessionRef, x: Session)
    requires Inv(s) && Moves(s, s', t, pc, o, x)
    requires ThreadOk(s', t) && SessionOk(s', o) && ReadersOk(s') && CountsOk(s') && s'.log == s.log
    requires Streaming(s.threads[t]) ==> s.threads[t].o == o
    requires forall j: nat {:trigger CallbackOk(s', x.handle, j)} :: CallbackOk(s', x.handle, j)
    ensures Inv(s')
  {
    MoveThreads(s, s', t, pc, o, x);
    MoveSessions(s, s', t, pc, o, x);
    MoveAddresses(s, s', t, pc, o, x);
    MoveCallbacks(s, s', t, pc, o, x);
  }

  /** The callbacks of a session stay right when only its mutex, count or life changes. */
  lemma OwnCallbacks(s: State, s': State, t: Tid, pc: Pc, o: SessionRef, x: Session)
    requires SessionsOk(s) && CallbacksOk(s) && Moves(s, s', t, pc, o, x) && s'.callbacks == s.callbacks
    requires !Streaming(s.threads[t]) && x.promises == s.sessions[o].promises
    ensures forall j: nat {:trigger CallbackOk(s', x.handle, j)} :: CallbackOk(s', x.handle, j)
  {
    assert SessionOk(s, o);
    forall j: nat ensures CallbackOk(s', x.handle, j) { assert CallbackOk(s, x.handle, j); }
  }

  lemma SameCounts(s: State, s': State, t: Tid, pc: Pc, o: SessionRef, x: Session)
    requires CountsOk(s) && Moves(s, s', t, pc, o, x) && HeldRef(pc) == HeldRef(s.threads[t])
    requires x.refs == s.sessions[o].refs && (x.life.Alive? <==> s.sessions[o].life.Alive?)
    ensures CountsOk(s')
  {
    CountsKept(s, s', t, pc);
  }

  lemma SubLockKeeps(s: State, t: Tid)
    requires Inv(s) && CanSubLock(s, t)
    ensures Inv(DoSubLock(s, t))
  {
    var s' := DoSubLock(s, t);
    var o, pc := s.threads[t].o, s'.threads[t];
    assert ThreadOk(s, t) && SessionOk(s, o);
    InTableAlive(s, s.threads[t].id);
    SameCounts(s, s', t, pc, o, s'.sessions[o]);
    OwnCallbacks(s, s', t, pc, o, s'.sessions[o]);
    MoveKeeps(s, s', t, pc, o, s'.sessions[o]);
  }

  lemma SubAddKeeps(s: State, t: Tid)
    requires Inv(s) && CanSubAdd(s, t)
    ensures Inv(DoSubAdd(s, t))
  {
    var s' := DoSubAdd(s, t);
    var o, pc, x := s.threads[t].o, s'.threads[t], s'.sessions[s.threads[t].o];
    assert ThreadOk(s, t) && SessionOk(s, o);
    InTableAlive(s, s.threads[t].id);
    assert s'.sessions == s.sessions[o := x];
    SameCounts(s, s', t, pc, o, x);
    forall j: nat ensures CallbackOk(s', x.handle, j) { assert CallbackOk(s, x.handle, j); }
    MoveKeeps(s, s', t, pc, o, x);
  }

  lemma SubPromiseKeeps(s: State, t: Tid)
    requires Inv(s) && CanSubPromise(s, t)
    ensures Inv(DoSubPromise(s, t))
  {
    var s' := DoSubPromise(s, t);
    var o, pc, x := s.threads[t].o, s'.threads[t], s'.sessions[s.threads[t].o];
    assert ThreadOk(s, t) && SessionOk(s, o);
    InTableAlive(s, s.threads[t].id);
    SameCounts(s, s', t, pc, o, x);
    forall j: nat ensures CallbackOk(s', x.handle, j) {
      assert CallbackOk(s, x.handle, j);
      if x.handle in s.callbacks && j < |s.callbacks[x.handle]| && s.callbacks[x.handle][j].Stream? {
        assert ThreadOk(s, s.callbacks[x.handle][j].call);  // only the mutex owner is between the two steps
      }
    }
    MoveKeeps(s, s', t, pc, o, x);
  }

  lemma GainCounts(s: State, s': State, t: Tid, pc: Pc, o: SessionRef, x: Session)
    requires CountsOk(s) && Moves(s, s', t, pc, o, x) && HeldRef(s.threads[t]).None? && HeldRef(pc) == Some(o)
    requires s.sessions[o].refs > 0 && x.refs == s.sessions[o].refs + 1 && x.life == s.sessions[o].life
    ensures CountsOk(s')
  {
    forall p | p in s'.sessions ensures CountOk(s', p) {
      assert CountOk(s, p);
      LocalsGain(s.threads, t, pc, o, p);
    }
  }

  lemma LoseCounts(s: State, s': State, t: Tid, pc: Pc, o: SessionRef, x: Session)
    requires CountsOk(s) && Moves(s, s', t, pc, o, x) && HeldRef(s.threads[t]) == Some(o) && HeldRef(pc).None?
    requires x.refs == s.sessions[o].refs - 1 && (x.refs == 0 <==> !x.life.Alive?)
    ensures CountsOk(s')
  {
    forall p | p in s'.sessions ensures CountOk(s', p) {
      assert CountOk(s, p);
      LocalsLose(s.threads, t, pc, o, p);
    }
  }

  /** Only the count of a session changes. */
  lemma RefsOnly(s: State, s': State, t: Tid, pc: Pc, o: SessionRef, x: Session)
    requires SessionsOk(s) && Moves(s, s', t, pc, o, x) && x == s.sessions[o].(refs := x.refs)
    requires s'.callbacks == s.callbacks && SectionOf(s.threads[t]).None?
    ensures SessionOk(s', o)
  {
    assert SessionOk(s, o);
  }

  lemma WeakLockLocal(s: State, t: Tid)
    requires Inv(s) && CanWeakLock(s, t)
    ensures var s', o := DoWeakLock(s, t), s.threads[t].cb.target;
            Moves(s, s', t, s'.threads[t], o, s'.sessions[o]) && ThreadOk(s', t)
  {
    assert ThreadOk(s, t) && CountOk(s, s.threads[t].cb.target) && SessionOk(s, s.threads[t].cb.target);
  }

  lemma WeakLockKeeps(s: State, t: Tid)
    requires Inv(s) && CanWeakLock(s, t)
    ensures Inv(DoWeakLock(s, t))
  {
    var s' := DoWeakLock(s, t);
    var Calling(f, cb) := s.threads[t];
    var o, x := cb.target, s'.sessions[cb.target];
    WeakLockLocal(s, t);
    RefsOnly(s, s', t, Resetting(f, o), o, x);
    GainCounts(s, s', t, Resetting(f, o), o, x);
    OwnCallbacks(s, s', t, Resetting(f, o), o, x);
    MoveKeeps(s, s', t, Resetting(f, o), o, x);
  }

  // ---- Dropping a reference ------------------------------------------------------------------------

  ghost predicate Releases(s: State, t: Tid, o: SessionRef, ret: Return) {
    && t in s.threads && HeldRef(s.threads[t]) == Some(o) && Counted(s, o)
    && match ret
       case EndCall => s.threads[t].Added? || s.threads[t].Removed?
       case BackToHandler(f) => s.threads[t] == Resetting(f, o)
  }

  lemma ReleaseSharedMoves(s: State, t: Tid, o: SessionRef, ret: Return, x: Session)
    requires Inv(s) && Releases(s, t, o, ret) && s.sessions[o].refs > 1
    requires x == s.sessions[o].(refs := s.sessions[o].refs - 1)
    ensures Moves(s, Move(s, t, After(ret), o, x), t, After(ret), o, x) && x.life.Alive?
  {
    assert CountOk(s, o) && SessionOk(s, o);
  }

  lemma AfterOk(s: State, t: Tid, o: SessionRef, ret: Return, x: Session)
    requires Inv(s) && Releases(s, t, o, ret) && x == s.sessions[o].(refs := x.refs)
    ensures ThreadOk(Move(s, t, After(ret), o, x), t)
  {
    assert ThreadOk(s, t);
  }

  lemma ReleaseSharedKeeps(s: State, t: Tid, o: SessionRef, ret: Return)
    requires Inv(s) && Releases(s, t, o, ret) && s.sessions[o].refs > 1
    ensures Inv(Release(s, t, o, ret))
  {
    var x := s.sessions[o].(refs := s.sessions[o].refs - 1);
    var s' := Move(s, t, After(ret), o, x);
    ReleaseSharedMoves(s, t, o, ret, x);
    AfterOk(s, t, o, ret, x);
    RefsOnly(s, s', t, After(ret), o, x);
    LoseCounts(s, s', t, After(ret), o, x);
    OwnCallbacks(s, s', t, After(ret), o, x);
    MoveKeeps(s, s', t, After(ret), o, x);
  }

  lemma ReleaseLastMoves(s: State, t: Tid, o: SessionRef, ret: Return, x: Session)
    requires Inv(s) && Releases(s, t, o, ret) && s.sessions[o].refs == 1 && IsAlive(s, o) && s.sessions[o].mutex.None?
    requires x == s.sessions[o].(refs := 0, life := Dying(t, Erase))
    ensures var s' := Move(s, t, Destroying(o, ret), o, x);
      Moves(s, s', t, Destroying(o, ret), o, x) && SessionOk(s', o) && ThreadOk(s', t)
  {
    assert ThreadOk(s, t) && SessionOk(s, o);
  }

  lemma ReleaseLastKeeps(s: State, t: Tid, o: SessionRef, ret: Return)
    requires Inv(s) && Releases(s, t, o, ret) && s.sessions[o].refs == 1
    ensures Inv(Release(s, t, o, ret))
  {
    var x := s.sessions[o].(refs := 0, life := Dying(t, Erase));
    var s' := Move(s, t, Destroying(o, ret), o, x);
    LastHasNoMutex(s, t, o, ret);
    ReleaseLastMoves(s, t, o, ret, x);
    LoseCounts(s, s', t, Destroying(o, ret), o, x);
    OwnCallbacks(s, s', t, Destroying(o, ret), o, x);
    MoveKeeps(s, s', t, Destroying(o, ret), o, x);
  }

  /** The thread that drops the last reference finds the session alive and its mutex free. */
  lemma LastHasNoMutex(s: State, t: Tid, o: SessionRef, ret: Return)
    requires Inv(s) && Releases(s, t, o, ret) && s.sessions[o].refs == 1
    ensures IsAlive(s, o) && s.sessions[o].mutex.None?
  {
    assert CountOk(s, o);
    if s.sessions[o].mutex.Some? {
      MutexHolder(s, o);
      TwoHolders(s, s.threads[s.sessions[o].mutex.value].id, t, o);
    }
  }

  lemma TwoHolders(s: State, id: nat, t: Tid, o: SessionRef)
    requires AtTable(s, id, o) && t in s.threads && HeldRef(s.threads[t]) == Some(o)
    ensures |Entries(s.table, o)| >= 1 && |Locals(s.threads, o)| >= 1
  {
    assert id in Entries(s.table, o) && t in Locals(s.threads, o);
  }

  /** While a session is alive its mutex is held inside addNotificationCallback, with its entry in the table. */
  lemma MutexHolder(s: State, o: SessionRef)
    requires Inv(s) && IsAlive(s, o) && s.sessions[o].mutex.Some?
    ensures s.sessions[o].mutex.value in s.threads
    ensures InCallbackSection(s.threads[s.sessions[o].mutex.value], o)
    ensures AtTable(s, s.threads[s.sessions[o].mutex.value].id, o)
  {
    assert SessionOk(s, o);
    assert ThreadOk(s, s.sessions[o].mutex.value);
  }

  // ---- The destructor --------------------------------------------------------------------------------

  lemma AdvanceKeeps(s: State, s': State, t: Tid, x: Session)
    requires Inv(s) && t in s.threads && s.threads[t].Destroying?
    requires Moves(s, s', t, s.threads[t], s.threads[t].o, x) && SessionOk(s', s.threads[t].o)
    requires x.refs == s.sessions[s.threads[t].o].refs && x.promises == s.sessions[s.threads[t].o].promises
    requires s'.tableReaders == s.tableReaders && s'.callbackReaders == s.callbackReaders && s'.log == s.log
    requires x.life.Dying? && x.life.thread == t
    requires s.threads[t].ret.BackToHandler? ==> x.life.stage.Erase?
    requires s'.callbacks == s.callbacks || x.handle !in s'.callbacks
    ensures Inv(s')
  {
    var o, pc := s.threads[t].o, s.threads[t];
    assert s'.threads == s.threads;
    assert ThreadOk(s, t) && SessionOk(s, o);
    assert pc.ret.BackToHandler? ==> t in s.callbackReaders;
    SameCounts(s, s', t, pc, o, x);
    if s'.callbacks == s.callbacks {
      OwnCallbacks(s, s', t, pc, o, x);
    }
    MoveKeeps(s, s', t, pc, o, x);
  }

  /** A destructor inside the notification handler cannot get past its first statement. */
  lemma PastErase(s: State, t: Tid)
    requires Inv(s) && t in s.threads && s.threads[t].Destroying?
    ensures s.threads[t].ret.BackToHandler? ==> Destroys(s, t, Erase) && t in s.callbackReaders
  {
    assert ThreadOk(s, t);
  }

  lemma EraseCallbacksKeeps(s: State, t: Tid)
    requires Inv(s) && CanEraseCallbacks(s, t)
    ensures Inv(DoEraseCallbacks(s, t))
  {
    var s' := DoEraseCallbacks(s, t);
    var o := s.threads[t].o;
    assert SessionOk(s, o);
    PastErase(s, t);
    AdvanceKeeps(s, s', t, s'.sessions[o]);
  }

  lemma PromisesLockKeeps(s: State, t: Tid)
    requires Inv(s) && CanPromisesLock(s, t)
    ensures Inv(DoPromisesLock(s, t))
  {
    var s' := DoPromisesLock(s, t);
    var o := s.threads[t].o;
    assert SessionOk(s, o) && AddressOk(s, s.sessions[o].handle);
    PastErase(s, t);
    AdvanceKeeps(s, s', t, s'.sessions[o]);
  }

  lemma PromiseFulfilKeeps(s: State, t: Tid)
    requires Inv(s) && CanPromiseFulfil(s, t)
    ensures Inv(DoPromiseFulfil(s, t))
  {
    var s' := DoPromiseFulfil(s, t);
    var o := s.threads[t].o;
    assert SessionOk(s, o) && AddressOk(s, s.sessions[o].handle);
    PastErase(s, t);
    AdvanceKeeps(s, s', t, s'.sessions[o]);
  }

  lemma PromisesUnlockKeeps(s: State, t: Tid)
    requires Inv(s) && CanPromisesUnlock(s, t)
    ensures Inv(DoPromisesUnlock(s, t))
  {
    var s' := DoPromisesUnlock(s, t);
    var o := s.threads[t].o;
    assert SessionOk(s, o) && AddressOk(s, s.sessions[o].handle);
    PastErase(s, t);
    AdvanceKeeps(s, s', t, s'.sessions[o]);
  }

  lemma SendCloseKeeps(s: State, t: Tid)
    requires Inv(s) && CanSendClose(s, t)
    ensures Inv(DoSendClose(s, t))
  {
    var s' := DoSendClose(s, t);
    var o := s.threads[t].o;
    assert SessionOk(s, o) && AddressOk(s, s.sessions[o].handle);
    PastErase(s, t);
    AdvanceKeeps(s, s', t, s'.sessions[o]);
  }

  // ---- Actions on threads, addresses and the session table ----------------------------------------

  /** The callback table and the calls it mentions are left alone. */
  lemma CallbacksSame(s: State, s': State)
    requires AddressesOk(s) && CallbacksOk(s) && s'.callbacks == s.callbacks
    requires forall u :: u in s.threads && Streaming(s.threads[u]) ==> u in s'.threads && s'.threads[u] == s.threads[u]
    requires forall o :: o in s.sessions ==> o in s'.sessions && s'.sessions[o].promises == s.sessions[o].promises
    requires forall a :: a in s.callbacks && a in s.live && a in s'.live ==> s'.live[a] == s.live[a]
    ensures CallbacksOk(s')
  {
    forall a, j: nat ensures CallbackOk(s', a, j) { assert CallbackOk(s, a, j) && AddressOk(s, a); }
  }

  lemma FreeCounts(s: State, t: Tid)
    requires CountsOk(s) && CanFree(s, t) && s.threads[t].ret.EndCall?
    ensures CountsOk(DoFree(s, t))
  {
    var s' := DoFree(s, t);
    var a := s.sessions[s.threads[t].o].handle;
    if a in s.dispatch {
      var s1 := s.(threads := s.threads[s.dispatch[a] := Finished]);
      CountsKept(s, s1, s.dispatch[a], Finished);
      CountsKept(s1, s', t, Finished);
    } else {
      CountsKept(s, s', t, Finished);
    }
  }

  lemma FreeAddresses(s: State, t: Tid)
    requires AddressesOk(s) && SessionsOk(s) && CanFree(s, t) && s.threads[t].ret.EndCall?
    ensures AddressesOk(DoFree(s, t))
  {
    var s', o := DoFree(s, t), s.threads[t].o;
    assert SessionOk(s, o) && AddressOk(s, s.sessions[o].handle);
    forall a ensures AddressOk(s', a) { assert AddressOk(s, a); }
  }

  lemma FreeThreads(s: State, t: Tid)
    requires ThreadsOk(s) && ReadersOk(s) && CanFree(s, t) && s.threads[t].ret.EndCall?
    ensures ThreadsOk(DoFree(s, t))
  {
    var s', o := DoFree(s, t), s.threads[t].o;
    var ts := {t} + if s.sessions[o].handle in s.dispatch then {s.dispatch[s.sessions[o].handle]} else {};
    ThreadsKept(s, s', ts, {o});
  }

  lemma FreeSessions(s: State, t: Tid)
    requires AddressesOk(s) && SessionsOk(s) && CanFree(s, t) && s.threads[t].ret.EndCall?
    ensures SessionsOk(DoFree(s, t))
  {
    var s', o := DoFree(s, t), s.threads[t].o;
    var ts := {t} + if s.sessions[o].handle in s.dispatch then {s.dispatch[s.sessions[o].handle]} else {};
    assert SessionOk(s, o);
    SessionsKept(s, s', ts, {o});
  }

  lemma FreeCallbacks(s: State, t: Tid)
    requires ThreadsOk(s) && AddressesOk(s) && CallbacksOk(s) && CanFree(s, t) && s.threads[t].ret.EndCall?
    ensures CallbacksOk(DoFree(s, t)) && DoFree(s, t).log == s.log
  {
    CallbacksSame(s, DoFree(s, t));
  }

  lemma FreeReaders(s: State, t: Tid)
    requires ReadersOk(s) && CanFree(s, t) && s.threads[t].ret.EndCall?
    ensures ReadersOk(DoFree(s, t))
  {
  }

  lemma FreeKeeps(s: State, t: Tid)
    requires Inv(s) && CanFree(s, t)
    ensures Inv(DoFree(s, t))
  {
    PastErase(s, t);
    assert SessionOk(s, s.threads[t].o);
    FreeThreads(s, t);
    FreeReaders(s, t);
    FreeSessions(s, t);
    FreeCounts(s, t);
    FreeAddresses(s, t);
    FreeCallbacks(s, t);
  }

  lemma DispatchExitTables(s: State, t: Tid)
    requires CountsOk(s) && AddressesOk(s) && SessionsOk(s) && CanDispatchExit(s, t) && ThreadOk(s, t)
    ensures CountsOk(DoDispatchExit(s, t)) && AddressesOk(DoDispatchExit(s, t))
  {
    var s' := DoDispatchExit(s, t);
    assert SessionOk(s, s.threads[t].o);
    CountsKept(s, s', t, Finished);
    forall a ensures AddressOk(s', a) { assert AddressOk(s, a); }
  }

  lemma DispatchExitSessions(s: State, t: Tid)
    requires ThreadsOk(s) && ReadersOk(s) && AddressesOk(s) && SessionsOk(s) && CanDispatchExit(s, t)
    ensures SessionsOk(DoDispatchExit(s, t))
  {
    var s', o := DoDispatchExit(s, t), s.threads[t].o;
    assert ThreadOk(s, t) && SessionOk(s, o);
    forall a | a in s.live && s.live[a] != o ensures a != s.sessions[o].handle {}
    SessionsKept(s, s', {t}, {o});
  }

  lemma DispatchExitThreads(s: State, t: Tid)
    requires ThreadsOk(s) && ReadersOk(s) && CanDispatchExit(s, t)
    ensures ThreadsOk(DoDispatchExit(s, t))
  {
    assert ThreadOk(s, t);
    ThreadsKept(s, DoDispatchExit(s, t), {t}, {s.threads[t].o});
  }

  lemma DispatchExitReaders(s: State, t: Tid)
    requires ReadersOk(s) && CanDispatchExit(s, t)
    ensures ReadersOk(DoDispatchExit(s, t))
  {
  }

  lemma DispatchExitCallbacks(s: State, t: Tid)
    requires AddressesOk(s) && CallbacksOk(s) && CanDispatchExit(s, t)
    ensures CallbacksOk(DoDispatchExit(s, t))
  {
    CallbacksSame(s, DoDispatchExit(s, t));
  }

  lemma DispatchExitKeeps(s: State, t: Tid)
    requires Inv(s) && CanDispatchExit(s, t)
    ensures Inv(DoDispatchExit(s, t))
  {
    assert ThreadOk(s, t);
    DispatchExitThreads(s, t);
    DispatchExitReaders(s, t);
    DispatchExitSessions(s, t);
    DispatchExitTables(s, t);
    DispatchExitCallbacks(s, t);
  }

  /** A notification thread `d` is started for `o`. */
  function Started(s: State, d: Tid, o: SessionRef): State
    requires o in s.sessions
  {
    s.(threads := s.threads[d := Idle(o)],
       dispatch := s.dispatch[s.sessions[o].handle := d],
       sessions := s.sessions[o := s.sessions[o].(starts := s.sessions[o].starts + 1)])
  }

  lemma StartTables(s: State, d: Tid, o: SessionRef)
    requires CountsOk(s) && AddressesOk(s) && SessionsOk(s)
    requires d !in s.threads && IsAlive(s, o) && s.sessions[o].handle !in s.dispatch
    ensures CountsOk(Started(s, d, o)) && AddressesOk(Started(s, d, o))
  {
    var s' := Started(s, d, o);
    assert SessionOk(s, o);
    CountsKept(s, s', d, Idle(o));
    forall a ensures AddressOk(s', a) { assert AddressOk(s, a); }
  }

  lemma StartSessions(s: State, d: Tid, o: SessionRef)
    requires SessionsOk(s) && AddressesOk(s)
    requires d !in s.threads && IsAlive(s, o) && s.sessions[o].handle !in s.dispatch
    ensures SessionsOk(Started(s, d, o))
  {
    assert SessionOk(s, o);
    SessionsKept(s, Started(s, d, o), {d}, {o});
  }

  lemma StartThreads(s: State, d: Tid, o: SessionRef)
    requires ThreadsOk(s) && ReadersOk(s)
    requires d !in s.threads && IsAlive(s, o) && s.sessions[o].handle !in s.dispatch
    ensures ThreadsOk(Started(s, d, o))
  {
    var s' := Started(s, d, o);
    assert Only(s, s', {d}, {o}) && Respects(s, s.sessions[o], s'.sessions[o], {d});
    assert ThreadOk(s', d);
    ThreadsKept(s, s', {d}, {o});
  }

  lemma StartReaders(s: State, d: Tid, o: SessionRef)
    requires ReadersOk(s) && d !in s.threads && o in s.sessions
    ensures ReadersOk(Started(s, d, o))
  {
  }

  lemma StartKeeps(s: State, d: Tid, o: SessionRef)
    requires Inv(s) && d !in s.threads && IsAlive(s, o) && s.sessions[o].handle !in s.dispatch
    ensures Inv(Started(s, d, o))
  {
    var s' := Started(s, d, o);
    StartThreads(s, d, o);
    StartReaders(s, d, o);
    StartSessions(s, d, o);
    StartTables(s, d, o);
    CallbacksSame(s, s');
  }

  lemma SubDispatchKeeps(s: State, t: Tid, d: Tid, ok: bool)
    requires Inv(s) && CanSubDispatch(s, t, d, ok)
    ensures Inv(DoSubDispatch(s, t, d, ok))
  {
    var SubAdded(id, o, stream) := s.threads[t];
    assert ThreadOk(s, t);
    var s1 := s.(threads := s.threads[t := SubRunning(id, o, stream)]);
    QuietKeeps(s, s1, t, SubRunning(id, o, stream));
    if s.sessions[o].handle !in s.dispatch && ok {
      InTableAlive(s, id);
      StartKeeps(s1, d, o);
      assert DoSubDispatch(s, t, d, ok) == Started(s1, d, o);
    }
  }

  /** A session nobody has connected yet is referenced by nobody. */
  lemma UnknownUnheld(s: State, o: SessionRef)
    requires ThreadsOk(s) && CountsOk(s) && o !in s.sessions
    ensures Entries(s.table, o) == {} && Locals(s.threads, o) == {}
  {
    forall t | t in s.threads ensures HeldRef(s.threads[t]) != Some(o) { assert ThreadOk(s, t); }
  }

  lemma ConnectTables(s: State, t: Tid, o: SessionRef, a: Addr)
    requires CountsOk(s) && AddressesOk(s) && CanConnect(s, t, o, a)
    requires Entries(s.table, o) == {} && Locals(s.threads, o) == {}
    ensures CountsOk(DoConnect(s, t, o, a)) && AddressesOk(DoConnect(s, t, o, a))
  {
    var s' := DoConnect(s, t, o, a);
    forall p | p in s'.sessions ensures CountOk(s', p) {
      LocalsGain(s.threads, t, Adding(o), o, p);
      if p != o { assert CountOk(s, p); }
    }
    forall b ensures AddressOk(s', b) { assert AddressOk(s, b); }
  }

  lemma ConnectSessions(s: State, t: Tid, o: SessionRef, a: Addr)
    requires SessionsOk(s) && AddressesOk(s) && CanConnect(s, t, o, a)
    ensures SessionsOk(DoConnect(s, t, o, a))
  {
    assert AddressOk(s, a);
    SessionsKept(s, DoConnect(s, t, o, a), {t}, {o});
  }

  lemma ConnectThreads(s: State, t: Tid, o: SessionRef, a: Addr)
    requires ThreadsOk(s) && ReadersOk(s) && CanConnect(s, t, o, a)
    ensures ThreadsOk(DoConnect(s, t, o, a)) && ReadersOk(DoConnect(s, t, o, a))
  {
    ThreadsKept(s, DoConnect(s, t, o, a), {t}, {o});
  }

  lemma ConnectKeeps(s: State, t: Tid, o: SessionRef, a: Addr)
    requires Inv(s) && CanConnect(s, t, o, a)
    ensures Inv(DoConnect(s, t, o, a))
  {
    var s' := DoConnect(s, t, o, a);
    assert AddressOk(s, a);
    UnknownUnheld(s, o);
    ConnectThreads(s, t, o, a);
    ConnectSessions(s, t, o, a);
    ConnectTables(s, t, o, a);
    CallbacksSame(s, s');
  }

  lemma AddSessionCounts(s: State, t: Tid)
    requires CountsOk(s) && CanAddSession(s, t)
    ensures CountsOk(DoAddSession(s, t))
  {
    var s', o := DoAddSession(s, t), s.threads[t].o;
    HeldAlive(s, t, o);
    forall p | p in s'.sessions ensures CountOk(s', p) {
      assert CountOk(s, p);
      LocalsSame(s.threads, t, s'.threads[t], p);
      if s.counter !in s.table { EntriesGain(s.table, s.counter, o, p); }
    }
  }

  lemma AddedSession(s: State, t: Tid)
    requires CanAddSession(s, t) && SessionOk(s, s.threads[t].o)
    ensures SessionOk(DoAddSession(s, t), s.threads[t].o)
  {
  }

  lemma AddSessionSessions(s: State, t: Tid)
    requires SessionsOk(s) && CanAddSession(s, t)
    ensures SessionsOk(DoAddSession(s, t))
  {
    var s', o := DoAddSession(s, t), s.threads[t].o;
    assert SessionOk(s, o);
    AddedSession(s, t);
    SessionsKept(s, s', {t}, {o});
  }

  lemma AddSessionThreads(s: State, t: Tid)
    requires ThreadsOk(s) && ReadersOk(s) && CanAddSession(s, t)
    ensures ThreadsOk(DoAddSession(s, t)) && ReadersOk(DoAddSession(s, t))
  {
    ThreadsKept(s, DoAddSession(s, t), {t}, {s.threads[t].o});
  }

  lemma AddSessionAddresses(s: State, t: Tid)
    requires AddressesOk(s) && CallbacksOk(s) && CanAddSession(s, t)
    ensures AddressesOk(DoAddSession(s, t)) && CallbacksOk(DoAddSession(s, t))
  {
    var s' := DoAddSession(s, t);
    forall a ensures AddressOk(s', a) { assert AddressOk(s, a); }
    CallbacksSame(s, s');
  }

  lemma AddSessionKeeps(s: State, t: Tid)
    requires Inv(s) && CanAddSession(s, t)
    ensures Inv(DoAddSession(s, t))
  {
    AddSessionCounts(s, t);
    AddSessionSessions(s, t);
    AddSessionThreads(s, t);
    AddSessionAddresses(s, t);
  }

  lemma RemoveSessionCounts(s: State, t: Tid)
    requires CountsOk(s) && CanRemoveSession(s, t) && s.threads[t].id in s.table
    ensures CountsOk(DoRemoveSession(s, t))
  {
    var s', id := DoRemoveSession(s, t), s.threads[t].id;
    var o := s.table[id];
    assert s.table == s'.table[id := o];
    forall p | p in s'.sessions ensures CountOk(s', p) {
      assert CountOk(s, p);
      EntriesGain(s'.table, id, o, p);
      LocalsGain(s.threads, t, Removed(o), o, p);
    }
  }

  lemma RemoveSessionThreads(s: State, t: Tid)
    requires ThreadsOk(s) && ReadersOk(s) && CountsOk(s) && CanRemoveSession(s, t) && s.threads[t].id in s.table
    ensures ThreadsOk(DoRemoveSession(s, t)) && ReadersOk(DoRemoveSession(s, t))
  {
    ThreadsKept(s, DoRemoveSession(s, t), {t}, {});
  }

  lemma RemoveSessionSessions(s: State, t: Tid)
    requires SessionsOk(s) && AddressesOk(s) && CanRemoveSession(s, t) && s.threads[t].id in s.table
    ensures SessionsOk(DoRemoveSession(s, t)) && AddressesOk(DoRemoveSession(s, t))
  {
    var s' := DoRemoveSession(s, t);
    SessionsKept(s, s', {t}, {});
    forall a ensures AddressOk(s', a) { assert AddressOk(s, a); }
  }

  lemma RemoveSessionKeeps(s: State, t: Tid)
    requires Inv(s) && CanRemoveSession(s, t)
    ensures Inv(DoRemoveSession(s, t))
  {
    var s' := DoRemoveSession(s, t);
    if s.threads[t].id in s.table {
      RemoveSessionCounts(s, t);
      RemoveSessionThreads(s, t);
      RemoveSessionSessions(s, t);
      CallbacksSame(s, s');
    } else {
      QuietKeeps(s, s', t, Finished);
    }
  }

  // ---- Every action -------------------------------------------------------------------------------

  lemma InitialInv()
    ensures Inv(INITIAL)
  {
    forall a ensures AddressOk(INITIAL, a) {}
    forall a, j: nat ensures CallbackOk(INITIAL, a, j) {}
  }

  lemma CallStepKeeps(s: State, l: Label, s': State)
    requires Inv(s) && CallStep(s, l, s')
    ensures Inv(s')
  {
    CallKeeps(s, s', l.t, s'.threads[l.t]);
  }

  lemma ReleaseStepKeeps(s: State, l: Label, s': State)
    requires Inv(s) && ReleaseStep(s, l, s')
    ensures Inv(s')
  {
    var pc := s.threads[l.t];
    var o := HeldRef(pc).value;
    var ret := if l.ResetEnd? then BackToHandler(pc.frame) else EndCall;
    if s.sessions[o].refs > 1 {
      ReleaseSharedKeeps(s, l.t, o, ret);
    } else {
      ReleaseLastKeeps(s, l.t, o, ret);
    }
  }

  lemma TableStepKeeps(s: State, l: Label, s': State)
    requires Inv(s) && TableStep(s, l, s')
    ensures Inv(s')
  {
    match l
    case Connect(t, o, a) => ConnectKeeps(s, t, o, a);
    case AddSession(t) => AddSessionKeeps(s, t);
    case RemoveSession(t) => RemoveSessionKeeps(s, t);
    case RpcEnter(t) => RpcEnterKeeps(s, t);
    case RpcReturn(t) => RpcReturnKeeps(s, t);
    case StreamReturn(t) => StreamReturnKeeps(s, t);
  }

  lemma SubscribeStepKeeps(s: State, l: Label, s': State)
    requires Inv(s) && SubscribeStep(s, l, s')
    ensures Inv(s')
  {
    match l
    case SubEnter(t) => SubEnterKeeps(s, t);
    case SubLock(t) => SubLockKeeps(s, t);
    case SubAdd(t) => SubAddKeeps(s, t);
    case SubDispatch(t, d, ok) => SubDispatchKeeps(s, t, d, ok);
    case SubPromise(t) => SubPromiseKeeps(s, t);
    case SubLeave(t) => SubLeaveKeeps(s, t);
  }

  lemma HandlerStepKeeps(s: State, l: Label, s': State)
    requires Inv(s) && HandlerStep(s, l, s')
    ensures Inv(s')
  {
    match l
    case Notify(t, note) => NotifyKeeps(s, t, note);
    case HandlerEnter(t) => HandlerEnterKeeps(s, t);
    case CallNext(t) => CallNextKeeps(s, t);
    case CallEnd(t) => CallEndKeeps(s, t);
    case WeakLock(t) => WeakLockKeeps(s, t);
    case HandlerLeave(t) => HandlerLeaveKeeps(s, t);
    case DispatchExit(t) => DispatchExitKeeps(s, t);
  }

  lemma DestructorStepKeeps(s: State, l: Label, s': State)
    requires Inv(s) && DestructorStep(s, l, s')
    ensures Inv(s')
  {
    match l
    case EraseCallbacks(t) => EraseCallbacksKeeps(s, t);
    case PromisesLock(t) => PromisesLockKeeps(s, t);
    case PromiseFulfil(t) => PromiseFulfilKeeps(s, t);
    case PromisesUnlock(t) => PromisesUnlockKeeps(s, t);
    case SendClose(t) => SendCloseKeeps(s, t);
    case Free(t) => FreeKeeps(s, t);
  }
}
