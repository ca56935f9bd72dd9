/**
 The M-plane client: gRPC calls, libnetconf2 notification threads and `NetconfSession`
 destructors, as a labelled transition system. A state holds every thread's program counter,
 the two reader/writer locks, the session table, the global callback table, each session's
 strong-reference count, mutex and promises, and the heap of `nc_session` addresses, which may
 be handed out again after a free.

 One label is one atomic action of one thread. An exclusive lock section that touches only what
 the lock protects is a single action, enabled only while nobody holds the lock; a shared lock is
 held across actions and its holders are recorded. A thread number stands for one gRPC call or
 one notification thread and is never used twice.
 */
module ClientModel {
  import opened Wrappers

  type Addr = nat
  type SessionRef = nat
  type Tid = nat

  const ID_SPACE: nat := 0x1_0000_0000

  /** What is stored in the global callback table. A stream callback captures the `writer` that
      lives in the frame of call `call`; a supervision callback captures a weak reference. */
  datatype Callback = Stream(call: Tid) | Supervision(target: SessionRef)

  /** The next statement of `~NetconfSession`. */
  datatype Stage = Erase | LockPromises | FulfilPromises | CloseSession | FreeHandle

  datatype Life = Alive | Dying(thread: Tid, stage: Stage) | Freed

  /** One `NetconfSession` with its `shared_ptr` control block. `fulfilled` promises, out of
      `promises`, have had `set_value` called, in order. `starts` and `exits` count the
      notification threads that were started for it and that ended before the free. */
  datatype Session = Session(handle: Addr, refs: nat, promises: nat, fulfilled: nat,
                             mutex: Option<Tid>, life: Life, starts: nat, exits: nat)

  /** One activation of `globalNotificationHandler`: the callbacks registered when the lookup was
      made, the position of the loop, and the callbacks invoked so far. */
  datatype Frame = Frame(session: SessionRef, note: nat, want: seq<Callback>, pos: nat, got: seq<Callback>)

  /** Where control goes when a `shared_ptr` has been released. */
  datatype Return = EndCall | BackToHandler(frame: Frame)

  datatype Pc =
    | Finished
      // connect, listen
    | Adding(o: SessionRef)
    | Added(o: SessionRef, id: nat)
      // disconnect
    | Removing(id: nat)
    | Removed(o: SessionRef)
      // netconfRpc
    | RpcStart(id: nat)
    | RpcBusy(id: nat, o: SessionRef)
      // streamNotifications (stream) and startSupervision (!stream)
    | SubStart(id: nat, stream: bool)
    | SubFound(id: nat, o: SessionRef, stream: bool)
    | SubLocked(id: nat, o: SessionRef, stream: bool)
    | SubAdded(id: nat, o: SessionRef, stream: bool)
    | SubRunning(id: nat, o: SessionRef, stream: bool)
    | SubDone(id: nat, o: SessionRef, stream: bool, promise: nat)
    | StreamWaiting(o: SessionRef, promise: nat)
      // ~NetconfSession
    | Destroying(o: SessionRef, ret: Return)
      // notification thread
    | Idle(o: SessionRef)
    | Notified(o: SessionRef, note: nat)
    | Handling(frame: Frame)
    | Calling(frame: Frame, cb: Callback)
    | Resetting(frame: Frame, target: SessionRef)

  /** A finished activation of the notification handler. */
  datatype Delivery = Delivery(session: SessionRef, note: nat, want: seq<Callback>, got: seq<Callback>)

  /** `issued` and `closed` record, in order, the session each `addSession` was called for and
      each id that `removeSession` found; `log` records the finished handler activations. */
  datatype State = State(
    threads: map<Tid, Pc>,
    sessions: map<SessionRef, Session>,
    table: map<nat, SessionRef>,
    counter: nat,
    tableReaders: set<Tid>,
    callbacks: map<Addr, seq<Callback>>,
    callbackReaders: set<Tid>,
    live: map<Addr, SessionRef>,
    dispatch: map<Addr, Tid>,
    issued: seq<SessionRef>,
    closed: seq<nat>,
    log: seq<Delivery>)

  const INITIAL: State := State(map[], map[], map[], 0, {}, map[], {}, map[], map[], [], [], [])

  datatype Label =
    | Connect(t: Tid, o: SessionRef, a: Addr)
    | AddSession(t: Tid)
    | ConnectReturn(t: Tid)
    | CallDisconnect(t: Tid, id: nat)
    | RemoveSession(t: Tid)
    | DisconnectReturn(t: Tid)
    | CallRpc(t: Tid, id: nat)
    | RpcEnter(t: Tid)
    | RpcReturn(t: Tid)
    | CallSubscribe(t: Tid, id: nat, stream: bool)
    | SubEnter(t: Tid)
    | SubLock(t: Tid)
    | SubAdd(t: Tid)
    | SubDispatch(t: Tid, d: Tid, ok: bool)
    | SubPromise(t: Tid)
    | SubLeave(t: Tid)
    | StreamReturn(t: Tid)
    | Notify(t: Tid, note: nat)
    | HandlerEnter(t: Tid)
    | CallNext(t: Tid)
    | CallEnd(t: Tid)
    | WeakLock(t: Tid)
    | ResetEnd(t: Tid)
    | HandlerLeave(t: Tid)
    | DispatchExit(t: Tid)
    | EraseCallbacks(t: Tid)
    | PromisesLock(t: Tid)
    | PromiseFulfil(t: Tid)
    | PromisesUnlock(t: Tid)
    | SendClose(t: Tid)
    | Free(t: Tid)

  // ---- The tables, as the methods of the classes in ClientTables.dfy change them -------------

  /** The callbacks registered for address `a`; a missing entry holds none. */
  function Registered(callbacks: map<Addr, seq<Callback>>, a: Addr): seq<Callback> {
    if a in callbacks then callbacks[a] else []
  }

  /** `addGlobalNotificationCallback`: emplace an empty list unless one is there, then push back. */
  function WithCallback(callbacks: map<Addr, seq<Callback>>, a: Addr, cb: Callback): map<Addr, seq<Callback>> {
    callbacks[a := Registered(callbacks, a) + [cb]]
  }

  /** `sessions_.emplace`: an entry that is already there is left alone. */
  function WithSession(table: map<nat, SessionRef>, id: nat, o: SessionRef): map<nat, SessionRef> {
    if id in table then table else table[id := o]
  }

  /** `sessionsCounter_++` on a 32-bit counter. */
  function NextId(counter: nat): nat {
    (counter + 1) % ID_SPACE
  }

  /** Nothing has been erased yet: callbacks may still be registered under the session's address. */
  predicate Registering(life: Life) {
    life.Alive? || (life.Dying? && life.stage.Erase?)
  }

  // ---- Reading a program counter ---------------------------------------------------------------

  /** The session a thread keeps alive through a local `shared_ptr`. */
  function HeldRef(pc: Pc): Option<SessionRef> {
    match pc
    case Adding(o) => Some(o)
    case Added(o, _) => Some(o)
    case Removed(o) => Some(o)
    case Resetting(_, x) => Some(x)
    case _ => None
  }

  predicate HoldsTable(pc: Pc) {
    pc.RpcBusy? || pc.SubFound? || pc.SubLocked? || pc.SubAdded? || pc.SubRunning? || pc.SubDone?
  }

  predicate HoldsCallbacks(pc: Pc) {
    pc.Handling? || pc.Calling? || pc.Resetting? || (pc.Destroying? && pc.ret.BackToHandler?)
  }

  /** The session whose notification thread this is. */
  function DispatchOf(pc: Pc): Option<SessionRef> {
    match pc
    case Idle(o) => Some(o)
    case Notified(o, _) => Some(o)
    case Handling(f) => Some(f.session)
    case Calling(f, _) => Some(f.session)
    case Resetting(f, _) => Some(f.session)
    case Destroying(_, BackToHandler(f)) => Some(f.session)
    case _ => None
  }

  /** The session whose `nc_session` a thread at this point passes to libnetconf2. */
  function Uses(pc: Pc): Option<SessionRef> {
    match pc
    case Adding(o) => Some(o)
    case RpcBusy(_, o) => Some(o)
    case SubLocked(_, o, _) => Some(o)
    case SubAdded(_, o, _) => Some(o)
    case SubRunning(_, o, _) => Some(o)
    case SubDone(_, o, _, _) => Some(o)
    case Destroying(o, _) => Some(o)
    case Resetting(_, x) => Some(x)
    case _ => None
  }

  function After(ret: Return): Pc {
    match ret
    case EndCall => Finished
    case BackToHandler(f) => Handling(f.(pos := f.pos + 1))
  }

  // ---- The transition system -------------------------------------------------------------------

  /** Thread `t` runs the destructor of a session whose next statement is `stage`. */
  predicate Destroys(s: State, t: Tid, stage: Stage) {
    && t in s.threads && s.threads[t].Destroying?
    && s.threads[t].o in s.sessions
    && s.sessions[s.threads[t].o].life == Dying(t, stage)
  }

  predicate Counted(s: State, o: SessionRef) {
    o in s.sessions && s.sessions[o].refs > 0
  }

  /** Drop one strong reference to `o` held by thread `t`; the last one starts the destructor. */
  function Release(s: State, t: Tid, o: SessionRef, ret: Return): State
    requires Counted(s, o)
  {
    var x := s.sessions[o];
    if x.refs > 1 then
      s.(threads := s.threads[t := After(ret)], sessions := s.sessions[o := x.(refs := x.refs - 1)])
    else
      s.(threads := s.threads[t := Destroying(o, ret)],
         sessions := s.sessions[o := x.(refs := 0, life := Dying(t, Erase))])
  }

  /** Move thread `t` to `pc` and session `o` to `x`. */
  function Move(s: State, t: Tid, pc: Pc, o: SessionRef, x: Session): State {
    s.(threads := s.threads[t := pc], sessions := s.sessions[o := x])
  }

  /** The session that thread `t` is destroying becomes `x`, its destructor about to do `stage`. */
  function Advance(s: State, t: Tid, x: Session, stage: Stage): State
    requires t in s.threads && s.threads[t].Destroying?
  {
    s.(sessions := s.sessions[s.threads[t].o := x.(life := Dying(t, stage))])
  }

  /** connect, listen: libnetconf2 hands out an address that is not in use, for a new session. */
  predicate CanConnect(s: State, t: Tid, o: SessionRef, a: Addr) {
    t !in s.threads && o !in s.sessions && a !in s.live
  }

  function DoConnect(s: State, t: Tid, o: SessionRef, a: Addr): State
    requires CanConnect(s, t, o, a)
  {
    s.(threads := s.threads[t := Adding(o)],
       sessions := s.sessions[o := Session(a, 1, 0, 0, None, Alive, 0, 0)],
       live := s.live[a := o])
  }

  /** addSession under the exclusive table lock. */
  predicate CanAddSession(s: State, t: Tid) {
    t in s.threads && s.threads[t].Adding? && s.threads[t].o in s.sessions && s.tableReaders == {}
  }

  function DoAddSession(s: State, t: Tid): State
    requires CanAddSession(s, t)
  {
    var o := s.threads[t].o;
    var x := s.sessions[o];
    s.(threads := s.threads[t := Added(o, s.counter)],
       table := WithSession(s.table, s.counter, o),
       sessions := s.sessions[o := if s.counter in s.table then x else x.(refs := x.refs + 1)],
       counter := NextId(s.counter),
       issued := s.issued + [o])
  }

  /** connect returns and drops its local reference. */
  predicate CanConnectReturn(s: State, t: Tid) {
    t in s.threads && s.threads[t].Added? && Counted(s, s.threads[t].o)
  }

  function DoConnectReturn(s: State, t: Tid): State
    requires CanConnectReturn(s, t)
  {
    Release(s, t, s.threads[t].o, EndCall)
  }

  predicate CanCallDisconnect(s: State, t: Tid, id: nat) {
    t !in s.threads
  }

  function DoCallDisconnect(s: State, t: Tid, id: nat): State
    requires CanCallDisconnect(s, t, id)
  {
    s.(threads := s.threads[t := Removing(id)])
  }

  /** removeSession under the exclusive table lock; the returned copy takes over the reference of the erased entry. */
  predicate CanRemoveSession(s: State, t: Tid) {
    t in s.threads && s.threads[t].Removing? && s.tableReaders == {}
  }

  function DoRemoveSession(s: State, t: Tid): State
    requires CanRemoveSession(s, t)
  {
    var id := s.threads[t].id;
    if id in s.table then
      s.(threads := s.threads[t := Removed(s.table[id])], table := s.table - {id}, closed := s.closed + [id])
    else
      s.(threads := s.threads[t := Finished])
  }

  /** disconnect returns and drops what removeSession returned. */
  predicate CanDisconnectReturn(s: State, t: Tid) {
    t in s.threads && s.threads[t].Removed? && Counted(s, s.threads[t].o)
  }

  function DoDisconnectReturn(s: State, t: Tid): State
    requires CanDisconnectReturn(s, t)
  {
    Release(s, t, s.threads[t].o, EndCall)
  }

  predicate CanCallRpc(s: State, t: Tid, id: nat) {
    t !in s.threads
  }

  function DoCallRpc(s: State, t: Tid, id: nat): State
    requires CanCallRpc(s, t, id)
  {
    s.(threads := s.threads[t := RpcStart(id)])
  }

  /** netconfRpc takes the shared table lock and looks its id up. */
  predicate CanRpcEnter(s: State, t: Tid) {
    t in s.threads && s.threads[t].RpcStart?
  }

  function DoRpcEnter(s: State, t: Tid): State
    requires CanRpcEnter(s, t)
  {
    var id := s.threads[t].id;
    if id in s.table then
      s.(threads := s.threads[t := RpcBusy(id, s.table[id])], tableReaders := s.tableReaders + {t})
    else
      s.(threads := s.threads[t := Finished])
  }

  predicate CanRpcReturn(s: State, t: Tid) {
    t in s.threads && s.threads[t].RpcBusy?
  }

  function DoRpcReturn(s: State, t: Tid): State
    requires CanRpcReturn(s, t)
  {
    s.(threads := s.threads[t := Finished], tableReaders := s.tableReaders - {t})
  }

  predicate CanCallSubscribe(s: State, t: Tid, id: nat, stream: bool) {
    t !in s.threads
  }

  function DoCallSubscribe(s: State, t: Tid, id: nat, stream: bool): State
    requires CanCallSubscribe(s, t, id, stream)
  {
    s.(threads := s.threads[t := SubStart(id, stream)])
  }

  /** streamNotifications and startSupervision take the shared table lock and look their id up. */
  predicate CanSubEnter(s: State, t: Tid) {
    t in s.threads && s.threads[t].SubStart?
  }

  function DoSubEnter(s: State, t: Tid): State
    requires CanSubEnter(s, t)
  {
    var SubStart(id, stream) := s.threads[t];
    if id in s.table then
      s.(threads := s.threads[t := SubFound(id, s.table[id], stream)], tableReaders := s.tableReaders + {t})
    else
      s.(threads := s.threads[t := Finished])
  }

  /** addNotificationCallback locks the session's notificationStateMutex_. */
  predicate CanSubLock(s: State, t: Tid) {
    t in s.threads && s.threads[t].SubFound? && s.threads[t].o in s.sessions && s.sessions[s.threads[t].o].mutex.None?
  }

  function DoSubLock(s: State, t: Tid): State
    requires CanSubLock(s, t)
  {
    var SubFound(id, o, stream) := s.threads[t];
    Move(s, t, SubLocked(id, o, stream), o, s.sessions[o].(mutex := Some(t)))
  }

  /** addGlobalNotificationCallback under the exclusive callback lock. */
  predicate CanSubAdd(s: State, t: Tid) {
    t in s.threads && s.threads[t].SubLocked? && s.threads[t].o in s.sessions && s.callbackReaders == {}
  }

  function DoSubAdd(s: State, t: Tid): State
    requires CanSubAdd(s, t)
  {
    var SubLocked(id, o, stream) := s.threads[t];
    s.(threads := s.threads[t := SubAdded(id, o, stream)],
       callbacks := WithCallback(s.callbacks, s.sessions[o].handle, if stream then Stream(t) else Supervision(o)))
  }

  /** nc_recv_notif_dispatch, unless a notification thread is running; it may fail, and the code does not look. */
  predicate CanSubDispatch(s: State, t: Tid, d: Tid, ok: bool) {
    t in s.threads && s.threads[t].SubAdded? && s.threads[t].o in s.sessions && d !in s.threads
  }

  function DoSubDispatch(s: State, t: Tid, d: Tid, ok: bool): State
    requires CanSubDispatch(s, t, d, ok)
  {
    var SubAdded(id, o, stream) := s.threads[t];
    var x := s.sessions[o];
    if x.handle in s.dispatch || !ok then
      s.(threads := s.threads[t := SubRunning(id, o, stream)])
    else
      s.(threads := s.threads[t := SubRunning(id, o, stream)][d := Idle(o)],
         dispatch := s.dispatch[x.handle := d],
         sessions := s.sessions[o := x.(starts := x.starts + 1)])
  }

  /** addNotificationCallback pushes its promise and unlocks the mutex. */
  predicate CanSubPromise(s: State, t: Tid) {
    t in s.threads && s.threads[t].SubRunning? && s.threads[t].o in s.sessions
  }

  function DoSubPromise(s: State, t: Tid): State
    requires CanSubPromise(s, t)
  {
    var SubRunning(id, o, stream) := s.threads[t];
    var x := s.sessions[o];
    Move(s, t, SubDone(id, o, stream, x.promises), o, x.(promises := x.promises + 1, mutex := None))
  }

  /** The shared table lock is released; a stream call waits for its promise, a supervision call returns. */
  predicate CanSubLeave(s: State, t: Tid) {
    t in s.threads && s.threads[t].SubDone?
  }

  function DoSubLeave(s: State, t: Tid): State
    requires CanSubLeave(s, t)
  {
    var SubDone(id, o, stream, p) := s.threads[t];
    s.(threads := s.threads[t := if stream then StreamWaiting(o, p) else Finished],
       tableReaders := s.tableReaders - {t})
  }

  /** doneFuture.get() returns, and with it the call that owns the writer. */
  predicate CanStreamReturn(s: State, t: Tid) {
    && t in s.threads && s.threads[t].StreamWaiting? && s.threads[t].o in s.sessions
    && s.threads[t].promise < s.sessions[s.threads[t].o].fulfilled
  }

  function DoStreamReturn(s: State, t: Tid): State
    requires CanStreamReturn(s, t)
  {
    s.(threads := s.threads[t := Finished])
  }

  predicate CanNotify(s: State, t: Tid, note: nat) {
    t in s.threads && s.threads[t].Idle?
  }

  function DoNotify(s: State, t: Tid, note: nat): State
    requires CanNotify(s, t, note)
  {
    s.(threads := s.threads[t := Notified(s.threads[t].o, note)])
  }

  /** globalNotificationHandler takes the shared callback lock and looks its address up. */
  predicate CanHandlerEnter(s: State, t: Tid) {
    t in s.threads && s.threads[t].Notified? && s.threads[t].o in s.sessions
  }

  function DoHandlerEnter(s: State, t: Tid): State
    requires CanHandlerEnter(s, t)
  {
    var Notified(o, n) := s.threads[t];
    s.(threads := s.threads[t := Handling(Frame(o, n, Registered(s.callbacks, s.sessions[o].handle), 0, []))],
       callbackReaders := s.callbackReaders + {t})
  }

  /** The handler's loop invokes the next callback in the table. */
  predicate CanCallNext(s: State, t: Tid) {
    && t in s.threads && s.threads[t].Handling? && s.threads[t].frame.session in s.sessions
    && s.threads[t].frame.pos < |Registered(s.callbacks, s.sessions[s.threads[t].frame.session].handle)|
  }

  function DoCallNext(s: State, t: Tid): State
    requires CanCallNext(s, t)
  {
    var f := s.threads[t].frame;
    var cb := Registered(s.callbacks, s.sessions[f.session].handle)[f.pos];
    s.(threads := s.threads[t := Calling(f.(got := f.got + [cb]), cb)])
  }

  /** A callback returns: a stream write, or a supervision callback with nothing to do. */
  predicate CanCallEnd(s: State, t: Tid) {
    t in s.threads && s.threads[t].Calling?
  }

  function DoCallEnd(s: State, t: Tid): State
    requires CanCallEnd(s, t)
  {
    var f := s.threads[t].frame;
    s.(threads := s.threads[t := Handling(f.(pos := f.pos + 1))])
  }

  /** sessionRef.lock() in the supervision callback finds the session alive. */
  predicate CanWeakLock(s: State, t: Tid) {
    && t in s.threads && s.threads[t].Calling? && s.threads[t].cb.Supervision?
    && Counted(s, s.threads[t].cb.target)
  }

  function DoWeakLock(s: State, t: Tid): State
    requires CanWeakLock(s, t)
  {
    var Calling(f, cb) := s.threads[t];
    var x := s.sessions[cb.target];
    Move(s, t, Resetting(f, cb.target), cb.target, x.(refs := x.refs + 1))
  }

  /** The supervision callback returns and drops its reference. */
  predicate CanResetEnd(s: State, t: Tid) {
    t in s.threads && s.threads[t].Resetting? && Counted(s, s.threads[t].target)
  }

  function DoResetEnd(s: State, t: Tid): State
    requires CanResetEnd(s, t)
  {
    Release(s, t, s.threads[t].target, BackToHandler(s.threads[t].frame))
  }

  /** The handler's loop is over; the shared callback lock is released. */
  predicate CanHandlerLeave(s: State, t: Tid) {
    && t in s.threads && s.threads[t].Handling? && s.threads[t].frame.session in s.sessions
    && s.threads[t].frame.pos >= |Registered(s.callbacks, s.sessions[s.threads[t].frame.session].handle)|
  }

  function DoHandlerLeave(s: State, t: Tid): State
    requires CanHandlerLeave(s, t)
  {
    var f := s.threads[t].frame;
    s.(threads := s.threads[t := Idle(f.session)],
       callbackReaders := s.callbackReaders - {t},
       log := s.log + [Delivery(f.session, f.note, f.want, f.got)])
  }

  /** A notification thread ends on its own, for instance when the connection is lost. */
  predicate CanDispatchExit(s: State, t: Tid) {
    t in s.threads && s.threads[t].Idle? && s.threads[t].o in s.sessions
  }

  function DoDispatchExit(s: State, t: Tid): State
    requires CanDispatchExit(s, t)
  {
    var o := s.threads[t].o;
    var x := s.sessions[o];
    Move(s, t, Finished, o, x.(exits := x.exits + 1)).(dispatch := s.dispatch - {x.handle})
  }

  /** removeGlobalNotificationCallbacks under the exclusive callback lock. */
  predicate CanEraseCallbacks(s: State, t: Tid) {
    Destroys(s, t, Erase) && s.callbackReaders == {}
  }

  function DoEraseCallbacks(s: State, t: Tid): State
    requires CanEraseCallbacks(s, t)
  {
    var x := s.sessions[s.threads[t].o];
    Advance(s, t, x, LockPromises).(callbacks := s.callbacks - {x.handle})
  }

  predicate CanPromisesLock(s: State, t: Tid) {
    Destroys(s, t, LockPromises) && s.sessions[s.threads[t].o].mutex.None?
  }

  function DoPromisesLock(s: State, t: Tid): State
    requires CanPromisesLock(s, t)
  {
    Advance(s, t, s.sessions[s.threads[t].o].(mutex := Some(t)), FulfilPromises)
  }

  predicate CanPromiseFulfil(s: State, t: Tid) {
    && Destroys(s, t, FulfilPromises)
    && s.sessions[s.threads[t].o].fulfilled < s.sessions[s.threads[t].o].promises
  }

  function DoPromiseFulfil(s: State, t: Tid): State
    requires CanPromiseFulfil(s, t)
  {
    var x := s.sessions[s.threads[t].o];
    Advance(s, t, x.(fulfilled := x.fulfilled + 1), FulfilPromises)
  }

  predicate CanPromisesUnlock(s: State, t: Tid) {
    && Destroys(s, t, FulfilPromises)
    && s.sessions[s.threads[t].o].fulfilled >= s.sessions[s.threads[t].o].promises
  }

  function DoPromisesUnlock(s: State, t: Tid): State
    requires CanPromisesUnlock(s, t)
  {
    Advance(s, t, s.sessions[s.threads[t].o].(mutex := None), CloseSession)
  }

  predicate CanSendClose(s: State, t: Tid) {
    Destroys(s, t, CloseSession)
  }

  function DoSendClose(s: State, t: Tid): State
    requires CanSendClose(s, t)
  {
    Advance(s, t, s.sessions[s.threads[t].o], FreeHandle)
  }

  /** nc_session_free ends the session's notification thread, once that thread is outside the handler. */
  predicate CanFree(s: State, t: Tid) {
    && Destroys(s, t, FreeHandle)
    && var a := s.sessions[s.threads[t].o].handle;
       a in s.dispatch ==>
         s.dispatch[a] in s.threads && s.dispatch[a] != t && s.threads[s.dispatch[a]].Idle?
  }

  function DoFree(s: State, t: Tid): State
    requires CanFree(s, t)
  {
    var Destroying(o, ret) := s.threads[t];
    var x := s.sessions[o];
    var ended := if x.handle in s.dispatch then s.threads[s.dispatch[x.handle] := Finished] else s.threads;
    s.(threads := ended[t := After(ret)],
       sessions := s.sessions[o := x.(life := Freed)],
       live := s.live - {x.handle},
       dispatch := s.dispatch - {x.handle})
  }

  /** A new gRPC call. */
  predicate CallStep(s: State, l: Label, s': State) {
    match l
    case CallDisconnect(t, id) => CanCallDisconnect(s, t, id) && s' == DoCallDisconnect(s, t, id)
    case CallRpc(t, id) => CanCallRpc(s, t, id) && s' == DoCallRpc(s, t, id)
    case CallSubscribe(t, id, stream) => CanCallSubscribe(s, t, id, stream) && s' == DoCallSubscribe(s, t, id, stream)
    case _ => false
  }

  /** A local strong reference is dropped. */
  predicate ReleaseStep(s: State, l: Label, s': State) {
    match l
    case ConnectReturn(t) => CanConnectReturn(s, t) && s' == DoConnectReturn(s, t)
    case DisconnectReturn(t) => CanDisconnectReturn(s, t) && s' == DoDisconnectReturn(s, t)
    case ResetEnd(t) => CanResetEnd(s, t) && s' == DoResetEnd(s, t)
    case _ => false
  }

  /** Connections, the session table, and the calls that only read it. */
  predicate TableStep(s: State, l: Label, s': State) {
    match l
    case Connect(t, o, a) => CanConnect(s, t, o, a) && s' == DoConnect(s, t, o, a)
    case AddSession(t) => CanAddSession(s, t) && s' == DoAddSession(s, t)
    case RemoveSession(t) => CanRemoveSession(s, t) && s' == DoRemoveSession(s, t)
    case RpcEnter(t) => CanRpcEnter(s, t) && s' == DoRpcEnter(s, t)
    case RpcReturn(t) => CanRpcReturn(s, t) && s' == DoRpcReturn(s, t)
    case StreamReturn(t) => CanStreamReturn(s, t) && s' == DoStreamReturn(s, t)
    case _ => false
  }

  /** addNotificationCallback and its two callers. */
  predicate SubscribeStep(s: State, l: Label, s': State) {
    match l
    case SubEnter(t) => CanSubEnter(s, t) && s' == DoSubEnter(s, t)
    case SubLock(t) => CanSubLock(s, t) && s' == DoSubLock(s, t)
    case SubAdd(t) => CanSubAdd(s, t) && s' == DoSubAdd(s, t)
    case SubDispatch(t, d, ok) => CanSubDispatch(s, t, d, ok) && s' == DoSubDispatch(s, t, d, ok)
    case SubPromise(t) => CanSubPromise(s, t) && s' == DoSubPromise(s, t)
    case SubLeave(t) => CanSubLeave(s, t) && s' == DoSubLeave(s, t)
    case _ => false
  }

  /** The notification thread. */
  predicate HandlerStep(s: State, l: Label, s': State) {
    match l
    case Notify(t, note) => CanNotify(s, t, note) && s' == DoNotify(s, t, note)
    case HandlerEnter(t) => CanHandlerEnter(s, t) && s' == DoHandlerEnter(s, t)
    case CallNext(t) => CanCallNext(s, t) && s' == DoCallNext(s, t)
    case CallEnd(t) => CanCallEnd(s, t) && s' == DoCallEnd(s, t)
    case WeakLock(t) => CanWeakLock(s, t) && s' == DoWeakLock(s, t)
    case HandlerLeave(t) => CanHandlerLeave(s, t) && s' == DoHandlerLeave(s, t)
    case DispatchExit(t) => CanDispatchExit(s, t) && s' == DoDispatchExit(s, t)
    case _ => false
  }

  /** The destructor. */
  predicate DestructorStep(s: State, l: Label, s': State) {
    match l
    case EraseCallbacks(t) => CanEraseCallbacks(s, t) && s' == DoEraseCallbacks(s, t)
    case PromisesLock(t) => CanPromisesLock(s, t) && s' == DoPromisesLock(s, t)
    case PromiseFulfil(t) => CanPromiseFulfil(s, t) && s' == DoPromiseFulfil(s, t)
    case PromisesUnlock(t) => CanPromisesUnlock(s, t) && s' == DoPromisesUnlock(s, t)
    case SendClose(t) => CanSendClose(s, t) && s' == DoSendClose(s, t)
    case Free(t) => CanFree(s, t) && s' == DoFree(s, t)
    case _ => false
  }

  /** Label `l` leads from `s` to `s'`. */
  predicate Step(s: State, l: Label, s': State) {
    || CallStep(s, l, s')
    || ReleaseStep(s, l, s')
    || TableStep(s, l, s')
    || SubscribeStep(s, l, s')
    || HandlerStep(s, l, s')
    || DestructorStep(s, l, s')
  }

  /** A run: states joined by enabled labels, starting with nothing. */
  ghost predicate Behaviour(run: seq<State>, labels: seq<Label>) {
    && |run| == |labels| + 1
    && run[0] == INITIAL
    && forall i {:trigger StepAt(run, labels, i)} :: 0 <= i < |labels| ==> StepAt(run, labels, i)
  }

  predicate StepAt(run: seq<State>, labels: seq<Label>, i: nat)
    requires i < |labels| && i + 1 < |run|
  {
    Step(run[i], labels[i], run[i + 1])
  }
}
