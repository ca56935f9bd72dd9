/**
 Session ids over whole runs: what an id reaches and for how long, when two sessions are given the
 same id, and what becomes of a session whose id was still in use.
 */
module ClientIds {
  import opened Wrappers
  import opened ClientModel
  import opened ClientInvariant
  import opened ClientFrame
  import opened ClientRuns

  // ---- The ledger: what was issued and closed -------------------------------------------------------

  /** As long as no id has come round again: entry `k` is there exactly until it is closed. */
  ghost predicate LedgerOk(table: map<nat, SessionRef>, counter: nat, issued: seq<SessionRef>, closed: seq<nat>) {
    && counter == |issued| % ID_SPACE
    && (|issued| <= ID_SPACE ==>
          && (forall id :: id in table ==> id < |issued|)
          && (forall k :: 0 <= k < |issued| ==>
                if k in closed then k !in table else k in table && table[k] == issued[k])
          && (forall p :: 0 <= p < |closed| ==> closed[p] < |issued|)
          && (forall p, q :: 0 <= p < q < |closed| ==> closed[p] != closed[q]))
  }

  lemma AddKeepsLedger(table: map<nat, SessionRef>, counter: nat, issued: seq<SessionRef>, closed: seq<nat>,
                       o: SessionRef)
    requires LedgerOk(table, counter, issued, closed)
    ensures LedgerOk(WithSession(table, counter, o), NextId(counter), issued + [o], closed)
    ensures |issued| < ID_SPACE ==> counter == |issued| && counter !in table && counter !in closed
  {
  }

  lemma RemoveKeepsLedger(table: map<nat, SessionRef>, counter: nat, issued: seq<SessionRef>, closed: seq<nat>,
                          id: nat)
    requires LedgerOk(table, counter, issued, closed) && id in table
    ensures LedgerOk(table - {id}, counter, issued, closed + [id])
    ensures |issued| <= ID_SPACE ==> id !in closed && table[id] == issued[id]
  {
  }

  ghost predicate IdsOk(s: State) {
    LedgerOk(s.table, s.counter, s.issued, s.closed)
  }

  lemma IdsStep(s: State, l: Label, s': State)
    requires IdsOk(s) && Step(s, l, s')
    ensures IdsOk(s')
  {
    if l.AddSession? || l.RemoveSession? {
      TableIdsStep(s, l, s');
    } else {
      StepFramed(s, l, s');
    }
  }

  lemma TableIdsStep(s: State, l: Label, s': State)
    requires IdsOk(s) && Step(s, l, s') && (l.AddSession? || l.RemoveSession?)
    ensures IdsOk(s')
  {
    if l.AddSession? {
      AddKeepsLedger(s.table, s.counter, s.issued, s.closed, s.threads[l.t].o);
    } else {
      var id := s.threads[l.t].id;
      if id in s.table { RemoveKeepsLedger(s.table, s.counter, s.issued, s.closed, id); }
    }
  }

  lemma {:induction false} ReachableIds(run: seq<State>, labels: seq<Label>, i: nat)
    requires Behaviour(run, labels) && i < |run|
    ensures IdsOk(run[i])
  {
    if i > 0 {
      ReachableIds(run, labels, i - 1);
      assert StepAt(run, labels, i - 1);
      IdsStep(run[i - 1], labels[i - 1], run[i]);
    }
  }

  /** In a run that has added at most 2^32 sessions, the id issued by the k-th addSession is k. It maps
      to the session it was issued for until it is closed, is closed at most once, and maps to nothing
      from then on. */
  lemma IdsAreForLife(run: seq<State>, labels: seq<Label>, i: nat, j: nat, k: nat)
    requires Behaviour(run, labels) && i <= j < |run| && |run[j].issued| <= ID_SPACE && k < |run[i].issued|
    ensures k < |run[j].issued| && run[j].issued[k] == run[i].issued[k]
    ensures k !in run[j].closed ==> k in run[j].table && run[j].table[k] == run[i].issued[k]
    ensures k in run[i].closed ==> k in run[j].closed && k !in run[j].table
    ensures forall p, q :: 0 <= p < q < |run[j].closed| ==> !(run[j].closed[p] == run[j].closed[q] == k)
  {
    RunGrows(run, labels, i, j);
    ReachableIds(run, labels, j);
  }

  // ---- Who is given which id ------------------------------------------------------------------------

  /** Step `i` of the run is an addSession that hands out `id` for session `o`. */
  predicate Given(run: seq<State>, labels: seq<Label>, i: nat, o: SessionRef, id: nat) {
    && i < |labels| && i + 1 < |run| && labels[i].AddSession?
    && labels[i].t in run[i + 1].threads && run[i + 1].threads[labels[i].t] == Added(o, id)
  }

  /** The id an addSession hands out: the number of those before it, modulo 2^32. */
  lemma IssuedId(run: seq<State>, labels: seq<Label>, i: nat) returns (o: SessionRef)
    requires Behaviour(run, labels) && i < |labels| && labels[i].AddSession?
    ensures Given(run, labels, i, o, |run[i].issued| % ID_SPACE)
    ensures run[i].counter == |run[i].issued| % ID_SPACE && run[i + 1].issued == run[i].issued + [o]
    ensures CanAddSession(run[i], labels[i].t) && run[i].threads[labels[i].t] == Adding(o)
    ensures run[i + 1] == DoAddSession(run[i], labels[i].t)
  {
    ReachableIds(run, labels, i);
    assert StepAt(run, labels, i);
    o := run[i].threads[labels[i].t].o;
  }

  lemma SameRemainder(a: nat, b: nat)
    requires a <= b
    ensures a % ID_SPACE == b % ID_SPACE <==> (b - a) % ID_SPACE == 0
  {
  }

  /** Two sessions of a run are given the same id exactly when a multiple of 2^32 were added from the one
      to the other. */
  lemma SameIdIff(run: seq<State>, labels: seq<Label>, i: nat, j: nat, o: SessionRef, p: SessionRef, id: nat, id': nat)
    requires Behaviour(run, labels) && i < j
    requires Given(run, labels, i, o, id) && Given(run, labels, j, p, id')
    ensures |run[i].issued| < |run[j].issued|
    ensures id == id' <==> (|run[j].issued| - |run[i].issued|) % ID_SPACE == 0
  {
    var _ := IssuedId(run, labels, i);
    var _ := IssuedId(run, labels, j);
    RunGrows(run, labels, i + 1, j);
    SameRemainder(|run[i].issued|, |run[j].issued|);
  }

  /** Every issued session has its addSession. */
  lemma {:induction false} AddStep(run: seq<State>, labels: seq<Label>, n: nat, k: nat) returns (i: nat)
    requires Behaviour(run, labels) && n < |labels| && k < |run[n + 1].issued|
    ensures i <= n && labels[i].AddSession? && |run[i].issued| == k
    decreases n
  {
    i := n;
    if k < |run[n].issued| {
      FirstIssued(run, labels, n);
      i := AddStep(run, labels, n - 1, k);
    } else {
      LastAdds(run, labels, n);
    }
  }

  lemma FirstIssued(run: seq<State>, labels: seq<Label>, n: nat)
    requires Behaviour(run, labels) && n < |run|
    ensures run[n].issued != [] ==> n > 0
  {
  }

  lemma LastAdds(run: seq<State>, labels: seq<Label>, i: nat)
    requires Behaviour(run, labels) && i < |labels| && |run[i].issued| != |run[i + 1].issued|
    ensures labels[i].AddSession? && |run[i + 1].issued| == |run[i].issued| + 1
  {
    assert StepAt(run, labels, i);
    if !labels[i].AddSession? { StepFramed(run[i], labels[i], run[i + 1]); }
  }

  /** Two sessions of the run were given one id. */
  ghost predicate SharesId(run: seq<State>, labels: seq<Label>) {
    exists i: nat, j: nat, o, p, id :: i < j && Given(run, labels, i, o, id) && Given(run, labels, j, p, id)
  }

  /** No id of a run is given twice exactly when the run adds at most 2^32 sessions. */
  lemma UniqueIdsIff(run: seq<State>, labels: seq<Label>)
    requires Behaviour(run, labels)
    ensures !SharesId(run, labels) <==> |run[|labels|].issued| <= ID_SPACE
  {
    var n := |labels|;
    if |run[n].issued| > ID_SPACE {
      FirstIssued(run, labels, n);
      var i := AddStep(run, labels, n - 1, 0);
      var j := AddStep(run, labels, n - 1, ID_SPACE);
      if j <= i { RunGrows(run, labels, j, i); }
      var o := IssuedId(run, labels, i);
      var p := IssuedId(run, labels, j);
      assert Given(run, labels, i, o, 0) && Given(run, labels, j, p, 0);
    } else if SharesId(run, labels) {
      var i: nat, j: nat, o, p, id :| i < j && Given(run, labels, i, o, id) && Given(run, labels, j, p, id);
      SharingFar(run, labels, i, j, o, p, id);
    }
  }

  lemma SharingFar(run: seq<State>, labels: seq<Label>, i: nat, j: nat, o: SessionRef, p: SessionRef, id: nat)
    requires Behaviour(run, labels) && i < j && Given(run, labels, i, o, id) && Given(run, labels, j, p, id)
    ensures |run[|labels|].issued| > ID_SPACE
  {
    SameIdIff(run, labels, i, j, o, p, id, id);
    var _ := IssuedId(run, labels, j);
    RunGrows(run, labels, j + 1, |labels|);
    MultipleIsFar(|run[i].issued|, |run[j].issued|);
  }

  lemma MultipleIsFar(a: nat, b: nat)
    requires a < b && (b - a) % ID_SPACE == 0
    ensures a + ID_SPACE <= b
  {
  }

  // ---- What a label does to the table ---------------------------------------------------------------

  /** Thread `l.t` calls removeSession with `id`. */
  predicate Removes(s: State, l: Label, id: nat) {
    l.RemoveSession? && l.t in s.threads && s.threads[l.t] == Removing(id)
  }

  predicate MapsTo(s: State, id: nat, o: SessionRef) {
    id in s.table && s.table[id] == o
  }

  lemma EntryStep(s: State, l: Label, s': State, id: nat)
    requires Step(s, l, s')
    ensures id in s.table && !Removes(s, l, id) ==> MapsTo(s', id, s.table[id])
    ensures id !in s.table && !(l.AddSession? && s.counter == id) ==> id !in s'.table
    ensures Removes(s, l, id) ==> id !in s'.table
  {
    if !l.AddSession? && !l.RemoveSession? { StepFramed(s, l, s'); }
  }

  lemma NewEntry(s: State, l: Label, s': State, id: nat, o: SessionRef)
    requires Step(s, l, s') && MapsTo(s', id, o) && !MapsTo(s, id, o)
    ensures l.AddSession? && l.t in s.threads && s.threads[l.t] == Adding(o)
  {
    if !l.AddSession? && !l.RemoveSession? { StepFramed(s, l, s'); }
  }

  /** An entry stays until a removeSession of its id, and then it is gone. */
  lemma {:induction false} EntryStays(run: seq<State>, labels: seq<Label>, i: nat, j: nat, id: nat)
    requires Behaviour(run, labels) && i <= j < |run| && id in run[i].table
    requires forall k :: i <= k < j ==> !Removes(run[k], labels[k], id)
    ensures MapsTo(run[j], id, run[i].table[id])
    ensures j < |labels| && Removes(run[j], labels[j], id) ==> id !in run[j + 1].table
    decreases j
  {
    if i < j {
      EntryStays(run, labels, i, j - 1, id);
      assert StepAt(run, labels, j - 1);
      EntryStep(run[j - 1], labels[j - 1], run[j], id);
    }
    if j < |labels| {
      assert StepAt(run, labels, j);
      EntryStep(run[j], labels[j], run[j + 1], id);
    }
  }

  /** An id that is not in the table stays out until it is handed out again. */
  lemma {:induction false} EntryGone(run: seq<State>, labels: seq<Label>, i: nat, j: nat, id: nat)
    requires Behaviour(run, labels) && i <= j < |run| && id !in run[i].table
    requires forall k :: i <= k < j ==> !(labels[k].AddSession? && run[k].counter == id)
    ensures id !in run[j].table
    decreases j
  {
    if i < j {
      EntryGone(run, labels, i, j - 1, id);
      assert StepAt(run, labels, j - 1);
      EntryStep(run[j - 1], labels[j - 1], run[j], id);
    }
  }

  // ---- A session that only its caller knows ---------------------------------------------------------

  /** Only thread `t`, on its way through connect, refers to `o`. */
  ghost predicate Hidden(s: State, t: Tid, o: SessionRef) {
    && t in s.threads && (s.threads[t] == Adding(o) || (s.threads[t].Added? && s.threads[t].o == o))
    && o in s.sessions && CallbacksOf(s, o) == []
    && (forall u :: u in s.threads && u != t ==> HeldRef(s.threads[u]) != Some(o))
    && (forall id :: id in s.table ==> s.table[id] != o)
  }

  /** How a thread can come by a reference to `o`. */
  predicate Gains(s: State, l: Label, o: SessionRef) {
    match l
    case Connect(_, p, _) => p == o && o !in s.sessions
    case RemoveSession(t) => t in s.threads && s.threads[t].Removing? && MapsTo(s, s.threads[t].id, o)
    case WeakLock(t) => t in s.threads && s.threads[t].Calling? && s.threads[t].cb == Supervision(o)
    case _ => false
  }

  predicate NewlyHolds(s: State, s': State, u: Tid, o: SessionRef) {
    && u in s'.threads && HeldRef(s'.threads[u]) == Some(o)
    && !(u in s.threads && HeldRef(s.threads[u]) == Some(o))
  }

  lemma LandsHolding(s: State, l: Label, pc: Pc, o: SessionRef)
    requires Fits(s, l) && Lands(s, l, pc) && HeldRef(pc) == Some(o)
    requires !(l.t in s.threads && HeldRef(s.threads[l.t]) == Some(o)) && (l.Connect? ==> l.o !in s.sessions)
    ensures Gains(s, l, o)
  {
  }

  lemma ConnectsUnknown(s: State, l: Label, s': State)
    requires Step(s, l, s') && l.Connect?
    ensures l.o !in s.sessions
  {
  }

  lemma NewHolder(s: State, l: Label, s': State, u: Tid, o: SessionRef)
    requires Step(s, l, s') && NewlyHolds(s, s', u, o)
    ensures Gains(s, l, o)
  {
    HolderActs(s, l, s', u, o);
    StepFits(s, l, s');
    if l.Connect? { ConnectsUnknown(s, l, s'); }
    LandsHolding(s, l, s'.threads[u], o);
  }

  lemma HolderActs(s: State, l: Label, s': State, u: Tid, o: SessionRef)
    requires Step(s, l, s') && NewlyHolds(s, s', u, o)
    ensures u == l.t
  {
    if u != l.t {
      OtherThreads(s, l, s', u);
      NothingNew(s, s', u, o);
    }
  }

  lemma NothingNew(s: State, s': State, u: Tid, o: SessionRef)
    requires u in s'.threads
    requires if u in s.threads then s'.threads[u] == s.threads[u] || s'.threads[u] == Finished else s'.threads[u].Idle?
    ensures !NewlyHolds(s, s', u, o)
  {
  }

  /** A supervision callback that runs is registered under its own session. */
  lemma SupervisionTarget(s: State, u: Tid, o: SessionRef)
    requires Inv(s) && u in s.threads && s.threads[u].Calling? && s.threads[u].cb == Supervision(o)
    ensures o in s.sessions && CallbacksOf(s, o) != []
  {
    assert ThreadOk(s, u);
    var f := s.threads[u].frame;
    var a := s.sessions[f.session].handle;
    assert SessionOk(s, f.session) && AddressOk(s, a) && CallbackOk(s, a, f.pos);
  }

  lemma CallbacksChange(s: State, l: Label, s': State, a: Addr)
    requires Step(s, l, s') && Registered(s'.callbacks, a) != Registered(s.callbacks, a)
    ensures (l.EraseCallbacks? && Registered(s'.callbacks, a) == [])
         || (CanSubAdd(s, l.t) && a == s.sessions[s.threads[l.t].o].handle)
  {
    if !l.EraseCallbacks? && !l.SubAdd? { StepFramed(s, l, s'); }
  }

  lemma HiddenCallbacks(s: State, l: Label, s': State, t: Tid, o: SessionRef)
    requires Inv(s) && Step(s, l, s') && Hidden(s, t, o)
    ensures Registered(s'.callbacks, s.sessions[o].handle) == []
  {
    var a := s.sessions[o].handle;
    if Registered(s'.callbacks, a) != [] {
      CallbacksChange(s, l, s', a);
      HiddenAddress(s, l.t, t, o);
    }
  }

  lemma HiddenAddress(s: State, u: Tid, t: Tid, o: SessionRef)
    requires Inv(s) && Hidden(s, t, o) && CanSubAdd(s, u)
    ensures s.sessions[s.threads[u].o].handle != s.sessions[o].handle
  {
    assert ThreadOk(s, u);
    InTableAlive(s, s.threads[u].id);
    HeldAlive(s, t, o);
    assert SessionOk(s, o) && SessionOk(s, s.threads[u].o);
  }

  lemma NotGained(s: State, l: Label, t: Tid, o: SessionRef)
    requires Inv(s) && Hidden(s, t, o)
    ensures !Gains(s, l, o)
  {
    if l.WeakLock? && Gains(s, l, o) { SupervisionTarget(s, l.t, o); }
  }

  lemma HiddenUnheld(s: State, l: Label, s': State, t: Tid, o: SessionRef)
    requires Inv(s) && Step(s, l, s') && Hidden(s, t, o)
    ensures forall u :: u in s'.threads && u != t ==> HeldRef(s'.threads[u]) != Some(o)
  {
    NotGained(s, l, t, o);
    forall u | u in s'.threads && u != t ensures HeldRef(s'.threads[u]) != Some(o) {
      if NewlyHolds(s, s', u, o) { NewHolder(s, l, s', u, o); }
    }
  }

  lemma HiddenUnmapped(s: State, l: Label, s': State, t: Tid, o: SessionRef)
    requires Step(s, l, s') && Hidden(s, t, o) && l.t != t
    ensures forall id :: id in s'.table ==> s'.table[id] != o
  {
    forall id | id in s'.table ensures s'.table[id] != o {
      if MapsTo(s', id, o) && !MapsTo(s, id, o) { NewEntry(s, l, s', id, o); }
    }
  }

  lemma HiddenStep(s: State, l: Label, s': State, t: Tid, o: SessionRef)
    requires Inv(s) && Step(s, l, s') && Hidden(s, t, o) && l.t != t
    ensures Hidden(s', t, o)
  {
    StepFramed(s, l, s');
    StepGrows(s, l, s');
    ThreadStays(s, l, s', t);
    HiddenCallbacks(s, l, s', t, o);
    HiddenUnheld(s, l, s', t, o);
    HiddenUnmapped(s, l, s', t, o);
  }

  lemma ConnectHides(s: State, t: Tid, o: SessionRef, a: Addr)
    requires Inv(s) && CanConnect(s, t, o, a)
    ensures Hidden(DoConnect(s, t, o, a), t, o)
  {
    UnknownUnheld(s, o);
    assert AddressOk(s, a);
    forall u | u in s.threads ensures HeldRef(s.threads[u]) != Some(o) { assert u !in Locals(s.threads, o); }
    forall id | id in s.table ensures s.table[id] != o { assert id !in Entries(s.table, o); }
  }

  lemma LandsAdding(s: State, l: Label, pc: Pc)
    requires Fits(s, l) && Lands(s, l, pc) && pc.Adding?
    ensures l.Connect? && pc.o == l.o
  {
  }

  /** A thread is about to add a session only because it has just connected it. */
  lemma NewAdding(s: State, l: Label, s': State, t: Tid, o: SessionRef)
    requires Step(s, l, s') && t in s'.threads && s'.threads[t] == Adding(o)
    ensures (l.Connect? && l.t == t && l.o == o) || (l.t != t && t in s.threads && s.threads[t] == Adding(o))
  {
    if l.t == t {
      StepFits(s, l, s');
      LandsAdding(s, l, s'.threads[t]);
    } else {
      OtherThreads(s, l, s', t);
    }
  }

  lemma {:induction false} AddingIsHidden(run: seq<State>, labels: seq<Label>, i: nat, t: Tid, o: SessionRef)
    requires Behaviour(run, labels) && i < |run| && t in run[i].threads && run[i].threads[t] == Adding(o)
    ensures Hidden(run[i], t, o)
    decreases i
  {
    if i > 0 {
      Reachable(run, labels, i - 1);
      assert StepAt(run, labels, i - 1);
      NewAdding(run[i - 1], labels[i - 1], run[i], t, o);
      if labels[i - 1].t == t {
        ConnectHides(run[i - 1], t, o, labels[i - 1].a);
      } else {
        AddingIsHidden(run, labels, i - 1, t, o);
        HiddenStep(run[i - 1], labels[i - 1], run[i], t, o);
      }
    }
  }

  // ---- Every session is issued once -----------------------------------------------------------------

  lemma {:induction false} IssuedConnected(run: seq<State>, labels: seq<Label>, i: nat, o: SessionRef)
    requires Behaviour(run, labels) && i < |run| && o in run[i].issued
    ensures o in run[i].sessions
    decreases i
  {
    if i > 0 {
      NextGrows(run, labels, i - 1);
      if o in run[i - 1].issued {
        IssuedConnected(run, labels, i - 1, o);
      } else {
        NewlyIssued(run, labels, i - 1, o);
      }
    }
  }

  lemma NewlyIssued(run: seq<State>, labels: seq<Label>, i: nat, o: SessionRef)
    requires Behaviour(run, labels) && i < |labels| && o in run[i + 1].issued && o !in run[i].issued
    ensures labels[i].AddSession? && CanAddSession(run[i], labels[i].t) && run[i].threads[labels[i].t] == Adding(o)
    ensures o in run[i + 1].sessions
  {
    assert StepAt(run, labels, i);
    if !labels[i].AddSession? { StepFramed(run[i], labels[i], run[i + 1]); }
  }

  lemma AddingUnissuedStep(s: State, l: Label, s': State, t: Tid, o: SessionRef)
    requires Step(s, l, s') && t in s'.threads && s'.threads[t] == Adding(o)
    requires o in s.issued ==> o in s.sessions && (t in s.threads ==> s.threads[t] != Adding(o))
    requires t in s.threads && s.threads[t] == Adding(o) ==> Hidden(s, t, o)
    ensures o !in s'.issued
  {
    NewAdding(s, l, s', t, o);
    if l.Connect? { ConnectsUnknown(s, l, s'); }
    IssuedGrows(s, l, s');
  }

  lemma IssuedGrows(s: State, l: Label, s': State)
    requires Step(s, l, s')
    ensures if l.AddSession? then CanAddSession(s, l.t) && s'.issued == s.issued + [s.threads[l.t].o]
      else s'.issued == s.issued
  {
    if !l.AddSession? { StepFramed(s, l, s'); }
  }

  /** A session that is about to be added has not been added before. */
  lemma {:induction false} AddingNotIssued(run: seq<State>, labels: seq<Label>, i: nat, t: Tid, o: SessionRef)
    requires Behaviour(run, labels) && i < |run| && t in run[i].threads && run[i].threads[t] == Adding(o)
    ensures o !in run[i].issued
    decreases i
  {
    if i > 0 {
      var s := run[i - 1];
      if o in s.issued { IssuedConnected(run, labels, i - 1, o); }
      if t in s.threads && s.threads[t] == Adding(o) {
        AddingNotIssued(run, labels, i - 1, t, o);
        AddingIsHidden(run, labels, i - 1, t, o);
      }
      assert StepAt(run, labels, i - 1);
      AddingUnissuedStep(s, labels[i - 1], run[i], t, o);
    }
  }

  /** No session is added twice. */
  lemma {:induction false} IssuedOnce(run: seq<State>, labels: seq<Label>, i: nat, p: nat, q: nat)
    requires Behaviour(run, labels) && i < |run| && p < q < |run[i].issued|
    ensures run[i].issued[p] != run[i].issued[q]
    decreases i
  {
    if i > 0 {
      NextGrows(run, labels, i - 1);
      if q < |run[i - 1].issued| {
        IssuedOnce(run, labels, i - 1, p, q);
      } else {
        LastAdds(run, labels, i - 1);
        var o := IssuedId(run, labels, i - 1);
        AddingNotIssued(run, labels, i - 1, labels[i - 1].t, o);
      }
    }
  }

  lemma {:induction false} TableIssued(run: seq<State>, labels: seq<Label>, i: nat, id: nat)
    requires Behaviour(run, labels) && i < |run| && id in run[i].table
    ensures run[i].table[id] in run[i].issued
    decreases i
  {
    if i > 0 {
      NextGrows(run, labels, i - 1);
      assert StepAt(run, labels, i - 1);
      var o := run[i].table[id];
      if MapsTo(run[i - 1], id, o) {
        TableIssued(run, labels, i - 1, id);
      } else {
        NewEntry(run[i - 1], labels[i - 1], run[i], id, o);
        var _ := IssuedId(run, labels, i - 1);
      }
    }
  }

  ghost predicate EntriesIssued(s: State) {
    forall id :: id in s.table ==> s.table[id] in s.issued
  }

  lemma TableAllIssued(run: seq<State>, labels: seq<Label>, i: nat)
    requires Behaviour(run, labels) && i < |run|
    ensures EntriesIssued(run[i])
  {
    var s := run[i];
    forall id | id in s.table ensures s.table[id] in s.issued { TableIssued(run, labels, i, id); }
  }

  ghost predicate IssuedAt(s: State, a: Addr) {
    Registered(s.callbacks, a) != [] && a in s.live ==> s.live[a] in s.issued
  }

  lemma AddedIssued(s: State, l: Label, s': State, a: Addr)
    requires Inv(s) && Step(s, l, s') && EntriesIssued(s) && a in s'.live
    requires Registered(s'.callbacks, a) != [] && Registered(s'.callbacks, a) != Registered(s.callbacks, a)
    ensures a in s.live && s.live[a] in s.issued
  {
    CallbacksChange(s, l, s', a);
    AddedUnder(s, l.t);
  }

  lemma KeptIssued(s: State, a: Addr)
    requires Inv(s) && IssuedAt(s, a) && Registered(s.callbacks, a) != []
    ensures a in s.live && s.live[a] in s.issued
  {
    assert AddressOk(s, a);
  }

  lemma IssuedAtStep(s: State, l: Label, s': State, a: Addr)
    requires Inv(s) && Step(s, l, s') && IssuedAt(s, a) && s.issued <= s'.issued && EntriesIssued(s)
    ensures IssuedAt(s', a)
  {
    if Registered(s'.callbacks, a) != [] && a in s'.live {
      IssuedBefore(s, l, s', a);
      LiveStays(s, l, s', a);
    }
  }

  lemma IssuedBefore(s: State, l: Label, s': State, a: Addr)
    requires Inv(s) && Step(s, l, s') && IssuedAt(s, a) && EntriesIssued(s)
    requires Registered(s'.callbacks, a) != [] && a in s'.live
    ensures a in s.live && s.live[a] in s.issued
  {
    if Registered(s'.callbacks, a) == Registered(s.callbacks, a) {
      KeptIssued(s, a);
    } else {
      AddedIssued(s, l, s', a);
    }
  }

  /** Callbacks are registered only for sessions that were issued. */
  lemma {:induction false} CallbackIssued(run: seq<State>, labels: seq<Label>, i: nat, a: Addr)
    requires Behaviour(run, labels) && i < |run|
    ensures IssuedAt(run[i], a)
    decreases i
  {
    if i > 0 {
      CallbackIssued(run, labels, i - 1, a);
      NextGrows(run, labels, i - 1);
      Reachable(run, labels, i - 1);
      assert StepAt(run, labels, i - 1);
      TableAllIssued(run, labels, i - 1);
      IssuedAtStep(run[i - 1], labels[i - 1], run[i], a);
    }
  }

  lemma AddedUnder(s: State, t: Tid)
    requires Inv(s) && CanSubAdd(s, t)
    ensures var a := s.sessions[s.threads[t].o].handle; a in s.live && AtTable(s, s.threads[t].id, s.live[a])
  {
    assert ThreadOk(s, t);
    InTableAlive(s, s.threads[t].id);
    assert SessionOk(s, s.threads[t].o);
  }

  lemma LiveStays(s: State, l: Label, s': State, a: Addr)
    requires Step(s, l, s') && a in s.live && a in s'.live
    ensures s'.live[a] == s.live[a]
  {
    StepFramed(s, l, s');
  }

  lemma ResettingIssued(run: seq<State>, labels: seq<Label>, i: nat, t: Tid)
    requires Behaviour(run, labels) && i < |run| && t in run[i].threads && run[i].threads[t].Resetting?
    ensures run[i].threads[t].target in run[i].issued
  {
    var s := run[i];
    Reachable(run, labels, i);
    assert ThreadOk(s, t);
    var f := s.threads[t].frame;
    var a := s.sessions[f.session].handle;
    assert SessionOk(s, f.session) && AddressOk(s, a) && CallbackOk(s, a, f.pos);
    CallbackIssued(run, labels, i, a);
  }

  // ---- A session whose id was still in use ----------------------------------------------------------

  predicate Leaving(pc: Pc) {
    pc.Finished? || (pc.Destroying? && pc.ret.EndCall?)
  }

  ghost predicate Dead(s: State, t: Tid, o: SessionRef) {
    o in s.sessions && !s.sessions[o].life.Alive? && t in s.threads && Leaving(s.threads[t])
  }

  /** Nothing will ever lead to `o`: it is hidden and its addSession is over, or it is dead and its
      caller is past returning. */
  ghost predicate Lost(s: State, t: Tid, o: SessionRef) {
    && o in s.sessions && t in s.threads
    && if s.threads[t].Added? then Hidden(s, t, o) else Dead(s, t, o)
  }

  lemma HiddenCount(s: State, t: Tid, o: SessionRef)
    requires Inv(s) && Hidden(s, t, o)
    ensures s.sessions[o].refs == 1
  {
    assert CountOk(s, o);
    assert Entries(s.table, o) == {} && Locals(s.threads, o) == {t};
  }

  lemma LeavingLands(s: State, l: Label, pc: Pc)
    requires Fits(s, l) && Lands(s, l, pc) && l.t in s.threads && Leaving(s.threads[l.t])
    ensures Leaving(pc)
  {
  }

  lemma AddedFits(s: State, l: Label)
    requires Fits(s, l) && l.t in s.threads && s.threads[l.t].Added?
    ensures l.ConnectReturn?
  {
  }

  /** Returning from connect with a hidden session destroys it. */
  lemma LostReturns(s: State, t: Tid, o: SessionRef)
    requires Inv(s) && Hidden(s, t, o) && CanConnectReturn(s, t)
    ensures var s' := DoConnectReturn(s, t);
      && t in s'.threads && s'.threads[t] == Destroying(o, EndCall)
      && o in s'.sessions && !s'.sessions[o].life.Alive?
  {
    HiddenCount(s, t, o);
  }

  lemma OwnLostStep(s: State, l: Label, s': State, o: SessionRef)
    requires Inv(s) && Step(s, l, s') && Lost(s, l.t, o)
    ensures l.t in s'.threads && Leaving(s'.threads[l.t])
    ensures s.threads[l.t].Added? ==> o in s'.sessions && !s'.sessions[o].life.Alive?
  {
    StepFits(s, l, s');
    if s.threads[l.t].Added? {
      AddedFits(s, l);
      ReleaseByLabel(s, l, s');
      LostReturns(s, l.t, o);
    } else {
      LeavingLands(s, l, s'.threads[l.t]);
    }
  }

  lemma OthersKeepDead(s: State, l: Label, s': State, t: Tid, o: SessionRef)
    requires Inv(s) && Step(s, l, s') && Dead(s, t, o) && l.t != t
    ensures Dead(s', t, o)
  {
    DeadStays(s, l, s', o);
    LeavingStays(s, l, s', t);
  }

  lemma LostStep(s: State, l: Label, s': State, t: Tid, o: SessionRef)
    requires Inv(s) && Step(s, l, s') && Lost(s, t, o)
    ensures Lost(s', t, o)
  {
    if l.t == t {
      DeadStays(s, l, s', o);
      OwnLostStep(s, l, s', o);
    } else if s.threads[t].Added? {
      HiddenStep(s, l, s', t, o);
      AddedStays(s, l, s', t);
    } else {
      OthersKeepDead(s, l, s', t, o);
    }
  }

  lemma AddedStays(s: State, l: Label, s': State, t: Tid)
    requires Step(s, l, s') && t in s.threads && t != l.t && s.threads[t].Added?
    ensures t in s'.threads && s'.threads[t].Added?
  {
    ThreadStays(s, l, s', t);
  }

  lemma DeadStays(s: State, l: Label, s': State, o: SessionRef)
    requires Inv(s) && Step(s, l, s') && o in s.sessions
    ensures o in s'.sessions && (s'.sessions[o].life.Alive? ==> s.sessions[o].life.Alive?)
  {
    StepFramed(s, l, s');
    StepGrows(s, l, s');
  }

  lemma LeavingStays(s: State, l: Label, s': State, t: Tid)
    requires Step(s, l, s') && t in s.threads && t != l.t && Leaving(s.threads[t])
    ensures t in s'.threads && Leaving(s'.threads[t])
  {
    ThreadStays(s, l, s', t);
  }

  lemma {:induction false} LostRun(run: seq<State>, labels: seq<Label>, i: nat, j: nat, t: Tid, o: SessionRef)
    requires Behaviour(run, labels) && i <= j < |run| && Lost(run[i], t, o)
    ensures Lost(run[j], t, o)
    decreases j
  {
    if i < j {
      LostRun(run, labels, i, j - 1, t, o);
      Reachable(run, labels, j - 1);
      assert StepAt(run, labels, j - 1);
      LostStep(run[j - 1], labels[j - 1], run[j], t, o);
    }
  }

  lemma LostUnmapped(s: State, t: Tid, o: SessionRef, id: nat)
    requires Inv(s) && Lost(s, t, o)
    ensures !MapsTo(s, id, o)
  {
    if id in s.table { InTableAlive(s, id); }
  }

  lemma LostForEver(run: seq<State>, labels: seq<Label>, i: nat, j: nat, o: SessionRef, id: nat)
    requires Behaviour(run, labels) && i < j < |run| && Given(run, labels, i, o, id) && id in run[i].table
    ensures Lost(run[j], labels[i].t, o) && forall other :: !MapsTo(run[j], other, o)
  {
    var t := labels[i].t;
    var _ := IssuedId(run, labels, i);
    AddingIsHidden(run, labels, i, t, o);
    LostRun(run, labels, i + 1, j, t, o);
    Reachable(run, labels, j);
    forall other ensures !MapsTo(run[j], other, o) { LostUnmapped(run[j], t, o, other); }
  }

  /** In every run, of any length: an addSession leads its id to its session exactly when that id was
      free. If it was, the id leads there until a removeSession of it. If it was not, no id ever leads to
      the session, and connect destroys it when it returns. */
  lemma IdReachesIff(run: seq<State>, labels: seq<Label>, i: nat, j: nat, o: SessionRef, id: nat)
    requires Behaviour(run, labels) && i < j < |run| && Given(run, labels, i, o, id)
    ensures MapsTo(run[i + 1], id, o) <==> id !in run[i].table
    ensures id !in run[i].table && (forall k :: i < k < j ==> !Removes(run[k], labels[k], id)) ==> MapsTo(run[j], id, o)
    ensures id in run[i].table ==> forall other :: !MapsTo(run[j], other, o)
    ensures id in run[i].table && j < |labels| && labels[j] == ConnectReturn(labels[i].t) ==>
      labels[i].t in run[j + 1].threads && run[j + 1].threads[labels[i].t] == Destroying(o, EndCall)
  {
    var t := labels[i].t;
    var _ := IssuedId(run, labels, i);
    AddingIsHidden(run, labels, i, t, o);
    if id !in run[i].table {
      if forall k :: i < k < j ==> !Removes(run[k], labels[k], id) { EntryStays(run, labels, i + 1, j, id); }
    } else {
      LostForEver(run, labels, i, j, o, id);
      if j < |labels| && labels[j] == ConnectReturn(t) { ReturnDestroys(run, labels, j, o); }
    }
  }

  lemma ReturnDestroys(run: seq<State>, labels: seq<Label>, j: nat, o: SessionRef)
    requires Behaviour(run, labels) && j < |labels| && labels[j].ConnectReturn? && Lost(run[j], labels[j].t, o)
    ensures labels[j].t in run[j + 1].threads && run[j + 1].threads[labels[j].t] == Destroying(o, EndCall)
  {
    Reachable(run, labels, j);
    assert StepAt(run, labels, j);
    ReleaseByLabel(run[j], labels[j], run[j + 1]);
    LostReturns(run[j], labels[j].t, o);
  }

  // ---- A run that comes to it -----------------------------------------------------------------------

  /** Another session, numbered `n` like its address and its thread, is connected and stays open. */
  function WithOpen(s: State, n: nat): State {
    s.(threads := s.threads[n := Finished], sessions := s.sessions[n := Session(n, 1, 0, 0, None, Alive, 0, 0)],
       table := s.table[n := n], counter := NextId(n), live := s.live[n := n], issued := s.issued + [n])
  }

  /** `n` sessions are connected and open, one after the other. */
  function Open(n: nat): State {
    if n == 0 then INITIAL else WithOpen(Open(n - 1), n - 1)
  }

  ghost predicate Unused(s: State, n: nat) {
    && s.tableReaders == {} && s.counter == n % ID_SPACE && (n > 0 ==> 0 in s.table && s.table[0] == 0)
    && (forall m :: n <= m ==> m !in s.threads && m !in s.sessions && m !in s.live && m !in s.table)
  }

  lemma {:induction false} OpenUnused(n: nat)
    ensures Unused(Open(n), n)
  {
    if n > 0 {
      OpenUnused(n - 1);
      WithOpenUnused(Open(n - 1), n - 1);
    }
  }

  lemma WithOpenUnused(s: State, n: nat)
    requires Unused(s, n)
    ensures Unused(WithOpen(s, n), n + 1)
  {
  }

  /** What connecting, adding and returning come to. */
  lemma ThreeActions(s: State, n: nat, s1: State, s2: State)
    requires Unused(s, n) && n < ID_SPACE && s1 == DoConnect(s, n, n, n)
    requires CanAddSession(s1, n) && s2 == DoAddSession(s1, n)
    ensures CanConnectReturn(s2, n) && DoConnectReturn(s2, n) == WithOpen(s, n)
  {
    TwoActions(s, n);
  }

  lemma TwoActions(s: State, n: nat)
    requires Unused(s, n) && n < ID_SPACE
    ensures var s1 := DoConnect(s, n, n, n);
      && CanAddSession(s1, n) && DoAddSession(s1, n).threads == s.threads[n := Added(n, n)]
      && DoAddSession(s1, n).sessions == s.sessions[n := Session(n, 2, 0, 0, None, Alive, 0, 0)]
  {
  }

  /** Three actions open one more session. */
  lemma OneMore(s: State, n: nat)
    requires Unused(s, n) && n < ID_SPACE && Reaches(s)
    ensures Reaches(WithOpen(s, n))
  {
    var s1 := DoConnect(s, n, n, n);
    ReachStep(s, Connect(n, n, n), s1);
    var s2 := DoAddSession(s1, n);
    ReachStep(s1, AddSession(n), s2);
    ThreeActions(s, n, s1, s2);
    ReachStep(s2, ConnectReturn(n), WithOpen(s, n));
  }

  lemma {:induction false} OpenReaches(n: nat)
    requires n <= ID_SPACE
    ensures Reaches(Open(n))
  {
    if n == 0 {
      InitialReaches();
    } else {
      OpenReaches(n - 1);
      OpenUnused(n - 1);
      OneMore(Open(n - 1), n - 1);
    }
  }

  /** A reachable state in which addSession is about to hand out an id that another session still has:
      2^32 sessions stay open, and one more is connected. */
  lemma UsedIdReaches(n: nat)
    requires n == ID_SPACE
    ensures CanConnect(Open(n), n, n, n) && Reaches(DoConnect(Open(n), n, n, n))
    ensures var s := DoConnect(Open(n), n, n, n);
      CanAddSession(s, n) && MapsTo(s, s.counter, 0) && DoAddSession(s, n).threads[n] == Added(n, 0)
  {
    OpenUnused(n);
    OpenReaches(n);
    ReachStep(Open(n), Connect(n, n, n), DoConnect(Open(n), n, n, n));
  }
}
