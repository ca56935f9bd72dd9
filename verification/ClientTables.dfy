/**
 The two tables of the client as the source updates them, in place, with what was done to them so far as
 ghost state. The actions of ClientModel use the same functions that these methods are proved against.
 */
module ClientTables {
  import opened Wrappers
  import opened ClientModel
  import opened ClientIds

  // ---- Callbacks ----------------------------------------------------------------------------------

  datatype Event = Registers(a: Addr, cb: Callback) | Erases(a: Addr)

  /** The callbacks registered under `a` since they were last erased, oldest first. */
  function Since(history: seq<Event>, a: Addr): seq<Callback> {
    if history == [] then [] else
    var before, e := Since(history[..|history| - 1], a), history[|history| - 1];
    if e.a != a then before else if e.Registers? then before + [e.cb] else []
  }

  lemma SinceNext(history: seq<Event>, e: Event, a: Addr)
    ensures Since(history + [e], a) ==
      if e.a != a then Since(history, a) else if e.Registers? then Since(history, a) + [e.cb] else []
  {
    assert (history + [e])[..|history|] == history;
  }

  /** `globalNotificationCallbacks` with its three functions. */
  class CallbackTable {
    var callbacks: map<Addr, seq<Callback>>
    ghost var history: seq<Event>

    /** The table holds what its history comes to. */
    ghost predicate Valid()
      reads this
    {
      forall a {:trigger Since(history, a)} :: Registered(callbacks, a) == Since(history, a)
    }

    constructor ()
      ensures Valid() && history == []
    {
      callbacks, history := map[], [];
    }

    method Add(a: Addr, cb: Callback)
      requires Valid()
      modifies this
      ensures Valid() && history == old(history) + [Registers(a, cb)]
      ensures callbacks == WithCallback(old(callbacks), a, cb)
    {
      if a !in callbacks {
        callbacks := callbacks[a := []];
      }
      callbacks := callbacks[a := callbacks[a] + [cb]];
      history := history + [Registers(a, cb)];
      forall b ensures Registered(callbacks, b) == Since(history, b) {
        SinceNext(old(history), Registers(a, cb), b);
        assert Registered(old(callbacks), b) == Since(old(history), b);
      }
    }

    method Remove(a: Addr)
      requires Valid()
      modifies this
      ensures Valid() && history == old(history) + [Erases(a)]
      ensures callbacks == old(callbacks) - {a}
    {
      callbacks := callbacks - {a};
      history := history + [Erases(a)];
      forall b ensures Registered(callbacks, b) == Since(history, b) {
        SinceNext(old(history), Erases(a), b);
        assert Registered(old(callbacks), b) == Since(old(history), b);
      }
    }

    /** The loop of `globalNotificationHandler`: the callbacks registered since the address was last
        erased, all of them, once each, in the order in which they were registered. */
    method Handle(a: Addr) returns (invoked: seq<Callback>)
      requires Valid()
      ensures invoked == Registered(callbacks, a) == Since(history, a)
    {
      invoked := [];
      if a in callbacks {
        for i := 0 to |callbacks[a]|
          invariant invoked == callbacks[a][..i]
        {
          invoked := invoked + [callbacks[a][i]];
        }
      }
      assert Registered(callbacks, a) == Since(history, a);
    }
  }

  // ---- Sessions -----------------------------------------------------------------------------------

  /** `sessions_` and `sessionsCounter_`, with what was issued and closed. */
  class SessionTable {
    var sessions: map<nat, SessionRef>
    var counter: nat
    ghost var issued: seq<SessionRef>
    ghost var closed: seq<nat>

    ghost predicate Valid()
      reads this
    {
      LedgerOk(sessions, counter, issued, closed)
    }

    constructor ()
      ensures Valid() && sessions == map[] && issued == [] && closed == []
    {
      sessions, counter, issued, closed := map[], 0, [], [];
    }

    /** The id leads to the session exactly when it was free; within 2^32 sessions it always is. */
    method AddSession(o: SessionRef) returns (id: nat)
      requires Valid()
      modifies this
      ensures Valid() && issued == old(issued) + [o] && closed == old(closed)
      ensures id == |old(issued)| % ID_SPACE
      ensures id in old(sessions) ==> sessions == old(sessions)
      ensures id !in old(sessions) ==> sessions == old(sessions)[id := o]
      ensures |old(issued)| < ID_SPACE ==> id !in old(sessions) && id !in closed && issued[id] == o
    {
      AddKeepsLedger(sessions, counter, issued, closed, o);
      id := counter;
      counter := (counter + 1) % ID_SPACE;
      if id !in sessions {
        sessions := sessions[id := o];
      }
      issued := issued + [o];
    }

    /** Within 2^32 sessions an id can be removed exactly if it was issued and has not been removed
        before, and what is handed over is the session it was issued for. */
    method RemoveSession(id: nat) returns (removed: Option<SessionRef>)
      requires Valid()
      modifies this
      ensures Valid() && issued == old(issued)
      ensures removed == if id in old(sessions) then Some(old(sessions)[id]) else None
      ensures sessions == old(sessions) - {id} && closed == old(closed) + if removed.Some? then [id] else []
      ensures |issued| <= ID_SPACE ==>
        (removed.Some? <==> id < |issued| && id !in old(closed)) && (removed.Some? ==> removed.value == issued[id])
    {
      if id in sessions {
        RemoveKeepsLedger(sessions, counter, issued, closed, id);
        removed := Some(sessions[id]);
        sessions := sessions - {id};
        closed := closed + [id];
      } else {
        removed := None;
        assert sessions - {id} == sessions;
      }
    }
  }
}
