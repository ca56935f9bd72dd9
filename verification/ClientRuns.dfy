/**
 Runs of the client: the invariant holds all along, and some things are never undone.
 */
module ClientRuns {
  import opened Wrappers
  import opened ClientModel
  import opened ClientInvariant
  import opened ClientFrame

  // ---- The invariant over runs --------------------------------------------------------------------

  /** Every action keeps the invariant. */
  lemma StepKeeps(s: State, l: Label, s': State)
    requires Inv(s) && Step(s, l, s')
    ensures Inv(s')
  {
    if CallStep(s, l, s') {
      CallStepKeeps(s, l, s');
    } else if ReleaseStep(s, l, s') {
      ReleaseStepKeeps(s, l, s');
    } else if TableStep(s, l, s') {
      TableStepKeeps(s, l, s');
    } else if SubscribeStep(s, l, s') {
      SubscribeStepKeeps(s, l, s');
    } else if HandlerStep(s, l, s') {
      HandlerStepKeeps(s, l, s');
    } else {
      DestructorStepKeeps(s, l, s');
    }
  }

  /** Every state of every run satisfies the invariant. */
  lemma {:induction false} Reachable(run: seq<State>, labels: seq<Label>, i: nat)
    requires Behaviour(run, labels) && i < |run|
    ensures Inv(run[i])
  {
    if i == 0 {
      InitialInv();
    } else {
      Reachable(run, labels, i - 1);
      assert StepAt(run, labels, i - 1);
      StepKeeps(run[i - 1], labels[i - 1], run[i]);
    }
  }

  // ---- What a run never undoes ----------------------------------------------------------------------

  /** What a run never undoes. */
  ghost predicate Grows(s: State, s': State) {
    && (forall t :: t in s.threads && s.threads[t].Finished? ==> t in s'.threads && s'.threads[t].Finished?)
    && (forall o :: o in s.sessions ==> o in s'.sessions && SessionGrows(s.sessions[o], s'.sessions[o]))
    && s.issued <= s'.issued && s.closed <= s'.closed && s.log <= s'.log
  }

  lemma StepGrows(s: State, l: Label, s': State)
    requires CountsOk(s) && Framed(s, l, s')
    ensures Grows(s, s')
  {
    forall o | o in s.sessions ensures o in s'.sessions && SessionGrows(s.sessions[o], s'.sessions[o]) {
      assert CountOk(s, o);
    }
  }

  lemma GrowsOn(s: State, s': State, s'': State)
    requires Grows(s, s') && Grows(s', s'')
    ensures Grows(s, s'')
  {
  }

  lemma NextGrows(run: seq<State>, labels: seq<Label>, i: nat)
    requires Behaviour(run, labels) && i < |labels|
    ensures Grows(run[i], run[i + 1])
  {
    Reachable(run, labels, i);
    assert StepAt(run, labels, i);
    StepFramed(run[i], labels[i], run[i + 1]);
    StepGrows(run[i], labels[i], run[i + 1]);
  }

  lemma {:induction false} RunGrows(run: seq<State>, labels: seq<Label>, i: nat, j: nat)
    requires Behaviour(run, labels) && i <= j < |run|
    ensures Grows(run[i], run[j])
    decreases j - i
  {
    if i < j {
      NextGrows(run, labels, i);
      RunGrows(run, labels, i + 1, j);
      GrowsOn(run[i], run[i + 1], run[j]);
    }
  }

  // ---- Reachable states -----------------------------------------------------------------------------

  ghost predicate Reaches(s: State) {
    exists run, labels :: Behaviour(run, labels) && run[|run| - 1] == s
  }

  lemma InitialReaches()
    ensures Reaches(INITIAL)
  {
    assert Behaviour([INITIAL], []);
  }

  lemma ReachStep(s: State, l: Label, s': State)
    requires Reaches(s) && Step(s, l, s')
    ensures Reaches(s')
  {
    var run, labels :| Behaviour(run, labels) && run[|run| - 1] == s;
    var run', labels' := run + [s'], labels + [l];
    forall i: nat | i < |labels'| ensures StepAt(run', labels', i) {
      assert i < |labels| ==> StepAt(run, labels, i);
    }
    assert Behaviour(run', labels') && run'[|run'| - 1] == s';
  }
}
