/** What the getters of a file status answer, from the list of calls alone. */
module FileHistory {
  import opened Numbers
  import opened FileStatus

  /** A new object after the first `i` of the calls. */
  function At(calls: seq<Call>, i: nat): (s: Status)
    requires i <= |calls|
    ensures Sound(s)
  {
    if i == 0 then FRESH else
    StepSound(At(calls, i - 1), calls[i - 1]);
    Step(At(calls, i - 1), calls[i - 1])
  }

  lemma {:induction false} AtIsRun(calls: seq<Call>, i: nat)
    requires i <= |calls|
    ensures At(calls, i) == Run(FRESH, calls[..i])
  {
    if i > 0 {
      AtIsRun(calls, i - 1);
      assert calls[..i][..i - 1] == calls[..i - 1];
    }
  }

  lemma AtEnd(calls: seq<Call>)
    ensures At(calls, |calls|) == Run(FRESH, calls)
  {
    AtIsRun(calls, |calls|);
    assert calls[..|calls|] == calls;
  }

  lemma {:induction false} SkipManyKeeps(s: Status, k: nat)
    requires Sound(s)
    ensures var t := SkipMany(s, k);
      && Sound(t) && t.op == s.op && t.error == s.error && t.done == s.done
      && (if k == 0 then t == s
          else t.file == "" && t.fileProgress == 100 && t.total == Quotient(Wrap(t.cur * 100), t.num))
  {
    if k > 0 {
      SkipManyKeeps(s, k - 1);
      UpdateSound(Start(SkipMany(s, k - 1), ""), 100);
    }
  }

  /** What a call does to the operation, the error and the mark that all is done. */
  lemma CallSays(s: Status, call: Call)
    requires Sound(s)
    ensures Step(s, call).op == if call.CallOperation? then call.op else if call.CallRestart? then "" else s.op
    ensures Step(s, call).error == if call.CallFail? then call.error else if call.CallRestart? then "" else s.error
    ensures Step(s, call).done == (call.CallFail? || call.CallSuccess? || (s.done && !call.CallRestart?))
  {
    if call.CallSkipMany? { SkipManyKeeps(s, call.k); }
  }

  lemma CallNames(s: Status, call: Call)
    requires Sound(s)
    ensures Step(s, call).file == if call.CallStart? then call.file else if Names(call) then "" else s.file
  {
    if call.CallSkipMany? { SkipManyKeeps(s, call.k); }
  }

  // ---- Operation, error and completion ------------------------------------------------------------------

  /** The operation is the one of the latest call of `operation` since the latest restart. */
  lemma {:induction false} OperationAt(calls: seq<Call>, i: nat, n: nat)
    requires i <= n <= |calls| && (i > 0 ==> calls[i - 1].CallOperation? || calls[i - 1].CallRestart?)
    requires forall j :: i <= j < n ==> !calls[j].CallOperation? && !calls[j].CallRestart?
    ensures At(calls, n).op == if i > 0 && calls[i - 1].CallOperation? then calls[i - 1].op else ""
    decreases n
  {
    if i < n { OperationAt(calls, i, n - 1); }
    if n > 0 { CallSays(At(calls, n - 1), calls[n - 1]); }
  }

  /** The error is that of the latest failure since the latest restart. */
  lemma {:induction false} ErrorAt(calls: seq<Call>, i: nat, n: nat)
    requires i <= n <= |calls| && (i > 0 ==> calls[i - 1].CallFail? || calls[i - 1].CallRestart?)
    requires forall j :: i <= j < n ==> !calls[j].CallFail? && !calls[j].CallRestart?
    ensures At(calls, n).error == if i > 0 && calls[i - 1].CallFail? then calls[i - 1].error else ""
    decreases n
  {
    if i < n { ErrorAt(calls, i, n - 1); }
    if n > 0 { CallSays(At(calls, n - 1), calls[n - 1]); }
  }

  /** All is done exactly if there was a failure or a success since the latest restart. */
  lemma {:induction false} DoneAt(calls: seq<Call>, i: nat, n: nat)
    requires i <= n <= |calls| && (i > 0 ==> calls[i - 1].CallRestart?)
    requires forall j :: i <= j < n ==> !calls[j].CallRestart?
    ensures At(calls, n).done <==> exists j :: i <= j < n && (calls[j].CallFail? || calls[j].CallSuccess?)
    decreases n
  {
    if i < n { DoneAt(calls, i, n - 1); }
    if n > 0 { CallSays(At(calls, n - 1), calls[n - 1]); }
  }

  // ---- The current file -----------------------------------------------------------------------------------

  /** The call starts a file or forgets it. */
  predicate Names(call: Call) {
    call.CallRestart? || call.CallStart? || call.CallSkip? || (call.CallSkipMany? && call.k > 0)
  }

  /** The file is the one that was started last; a skipped one has no name, and a restart forgets it. */
  lemma {:induction false} FileAt(calls: seq<Call>, i: nat, n: nat)
    requires i <= n <= |calls| && (i > 0 ==> Names(calls[i - 1])) && forall j :: i <= j < n ==> !Names(calls[j])
    ensures At(calls, n).file == if i > 0 && calls[i - 1].CallStart? then calls[i - 1].file else ""
    decreases n
  {
    if i < n { FileAt(calls, i, n - 1); }
    if n > 0 { CallNames(At(calls, n - 1), calls[n - 1]); }
  }

  /** The call counts for the progress of the current file. A progress call does so once a file was started. */
  predicate Effective(s: Status, call: Call) {
    match call
    case CallOperation(_) => false
    case CallFail(_) => false
    case CallProgress(_) => s.cur >= 1
    case CallSkipMany(k) => k > 0
    case _ => true
  }

  predicate Counts(calls: seq<Call>, i: nat)
    requires i < |calls|
  {
    Effective(At(calls, i), calls[i])
  }

  /** The progress of the current file is what the latest such call says: nothing after a start or a restart,
      the clipped percentage after `progress`, and 100 after an end, a skip or a success. */
  lemma {:induction false} ProgressAt(calls: seq<Call>, i: nat, n: nat)
    requires i <= n <= |calls| && (i > 0 ==> Counts(calls, i - 1)) && forall j :: i <= j < n ==> !Counts(calls, j)
    ensures At(calls, n).fileProgress ==
      if i == 0 then 0 else
      match calls[i - 1]
      case CallRestart(_) => 0
      case CallStart(_) => 0
      case CallProgress(p) => if p > 100 then 100 else p
      case _ => 100
    decreases n
  {
    if i < n {
      ProgressAt(calls, i, n - 1);
      assert !Counts(calls, n - 1);
    }
    if n > 0 && calls[n - 1].CallSkipMany? { SkipManyKeeps(At(calls, n - 1), calls[n - 1].k); }
  }

  lemma TotalStill(s: Status, call: Call)
    requires Sound(s) && (!Effective(s, call) || call.CallStart?)
    ensures Step(s, call).total == s.total
  {
    if call.CallSkipMany? { SkipManyKeeps(s, call.k); }
  }

  lemma TotalStep(s: Status, call: Call)
    requires Sound(s) && Effective(s, call) && !call.CallStart?
    ensures var t := Step(s, call);
      t.num > 0 && t.total ==
      if call.CallRestart? then 0
      else if call.CallSuccess? then 100
      else if call.CallProgress? && call.p < 100 then Quotient(Wrap((s.cur - 1) * 100 + call.p), s.num)
      else Quotient(Wrap(t.cur * 100), t.num)
  {
    StepSound(s, call);
    if call.CallSkipMany? { SkipManyKeeps(s, call.k); }
  }

  /** The call leaves the total alone. */
  predicate Still(calls: seq<Call>, i: nat)
    requires i < |calls|
  {
    !Counts(calls, i) || calls[i].CallStart?
  }

  lemma {:induction false} TotalStays(calls: seq<Call>, i: nat, j: nat)
    requires i <= j <= |calls| && forall k :: i <= k < j ==> Still(calls, k)
    ensures At(calls, j).total == At(calls, i).total
    decreases j
  {
    if i < j {
      TotalStays(calls, i, j - 1);
      assert Still(calls, j - 1);
      TotalStill(At(calls, j - 1), calls[j - 1]);
    }
  }

  /** The total is what it was after the latest of these calls but `start`: the percentage of so many files, in
      32-bit arithmetic, with the numbers of the current file and of all files at that call. */
  lemma TotalAt(calls: seq<Call>, i: nat, n: nat)
    requires i < n <= |calls| && !Still(calls, i) && forall j :: i < j < n ==> Still(calls, j)
    ensures var s, t := At(calls, i), At(calls, i + 1);
      t.num > 0 && At(calls, n).total ==
      if calls[i].CallRestart? then 0
      else if calls[i].CallSuccess? then 100
      else if calls[i].CallProgress? && calls[i].p < 100 then Quotient(Wrap((s.cur - 1) * 100 + calls[i].p), s.num)
      else Quotient(Wrap(t.cur * 100), t.num)
  {
    TotalStep(At(calls, i), calls[i]);
    TotalStays(calls, i + 1, n);
  }

  // ---- How many files ---------------------------------------------------------------------------------------

  /** How many files a call starts. */
  function Starts(call: Call): nat {
    match call
    case CallStart(_) => 1
    case CallSkip => 1
    case CallSkipMany(k) => k
    case _ => 0
  }

  /** The files that the calls `i` to `j` start, skipped ones included. */
  function Started(calls: seq<Call>, i: nat, j: nat): nat
    requires i <= j <= |calls|
    decreases j
  {
    if i == j then 0 else Started(calls, i, j - 1) + Starts(calls[j - 1])
  }

  /** The numbers after `k` more files, from a file `cur` of `num`. */
  predicate Advanced(s: Status, t: Status, k: nat) {
    && t.cur == (s.cur + k) % TWO32
    && t.num == var last := if s.cur + k < TWO32 then s.cur + k else TWO32 - 1; if last > s.num then last else s.num
  }

  lemma StartAdvances(s: Status, t: Status, k: nat, file: string)
    requires Sound(t) && Advanced(s, t, k)
    ensures Advanced(s, Start(t, file), k + 1)
  {
  }

  lemma {:induction false} SkipsAdvance(s: Status, t: Status, k: nat, n: nat)
    requires Sound(t) && Advanced(s, t, k)
    ensures Sound(SkipMany(t, n)) && Advanced(s, SkipMany(t, n), k + n)
  {
    if n > 0 {
      SkipsAdvance(s, t, k, n - 1);
      StartAdvances(s, SkipMany(t, n - 1), k + n - 1, "");
      UpdateSound(Start(SkipMany(t, n - 1), ""), 100);
    }
  }

  lemma CallAdvances(s: Status, t: Status, k: nat, call: Call)
    requires Sound(t) && Advanced(s, t, k) && !call.CallRestart? && !call.CallSuccess?
    ensures Advanced(s, Step(t, call), k + Starts(call))
  {
    match call
    case CallStart(file) => StartAdvances(s, t, k, file);
    case CallSkip => StartAdvances(s, t, k, "");
    case CallSkipMany(n) => SkipsAdvance(s, t, k, n);
    case _ =>
  }

  lemma {:induction false} CallsAdvance(calls: seq<Call>, i: nat, j: nat)
    requires i <= j <= |calls| && forall k :: i <= k < j ==> !calls[k].CallRestart? && !calls[k].CallSuccess?
    ensures Advanced(At(calls, i), At(calls, j), Started(calls, i, j))
    decreases j
  {
    if i == j {
      Standing(At(calls, i));
    } else {
      CallsAdvance(calls, i, j - 1);
      CallAdvances(At(calls, i), At(calls, j - 1), Started(calls, i, j - 1), calls[j - 1]);
    }
  }

  lemma Standing(s: Status)
    requires Sound(s)
    ensures Advanced(s, s, 0)
  {
  }

  /** The current file is counted, modulo 2^32, from zero at the latest restart or from the number of files at
      the latest success; the number of files is the declared one, or the highest that was started. */
  lemma FilesAt(calls: seq<Call>, i: nat, n: nat)
    requires i <= n <= |calls| && (i > 0 ==> calls[i - 1].CallRestart? || calls[i - 1].CallSuccess?)
    requires forall j :: i <= j < n ==> !calls[j].CallRestart? && !calls[j].CallSuccess?
    ensures var before := if i == 0 then 1 else At(calls, i - 1).num;
      var num := if i > 0 && calls[i - 1].CallRestart? && calls[i - 1].n > 0 then calls[i - 1].n else before;
      var last := (if i > 0 && calls[i - 1].CallSuccess? then num else 0) + Started(calls, i, n);
      && At(calls, n).cur == last % TWO32
      && At(calls, n).num == if last <= num then num else if last < TWO32 then last else TWO32 - 1
  {
    CallsAdvance(calls, i, n);
  }
}
