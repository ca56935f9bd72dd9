/**
 Progress accounting over several files: counters of 32 bits, a percentage for the current file and
 one for all of them. What is shown to the user is not part of this model.
 */
module FileStatus {
  import opened Numbers

  /** The most files whose percentages do not overflow 32 bits. */
  const LIMIT := 42_949_672

  type uint = x: nat | x < TWO32

  /** Arithmetic on `unsigned`. */
  function Wrap(x: nat): uint {
    x % TWO32
  }

  datatype Status = Status(
    num: uint, cur: uint, op: string, file: string,
    fileProgress: uint, total: uint, done: bool, error: string, prev: int)

  const FRESH := Status(1, 0, "", "", 0, 0, false, "", -1)

  // ---- Division -----------------------------------------------------------------------------------

  /** Division of unsigned numbers. */
  function Quotient(x: nat, n: nat): (q: nat)
    requires n > 0
    ensures n * q <= x < n * (q + 1)
  {
    x / n
  }

  lemma Times(n: nat, a: nat, b: nat)
    requires a <= b
    ensures n * a <= n * b
  {
    var d := b - a;
    assert n * b == n * a + n * d;
  }

  lemma QuotientBelow(x: nat, n: nat, k: nat)
    requires n > 0
    ensures Quotient(x, n) < k <==> x < n * k
  {
    var q := Quotient(x, n);
    if q < k { Times(n, q + 1, k); } else { Times(n, k, q); }
  }

  lemma QuotientMonotone(x: nat, y: nat, n: nat)
    requires n > 0 && x <= y
    ensures Quotient(x, n) <= Quotient(y, n)
  {
    QuotientBelow(x, n, Quotient(y, n) + 1);
  }

  // ---- Operations over values ---------------------------------------------------------------------

  function Clip(p: nat): (r: nat)
    ensures r <= 100
  {
    if p > 100 then 100 else p
  }

  function Restart(s: Status, num: uint): Status {
    FRESH.(num := if num > 0 then num else s.num)
  }

  function Start(s: Status, file: string): Status {
    var cur := Wrap(s.cur + 1);
    s.(cur := cur, file := file, fileProgress := 0, num := if cur > s.num then cur else s.num)
  }

  lemma QuotientSmall(x: uint, n: nat)
    requires n > 0
    ensures Quotient(x, n) < TWO32
  {
    Times(Quotient(x, n), 1, n);
  }

  function Update(s: Status, progress: nat): Status
    requires s.num > 0 && (s.cur == 0 ==> progress >= 100)
  {
    var p := Clip(progress);
    QuotientSmall(if p == 100 then Wrap(s.cur * 100) else Wrap((s.cur - 1) * 100 + p), s.num);
    s.(prev := s.fileProgress, fileProgress := p,
       total := Quotient(if p == 100 then Wrap(s.cur * 100) else Wrap((s.cur - 1) * 100 + p), s.num))
  }

  function Progress(s: Status, p: nat): Status
    requires s.num > 0
  {
    if s.cur < 1 then s else Update(s, p)
  }

  function End(s: Status): Status
    requires s.num > 0
  {
    Update(s, 100)
  }

  function Skip(s: Status): Status
    requires s.num > 0
  {
    Update(Start(s, ""), 100)
  }

  function SkipMany(s: Status, n: nat): (r: Status)
    requires s.num > 0
    ensures r.num > 0
  {
    if n == 0 then s else Skip(SkipMany(s, n - 1))
  }

  function Fail(s: Status, error: string): Status {
    s.(error := error, done := true)
  }

  function Success(s: Status): Status
    requires s.num > 0
  {
    var t := if s.fileProgress < 100 then End(s) else s;
    t.(done := true, cur := t.num, fileProgress := 100, total := 100)
  }

  datatype Call =
    | CallRestart(n: uint) | CallOperation(op: string) | CallStart(file: string) | CallProgress(p: uint)
    | CallEnd | CallSkip | CallSkipMany(k: uint) | CallFail(error: string) | CallSuccess

  function Step(s: Status, call: Call): Status
    requires s.num > 0
  {
    match call
    case CallRestart(n) => Restart(s, n)
    case CallOperation(op) => s.(op := op)
    case CallStart(file) => Start(s, file)
    case CallProgress(p) => Progress(s, p)
    case CallEnd => End(s)
    case CallSkip => Skip(s)
    case CallSkipMany(k) => SkipMany(s, k)
    case CallFail(error) => Fail(s, error)
    case CallSuccess => Success(s)
  }

  // ---- What every run keeps -----------------------------------------------------------------------

  predicate Sound(s: Status) {
    s.num >= 1 && s.cur <= s.num && s.fileProgress <= 100 && s.total <= 100
  }

  lemma WrapAtMost(x: nat)
    ensures Wrap(x) <= x
  {
  }

  lemma UpdateSound(s: Status, p: nat)
    requires Sound(s) && (s.cur == 0 ==> p >= 100)
    ensures Sound(Update(s, p))
  {
    var x := if Clip(p) == 100 then s.cur * 100 else (s.cur - 1) * 100 + Clip(p);
    WrapAtMost(x);
    QuotientBelow(Wrap(x), s.num, 101);
  }

  lemma {:induction false} SkipManySound(s: Status, k: nat)
    requires Sound(s)
    ensures Sound(SkipMany(s, k))
  {
    if k > 0 {
      SkipManySound(s, k - 1);
      UpdateSound(Start(SkipMany(s, k - 1), ""), 100);
    }
  }

  lemma StepSound(s: Status, call: Call)
    requires Sound(s)
    ensures Sound(Step(s, call))
  {
    match call
    case CallProgress(p) => if s.cur >= 1 { UpdateSound(s, p); }
    case CallEnd => UpdateSound(s, 100);
    case CallSkip => UpdateSound(Start(s, ""), 100);
    case CallSkipMany(k) => SkipManySound(s, k);
    case CallSuccess => if s.fileProgress < 100 { UpdateSound(s, 100); }
    case _ =>
  }

  function Run(s: Status, calls: seq<Call>): (r: Status)
    requires Sound(s)
    ensures Sound(r)
  {
    if calls == [] then s else
    var t := Run(s, calls[..|calls| - 1]);
    StepSound(t, calls[|calls| - 1]);
    Step(t, calls[|calls| - 1])
  }

  /** In every run from a new object, 32-bit overflow included: at least one file, the current one
      among them, and percentages that are percentages. */
  lemma AlwaysSound(calls: seq<Call>)
    ensures Sound(FRESH) && Sound(Run(FRESH, calls))
  {
  }

  // ---- When the total never falls -----------------------------------------------------------------

  /** Percents of a file done so far, summed over the files started. */
  function Work(s: Status): nat {
    if s.cur == 0 then 0 else (s.cur - 1) * 100 + s.fileProgress
  }

  /** The total says no more than what was done, and nothing overflows. */
  ghost predicate Honest(s: Status) {
    Sound(s) && s.num <= LIMIT && s.total <= Quotient(Work(s), s.num)
  }

  /** No more files are started than declared, and the progress of a file does not fall. */
  predicate Fair(s: Status, call: Call) {
    match call
    case CallRestart(_) => false
    case CallStart(_) => s.cur < s.num
    case CallProgress(p) => s.fileProgress <= Clip(p)
    case CallSkip => s.cur < s.num
    case CallSkipMany(k) => s.cur + k <= s.num
    case _ => true
  }

  /** What an update makes of the total, as long as nothing overflows. */
  lemma UpdateTotal(s: Status, p: nat)
    requires Sound(s) && s.num <= LIMIT && (s.cur == 0 ==> p >= 100)
    ensures Update(s, p).total == Quotient(Work(Update(s, p)), s.num)
  {
    var t := Update(s, p);
    assert Work(t) <= t.cur * 100;
    InRange(Work(t));
  }

  lemma InRange(x: nat)
    requires x <= LIMIT * 100
    ensures Wrap(x) == x
  {
  }

  lemma UpdateHonest(s: Status, p: nat)
    requires Honest(s) && (s.cur == 0 ==> p >= 100) && s.fileProgress <= Clip(p)
    ensures Honest(Update(s, p)) && s.total <= Update(s, p).total
  {
    UpdateSound(s, p);
    UpdateTotal(s, p);
    QuotientMonotone(Work(s), Work(Update(s, p)), s.num);
  }

  lemma StartHonest(s: Status, file: string)
    requires Honest(s) && s.cur < s.num
    ensures Honest(Start(s, file)) && Start(s, file).total == s.total
    ensures Start(s, file).num == s.num && Start(s, file).cur == s.cur + 1
  {
    WithinLimit(s.cur + 1);
    QuotientMonotone(Work(s), s.cur * 100, s.num);
  }

  lemma WithinLimit(x: nat)
    requires x <= LIMIT
    ensures Wrap(x) == x
  {
  }

  lemma SkipHonest(s: Status)
    requires Honest(s) && s.cur < s.num
    ensures Honest(Skip(s)) && s.total <= Skip(s).total && Skip(s).num == s.num && Skip(s).cur == s.cur + 1
  {
    StartHonest(s, "");
    UpdateHonest(Start(s, ""), 100);
  }

  lemma {:induction false} SkipManyHonest(s: Status, k: nat)
    requires Honest(s) && s.cur + k <= s.num
    ensures var r := SkipMany(s, k); Honest(r) && s.total <= r.total && r.num == s.num && r.cur == s.cur + k
  {
    if k > 0 {
      SkipManyHonest(s, k - 1);
      SkipHonest(SkipMany(s, k - 1));
    }
  }

  lemma FullQuotient(n: nat)
    requires n > 0
    ensures Quotient(n * 100, n) == 100
  {
    QuotientBelow(n * 100, n, 100);
    QuotientBelow(n * 100, n, 101);
  }

  lemma SuccessHonest(s: Status)
    requires Honest(s)
    ensures Honest(Success(s)) && Success(s).num == s.num
  {
    FullQuotient(s.num);
  }

  lemma FairStep(s: Status, call: Call)
    requires Honest(s) && Fair(s, call)
    ensures Honest(Step(s, call)) && s.total <= Step(s, call).total && Step(s, call).num == s.num
  {
    match call
    case CallStart(file) => StartHonest(s, file);
    case CallProgress(p) => if s.cur >= 1 { UpdateHonest(s, p); }
    case CallEnd => UpdateHonest(s, 100);
    case CallSkip => SkipHonest(s);
    case CallSkipMany(k) => SkipManyHonest(s, k);
    case CallSuccess => SuccessHonest(s);
    case _ =>
  }

  ghost predicate FairRun(s: Status, calls: seq<Call>)
    requires Sound(s)
  {
    forall i :: 0 <= i < |calls| ==> Fair(Run(s, calls[..i]), calls[i])
  }

  lemma FairFront(s: Status, calls: seq<Call>)
    requires Sound(s) && calls != [] && FairRun(s, calls)
    ensures FairRun(s, calls[..|calls| - 1])
  {
    var front := calls[..|calls| - 1];
    forall i | 0 <= i < |front| ensures Fair(Run(s, front[..i]), front[i]) {
      assert front[..i] == calls[..i] && front[i] == calls[i];
    }
  }

  lemma FairLast(s: Status, front: seq<Call>, calls: seq<Call>)
    requires Sound(s) && calls != [] && front == calls[..|calls| - 1] && FairRun(s, calls) && Honest(Run(s, front))
    ensures Honest(Run(s, calls)) && Run(s, front).total <= Run(s, calls).total
    ensures Run(s, calls).num == Run(s, front).num
  {
    assert Fair(Run(s, front), calls[|calls| - 1]);
    FairStep(Run(s, front), calls[|calls| - 1]);
  }

  lemma FullMeansLast(s: Status)
    requires Honest(s)
    ensures s.total == 100 ==> s.cur == s.num && s.fileProgress == 100
  {
    QuotientBelow(Work(s), s.num, 100);
  }

  lemma {:induction false} FairRunHonest(s: Status, calls: seq<Call>)
    requires Honest(s) && FairRun(s, calls)
    ensures Honest(Run(s, calls)) && Run(s, calls).num == s.num
    decreases |calls|
  {
    if calls != [] {
      var front := calls[..|calls| - 1];
      FairFront(s, calls);
      FairRunHonest(s, front);
      FairLast(s, front, calls);
    }
  }

  lemma {:induction false} TotalGrows(s: Status, calls: seq<Call>, i: nat)
    requires Honest(s) && FairRun(s, calls) && i <= |calls|
    ensures Run(s, calls[..i]).total <= Run(s, calls).total
    decreases |calls|
  {
    if i == |calls| {
      assert calls[..i] == calls;
    } else {
      var front := calls[..|calls| - 1];
      FairFront(s, calls);
      TotalGrows(s, front, i);
      assert front[..i] == calls[..i];
      FairRunHonest(s, front);
      FairLast(s, front, calls);
    }
  }

  /** After a restart with a number of files that does not overflow, while no more files are started
      than declared and no file's progress falls, the total is never below what it was after any of
      the earlier calls, and it is 100 only when the last file is at 100. */
  lemma TotalNeverFalls(s: Status, calls: seq<Call>, i: nat)
    requires Honest(s) && FairRun(s, calls) && i <= |calls|
    ensures Honest(Run(s, calls)) && Run(s, calls).num == s.num
    ensures Run(s, calls[..i]).total <= Run(s, calls).total
    ensures Run(s, calls).total == 100 ==> Run(s, calls).cur == s.num && Run(s, calls).fileProgress == 100
  {
    FairRunHonest(s, calls);
    TotalGrows(s, calls, i);
    FullMeansLast(Run(s, calls));
  }

  lemma RestartHonest(s: Status, n: uint)
    requires Sound(s) && 0 < n <= LIMIT
    ensures Honest(Restart(s, n)) && Restart(s, n).num == n
  {
  }

  // ---- Where the conditions are needed ------------------------------------------------------------

  /** One file more than declared: the total falls below 100 exactly when that file is not at 100. */
  lemma ExtraFileLowersTotal(s: Status, file: string, p: nat)
    requires Sound(s) && s.num < LIMIT && s.cur == s.num && s.total == 100
    ensures Progress(Start(s, file), p).total < 100 <==> p < 100
  {
    var t := Start(s, file);
    WithinLimit(s.num + 1);
    UpdateTotal(t, p);
    QuotientBelow(Work(Update(t, p)), t.num, 100);
  }

  /** Ending the last file gives 100 exactly when the number of files does not overflow. */
  lemma FullTotalIff(s: Status)
    requires Sound(s) && s.cur == s.num
    ensures End(s).total == 100 <==> s.num <= LIMIT
  {
    if s.num <= LIMIT {
      FullQuotient(s.num);
    } else {
      QuotientBelow(Wrap(s.num * 100), s.num, 100);
    }
  }

  /** The first `cur` of `num` files are done. */
  predicate AllDone(s: Status, num: nat, cur: nat) {
    0 < num <= LIMIT && s.num == num && s.cur == cur && s.fileProgress == 100 && s.total == Quotient(cur * 100, num)
  }

  lemma SkippedOne(s: Status)
    requires Sound(s) && s.num <= LIMIT && s.cur < LIMIT
    ensures Sound(Skip(s)) && AllDone(Skip(s), if s.cur + 1 > s.num then s.cur + 1 else s.num, s.cur + 1)
  {
    var t := Start(s, "");
    assert t.cur == s.cur + 1 && t.num <= LIMIT;
    UpdateSound(t, 100);
    UpdateTotal(t, 100);
    assert Work(Update(t, 100)) == t.cur * 100;
  }

  /** Skipping is counted file by file: the total is that of so many files done. */
  lemma {:induction false} SkippedTotal(s: Status, k: nat)
    requires Sound(s) && k > 0 && s.cur + k <= LIMIT && s.num <= LIMIT
    ensures Sound(SkipMany(s, k))
    ensures AllDone(SkipMany(s, k), if s.cur + k > s.num then s.cur + k else s.num, s.cur + k)
  {
    if k > 1 { SkippedTotal(s, k - 1); }
    SkippedOne(SkipMany(s, k - 1));
  }

  // ---- The class ----------------------------------------------------------------------------------

  class FileStatus {
    var num: uint
    var cur: uint
    var op: string
    var file: string
    var fileProgress: uint
    var total: uint
    var done: bool
    var error: string
    var prev: int

    ghost function Value(): Status
      reads this
    {
      Status(num, cur, op, file, fileProgress, total, done, error, prev)
    }

    constructor ()
      ensures Value() == FRESH
    {
      num, cur, op, file, fileProgress, total, done, error, prev := 1, 0, "", "", 0, 0, false, "", -1;
    }

    method Restart(n: uint)
      requires Sound(Value())
      modifies this
      ensures Value() == Step(old(Value()), CallRestart(n)) && Sound(Value())
    {
      if n > 0 { num := n; }
      cur, op, file, fileProgress, total, done, error, prev := 0, "", "", 0, 0, false, "", -1;
    }

    method Operation(o: string)
      requires Sound(Value())
      modifies this
      ensures Value() == Step(old(Value()), CallOperation(o)) && Sound(Value())
    {
      op := o;
    }

    method Start(filename: string)
      requires Sound(Value())
      modifies this
      ensures Value() == Step(old(Value()), CallStart(filename)) && Sound(Value())
    {
      cur := Wrap(cur + 1);
      file, fileProgress := filename, 0;
      if cur > num { num := cur; }
    }

    /** Tells whether the output should change. */
    method UpdateProgress(percent: uint) returns (show: bool)
      requires Sound(Value()) && (cur == 0 ==> percent >= 100)
      modifies this
      ensures Value() == Update(old(Value()), percent) && Sound(Value())
      ensures show == (old(prev) != old(fileProgress))
    {
      UpdateSound(Value(), percent);
      var progress := percent;
      if progress > 100 { progress := 100; }
      show := prev != fileProgress;
      prev, fileProgress := fileProgress, progress;
      if progress == 100 {
        total := Quotient(Wrap(cur * 100), num);
      } else {
        total := Quotient(Wrap((cur - 1) * 100 + progress), num);
      }
    }

    method Progress(percent: uint)
      requires Sound(Value())
      modifies this
      ensures Value() == Step(old(Value()), CallProgress(percent)) && Sound(Value())
    {
      if cur < 1 { return; }
      var _ := UpdateProgress(percent);
    }

    method End()
      requires Sound(Value())
      modifies this
      ensures Value() == Step(old(Value()), CallEnd) && Sound(Value())
    {
      var _ := UpdateProgress(100);
    }

    method SkipOne()
      requires Sound(Value())
      modifies this
      ensures Value() == Step(old(Value()), CallSkip) && Sound(Value())
    {
      Start("");
      var _ := UpdateProgress(100);
    }

    method Skip(k: uint)
      requires Sound(Value())
      modifies this
      ensures Value() == Step(old(Value()), CallSkipMany(k)) && Sound(Value())
    {
      if k == 0 { return; }
      for i := 0 to k
        invariant Sound(Value()) && Value() == SkipMany(old(Value()), i)
      {
        SkipOne();
      }
    }

    method Fail(e: string)
      requires Sound(Value())
      modifies this
      ensures Value() == Step(old(Value()), CallFail(e)) && Sound(Value())
    {
      error, done := e, true;
    }

    method Success()
      requires Sound(Value())
      modifies this
      ensures Value() == Step(old(Value()), CallSuccess) && Sound(Value())
    {
      if fileProgress < 100 { End(); }
      done, cur, fileProgress, total := true, num, 100, 100;
    }
  }
}
