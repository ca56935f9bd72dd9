/**
 The string side of Path.cpp: taking a path apart, putting it together, and cleaning it.
 */
module Paths {
  import opened Strings
  import opened TextRewrite

  const SEPARATOR := '/'

  // ---- Taking apart and putting together ----------------------------------------------------------

  function Basename(path: string): string {
    path[AfterLast(path, SEPARATOR)..]
  }

  function Dir(path: string): string {
    path[..AfterLast(path, SEPARATOR)]
  }

  method Join(dir: string, base: string) returns (path: string)
    ensures path == Joined(dir, base)
  {
    if dir == "" { return base; }
    path := dir;
    if path[|path| - 1] != SEPARATOR { path := path + [SEPARATOR]; }
    path := path + base;
  }

  function Joined(dir: string, base: string): string {
    if dir == "" then base
    else if dir[|dir| - 1] == SEPARATOR then dir + base
    else dir + [SEPARATOR] + base
  }

  /** Joining the two parts of a path gives the path. */
  lemma DirThenBase(path: string)
    ensures Joined(Dir(path), Basename(path)) == path
    ensures SEPARATOR !in Basename(path)
  {
    var p := AfterLast(path, SEPARATOR);
    assert path[..p] + path[p..] == path;
  }

  lemma AfterLastUnique(s: string, p: nat)
    requires p <= |s| && (p > 0 ==> s[p - 1] == SEPARATOR) && forall i :: p <= i < |s| ==> s[i] != SEPARATOR
    ensures AfterLast(s, SEPARATOR) == p
  {
  }

  /** The two parts of a joined path are what was joined, exactly when the last part is no path; the
      directory comes back with its separator. */
  lemma JoinThenSplit(dir: string, base: string)
    ensures Basename(Joined(dir, base)) == base <==> SEPARATOR !in base
    ensures SEPARATOR !in base ==> Dir(Joined(dir, base)) == Joined(dir, "")
  {
    var path := Joined(dir, base);
    DirThenBase(path);
    if SEPARATOR !in base {
      JoinedIs(dir, base);
      LastPart(Joined(dir, ""), base);
    }
  }

  lemma JoinedIs(dir: string, base: string)
    ensures Joined(dir, base) == Joined(dir, "") + base
    ensures Joined(dir, "") != "" ==> Joined(dir, "")[|Joined(dir, "")| - 1] == SEPARATOR
  {
  }

  lemma LastPart(d: string, base: string)
    requires SEPARATOR !in base && (d != "" ==> d[|d| - 1] == SEPARATOR)
    ensures Basename(d + base) == base && Dir(d + base) == d
  {
    var path := d + base;
    AfterLastUnique(path, |d|);
    assert path[|d|..] == base && path[..|d|] == d;
  }

  // ---- Cleaning -----------------------------------------------------------------------------------

  /** Where the run of separators at `i` ends. */
  function RunEnd(s: string, i: nat): (e: nat)
    requires i <= |s|
    ensures i <= e <= |s| && (forall j :: i <= j < e ==> s[j] == SEPARATOR) && (e < |s| ==> s[e] != SEPARATOR)
    decreases |s| - i
  {
    if i < |s| && s[i] == SEPARATOR then RunEnd(s, i + 1) else i
  }

  function Separators(n: nat): (r: string)
    ensures |r| == n && forall i :: 0 <= i < n ==> r[i] == SEPARATOR
  {
    if n == 0 then "" else [SEPARATOR] + Separators(n - 1)
  }

  /** Every run of `n` separators becomes one of half the length, rounded up; all else is kept. */
  function Halved(s: string, i: nat): string
    requires i <= |s|
    decreases |s| - i
  {
    if i == |s| then ""
    else if s[i] == SEPARATOR then Separators((RunEnd(s, i) - i + 1) / 2) + Halved(s, RunEnd(s, i))
    else [s[i]] + Halved(s, i + 1)
  }

  lemma HalvedRun(s: string, i: nat, e: nat)
    requires i < |s| && s[i] == SEPARATOR && e == RunEnd(s, i)
    ensures Halved(s, i) == Separators((e - i + 1) / 2) + Halved(s, e)
  {
  }

  lemma {:induction false} RunEndSame(s: string, i: nat, j: nat)
    requires i <= j <= |s| && forall k :: i <= k < j ==> s[k] == SEPARATOR
    ensures RunEnd(s, j) == RunEnd(s, i)
    decreases |s| - i
  {
    if i < j { RunEndSame(s, i + 1, j); }
  }

  lemma PairAt(s: string, i: nat, pat: string)
    requires pat == [SEPARATOR, SEPARATOR] && i <= |s|
    ensures At(s, i, pat) <==> RunEnd(s, i) >= i + 2
  {
    if i + 2 <= |s| {
      assert pat[0] == SEPARATOR && pat[1] == SEPARATOR;
      assert At(s, i, pat) <==> s[i + 0] == SEPARATOR && s[i + 1] == SEPARATOR;
      if s[i] == SEPARATOR { RunEndSame(s, i, i + 1); }
    }
  }

  lemma OneMore(n: nat, rest: string)
    ensures Separators(n + 1) + rest == [SEPARATOR] + (Separators(n) + rest)
  {
    TextRewrite.Regroup([SEPARATOR], Separators(n), rest);
  }

  /** Replacing from inside a run, at any of its characters, halves what is left of it. */
  lemma {:induction false} ReplacedRun(s: string, i: nat, e: nat, pat: string, rep: string)
    requires pat == [SEPARATOR, SEPARATOR] && rep == [SEPARATOR] && i <= |s| && e == RunEnd(s, i)
    ensures Replaced(s, i, pat, rep) == Separators((e - i + 1) / 2) + Replaced(s, e, pat, rep)
    decreases |s| - i
  {
    PairAt(s, i, pat);
    if e == i + 1 {
      OneMore(0, Replaced(s, e, pat, rep));
    } else if e > i {
      RunEndSame(s, i, i + 2);
      ReplacedRun(s, i + 2, e, pat, rep);
      OneMore((e - i - 1) / 2, Replaced(s, e, pat, rep));
      assert (e - i + 1) / 2 == (e - i - 1) / 2 + 1;
    }
  }

  lemma {:induction false} ReplacedHalves(s: string, i: nat, pat: string, rep: string)
    requires pat == [SEPARATOR, SEPARATOR] && rep == [SEPARATOR] && i <= |s|
    ensures Replaced(s, i, pat, rep) == Halved(s, i)
    decreases |s| - i
  {
    if i < |s| {
      if s[i] == SEPARATOR {
        var e := RunEnd(s, i);
        ReplacedRun(s, i, e, pat, rep);
        ReplacedHalves(s, e, pat, rep);
        HalvedRun(s, i, e);
      } else {
        PairAt(s, i, pat);
        ReplacedHalves(s, i + 1, pat, rep);
      }
    }
  }

  /** `clean`: runs of separators are halved, not removed. */
  method Clean(path: string) returns (cleaned: string)
    ensures cleaned == Halved(path, 0)
  {
    var double, single := [SEPARATOR, SEPARATOR], [SEPARATOR];
    cleaned := ReplaceStrs(path, double, single);
    ReplacedHalves(path, 0, double, single);
  }

  // ---- What cleaning leaves -----------------------------------------------------------------------

  /** There are `n` separators in a row. */
  ghost predicate HasRun(s: string, n: nat) {
    exists i :: RunAt(s, i, n)
  }

  predicate RunAt(s: string, i: nat, n: nat) {
    i + n <= |s| && forall j :: i <= j < i + n ==> s[j] == SEPARATOR
  }

  /** The length of the longest run from `i` on. */
  function Longest(s: string, i: nat): nat
    requires i <= |s|
    decreases |s| - i
  {
    if i == |s| then 0
    else if s[i] == SEPARATOR then Max(RunEnd(s, i) - i, Longest(s, RunEnd(s, i)))
    else Longest(s, i + 1)
  }

  function Max(a: nat, b: nat): nat {
    if a < b then b else a
  }

  lemma {:induction false} LongestReaches(s: string, i: nat, k: nat, n: nat)
    requires n > 0 && i <= k && RunAt(s, k, n)
    ensures n <= Longest(s, i)
    decreases |s| - i
  {
    if s[i] != SEPARATOR {
      assert i != k;
      LongestReaches(s, i + 1, k, n);
    } else {
      var e := RunEnd(s, i);
      if k >= e {
        LongestReaches(s, e, k, n);
      }
    }
  }

  lemma {:induction false} LongestIsRun(s: string, i: nat) returns (k: nat)
    requires i <= |s|
    ensures i <= k && RunAt(s, k, Longest(s, i))
    decreases |s| - i
  {
    k := i;
    if i < |s| {
      if s[i] != SEPARATOR {
        k := LongestIsRun(s, i + 1);
      } else {
        var e := RunEnd(s, i);
        if Longest(s, e) > e - i { k := LongestIsRun(s, e); }
      }
    }
  }

  /** A string has a run of `n` separators exactly when its longest run is that long. */
  lemma HasRunIff(s: string, n: nat)
    ensures HasRun(s, n) <==> n <= Longest(s, 0)
  {
    if n > 0 && HasRun(s, n) {
      var k :| RunAt(s, k, n);
      LongestReaches(s, 0, k, n);
    }
    if n <= Longest(s, 0) {
      var k := LongestIsRun(s, 0);
      assert RunAt(s, k, n);
    }
  }

  /** A run, and then text that does not start with one. */
  lemma LongestAfterRun(n: nat, t: string)
    requires t != "" ==> t[0] != SEPARATOR
    ensures Longest(Separators(n) + t, 0) == Max(n, Longest(t, 0))
  {
    var s := Separators(n) + t;
    LongestShifts(Separators(n), t, 0);
    if n > 0 {
      RunEndSame(s, 0, n);
    } else {
      assert s == t;
    }
  }

  lemma {:induction false} RunEndShifts(a: string, t: string, i: nat)
    requires i <= |t|
    ensures RunEnd(a + t, |a| + i) == |a| + RunEnd(t, i)
    decreases |t| - i
  {
    if i < |t| && t[i] == SEPARATOR { RunEndShifts(a, t, i + 1); }
  }

  lemma {:induction false} LongestShifts(a: string, t: string, i: nat)
    requires i <= |t|
    ensures Longest(a + t, |a| + i) == Longest(t, i)
    decreases |t| - i
  {
    if i < |t| {
      if t[i] == SEPARATOR {
        RunEndShifts(a, t, i);
        LongestShifts(a, t, RunEnd(t, i));
      } else {
        LongestShifts(a, t, i + 1);
      }
    }
  }

  lemma LongestRun(s: string, i: nat, e: nat)
    requires i < |s| && s[i] == SEPARATOR && e == RunEnd(s, i)
    ensures Longest(s, i) == Max(e - i, Longest(s, e))
  {
  }

  lemma LongestAfterOther(c: char, t: string)
    requires c != SEPARATOR
    ensures Longest([c] + t, 0) == Longest(t, 0)
  {
    LongestShifts([c], t, 0);
  }

  lemma HalvedStart(s: string, i: nat)
    requires i <= |s|
    ensures (Halved(s, i) == "" <==> i == |s|)
    ensures i < |s| ==> Halved(s, i)[0] == s[i]
  {
  }

  /** The longest run is halved, rounding up. */
  lemma {:induction false} LongestHalved(s: string, i: nat)
    requires i <= |s|
    ensures Longest(Halved(s, i), 0) == (Longest(s, i) + 1) / 2
    decreases |s| - i
  {
    if i < |s| {
      if s[i] == SEPARATOR {
        var e := RunEnd(s, i);
        LongestHalved(s, e);
        HalvedStart(s, e);
        HalvedRun(s, i, e);
        LongestRun(s, i, e);
        LongestAfterRun((e - i + 1) / 2, Halved(s, e));
      } else {
        LongestHalved(s, i + 1);
        LongestAfterOther(s[i], Halved(s, i + 1));
      }
    }
  }

  /** Cleaning leaves two separators in a row exactly when there were three. */
  lemma CleanLeavesDouble(path: string)
    ensures HasRun(Halved(path, 0), 2) <==> HasRun(path, 3)
  {
    LongestHalved(path, 0);
    HasRunIff(Halved(path, 0), 2);
    HasRunIff(path, 3);
  }

  /** Cleaning changes nothing exactly when there were not two separators in a row. */
  lemma CleanFixedIff(path: string)
    ensures Halved(path, 0) == path <==> !HasRun(path, 2)
  {
    LongestHalved(path, 0);
    HasRunIff(path, 2);
    if Longest(path, 0) <= 1 { ShortRunsKept(path, 0); }
  }

  lemma {:induction false} ShortRunsKept(s: string, i: nat)
    requires i <= |s| && Longest(s, i) <= 1
    ensures Halved(s, i) == s[i..]
    decreases |s| - i
  {
    if i < |s| {
      assert s[i] == SEPARATOR ==> RunEnd(s, i) == i + 1 && Separators(1) == [s[i]];
      ShortRunsKept(s, i + 1);
    }
  }
}
