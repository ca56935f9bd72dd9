/**
 The string helpers of stringfunc.hpp and the parts of `std::string` and `std::map` they and the
 configuration store rely on: searching, trimming, case, splitting and key order. Searching and trimming
 are characterised by what they must find, so that any way to compute them gives the same. Case
 conversion stops at a NUL character, as the C-string loops do. Key order is that of `std::string`: by the
 first difference, and a prefix before what it is a prefix of; the sorted keys of a set are unique.
 */
module Strings {
  import opened Wrappers

  const NUL := '\0'

  // ---- Searching ----------------------------------------------------------------------------------

  /** `find(c, from)`: the first position at or after `from` that holds `c`, or the length. */
  function Find(s: string, c: char, from: nat): (p: nat)
    requires from <= |s|
    ensures from <= p <= |s|
    ensures p < |s| ==> s[p] == c
    ensures forall i :: from <= i < p ==> s[i] != c
    decreases |s| - from
  {
    if from == |s| || s[from] == c then from else Find(s, c, from + 1)
  }

  /** `find_last_of(c)`: one past the last position that holds `c`, or zero. */
  function AfterLast(s: string, c: char): (p: nat)
    ensures p <= |s|
    ensures p > 0 ==> s[p - 1] == c
    ensures forall i :: p <= i < |s| ==> s[i] != c
  {
    if s == "" then 0 else if s[|s| - 1] == c then |s| else AfterLast(s[..|s| - 1], c)
  }

  lemma FindUnique(s: string, c: char, p: nat)
    requires p <= |s| && (p < |s| ==> s[p] == c) && forall i :: 0 <= i < p ==> s[i] != c
    ensures Find(s, c, 0) == p
  {
  }

  // ---- Trimming -----------------------------------------------------------------------------------

  predicate IsBlank(c: char) {
    c == ' ' || c == '\t'
  }

  predicate Trimmed(s: string) {
    s != "" ==> !IsBlank(s[0]) && !IsBlank(s[|s| - 1])
  }

  /** `find_last_not_of`: one past the last position before `e` that holds no blank, or zero. */
  function LastNotBlank(s: string, e: nat): (p: nat)
    requires e <= |s|
    ensures p <= e && (p > 0 ==> !IsBlank(s[p - 1])) && forall i :: p <= i < e ==> IsBlank(s[i])
  {
    if e == 0 || !IsBlank(s[e - 1]) then e else LastNotBlank(s, e - 1)
  }

  /** `find_first_not_of`: the first position from `b` on that holds no blank, or the length. */
  function FirstNotBlank(s: string, b: nat): (p: nat)
    requires b <= |s|
    ensures b <= p <= |s| && (p < |s| ==> !IsBlank(s[p])) && forall i :: b <= i < p ==> IsBlank(s[i])
    decreases |s| - b
  {
    if b == |s| || !IsBlank(s[b]) then b else FirstNotBlank(s, b + 1)
  }

  function TrimRight(s: string): string {
    s[..LastNotBlank(s, |s|)]
  }

  function TrimLeft(s: string): string {
    s[FirstNotBlank(s, 0)..]
  }

  /** `trim(s, " \t")`. */
  function Trim(s: string): string {
    TrimLeft(TrimRight(s))
  }

  /** Everything outside `a..b` is blank, and that stretch neither starts nor ends with a blank. */
  ghost predicate Core(s: string, a: nat, b: nat) {
    && a <= b <= |s|
    && (forall k :: 0 <= k < a || b <= k < |s| ==> s[k] == ' ' || s[k] == '\t')
    && (a < b ==> s[a] != ' ' && s[a] != '\t' && s[b - 1] != ' ' && s[b - 1] != '\t')
  }

  /** Trimming removes blanks at both ends and nothing else. */
  lemma TrimDecomposes(s: string) returns (i: nat)
    ensures Core(s, i, i + |Trim(s)|) && Trim(s) == s[i..i + |Trim(s)|]
  {
    var r := TrimRight(s);
    i := |r| - |TrimLeft(r)|;
  }

  lemma CoreUnique(s: string, a: nat, b: nat, i: nat, j: nat)
    requires Core(s, a, b) && Core(s, i, j)
    ensures a < b || i < j ==> a == i && b == j
  {
  }

  /** What trimming returns is determined by what it must do. */
  lemma TrimUnique(s: string, a: nat, b: nat)
    requires Core(s, a, b)
    ensures Trim(s) == s[a..b]
  {
    var i := TrimDecomposes(s);
    CoreUnique(s, a, b, i, i + |Trim(s)|);
  }

  lemma TrimmedFixed(s: string)
    requires Trimmed(s)
    ensures Trim(s) == s
  {
    assert s[0..|s|] == s;
    TrimUnique(s, 0, |s|);
  }

  // ---- Case ---------------------------------------------------------------------------------------

  function UpperChar(c: char): char {
    if 'a' <= c <= 'z' then (c as int - 32) as char else c
  }

  function LowerChar(c: char): char {
    if 'A' <= c <= 'Z' then (c as int + 32) as char else c
  }

  /** The same character, or the same Latin letter, capital (65 to 90) or small (97 to 122). */
  predicate SameLetter(a: char, b: char) {
    a == b || (65 <= a as int <= 90 && b as int == a as int + 32) || (65 <= b as int <= 90 && a as int == b as int + 32)
  }

  /** Both cases forget the case of a letter and nothing else; the one leaves no capital, the other no small
      letter. */
  lemma CaseIff(a: char, b: char)
    ensures LowerChar(a) == LowerChar(b) <==> SameLetter(a, b)
    ensures UpperChar(a) == UpperChar(b) <==> SameLetter(a, b)
    ensures SameLetter(a, LowerChar(a)) && !(65 <= LowerChar(a) as int <= 90)
    ensures SameLetter(a, UpperChar(a)) && !(97 <= UpperChar(a) as int <= 122)
  {
  }

  /** The characters before the first NUL: all that the C-string loops look at. */
  function CString(s: string): string {
    s[..Find(s, NUL, 0)]
  }

  function UpperAll(s: string): string {
    if s == "" then "" else UpperAll(s[..|s| - 1]) + [UpperChar(s[|s| - 1])]
  }

  function LowerAll(s: string): string {
    if s == "" then "" else LowerAll(s[..|s| - 1]) + [LowerChar(s[|s| - 1])]
  }

  function ToUpper(s: string): string {
    UpperAll(CString(s))
  }

  function ToLower(s: string): string {
    LowerAll(CString(s))
  }

  /** The loop of toUpper, which walks a C string. */
  method Upper(s: string) returns (r: string)
    ensures r == ToUpper(s)
  {
    r := "";
    var cp := 0;
    while cp < |s| && s[cp] != NUL
      invariant cp <= Find(s, NUL, 0)
      invariant r == UpperAll(s[..cp])
    {
      assert s[..cp + 1][..cp] == s[..cp];
      r := r + [UpperChar(s[cp])];
      cp := cp + 1;
    }
  }

  /** The loop of toLower, which walks a C string. */
  method Lower(s: string) returns (r: string)
    ensures r == ToLower(s)
  {
    r := "";
    var cp := 0;
    while cp < |s| && s[cp] != NUL
      invariant cp <= Find(s, NUL, 0)
      invariant r == LowerAll(s[..cp])
    {
      assert s[..cp + 1][..cp] == s[..cp];
      r := r + [LowerChar(s[cp])];
      cp := cp + 1;
    }
  }

  /** Lower-casing works character by character. */
  lemma {:induction false} LowerAllAt(s: string)
    ensures |LowerAll(s)| == |s| && forall i :: 0 <= i < |s| ==> LowerAll(s)[i] == LowerChar(s[i])
  {
    if s != "" { LowerAllAt(s[..|s| - 1]); }
  }

  /** Upper-casing works character by character. */
  lemma {:induction false} UpperAllAt(s: string)
    ensures |UpperAll(s)| == |s| && forall i :: 0 <= i < |s| ==> UpperAll(s)[i] == UpperChar(s[i])
  {
    if s != "" { UpperAllAt(s[..|s| - 1]); }
  }

  /** Folding to upper case gives a word without small letters exactly if the text spells it in some case. */
  lemma UpperIff(s: string, word: string)
    requires forall i :: 0 <= i < |word| ==> !(97 <= word[i] as int <= 122)
    ensures var c := s[..Find(s, NUL, 0)];
      ToUpper(s) == word <==> |c| == |word| && forall i :: 0 <= i < |word| ==> SameLetter(c[i], word[i])
  {
    var c := CString(s);
    UpperAllAt(c);
    forall i | 0 <= i < |c| && i < |word| ensures UpperChar(c[i]) == word[i] <==> SameLetter(c[i], word[i]) {
      CaseIff(c[i], word[i]);
      CaseIff(word[i], word[i]);
    }
  }

  // ---- Lines --------------------------------------------------------------------------------------

  /** The pieces between occurrences of `sep`; there is always at least one. */
  function Split(s: string, sep: char): (r: seq<string>)
    ensures r != [] && forall i :: 0 <= i < |r| ==> sep !in r[i]
    decreases |s|
  {
    var p := Find(s, sep, 0);
    if p == |s| then [s] else [s[..p]] + Split(s[p + 1..], sep)
  }

  lemma SplitFirst(s: string, sep: char, p: nat)
    requires p == Find(s, sep, 0)
    ensures p == |s| ==> Split(s, sep) == [s]
    ensures p < |s| ==> Split(s, sep) == [s[..p]] + Split(s[p + 1..], sep)
  {
  }

  lemma SplitCons(a: string, b: string, sep: char)
    requires sep !in a
    ensures Split(a + [sep] + b, sep) == [a] + Split(b, sep)
  {
    var s := a + [sep] + b;
    FindUnique(s, sep, |a|);
    assert s[..|a|] == a && s[|a| + 1..] == b;
  }

  // ---- Key order ----------------------------------------------------------------------------------

  /** `std::string` order: by the first difference, a prefix before what it is a prefix of. */
  predicate Leq(a: string, b: string) {
    a == "" || (b != "" && (a[0] < b[0] || (a[0] == b[0] && Leq(a[1..], b[1..]))))
  }

  /** At position `i` the two strings differ for the first time, and `a` has the smaller character. */
  predicate FirstDiffers(a: string, b: string, i: nat) {
    i < |a| && i < |b| && a[..i] == b[..i] && a[i] < b[i]
  }

  lemma {:induction false} LeqIff(a: string, b: string)
    ensures Leq(a, b) <==> a <= b || exists i: nat :: FirstDiffers(a, b, i)
  {
    if a != "" && b != "" {
      if a[0] == b[0] {
        LeqIff(a[1..], b[1..]);
        SameFirst(a, b);
      } else {
        assert a[..0] == b[..0];
        assert a[0] < b[0] ==> FirstDiffers(a, b, 0);
        OtherFirst(a, b);
      }
    }
  }

  lemma SameFirst(a: string, b: string)
    requires a != "" && b != "" && a[0] == b[0]
    ensures a <= b <==> a[1..] <= b[1..]
    ensures (exists i: nat :: FirstDiffers(a, b, i)) <==> exists i: nat :: FirstDiffers(a[1..], b[1..], i)
  {
    var x, y := a[1..], b[1..];
    assert a == [a[0]] + x && b == [b[0]] + y;
    if i: nat :| FirstDiffers(a, b, i) {
      assert x[..i - 1] == a[..i][1..] && y[..i - 1] == b[..i][1..];
      assert FirstDiffers(x, y, i - 1);
    }
    if i: nat :| FirstDiffers(x, y, i) {
      var j := i + 1;
      assert a[..j] == [a[0]] + x[..i] && b[..j] == [b[0]] + y[..i];
      assert FirstDiffers(a, b, j);
    }
  }

  lemma OtherFirst(a: string, b: string)
    requires a != "" && b != "" && a[0] != b[0]
    ensures !(a <= b)
    ensures forall i: nat :: FirstDiffers(a, b, i) ==> i == 0
  {
    forall i: nat | FirstDiffers(a, b, i) ensures i == 0 {
      if i > 0 { SameStart(a, b, i); }
    }
  }

  lemma SameStart(a: string, b: string, i: nat)
    requires 0 < i <= |a| && i <= |b| && a[..i] == b[..i]
    ensures a[0] == b[0]
  {
    assert a[..i][0] == a[0] && b[..i][0] == b[0];
  }

  lemma {:induction false} LeqTotal(a: string, b: string)
    ensures Leq(a, b) || Leq(b, a)
  {
    if a != "" && b != "" && a[0] == b[0] { LeqTotal(a[1..], b[1..]); }
  }

  lemma {:induction false} LeqAntisymmetric(a: string, b: string)
    requires Leq(a, b) && Leq(b, a)
    ensures a == b
  {
    if a != "" && b != "" {
      LeqAntisymmetric(a[1..], b[1..]);
      assert a == [a[0]] + a[1..] && b == [b[0]] + b[1..];
    }
  }

  lemma {:induction false} LeqTransitive(a: string, b: string, c: string)
    requires Leq(a, b) && Leq(b, c)
    ensures Leq(a, c)
  {
    if a != "" && b != "" && c != "" && a[0] == b[0] == c[0] { LeqTransitive(a[1..], b[1..], c[1..]); }
  }

  /** A common prefix does not change the order: sorting full paths of one directory sorts the names. */
  lemma {:induction false} LeqPrefix(p: string, a: string, b: string)
    ensures Leq(p + a, p + b) <==> Leq(a, b)
  {
    if p == "" {
      assert p + a == a && p + b == b;
    } else {
      assert (p + a)[1..] == p[1..] + a && (p + b)[1..] == p[1..] + b;
      LeqPrefix(p[1..], a, b);
    }
  }

  predicate IsLeast(k: string, s: set<string>) {
    k in s && forall x {:trigger Leq(k, x)} :: x in s ==> Leq(k, x)
  }

  lemma LeastExists(s: set<string>)
    requires s != {}
    ensures exists k :: IsLeast(k, s)
    decreases |s|
  {
    var x :| x in s;
    LeqTotal(x, x);
    if s == {x} {
      assert IsLeast(x, s);
    } else {
      assert s == {x} + (s - {x});
      LeastExists(s - {x});
      var k :| IsLeast(k, s - {x});
      LeqTotal(x, k);
      if Leq(x, k) {
        forall y | y in s ensures Leq(x, y) { if y != x { LeqTransitive(x, k, y); } }
        assert IsLeast(x, s);
      } else {
        assert IsLeast(k, s);
      }
    }
  }

  function Least(s: set<string>): (k: string)
    requires s != {}
    ensures IsLeast(k, s)
  {
    LeastExists(s);
    assert forall a, b | IsLeast(a, s) && IsLeast(b, s) :: a == b by {
      forall a, b | IsLeast(a, s) && IsLeast(b, s) ensures a == b { LeqAntisymmetric(a, b); }
    }
    var k :| k in s && IsLeast(k, s);
    k
  }

  /** The order in which a `std::map` is walked. */
  function SortedKeys(s: set<string>): (ks: seq<string>)
    ensures |ks| == |s| && forall k :: k in ks <==> k in s
    decreases |s|
  {
    if s == {} then [] else
    var k := Least(s);
    [k] + SortedKeys(s - {k})
  }

  predicate Before(ks: seq<string>, i: nat, j: nat)
    requires i < |ks| && j < |ks|
  {
    Leq(ks[i], ks[j]) && ks[i] != ks[j]
  }

  predicate Sorted(ks: seq<string>) {
    forall i, j {:trigger Before(ks, i, j)} :: 0 <= i < j < |ks| ==> Before(ks, i, j)
  }

  /** How many of `s` come before `k`. */
  function Rank(s: set<string>, k: string): nat {
    |set x | x in s && Leq(x, k) && x != k|
  }

  /** The sorted keys of a set stand at their ranks. */
  lemma {:induction false} RankAt(s: set<string>, i: nat)
    requires i < |SortedKeys(s)|
    ensures SortedKeys(s)[i] in s && Rank(s, SortedKeys(s)[i]) == i
    decreases |s|
  {
    var k, ks := Least(s), SortedKeys(s);
    assert ks[i] in ks;
    if i == 0 {
      NoneBefore(s, k);
    } else {
      RankAt(s - {k}, i - 1);
      OneBefore(s, k, ks[i]);
    }
  }

  lemma NoneBefore(s: set<string>, k: string)
    requires IsLeast(k, s)
    ensures Rank(s, k) == 0
  {
    var below := set x | x in s && Leq(x, k) && x != k;
    if x :| x in below { LeqAntisymmetric(x, k); }
  }

  lemma OneBefore(s: set<string>, k: string, n: string)
    requires IsLeast(k, s) && n in s && n != k
    ensures Rank(s, n) == Rank(s - {k}, n) + 1
  {
    var below, rest := set x | x in s && Leq(x, n) && x != n, set x | x in s - {k} && Leq(x, n) && x != n;
    assert Leq(k, n) && below == rest + {k};
  }

  /** The rank of a key says where it stands. */
  lemma RankIff(s: set<string>, k: string, i: nat)
    ensures i < |s| && SortedKeys(s)[i] == k <==> k in s && Rank(s, k) == i
  {
    var ks := SortedKeys(s);
    if i < |s| { RankAt(s, i); }
    if k in s {
      assert k in ks;
      var j :| 0 <= j < |ks| && ks[j] == k;
      RankAt(s, j);
    }
  }

  lemma {:induction false} SortedKeysSorted(s: set<string>)
    ensures Sorted(SortedKeys(s))
    decreases |s|
  {
    if s != {} {
      var k := Least(s);
      var rest, ks := SortedKeys(s - {k}), SortedKeys(s);
      SortedKeysSorted(s - {k});
      forall i, j | 0 <= i < j < |ks| ensures Before(ks, i, j) {
        assert ks[j] == rest[j - 1] && rest[j - 1] in s - {k};
        if i > 0 { assert Before(rest, i - 1, j - 1); }
      }
    }
  }

  lemma SortedTail(ks: seq<string>)
    requires Sorted(ks) && ks != []
    ensures Sorted(ks[1..]) && ks[0] !in ks[1..]
  {
    var rest := ks[1..];
    forall i, j | 0 <= i < j < |rest| ensures Before(rest, i, j) { assert Before(ks, i + 1, j + 1); }
    forall i | 0 <= i < |rest| ensures rest[i] != ks[0] { assert Before(ks, 0, i + 1); }
  }

  lemma {:induction false} SortedUnique(xs: seq<string>, s: set<string>)
    requires Sorted(xs) && forall k :: k in xs <==> k in s
    ensures xs == SortedKeys(s)
    decreases |xs|
  {
    if xs == [] {
      assert s == {};
    } else {
      assert xs[0] in s;
      var k := Least(s);
      assert k == xs[0] by {
        var i :| 0 <= i < |xs| && xs[i] == k;
        if i > 0 {
          assert Before(xs, 0, i);
          LeqAntisymmetric(xs[0], k);
        }
      }
      SortedTail(xs);
      forall y ensures y in xs[1..] <==> y in s - {k} {
        if y in xs && y != k { var i :| 0 <= i < |xs| && xs[i] == y; assert xs[1..][i - 1] == y; }
      }
      SortedUnique(xs[1..], s - {k});
      assert xs == [xs[0]] + xs[1..];
    }
  }
}
