/**
 The two rewriting loops of stringfunc.hpp, each proved to compute one pass from left to right over the
 text as it was given, and what that pass makes of every text: variables opened, closed, unclosed, or
 not set, and occurrences replaced.
 */
module TextRewrite {
  import opened Wrappers
  import opened Strings

  // ---- Variables ----------------------------------------------------------------------------------

  type Vars = map<string, string>

  function ValueOf(vars: Vars, name: string): string {
    if name in vars then vars[name] else ""
  }

  /** `${` at `i`, with at least four characters from there to the end, and `}` somewhere behind it. */
  predicate Opens(s: string, i: nat) {
    i + 4 <= |s| && s[i] == '$' && s[i + 1] == '{' && Find(s, '}', i + 1) < |s|
  }

  /** One pass over the text from `i`: the values that are put in are not looked at again. */
  function Expanded(s: string, i: nat, vars: Vars): string
    requires i <= |s|
    decreases |s| - i
  {
    if i == |s| then ""
    else if Opens(s, i) then
      var e := Find(s, '}', i + 1);
      ValueOf(vars, s[i + 2..e]) + Expanded(s, e + 1, vars)
    else [s[i]] + Expanded(s, i + 1, vars)
  }

  /** No variable starts at any of these positions. */
  predicate Plain(s: string, from: nat, to: nat) {
    forall i :: from <= i < to ==> !Opens(s, i)
  }

  lemma Regroup(a: string, b: string, c: string)
    ensures a + (b + c) == (a + b) + c
  {
  }

  /** A stretch of text, its first character and the rest. */
  lemma Stretch(s: string, from: nat, to: nat, rest: string)
    requires from < to <= |s|
    ensures s[from..to] + rest == [s[from]] + (s[from + 1..to] + rest)
  {
    assert s[from..to] == [s[from]] + s[from + 1..to];
    Regroup([s[from]], s[from + 1..to], rest);
  }

  lemma {:induction false} PlainIsKept(s: string, from: nat, to: nat, vars: Vars)
    requires from <= to <= |s| && Plain(s, from, to)
    ensures Expanded(s, from, vars) == s[from..to] + Expanded(s, to, vars)
    decreases |s| - from
  {
    if from < to {
      PlainIsKept(s, from + 1, to, vars);
      Stretch(s, from, to, Expanded(s, to, vars));
    }
  }

  /** What is before `at` is done. */
  ghost predicate DoneTo(s: string, vars: Vars, done: string, at: nat) {
    at <= |s| && done + Expanded(s, at, vars) == Expanded(s, 0, vars)
  }

  /** How far expandStr has come: what is before `prevPos` is done, no variable starts between there
      and `pos`, and at `pos` is a dollar or the start of a part without a closing brace. */
  ghost predicate Doing(s: string, vars: Vars, done: string, prevPos: nat, pos: nat) {
    && DoneTo(s, vars, done, prevPos) && prevPos <= pos <= |s| && Plain(s, prevPos, pos)
    && (pos < |s| ==> s[pos] == '$' || Find(s, '}', pos) == |s|)
  }

  lemma Begun(s: string, vars: Vars)
    ensures Doing(s, vars, "", 0, Find(s, '$', 0))
  {
    assert "" + Expanded(s, 0, vars) == Expanded(s, 0, vars);
  }

  lemma Copied(s: string, vars: Vars, done: string, from: nat, to: nat)
    requires Doing(s, vars, done, from, to)
    ensures DoneTo(s, vars, done + s[from..to], to)
  {
    PlainIsKept(s, from, to, vars);
    Regroup(done, s[from..to], Expanded(s, to, vars));
  }

  lemma Finished(s: string, vars: Vars, done: string, from: nat)
    requires Doing(s, vars, done, from, |s|)
    ensures done + s[from..] == Expanded(s, 0, vars)
  {
    Copied(s, vars, done, from, |s|);
    assert s[from..|s|] == s[from..] && (done + s[from..]) + "" == done + s[from..];
  }

  /** Too near the end for a variable: the rest is copied. */
  lemma NearEnd(s: string, vars: Vars, done: string, at: nat)
    requires DoneTo(s, vars, done, at) && |s| < at + 4
    ensures Doing(s, vars, done, at, |s|)
  {
  }

  /** Without a brace at `at + 1`, the next dollar is looked at. */
  lemma NoBrace(s: string, vars: Vars, done: string, at: nat)
    requires DoneTo(s, vars, done, at) && at + 4 <= |s| && s[at + 1] != '{'
    ensures Doing(s, vars, done, at, Find(s, '$', at + 1))
  {
  }

  /** Without a closing brace, the next character is looked at. */
  lemma Unclosed(s: string, vars: Vars, done: string, at: nat)
    requires DoneTo(s, vars, done, at) && at + 4 <= |s| && Find(s, '}', at + 1) == |s|
    ensures Doing(s, vars, done, at, at + 1)
  {
  }

  lemma PutIn(s: string, vars: Vars, done: string, at: nat, e: nat, name: string, done': string)
    requires DoneTo(s, vars, done, at)
    requires Opens(s, at) && e == Find(s, '}', at + 1) && name == s[at + 2..e]
    requires done' == if name in vars then done + vars[name] else done
    ensures Doing(s, vars, done', e + 1, Find(s, '$', e))
  {
    assert done' == done + ValueOf(vars, name);
    ValuePut(s, vars, done, at, e);
  }

  lemma ValuePut(s: string, vars: Vars, done: string, at: nat, e: nat)
    requires Opens(s, at) && e == Find(s, '}', at + 1)
    ensures done + Expanded(s, at, vars) == (done + ValueOf(vars, s[at + 2..e])) + Expanded(s, e + 1, vars)
  {
    Regroup(done, ValueOf(vars, s[at + 2..e]), Expanded(s, e + 1, vars));
  }

  /** The loop of expandStr. The length stands for `npos`. */
  method ExpandStr(str: string, vars: Vars) returns (expanded: string)
    ensures expanded == Expanded(str, 0, vars)
  {
    if str == "" { return ""; }
    Begun(str, vars);
    var pos: nat := Find(str, '$', 0);
    if pos == |str| {
      Finished(str, vars, "", 0);
      return str;
    }
    expanded := "";
    var prevPos: nat := 0;
    while pos < |str|
      invariant pos <= |str| && Doing(str, vars, expanded, prevPos, pos)
      decreases |str| - pos
    {
      Copied(str, vars, expanded, prevPos, pos);
      expanded := expanded + str[prevPos..pos];
      prevPos, pos := pos, pos + 1;
      if pos + 2 >= |str| {
        NearEnd(str, vars, expanded, prevPos);
        pos := |str|;
        break;
      }
      if str[pos] != '{' {
        NoBrace(str, vars, expanded, prevPos);
        pos := Find(str, '$', pos);
        continue;
      }
      var epos := Find(str, '}', pos);
      if epos == |str| {
        Unclosed(str, vars, expanded, prevPos);
        continue;
      }
      pos := pos + 1;
      var name := str[pos..epos];
      ghost var before := expanded;
      if name in vars {
        expanded := expanded + vars[name];
      }
      PutIn(str, vars, before, prevPos, epos, name, expanded);
      prevPos := epos + 1;
      pos := Find(str, '$', epos);
    }
    Finished(str, vars, expanded, prevPos);
    expanded := expanded + str[prevPos..];
  }

  // ---- Templates ----------------------------------------------------------------------------------

  datatype Piece = Literal(text: string) | Var(name: string)

  predicate PieceOk(p: Piece) {
    match p
    case Literal(text) => text != "" && forall k :: 0 <= k < |text| - 1 ==> !(text[k] == '$' && text[k + 1] == '{')
    case Var(name) => '}' !in name
  }

  function PieceSource(p: Piece): string {
    match p
    case Literal(text) => text
    case Var(name) => ['$', '{'] + name + ['}']
  }

  /** Text in which no variable opens, and variables; two texts are not next to each other. */
  predicate TemplateOk(t: seq<Piece>) {
    && (forall k :: 0 <= k < |t| ==> PieceOk(t[k]))
    && (forall k :: 0 < k < |t| ==> t[k - 1].Var? || t[k].Var?)
  }

  /** What is behind the last piece: nothing, or the start of a variable that is not closed. */
  predicate TailOk(tail: string) {
    tail == "" || (|tail| >= 2 && tail[0] == '$' && tail[1] == '{' && '}' !in tail)
  }

  function Source(t: seq<Piece>): string {
    if t == [] then "" else PieceSource(t[0]) + Source(t[1..])
  }

  /** What a piece means; `${}` at the very end is too short to be a variable. */
  function PieceMeaning(p: Piece, last: bool, vars: Vars): string {
    match p
    case Literal(text) => text
    case Var(name) => if name == "" && last then "${}" else if name in vars then vars[name] else ""
  }

  /** What the pieces mean one after the other; `end` if nothing is behind them. */
  function Meaning(t: seq<Piece>, end: bool, vars: Vars): string {
    if t == [] then "" else PieceMeaning(t[0], end && |t| == 1, vars) + Meaning(t[1..], end, vars)
  }

  lemma LiteralExpands(s: string, i: nat, j: nat, text: string, vars: Vars)
    requires PieceOk(Literal(text)) && i <= j <= |s| && s[i..j] == text && (j < |s| ==> s[j] != '{')
    ensures Expanded(s, i, vars) == text + Expanded(s, j, vars)
  {
    forall k | i <= k < j ensures !Opens(s, k) {
      assert s[k] == text[k - i];
      if k + 1 < j { assert s[k + 1] == text[k - i + 1]; }
    }
    PlainIsKept(s, i, j, vars);
  }

  lemma VarExpands(s: string, i: nat, j: nat, name: string, vars: Vars)
    requires '}' !in name && i <= j <= |s| && s[i..j] == PieceSource(Var(name))
    ensures Expanded(s, i, vars) == PieceMeaning(Var(name), j == |s|, vars) + Expanded(s, j, vars)
  {
    VarAt(s, i, j, name);
    if name == "" && j == |s| {
      PlainIsKept(s, i, j, vars);
    } else {
      assert Opens(s, i);
    }
  }

  lemma VarAt(s: string, i: nat, j: nat, name: string)
    requires '}' !in name && i <= j <= |s| && s[i..j] == ['$', '{'] + name + ['}']
    ensures j == i + |name| + 3 && s[i] == '$' && s[i + 1] == '{'
    ensures Find(s, '}', i + 1) == j - 1 && s[i + 2..j - 1] == name
    ensures name == "" && j == |s| ==> Plain(s, i, j)
  {
    var t := s[i..j];
    assert t[0] == s[i] && t[1] == s[i + 1] && t[|t| - 1] == s[j - 1];
    forall k | i + 2 <= k < j - 1 ensures s[k] == name[k - i - 2] { assert t[k - i] == s[k]; }
    FindAt(s, '}', i + 1, j - 1);
  }

  lemma FindAt(s: string, c: char, from: nat, p: nat)
    requires from <= p < |s| && s[p] == c && forall i :: from <= i < p ==> s[i] != c
    ensures Find(s, c, from) == p
  {
    var q := Find(s, c, from);
    assert q >= p && q <= p;
  }

  /** A variable that is not closed is kept, with all that is behind it. */
  lemma TailExpands(s: string, i: nat, tail: string, vars: Vars)
    requires i <= |s| && s[i..] == tail && TailOk(tail)
    ensures Expanded(s, i, vars) == tail
  {
    forall k | i <= k < |s| ensures !Opens(s, k) { if Opens(s, k) { ClosedBehind(s, i, k); } }
    PlainIsKept(s, i, |s|, vars);
    assert s[i..|s|] == tail && tail + "" == tail;
  }

  lemma ClosedBehind(s: string, i: nat, k: nat)
    requires i <= k && Opens(s, k)
    ensures '}' in s[i..]
  {
    var e := Find(s, '}', k + 1);
    assert s[i..][e - i] == '}';
  }

  /** What is behind a text does not begin with a brace. */
  lemma NextBegins(t: seq<Piece>, tail: string)
    requires TailOk(tail) && (t == [] || t[0].Var?)
    ensures var s := Source(t) + tail; s == "" || s[0] == '$'
  {
  }

  lemma {:induction false} TemplateExpandsFrom(s: string, i: nat, t: seq<Piece>, tail: string, vars: Vars)
    requires i <= |s| && s[i..] == Source(t) + tail && TemplateOk(t) && TailOk(tail)
    ensures Expanded(s, i, vars) == Meaning(t, tail == "", vars) + tail
    decreases |t|
  {
    if t == [] {
      assert "" + tail == tail;
      TailExpands(s, i, tail, vars);
    } else {
      var j, rest := i + |PieceSource(t[0])|, t[1..];
      SourceSplits(s, i, t, tail, j);
      RestOk(t);
      if t[0].Literal? {
        NextBegins(rest, tail);
        LiteralExpands(s, i, j, t[0].text, vars);
      } else {
        VarExpands(s, i, j, t[0].name, vars);
      }
      TemplateExpandsFrom(s, j, rest, tail, vars);
      Regroup(PieceMeaning(t[0], j == |s|, vars), Meaning(rest, tail == "", vars), tail);
    }
  }

  lemma RestOk(t: seq<Piece>)
    requires TemplateOk(t) && t != []
    ensures TemplateOk(t[1..]) && (t[0].Literal? && |t| > 1 ==> t[1..][0].Var?)
  {
  }

  lemma SourceSplits(s: string, i: nat, t: seq<Piece>, tail: string, j: nat)
    requires t != [] && i <= |s| && s[i..] == Source(t) + tail && j == i + |PieceSource(t[0])| && TemplateOk(t)
    ensures i <= j <= |s| && s[i..j] == PieceSource(t[0]) && s[j..] == Source(t[1..]) + tail
    ensures j == |s| <==> |t| == 1 && tail == ""
  {
    var x, y := PieceSource(t[0]), Source(t[1..]) + tail;
    Regroup(PieceSource(t[0]), Source(t[1..]), tail);
    Halves(s, i, j, x, y);
    if |t| > 1 { assert PieceSource(t[1..][0]) != ""; }
  }

  lemma Halves(s: string, i: nat, j: nat, x: string, y: string)
    requires i <= |s| && s[i..] == x + y && j == i + |x|
    ensures j <= |s| && s[i..j] == x && s[j..] == y
  {
    assert s[i..][..|x|] == s[i..j] && s[i..][|x|..] == s[j..];
  }

  /** Every template, with or without an unclosed variable at its end, expands to its meaning. */
  lemma TemplateExpands(t: seq<Piece>, tail: string, vars: Vars)
    requires TemplateOk(t) && TailOk(tail)
    ensures Expanded(Source(t) + tail, 0, vars) == Meaning(t, tail == "", vars) + tail
  {
    var s := Source(t) + tail;
    assert s[0..] == s;
    TemplateExpandsFrom(s, 0, t, tail, vars);
  }

  /** Where the next variable begins, closed or not, or the length. */
  function NextVar(s: string, i: nat): (p: nat)
    requires i <= |s|
    ensures i <= p <= |s| && (p < |s| ==> p + 1 < |s| && s[p] == '$' && s[p + 1] == '{')
    ensures forall k :: i <= k < p && k + 1 < |s| ==> !(s[k] == '$' && s[k + 1] == '{')
    decreases |s| - i
  {
    if i + 1 >= |s| then |s| else if s[i] == '$' && s[i + 1] == '{' then i else NextVar(s, i + 1)
  }

  /** The text up to the next variable, if there is any. */
  function Before(s: string, i: nat, p: nat): (t: seq<Piece>)
    requires i <= p <= |s| && p == NextVar(s, i)
    ensures TemplateOk(t) && Source(t) == s[i..p] && |t| <= 1
  {
    if i == p then [] else [Literal(s[i..p])]
  }

  lemma SourceAppends(t: seq<Piece>, v: Piece, rest: seq<Piece>)
    requires TemplateOk(t) && |t| <= 1 && v.Var? && PieceOk(v) && TemplateOk(rest)
    ensures TemplateOk(t + [v] + rest) && Source(t + [v] + rest) == Source(t) + (PieceSource(v) + Source(rest))
  {
    if t == [] {
      assert t + [v] + rest == [v] + rest;
      assert ([v] + rest)[1..] == rest && "" + (PieceSource(v) + Source(rest)) == PieceSource(v) + Source(rest);
    } else {
      assert (t + [v] + rest)[1..] == [v] + rest && ([v] + rest)[1..] == rest;
      assert t[1..] == [] && Source(t) == PieceSource(t[0]) + "" == PieceSource(t[0]);
    }
  }

  lemma VarBetween(s: string, i: nat, p: nat, e: nat, rest: string)
    requires i <= p && p + 2 <= e < |s| && s[p] == '$' && s[p + 1] == '{' && s[e] == '}' && s[e + 1..] == rest
    ensures s[i..] == s[i..p] + (PieceSource(Var(s[p + 2..e])) + rest)
  {
    var v := ['$', '{'] + s[p + 2..e] + ['}'];
    assert s[p..e + 1] == v;
    assert s[i..] == s[i..p] + (s[p..e + 1] + s[e + 1..]);
  }

  lemma UnclosedTail(s: string, i: nat, p: nat)
    requires i <= p <= |s| && p == NextVar(s, i) && (p < |s| ==> Find(s, '}', p + 2) == |s|)
    ensures TailOk(s[p..]) && s[i..] == s[i..p] + s[p..]
  {
    assert forall k :: p + 2 <= k < |s| ==> s[p..][k - p] == s[k];
    assert p < |s| ==> s[p..][0] == s[p] && s[p..][1] == s[p + 1];
  }

  lemma ClosedVar(s: string, i: nat, p: nat, e: nat, t: seq<Piece>, rest: seq<Piece>, end: string)
    requires i <= p && p + 2 <= e < |s| && p == NextVar(s, i) && e == Find(s, '}', p + 2) && t == Before(s, i, p)
    requires TemplateOk(rest) && s[e + 1..] == Source(rest) + end
    ensures var t' := t + [Var(s[p + 2..e])] + rest; TemplateOk(t') && s[i..] == Source(t') + end
  {
    var v := Var(s[p + 2..e]);
    SourceAppends(t, v, rest);
    VarBetween(s, i, p, e, Source(rest) + end);
    FourParts(Source(t), PieceSource(v), Source(rest), end);
  }

  lemma {:induction false} EveryTextFrom(s: string, i: nat) returns (t: seq<Piece>, tail: string)
    requires i <= |s|
    ensures TemplateOk(t) && TailOk(tail) && s[i..] == Source(t) + tail
    decreases |s| - i
  {
    var p := NextVar(s, i);
    var e := if p == |s| then |s| else Find(s, '}', p + 2);
    t := Before(s, i, p);
    if e == |s| {
      tail := s[p..];
      UnclosedTail(s, i, p);
    } else {
      var rest, end := EveryTextFrom(s, e + 1);
      ClosedVar(s, i, p, e, t, rest, end);
      t, tail := t + [Var(s[p + 2..e])] + rest, end;
    }
  }

  lemma FourParts(a: string, b: string, c: string, d: string)
    ensures a + (b + (c + d)) == a + (b + c) + d
  {
  }

  /** Every text is a template, possibly with an unclosed variable at its end. */
  lemma EveryText(s: string) returns (t: seq<Piece>, tail: string)
    ensures TemplateOk(t) && TailOk(tail) && s == Source(t) + tail
  {
    t, tail := EveryTextFrom(s, 0);
    assert s[0..] == s;
  }

  // ---- Replacing ----------------------------------------------------------------------------------

  predicate At(s: string, i: nat, pat: string) {
    i + |pat| <= |s| && forall j :: 0 <= j < |pat| ==> s[i + j] == pat[j]
  }

  predicate NoneBetween(s: string, from: nat, to: nat, pat: string) {
    forall i :: from <= i < to ==> !At(s, i, pat)
  }

  /** What `find(pat, from)` promises. */
  predicate Found(s: string, pat: string, from: nat, r: Option<nat>) {
    match r
    case Some(p) => from <= p && At(s, p, pat) && NoneBetween(s, from, p, pat)
    case None => NoneBetween(s, from, |s| + 1, pat)
  }

  /** `find(pat, from)`. */
  function FindStr(s: string, pat: string, from: nat): (r: Option<nat>)
    ensures Found(s, pat, from, r)
    decreases if from <= |s| then |s| - from + 1 else 0
  {
    if from > |s| then None else if At(s, from, pat) then Some(from) else FindStr(s, pat, from + 1)
  }

  /** Leftmost occurrences first, none overlapping the one before, on the string as given. */
  function Replaced(s: string, i: nat, pat: string, rep: string): string
    requires pat != "" && i <= |s|
    decreases |s| - i
  {
    if i == |s| then ""
    else if At(s, i, pat) then rep + Replaced(s, i + |pat|, pat, rep)
    else [s[i]] + Replaced(s, i + 1, pat, rep)
  }

  lemma {:induction false} ReplacedSkips(s: string, from: nat, to: nat, pat: string, rep: string)
    requires pat != "" && from <= to <= |s| && NoneBetween(s, from, to, pat)
    ensures Replaced(s, from, pat, rep) == s[from..to] + Replaced(s, to, pat, rep)
    decreases |s| - from
  {
    if from < to {
      ReplacedSkips(s, from + 1, to, pat, rep);
      Stretch(s, from, to, Replaced(s, to, pat, rep));
    }
  }

  /** The body of the loop: the occurrence at `pos` is replaced and the search goes on behind it. */
  function Round(r: string, pos: nat, pat: string, rep: string): (string, Option<nat>)
    requires At(r, pos, pat)
  {
    var r' := r[..pos] + rep + r[pos + |pat|..];
    (r', FindStr(r', pat, pos + |rep|))
  }

  lemma AtSame(done: string, s: string, k: nat, i: nat, pat: string)
    requires k <= i && k <= |s|
    ensures At(done + s[k..], |done| + i - k, pat) <==> At(s, i, pat)
  {
    var r, d := done + s[k..], |done| + i - k;
    assert |r| - d == |s| - i;
    if i + |pat| <= |s| {
      assert r[d..] == s[i..];
      assert forall j {:trigger pat[j]} :: 0 <= j < |pat| ==> r[d + j] == r[d..][j] && s[i + j] == s[i..][j];
    }
  }

  /** No occurrence behind what is done means none in the string as given. */
  lemma NoneSame(done: string, s: string, k: nat, p: nat, pat: string)
    requires k <= |s| && k <= p && NoneBetween(done + s[k..], |done|, |done| + p - k, pat)
    ensures NoneBetween(s, k, p, pat)
  {
    forall i | k <= i < p ensures !At(s, i, pat) { AtSame(done, s, k, i, pat); }
  }

  lemma NextFound(r: string, pos: nat, done: string, s: string, k: nat, pat: string) returns (p: nat)
    requires k <= |s| && r == done + s[k..] && Found(r, pat, |done|, Some(pos))
    ensures k <= p && pos == |done| + p - k && At(s, p, pat) && NoneBetween(s, k, p, pat)
  {
    p := pos - |done| + k;
    AtSame(done, s, k, p, pat);
    NoneSame(done, s, k, p, pat);
  }

  lemma SpliceSame(r: string, pos: nat, done: string, s: string, k: nat, p: nat, n: nat, rep: string,
                   r': string, done': string)
    requires k <= p && p + n <= |s| && r == done + s[k..] && pos == |done| + p - k
    requires r' == r[..pos] + rep + r[pos + n..] && done' == done + s[k..p] + rep
    ensures r' == done' + s[p + n..] && |done'| == pos + |rep|
  {
    assert r[..pos] == done + s[k..p] && r[pos + n..] == s[p + n..];
  }

  lemma ReplacedStep(done: string, s: string, k: nat, p: nat, pat: string, rep: string, done': string)
    requires pat != "" && k <= p && At(s, p, pat) && NoneBetween(s, k, p, pat) && done' == done + s[k..p] + rep
    ensures done + Replaced(s, k, pat, rep) == done' + Replaced(s, p + |pat|, pat, rep)
  {
    ReplacedSkips(s, k, p, pat, rep);
    RegroupFour(done, s[k..p], rep, Replaced(s, p + |pat|, pat, rep));
  }

  lemma RegroupFour(a: string, b: string, c: string, d: string)
    ensures a + (b + (c + d)) == (a + b + c) + d
  {
  }

  lemma NothingToReplace(done: string, s: string, k: nat, pat: string, rep: string)
    requires pat != "" && k <= |s| && NoneBetween(s, k, |s| + 1, pat)
    ensures done + Replaced(s, k, pat, rep) == done + s[k..]
  {
    ReplacedSkips(s, k, |s|, pat, rep);
  }

  /** How far replaceStrs has come: `done`, up to `at`, and then the string as given from `k` on. */
  ghost predicate Going(r: string, at: nat, done: string, s: string, k: nat, pat: string, rep: string, goal: string)
    requires pat != ""
  {
    k <= |s| && |done| == at && r == done + s[k..] && done + Replaced(s, k, pat, rep) == goal
  }

  lemma Setting(s: string, pat: string, rep: string)
    requires pat != ""
    ensures Going(s, 0, "", s, 0, pat, rep, Replaced(s, 0, pat, rep))
  {
    assert "" + s[0..] == s;
    assert "" + Replaced(s, 0, pat, rep) == Replaced(s, 0, pat, rep);
  }

  /** One round goes on from `done` and `k` to their next values. */
  lemma GoingOn(r: string, at: nat, pos: nat, done: string, s: string, k: nat, pat: string, rep: string, goal: string,
                r': string)
      returns (done': string, k': nat)
    requires pat != "" && Going(r, at, done, s, k, pat, rep, goal) && Found(r, pat, at, Some(pos))
    requires r' == r[..pos] + rep + r[pos + |pat|..]
    ensures k < k' && Going(r', pos + |rep|, done', s, k', pat, rep, goal)
  {
    var p := NextFound(r, pos, done, s, k, pat);
    done', k' := done + s[k..p] + rep, p + |pat|;
    SpliceSame(r, pos, done, s, k, p, |pat|, rep, r', done');
    ReplacedStep(done, s, k, p, pat, rep, done');
  }

  lemma GoneThrough(r: string, at: nat, done: string, s: string, k: nat, pat: string, rep: string, goal: string)
    requires pat != "" && Going(r, at, done, s, k, pat, rep, goal) && Found(r, pat, at, None)
    ensures r == goal
  {
    NoneSame(done, s, k, |s| + 1, pat);
    NothingToReplace(done, s, k, pat, rep);
  }

  /** The loop of replaceStrs; with an empty pattern it would not end. */
  method ReplaceStrs(str: string, pat: string, rep: string) returns (result: string)
    requires pat != ""
    ensures result == Replaced(str, 0, pat, rep)
  {
    Setting(str, pat, rep);
    ghost var done: string, k: nat, at: nat, goal := "", 0, 0, Replaced(str, 0, pat, rep);
    result := str;
    var pos: Option<nat> := FindStr(result, pat, 0);
    while pos.Some?
      invariant Found(result, pat, at, pos)
      invariant k <= |str| && Going(result, at, done, str, k, pat, rep, goal)
      decreases |str| - k
    {
      ghost var before := result;
      result := result[..pos.value] + rep + result[pos.value + |pat|..];
      done, k := GoingOn(before, at, pos.value, done, str, k, pat, rep, goal, result);
      at := pos.value + |rep|;
      pos := FindStr(result, pat, pos.value + |rep|);
    }
    GoneThrough(result, at, done, str, k, pat, rep, goal);
  }

  /** The loop after `n` rounds, from a result and the position found in it. */
  function Rounds(r: string, pos: Option<nat>, pat: string, rep: string, n: nat): (string, Option<nat>)
    requires pos.Some? ==> At(r, pos.value, pat)
    decreases n
  {
    if n == 0 || pos.None? then (r, pos) else
    var (r', pos') := Round(r, pos.value, pat, rep);
    Rounds(r', pos', pat, rep, n - 1)
  }

  /** With an empty pattern there is always another occurrence. */
  lemma {:induction false} EmptyPatternGoesOn(r: string, pos: nat, pat: string, rep: string, n: nat)
    requires pat == "" && pos <= |r|
    ensures At(r, pos, pat) && Rounds(r, Some(pos), pat, rep, n).1.Some?
    decreases n
  {
    if n > 0 {
      var (r', pos') := Round(r, pos, pat, rep);
      EmptyPatternGoesOn(r', pos + |rep|, pat, rep, n - 1);
    }
  }

  lemma {:induction false} PatternRunsOut(r: string, pos: Option<nat>, pat: string, rep: string, n: nat)
    requires pat != "" && (pos.Some? ==> At(r, pos.value, pat) && |r| - pos.value <= n)
    ensures Rounds(r, pos, pat, rep, n).1.None?
    decreases n
  {
    if pos.Some? {
      var (r', pos') := Round(r, pos.value, pat, rep);
      PatternRunsOut(r', pos', pat, rep, n - 1);
    }
  }

  /** The loop ends, within as many rounds as the string has characters, exactly when the pattern is
      not empty. */
  lemma ReplacingEndsIff(s: string, pat: string, rep: string)
    ensures pat != "" ==> Rounds(s, FindStr(s, pat, 0), pat, rep, |s|).1.None?
    ensures pat == "" ==> forall n :: Rounds(s, FindStr(s, pat, 0), pat, rep, n).1.Some?
  {
    if pat != "" {
      PatternRunsOut(s, FindStr(s, pat, 0), pat, rep, |s|);
    } else {
      forall n ensures Rounds(s, FindStr(s, pat, 0), pat, rep, n).1.Some? {
        EmptyPatternGoesOn(s, 0, pat, rep, n);
      }
    }
  }
}
