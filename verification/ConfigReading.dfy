/** What a configuration file means, line by line, said without the reading loop. */
module ConfigReading {
  import opened Wrappers
  import opened Strings
  import opened ConfigText

  // ---- Lines as they stand in a file ----------------------------------------------------------------

  /** A line in brackets, apart from blanks at its ends. */
  predicate IsHeader(line: string) {
    var s := Trim(line);
    |s| > 3 && s[0] == '[' && s[|s| - 1] == ']'
  }

  /** A line that opens the store at `t`: `[GLOBAL]`, in any case, the globals, any other the section it names. */
  predicate Header(line: string, t: Cursor) {
    && IsHeader(line)
    && var s := Trim(line);
       t == if ToUpper(s[1..|s| - 1]) == "GLOBAL" then None else Some(s[1..|s| - 1])
  }

  /** The first `=` is at `p`, with the key before it and the value behind it. */
  predicate SplitsAt(s: string, p: nat, k: string, v: string) {
    p < |s| && s[p] == '=' && (forall i :: 0 <= i < p ==> s[i] != '=') && k == Trim(s[..p]) && v == Trim(s[p + 1..])
  }

  /** A line that gives a key a value: neither a comment nor a header, and split at its first `=`. */
  ghost predicate Assigns(line: string, k: string, v: string) {
    && !IsHeader(line)
    && var s := Trim(line);
       s != "" && s[0] != '#' && exists p: nat :: SplitsAt(s, p, k, v)
  }

  /** A line that says nothing: blank, a comment, or neither in brackets nor with a `=`. */
  predicate Idle(line: string) {
    var s := Trim(line);
    s == "" || s[0] == '#' || (!IsHeader(line) && '=' !in s)
  }

  /** Line `n` stands in the store at `t`: the nearest header above it opens that store, or there is none and
      it is the globals. */
  ghost predicate Under(lines: seq<string>, n: nat, t: Cursor)
    requires n <= |lines|
  {
    (t.None? && NoHeader(lines, 0, n)) || exists h: nat :: Opens(lines, h, n, t)
  }

  predicate Opens(lines: seq<string>, h: nat, n: nat, t: Cursor)
    requires n <= |lines|
  {
    h < n && Header(lines[h], t) && NoHeader(lines, h + 1, n)
  }

  predicate NoHeader(lines: seq<string>, i: nat, n: nat)
    requires n <= |lines|
  {
    forall g :: i <= g < n ==> !IsHeader(lines[g])
  }

  /** Line `j` gives key `k` of the store at `t` the value `v`. */
  ghost predicate Writes(lines: seq<string>, j: nat, t: Cursor, k: string, v: string) {
    j < |lines| && Under(lines, j, t) && Assigns(lines[j], k, v)
  }

  ghost predicate NoWriter(lines: seq<string>, i: nat, n: nat, t: Cursor, k: string) {
    forall j: nat, v :: i <= j < n ==> !Writes(lines, j, t, k, v)
  }

  /** Of the first `n` lines, line `j` is the last to give key `k` of the store at `t` a value, and that is `v`. */
  ghost predicate LastWriter(lines: seq<string>, n: nat, j: nat, t: Cursor, k: string, v: string) {
    j < n && Writes(lines, j, t, k, v) && NoWriter(lines, j + 1, n, t, k)
  }

  // ---- What reading makes of a line -------------------------------------------------------------------

  lemma HeaderIff(line: string, t: Cursor)
    ensures Header(line, t) <==> Classify(line) == if t.None? then ToGlobals else ToSection(t.value)
  {
  }

  lemma AssignsIff(line: string, k: string, v: string)
    ensures Assigns(line, k, v) <==> Classify(line) == Entry(k, v)
  {
    var s := Trim(line);
    if p: nat :| SplitsAt(s, p, k, v) { FindUnique(s, '=', p); }
    if Classify(line) == Entry(k, v) { EntryAssigns(line, k, v); }
  }

  lemma EntryAssigns(line: string, k: string, v: string)
    requires Classify(line) == Entry(k, v)
    ensures Assigns(line, k, v)
  {
    var s := Trim(line);
    assert SplitsAt(s, Find(s, '=', 0), k, v);
  }

  lemma IdleIff(line: string)
    ensures Idle(line) <==> Classify(line).Skipped?
  {
    var s := Trim(line);
    if '=' in s {
      var p :| 0 <= p < |s| && s[p] == '=';
    } else {
      FindUnique(s, '=', |s|);
    }
  }

  // ---- Reading up to a line -----------------------------------------------------------------------------

  /** The contents and the open store after the first `n` lines. */
  function ReadTo(c: Config, lines: seq<string>, n: nat): (r: (Config, Cursor))
    requires n <= |lines|
    ensures CursorOk(r.0, r.1)
  {
    if n == 0 then (c, None) else
    var (c', at) := ReadTo(c, lines, n - 1);
    Obey(c', at, Classify(lines[n - 1]))
  }

  lemma {:induction false} ReadFrom(c: Config, lines: seq<string>, n: nat)
    requires n <= |lines|
    ensures var (c', at) := ReadTo(c, lines, n); ReadLines(c', at, lines[n..]) == ReadLines(c, None, lines)
  {
    if n == 0 {
      assert lines[0..] == lines;
    } else {
      var (c', at) := ReadTo(c, lines, n - 1);
      ReadFrom(c, lines, n - 1);
      assert lines[n - 1..] == [lines[n - 1]] + lines[n..];
      ReadCons(c', at, lines[n - 1], lines[n..]);
    }
  }

  lemma ReadAll(c: Config, lines: seq<string>)
    ensures ReadTo(c, lines, |lines|).0 == ReadLines(c, None, lines)
  {
    ReadFrom(c, lines, |lines|);
  }

  lemma UnderHeader(lines: seq<string>, n: nat, t: Cursor)
    requires n < |lines| && IsHeader(lines[n])
    ensures Under(lines, n + 1, t) <==> Header(lines[n], t)
  {
    if Header(lines[n], t) { assert Opens(lines, n, n + 1, t); }
  }

  lemma UnderOther(lines: seq<string>, n: nat, t: Cursor)
    requires n < |lines| && !IsHeader(lines[n])
    ensures Under(lines, n + 1, t) <==> Under(lines, n, t)
  {
    if h: nat :| Opens(lines, h, n, t) { assert Opens(lines, h, n + 1, t); }
    var m := n + 1;
    if h: nat :| Opens(lines, h, m, t) { assert Opens(lines, h, n, t); }
  }

  /** The open store is the one that the line stands in. */
  lemma {:induction false} OpenIsUnder(c: Config, lines: seq<string>, n: nat, t: Cursor)
    requires n <= |lines|
    ensures ReadTo(c, lines, n).1 == t <==> Under(lines, n, t)
  {
    if n > 0 {
      OpenIsUnder(c, lines, n - 1, t);
      var (c', at) := ReadTo(c, lines, n - 1);
      OpensNext(c', at, lines, n - 1, t);
    }
  }

  lemma OpensNext(c: Config, at: Cursor, lines: seq<string>, n: nat, t: Cursor)
    requires CursorOk(c, at) && n < |lines| && (at == t <==> Under(lines, n, t))
    ensures Obey(c, at, Classify(lines[n])).1 == t <==> Under(lines, n + 1, t)
  {
    ObeyOpens(c, at, lines[n], t);
    if IsHeader(lines[n]) { UnderHeader(lines, n, t); } else { UnderOther(lines, n, t); }
  }

  lemma ObeyOpens(c: Config, at: Cursor, line: string, t: Cursor)
    requires CursorOk(c, at)
    ensures Obey(c, at, Classify(line)).1 == t <==> if IsHeader(line) then Header(line, t) else at == t
  {
  }

  lemma ObeyEntry(c: Config, at: Cursor, l: Line, t: Cursor, k: string)
    requires CursorOk(c, at)
    ensures EntryAt(Obey(c, at, l).0, t, k) ==
      if at == t && l.Entry? && l.key == k then Some(l.value) else EntryAt(c, t, k)
  {
  }

  lemma WritesIff(c: Config, lines: seq<string>, n: nat, t: Cursor, k: string, v: string)
    requires n < |lines|
    ensures Writes(lines, n, t, k, v) <==> ReadTo(c, lines, n).1 == t && Classify(lines[n]) == Entry(k, v)
  {
    OpenIsUnder(c, lines, n, t);
    AssignsIff(lines[n], k, v);
  }

  /** Line `n` leaves the key alone. */
  ghost predicate Leaves(lines: seq<string>, n: nat, t: Cursor, k: string) {
    forall v :: !Writes(lines, n, t, k, v)
  }

  lemma NoWriterNext(lines: seq<string>, i: nat, n: nat, t: Cursor, k: string)
    requires i <= n
    ensures NoWriter(lines, i, n + 1, t, k) <==> NoWriter(lines, i, n, t, k) && Leaves(lines, n, t, k)
  {
  }

  /** Some line of the first `n` is the last writer, or there is none and the value was there before. */
  ghost predicate Holds(c: Config, lines: seq<string>, n: nat, t: Cursor, k: string, v: string) {
    || (exists j: nat :: LastWriter(lines, n, j, t, k, v))
    || (NoWriter(lines, 0, n, t, k) && EntryAt(c, t, k) == Some(v))
  }

  lemma HoldsOn(c: Config, lines: seq<string>, n: nat, t: Cursor, k: string, v: string)
    requires Leaves(lines, n, t, k)
    ensures Holds(c, lines, n + 1, t, k, v) <==> Holds(c, lines, n, t, k, v)
  {
    var m := n + 1;
    NoWriterNext(lines, 0, n, t, k);
    if j: nat :| LastWriter(lines, n, j, t, k, v) {
      NoWriterNext(lines, j + 1, n, t, k);
      assert LastWriter(lines, m, j, t, k, v);
    }
    if j: nat :| LastWriter(lines, m, j, t, k, v) {
      assert j != n;
      NoWriterNext(lines, j + 1, n, t, k);
      assert LastWriter(lines, n, j, t, k, v);
    }
  }

  lemma LastIsLast(lines: seq<string>, n: nat, j: nat, t: Cursor, k: string, v: string, w: string)
    requires LastWriter(lines, n + 1, j, t, k, v) && Writes(lines, n, t, k, w)
    ensures j == n
  {
  }

  lemma HoldsNew(c: Config, lines: seq<string>, n: nat, t: Cursor, k: string, v: string, w: string)
    requires Writes(lines, n, t, k, w) && (Writes(lines, n, t, k, v) ==> v == w)
    ensures Holds(c, lines, n + 1, t, k, v) <==> v == w
  {
    var m := n + 1;
    NoWriterNext(lines, 0, n, t, k);
    if v == w { assert LastWriter(lines, m, n, t, k, v); }
    if j: nat :| LastWriter(lines, m, j, t, k, v) { LastIsLast(lines, n, j, t, k, v, w); }
  }

  lemma HoldsStep(c: Config, lines: seq<string>, n: nat, t: Cursor, k: string, v: string, was: Config, at: Cursor)
    requires n < |lines| && (was, at) == ReadTo(c, lines, n)
    requires EntryAt(was, t, k) == Some(v) <==> Holds(c, lines, n, t, k, v)
    ensures EntryAt(Obey(was, at, Classify(lines[n])).0, t, k) == Some(v) <==> Holds(c, lines, n + 1, t, k, v)
  {
    var l := Classify(lines[n]);
    ObeyEntry(was, at, l, t, k);
    if at == t && l.Entry? && l.key == k {
      WritesIff(c, lines, n, t, k, v);
      WritesIff(c, lines, n, t, k, l.value);
      HoldsNew(c, lines, n, t, k, v, l.value);
    } else {
      forall w ensures !Writes(lines, n, t, k, w) { WritesIff(c, lines, n, t, k, w); }
      HoldsOn(c, lines, n, t, k, v);
    }
  }

  lemma {:induction false} ReadToHolds(c: Config, lines: seq<string>, n: nat, t: Cursor, k: string, v: string)
    requires n <= |lines|
    ensures EntryAt(ReadTo(c, lines, n).0, t, k) == Some(v) <==> Holds(c, lines, n, t, k, v)
  {
    if n > 0 {
      ReadToHolds(c, lines, n - 1, t, k, v);
      var (was, at) := ReadTo(c, lines, n - 1);
      assert ReadTo(c, lines, n) == Obey(was, at, Classify(lines[n - 1]));
      HoldsStep(c, lines, n - 1, t, k, v, was, at);
    }
  }

  /** Reading a file into a store: every key of every store has the value that the last line for it gave, and
      if there is no such line the value it had. */
  lemma ReadsLastWriter(base: Config, text: string, t: Cursor, k: string, v: string)
    ensures var lines := Split(text, '\n');
      EntryAt(ParseOnto(base, text), t, k) == Some(v) <==> Holds(base, lines, |lines|, t, k, v)
  {
    var lines := Split(text, '\n');
    ReadToHolds(base, lines, |lines|, t, k, v);
    ReadAll(base, lines);
  }

  lemma ObeySections(c: Config, at: Cursor, l: Line, n: string)
    requires CursorOk(c, at)
    ensures n in Obey(c, at, l).0.sections <==> n in c.sections || l == ToSection(n)
  {
  }

  lemma {:induction false} ReadToSections(c: Config, lines: seq<string>, i: nat, n: string)
    requires i <= |lines|
    ensures n in ReadTo(c, lines, i).0.sections <==>
      n in c.sections || exists j :: 0 <= j < i && Header(lines[j], Some(n))
  {
    if i > 0 {
      ReadToSections(c, lines, i - 1, n);
      var (c', at) := ReadTo(c, lines, i - 1);
      ObeySections(c', at, Classify(lines[i - 1]), n);
      HeaderIff(lines[i - 1], Some(n));
    }
  }

  /** The sections are those that were there and those that a line opens. */
  lemma ReadsSections(base: Config, text: string, n: string)
    ensures n in ParseOnto(base, text).sections <==>
      n in base.sections || exists line :: line in Split(text, '\n') && Header(line, Some(n))
  {
    var lines := Split(text, '\n');
    ReadToSections(base, lines, |lines|, n);
    ReadAll(base, lines);
  }

  /** Two configurations with the same sections and the same entries are the same. */
  lemma SameEntries(a: Config, b: Config)
    requires a.sections.Keys == b.sections.Keys && forall t, k :: EntryAt(a, t, k) == EntryAt(b, t, k)
    ensures a == b
  {
    StoresAgree(a, b, None);
    forall n | n in a.sections ensures n in b.sections && a.sections[n] == b.sections[n] { StoresAgree(a, b, Some(n)); }
  }

  lemma StoresAgree(a: Config, b: Config, t: Cursor)
    requires CursorOk(a, t) && CursorOk(b, t) && forall k :: EntryAt(a, t, k) == EntryAt(b, t, k)
    ensures Target(a, t) == Target(b, t)
  {
    var x, y := Target(a, t), Target(b, t);
    forall k ensures (k in x <==> k in y) && (k in x ==> x[k] == y[k]) {
      assert EntryAt(a, t, k) == EntryAt(b, t, k);
    }
  }

  // ---- Lines that say nothing -----------------------------------------------------------------------------

  lemma {:induction false} IdleLine(c: Config, at: Cursor, a: seq<string>, x: string, b: seq<string>)
    requires CursorOk(c, at) && Idle(x)
    ensures ReadLines(c, at, a + [x] + b) == ReadLines(c, at, a + b)
    decreases |a|
  {
    if a == [] {
      assert [] + [x] + b == [x] + b && [] + b == b;
      IdleIff(x);
      ReadCons(c, at, x, b);
    } else {
      var (c', at') := Obey(c, at, Classify(a[0]));
      assert a + [x] + b == [a[0]] + (a[1..] + [x] + b) && a + b == [a[0]] + (a[1..] + b);
      ReadCons(c, at, a[0], a[1..] + [x] + b);
      ReadCons(c, at, a[0], a[1..] + b);
      IdleLine(c', at', a[1..], x, b);
    }
  }

  /** Anywhere in a file, a line that is blank, a comment, or neither in brackets nor with a `=` can be left
      out: reading the rest into any store gives the same. */
  lemma CommentsSayNothing(base: Config, text: string, short: string, a: seq<string>, x: string, b: seq<string>)
    requires Split(text, '\n') == a + [x] + b && Split(short, '\n') == a + b
    requires
      var s := Trim(x);
      s == "" || s[0] == '#' || ('=' !in s && !(|s| > 3 && s[0] == '[' && s[|s| - 1] == ']'))
    ensures ParseOnto(base, text) == ParseOnto(base, short)
  {
    IdleLine(base, None, a, x, b);
  }
}
