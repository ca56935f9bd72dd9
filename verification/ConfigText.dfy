/**
 The text form of the configuration store: what `_read` makes of a file and what `_save` writes,
 as functions on values, and exactly when one undoes the other. A line is nothing, a switch to the
 globals or to a section, or an entry for the store that the last switch chose; reading folds the lines
 of a text over a configuration. Writing goes through the globals and then the sections in key order. The
 proof that the text of a printable configuration reads back takes one line after the other: an entry
 line classifies as its entry, a section line as its section, and a store's lines build the store.
 */
module ConfigText {
  import opened Wrappers
  import opened Strings

  type Store = map<string, string>

  /** `mGlobals` and `mSections`. */
  datatype Config = Config(globals: Store, sections: map<string, Store>)

  const EMPTY: Config := Config(map[], map[])

  // ---- Reading ------------------------------------------------------------------------------------

  datatype Line = Skipped | ToGlobals | ToSection(name: string) | Entry(key: string, value: string)

  /** What one line of a file means. */
  function Classify(raw: string): Line {
    ClassifyTrimmed(Trim(raw))
  }

  predicate SectionShape(line: string) {
    |line| > 3 && line[0] == '[' && line[|line| - 1] == ']'
  }

  function ClassifyTrimmed(line: string): Line {
    if line == "" || line[0] == '#' then Skipped
    else if SectionShape(line) then
      var name := line[1..|line| - 1];
      if ToUpper(name) == "GLOBAL" then ToGlobals else ToSection(name)
    else
      var p := Find(line, '=', 0);
      if p == |line| then Skipped else Entry(Trim(line[..p]), Trim(line[p + 1..]))
  }

  /** The target of `storep`: the globals, or a section that exists. */
  type Cursor = Option<string>

  predicate CursorOk(c: Config, at: Cursor) {
    at.Some? ==> at.value in c.sections
  }

  function Target(c: Config, at: Cursor): Store
    requires CursorOk(c, at)
  {
    match at case None => c.globals case Some(n) => c.sections[n]
  }

  /** What the store at `at` holds under a key; a store that is not there holds nothing. */
  function EntryAt(c: Config, at: Cursor, k: string): Option<string> {
    if CursorOk(c, at) && k in Target(c, at) then Some(Target(c, at)[k]) else None
  }

  /** The store at `at` becomes `m`. */
  function Fill(c: Config, at: Cursor, m: Store): (r: Config)
    ensures CursorOk(r, at) && Target(r, at) == m
  {
    match at
    case None => c.(globals := m)
    case Some(n) => c.(sections := c.sections[n := m])
  }

  function Put(c: Config, at: Cursor, k: string, v: string): Config
    requires CursorOk(c, at)
  {
    Fill(c, at, Target(c, at)[k := v])
  }

  function Open(c: Config, n: string): Config {
    if n in c.sections then c else c.(sections := c.sections[n := map[]])
  }

  function Obey(c: Config, at: Cursor, l: Line): (r: (Config, Cursor))
    requires CursorOk(c, at)
    ensures CursorOk(r.0, r.1)
  {
    match l
    case Skipped => (c, at)
    case ToGlobals => (c, None)
    case ToSection(n) => (Open(c, n), Some(n))
    case Entry(k, v) => (Put(c, at, k, v), at)
  }

  function ReadLines(c: Config, at: Cursor, lines: seq<string>): Config
    requires CursorOk(c, at)
    decreases |lines|
  {
    if lines == [] then c else
    var (c', at') := Obey(c, at, Classify(lines[0]));
    ReadLines(c', at', lines[1..])
  }

  /** Reading a file into a store that already holds `c`. */
  function ParseOnto(c: Config, text: string): Config {
    ReadLines(c, None, Split(text, '\n'))
  }

  function Parse(text: string): Config {
    ParseOnto(EMPTY, text)
  }

  // ---- Writing ------------------------------------------------------------------------------------

  function EntryLine(k: string, v: string): string {
    k + " = " + v
  }

  function StoreLines(m: Store, ks: seq<string>): seq<string>
    requires forall k :: k in ks ==> k in m
  {
    if ks == [] then [] else [EntryLine(ks[0], m[ks[0]])] + StoreLines(m, ks[1..])
  }

  function AllStoreLines(m: Store): seq<string> {
    StoreLines(m, SortedKeys(m.Keys))
  }

  function SectionLine(n: string): string {
    "[" + n + "]"
  }

  function SectionLines(secs: map<string, Store>, ns: seq<string>): seq<string>
    requires forall n :: n in ns ==> n in secs
  {
    if ns == [] then [] else
    ["", SectionLine(ns[0])] + AllStoreLines(secs[ns[0]]) + SectionLines(secs, ns[1..])
  }

  function PrintedLines(c: Config): seq<string> {
    AllStoreLines(c.globals) + SectionLines(c.sections, SortedKeys(c.sections.Keys))
  }

  function Unlines(lines: seq<string>): string {
    if lines == [] then "" else lines[0] + "\n" + Unlines(lines[1..])
  }

  function Print(c: Config): string {
    Unlines(PrintedLines(c))
  }

  /** The lines of a store are its entries in key order. */
  lemma {:induction false} StoreLineAt(m: Store, ks: seq<string>, i: nat)
    requires (forall k :: k in ks ==> k in m) && i < |ks|
    ensures |StoreLines(m, ks)| == |ks| && StoreLines(m, ks)[i] == ks[i] + " = " + m[ks[i]]
  {
    if |ks| > 1 { StoreLineAt(m, ks[1..], if i == 0 then 0 else i - 1); }
  }

  // ---- Lines of a file ----------------------------------------------------------------------------

  lemma FirstLineFirst(line: string, rest: string, last: string)
    ensures line + "\n" + rest + last == line + ['\n'] + (rest + last)
  {
  }

  /** The lines of a text are the stretches between its newlines. */
  lemma {:induction false} SplitText(lines: seq<string>, last: string)
    requires '\n' !in last && forall i :: 0 <= i < |lines| ==> '\n' !in lines[i]
    ensures Split(Unlines(lines) + last, '\n') == lines + [last]
  {
    if lines == [] {
      assert "" + last == last;
      FindUnique(last, '\n', |last|);
    } else {
      SplitText(lines[1..], last);
      FirstLineFirst(lines[0], Unlines(lines[1..]), last);
      SplitCons(lines[0], Unlines(lines[1..]) + last, '\n');
    }
  }

  lemma ReadCons(c: Config, at: Cursor, line: string, rest: seq<string>)
    requires CursorOk(c, at)
    ensures var (c', at') := Obey(c, at, Classify(line)); ReadLines(c, at, [line] + rest) == ReadLines(c', at', rest)
  {
    assert ([line] + rest)[1..] == rest;
  }

  // ---- What reading a printed line gives ----------------------------------------------------------

  predicate KeyOk(k: string) {
    Trimmed(k) && '\n' !in k && '=' !in k && (k != "" ==> k[0] != '#')
  }

  predicate ValueOk(v: string) {
    Trimmed(v) && '\n' !in v
  }

  predicate NameOk(n: string) {
    '\n' !in n && |n| >= 2 && ToUpper(n) != "GLOBAL"
  }

  /** Printed, this entry would have the shape of a section line. */
  predicate Bracketed(k: string, v: string) {
    k != "" && k[0] == '[' && v != "" && v[|v| - 1] == ']'
  }

  predicate EntryOk(k: string, v: string) {
    KeyOk(k) && ValueOk(v)
  }

  /** Where the trimmed entry line starts and ends. */
  lemma EntryLineCore(k: string, v: string)
    requires Trimmed(k) && Trimmed(v)
    ensures var a, b := if k == "" then 1 else 0, |k| + if v == "" then 2 else 3 + |v|;
            Core(EntryLine(k, v), a, b) && Trim(EntryLine(k, v)) == EntryLine(k, v)[a..b]
  {
    var a, b := if k == "" then 1 else 0, |k| + if v == "" then 2 else 3 + |v|;
    TrimUnique(EntryLine(k, v), a, b);
  }

  lemma TrimAround(k: string, before: string, after: string)
    requires Trimmed(k)
    requires forall i :: 0 <= i < |before| ==> IsBlank(before[i])
    requires forall i :: 0 <= i < |after| ==> IsBlank(after[i])
    ensures Trim(before + k + after) == k
  {
    var s := before + k + after;
    assert s[|before|..|before| + |k|] == k;
    TrimUnique(s, |before|, |before| + |k|);
  }

  /** What is left of the key and of the value, with their blanks, when an entry line is trimmed. */
  function KeyPart(k: string): string {
    if k == "" then "" else k + " "
  }

  function ValuePart(v: string): string {
    if v == "" then "" else " " + v
  }

  lemma EntryLineShape(k: string, v: string)
    requires Trimmed(k) && Trimmed(v)
    ensures Trim(EntryLine(k, v)) == KeyPart(k) + "=" + ValuePart(v)
  {
    EntryLineCore(k, v);
    var a, b := if k == "" then 1 else 0, |k| + if v == "" then 2 else 3 + |v|;
    EntrySlice(k, v, EntryLine(k, v), a, b);
  }

  lemma EntrySlice(k: string, v: string, line: string, a: nat, b: nat)
    requires line == k + " = " + v
    requires a == (if k == "" then 1 else 0) && b == |k| + if v == "" then 2 else 3 + |v|
    ensures a <= b <= |line| && line[a..b] == KeyPart(k) + "=" + ValuePart(v)
  {
  }

  lemma TrimKeyPart(k: string)
    requires Trimmed(k)
    ensures Trim(KeyPart(k)) == k
  {
    TrimAround(k, "", if k == "" then "" else " ");
    assert "" + k + (if k == "" then "" else " ") == KeyPart(k);
  }

  lemma TrimValuePart(v: string)
    requires Trimmed(v)
    ensures Trim(ValuePart(v)) == v
  {
    TrimAround(v, if v == "" then "" else " ", "");
    assert (if v == "" then "" else " ") + v + "" == ValuePart(v);
  }

  lemma EntryNotSection(kb: string, bv: string)
    requires (kb != "" ==> kb[0] != '#')
    requires !(kb != "" && kb[0] == '[' && bv != "" && bv[|bv| - 1] == ']')
    ensures var line := kb + "=" + bv; line[0] != '#' && !SectionShape(line)
  {
    var line := kb + "=" + bv;
    assert line[0] == if kb == "" then '=' else kb[0];
    assert line[|line| - 1] == if bv == "" then '=' else bv[|bv| - 1];
  }

  lemma ClassifyEntry(kb: string, bv: string)
    requires '=' !in kb && (kb != "" ==> kb[0] != '#')
    requires !(kb != "" && kb[0] == '[' && bv != "" && bv[|bv| - 1] == ']')
    ensures ClassifyTrimmed(kb + "=" + bv) == Entry(Trim(kb), Trim(bv))
  {
    var line := kb + "=" + bv;
    EntryNotSection(kb, bv);
    EntrySplits(kb, bv);
    ClassifyAt(line, |kb|);
  }

  lemma EntrySplits(kb: string, bv: string)
    requires '=' !in kb
    ensures var line := kb + "=" + bv;
            Find(line, '=', 0) == |kb| && line[..|kb|] == kb && line[|kb| + 1..] == bv
  {
    FindUnique(kb + "=" + bv, '=', |kb|);
  }

  lemma ClassifyAt(line: string, p: nat)
    requires line != "" && line[0] != '#' && !SectionShape(line) && p < |line| && Find(line, '=', 0) == p
    ensures ClassifyTrimmed(line) == Entry(Trim(line[..p]), Trim(line[p + 1..]))
  {
  }

  lemma EntryReadsBack(k: string, v: string)
    requires EntryOk(k, v) && !Bracketed(k, v)
    ensures Classify(EntryLine(k, v)) == Entry(k, v)
  {
    EntryLineShape(k, v);
    ClassifyEntry(KeyPart(k), ValuePart(v));
    TrimKeyPart(k);
    TrimValuePart(v);
  }

  /** A bracketed entry reads back as a section. */
  lemma BracketedReadsAsSection(k: string, v: string)
    requires EntryOk(k, v) && Bracketed(k, v)
    ensures Classify(EntryLine(k, v)).ToSection? || Classify(EntryLine(k, v)).ToGlobals?
  {
    var line := EntryLine(k, v);
    EntryLineCore(k, v);
    assert line[0..|k| + 3 + |v|] == line;
    assert line[0] == k[0] && line[|line| - 1] == v[|v| - 1];
    BracketsAreSection(line);
  }

  lemma BracketsAreSection(line: string)
    requires SectionShape(line)
    ensures ClassifyTrimmed(line).ToSection? || ClassifyTrimmed(line).ToGlobals?
  {
  }

  lemma SectionReadsBack(n: string)
    requires NameOk(n)
    ensures Classify(SectionLine(n)) == ToSection(n)
  {
    TrimmedFixed(SectionLine(n));
  }

  // ---- Printing then parsing ----------------------------------------------------------------------

  predicate StoreOk(m: Store) {
    forall k :: k in m ==> EntryOk(k, m[k]) && !Bracketed(k, m[k])
  }

  /** The configurations whose text reads back as themselves. */
  predicate Printable(c: Config) {
    StoreOk(c.globals) && forall n :: n in c.sections ==> NameOk(n) && StoreOk(c.sections[n])
  }

  function Overlay(t: Store, m: Store, ks: seq<string>): Store
    requires forall k :: k in ks ==> k in m
    decreases |ks|
  {
    if ks == [] then t else Overlay(t[ks[0] := m[ks[0]]], m, ks[1..])
  }

  lemma {:induction false} OverlayIsMerge(t: Store, m: Store, ks: seq<string>)
    requires forall k :: k in ks ==> k in m
    ensures Overlay(t, m, ks) == t + map k | k in ks :: m[k]
    decreases |ks|
  {
    if ks == [] {
      assert t + (map k | k in ks :: m[k]) == t;
    } else {
      var t1 := t[ks[0] := m[ks[0]]];
      OverlayIsMerge(t1, m, ks[1..]);
      assert t1 + (map k | k in ks[1..] :: m[k]) == t + map k | k in ks :: m[k];
    }
  }

  lemma OverlayAll(m: Store, ks: seq<string>)
    requires forall k :: k in ks <==> k in m
    ensures Overlay(map[], m, ks) == m
  {
    OverlayIsMerge(map[], m, ks);
  }

  lemma FillFill(c: Config, at: Cursor, m: Store, m': Store)
    ensures Fill(Fill(c, at, m), at, m') == Fill(c, at, m')
  {
    if at.Some? { assert c.sections[at.value := m][at.value := m'] == c.sections[at.value := m']; }
  }

  lemma FillTarget(c: Config, at: Cursor)
    requires CursorOk(c, at)
    ensures Fill(c, at, Target(c, at)) == c
  {
    if at.Some? { assert c.sections[at.value := c.sections[at.value]] == c.sections; }
  }

  lemma {:induction false} StoreReadsBack(c: Config, at: Cursor, m: Store, ks: seq<string>, rest: seq<string>)
    requires CursorOk(c, at) && StoreOk(m) && forall k :: k in ks ==> k in m
    ensures ReadLines(c, at, StoreLines(m, ks) + rest) ==
            ReadLines(Fill(c, at, Overlay(Target(c, at), m, ks)), at, rest)
    decreases |ks|
  {
    if ks == [] {
      assert StoreLines(m, ks) + rest == rest;
      FillTarget(c, at);
    } else {
      var k, v := ks[0], m[ks[0]];
      var tail := StoreLines(m, ks[1..]) + rest;
      assert StoreLines(m, ks) + rest == [EntryLine(k, v)] + tail;
      EntryReadsBack(k, v);
      ReadCons(c, at, EntryLine(k, v), tail);
      StoreReadsBack(Put(c, at, k, v), at, m, ks[1..], rest);
      FillFill(c, at, Target(c, at)[k := v], Overlay(Target(c, at), m, ks));
    }
  }

  lemma WholeStoreReadsBack(c: Config, at: Cursor, m: Store, rest: seq<string>)
    requires CursorOk(c, at) && StoreOk(m) && Target(c, at) == map[]
    ensures ReadLines(c, at, AllStoreLines(m) + rest) == ReadLines(Fill(c, at, m), at, rest)
  {
    var ks := SortedKeys(m.Keys);
    StoreReadsBack(c, at, m, ks, rest);
    OverlayAll(m, ks);
  }

  /** The sections named in `ns`, added to `done`. */
  function With(done: map<string, Store>, secs: map<string, Store>, ns: seq<string>): map<string, Store>
    requires forall n :: n in ns ==> n in secs
  {
    done + map n | n in ns :: secs[n]
  }

  lemma WithCons(done: map<string, Store>, secs: map<string, Store>, ns: seq<string>)
    requires ns != [] && forall n :: n in ns ==> n in secs
    ensures With(done[ns[0] := secs[ns[0]]], secs, ns[1..]) == With(done, secs, ns)
  {
    assert forall n :: n in ns <==> n == ns[0] || n in ns[1..];
  }

  lemma WithAll(secs: map<string, Store>, ns: seq<string>)
    requires forall n :: n in ns <==> n in secs
    ensures With(map[], secs, ns) == secs
  {
  }

  lemma SectionBodyReadsBack(c: Config, at: Cursor, n: string, m: Store, rest: seq<string>)
    requires CursorOk(c, at) && n !in c.sections && NameOk(n) && StoreOk(m)
    ensures ReadLines(c, at, ["", SectionLine(n)] + AllStoreLines(m) + rest) ==
            ReadLines(Fill(c, Some(n), m), Some(n), rest)
  {
    var body := AllStoreLines(m) + rest;
    assert ["", SectionLine(n)] + AllStoreLines(m) + rest == [""] + ([SectionLine(n)] + body);
    BlankSkips(c, at, [SectionLine(n)] + body);
    SectionReadsBack(n);
    ReadCons(c, at, SectionLine(n), body);
    WholeStoreReadsBack(Open(c, n), Some(n), m, rest);
    FillFill(c, Some(n), map[], m);
  }

  lemma FirstSectionLines(secs: map<string, Store>, ns: seq<string>, rest: seq<string>)
    requires ns != [] && (forall n :: n in ns ==> n in secs) && rest == SectionLines(secs, ns[1..]) + [""]
    ensures SectionLines(secs, ns) + [""] == ["", SectionLine(ns[0])] + AllStoreLines(secs[ns[0]]) + rest
  {
  }

  /** The sections still to come are not there yet. */
  predicate NewSections(c: Config, secs: map<string, Store>, ns: seq<string>) {
    forall n :: n in ns ==> n in secs && n !in c.sections && NameOk(n) && StoreOk(secs[n])
  }

  lemma FirstSectionAdded(c: Config, secs: map<string, Store>, ns: seq<string>, c': Config)
    requires ns != [] && Sorted(ns) && NewSections(c, secs, ns) && c' == Fill(c, Some(ns[0]), secs[ns[0]])
    ensures Sorted(ns[1..]) && NewSections(c', secs, ns[1..])
    ensures c'.(sections := With(c'.sections, secs, ns[1..])) == c.(sections := With(c.sections, secs, ns))
  {
    SortedTail(ns);
    WithCons(c.sections, secs, ns);
  }

  lemma NoSectionsReadBack(c: Config, at: Cursor, secs: map<string, Store>)
    requires CursorOk(c, at)
    ensures ReadLines(c, at, SectionLines(secs, []) + [""]) == c.(sections := With(c.sections, secs, []))
  {
    BlankSkips(c, at, []);
    assert SectionLines(secs, []) + [""] == [""] + [];
    assert With(c.sections, secs, []) == c.sections;
  }

  /** A blank line says nothing. */
  lemma BlankSkips(c: Config, at: Cursor, rest: seq<string>)
    requires CursorOk(c, at)
    ensures ReadLines(c, at, [""] + rest) == ReadLines(c, at, rest)
  {
    var blank := "";
    TrimmedFixed(blank);
    assert Classify(blank) == Skipped;
    ReadCons(c, at, blank, rest);
  }

  lemma FirstSectionReadsBack(c: Config, at: Cursor, secs: map<string, Store>, ns: seq<string>)
    requires CursorOk(c, at) && ns != [] && NewSections(c, secs, ns)
    ensures ReadLines(c, at, SectionLines(secs, ns) + [""])
         == ReadLines(Fill(c, Some(ns[0]), secs[ns[0]]), Some(ns[0]), SectionLines(secs, ns[1..]) + [""])
  {
    var rest := SectionLines(secs, ns[1..]) + [""];
    FirstSectionLines(secs, ns, rest);
    SectionBodyReadsBack(c, at, ns[0], secs[ns[0]], rest);
  }

  lemma {:induction false} SectionsReadBack(c: Config, at: Cursor, secs: map<string, Store>, ns: seq<string>)
    requires CursorOk(c, at) && Sorted(ns) && NewSections(c, secs, ns)
    ensures ReadLines(c, at, SectionLines(secs, ns) + [""]) == c.(sections := With(c.sections, secs, ns))
    decreases |ns|
  {
    if ns == [] {
      NoSectionsReadBack(c, at, secs);
    } else {
      var c' := Fill(c, Some(ns[0]), secs[ns[0]]);
      FirstSectionReadsBack(c, at, secs, ns);
      FirstSectionAdded(c, secs, ns, c');
      SectionsReadBack(c', Some(ns[0]), secs, ns[1..]);
    }
  }

  lemma {:induction false} StoreLinesClean(m: Store, ks: seq<string>)
    requires forall k :: k in ks ==> k in m && '\n' !in k && '\n' !in m[k]
    ensures forall i :: 0 <= i < |StoreLines(m, ks)| ==> '\n' !in StoreLines(m, ks)[i]
  {
    if ks != [] { StoreLinesClean(m, ks[1..]); }
  }

  predicate NewlineFree(m: Store) {
    forall k :: k in m ==> '\n' !in k && '\n' !in m[k]
  }

  lemma {:induction false} SectionLinesClean(secs: map<string, Store>, ns: seq<string>)
    requires forall n :: n in ns ==> n in secs && '\n' !in n && NewlineFree(secs[n])
    ensures forall i :: 0 <= i < |SectionLines(secs, ns)| ==> '\n' !in SectionLines(secs, ns)[i]
  {
    if ns != [] {
      StoreLinesClean(secs[ns[0]], SortedKeys(secs[ns[0]].Keys));
      SectionLinesClean(secs, ns[1..]);
    }
  }

  /** If no name, key or value has a newline, the lines of the file are the lines that were printed. */
  lemma PrintedLinesAreRead(c: Config)
    requires NewlineFree(c.globals) && forall n :: n in c.sections ==> '\n' !in n && NewlineFree(c.sections[n])
    ensures Split(Print(c), '\n') == PrintedLines(c) + [""]
  {
    StoreLinesClean(c.globals, SortedKeys(c.globals.Keys));
    SectionLinesClean(c.sections, SortedKeys(c.sections.Keys));
    SplitText(PrintedLines(c), "");
    assert Print(c) + "" == Print(c);
  }

  lemma Reassociate(a: seq<string>, b: seq<string>, c: seq<string>)
    ensures a + b + c == a + (b + c)
  {
  }

  lemma SectionPartReadsBack(c: Config)
    requires Printable(c)
    ensures ReadLines(Config(c.globals, map[]), None, SectionLines(c.sections, SortedKeys(c.sections.Keys)) + [""]) == c
  {
    var ns := SortedKeys(c.sections.Keys);
    SortedKeysSorted(c.sections.Keys);
    SectionsReadBack(Config(c.globals, map[]), None, c.sections, ns);
    WithAll(c.sections, ns);
  }

  lemma LinesReadBack(c: Config)
    requires Printable(c)
    ensures ReadLines(EMPTY, None, PrintedLines(c) + [""]) == c
  {
    var tail := SectionLines(c.sections, SortedKeys(c.sections.Keys));
    Reassociate(AllStoreLines(c.globals), tail, [""]);
    WholeStoreReadsBack(EMPTY, None, c.globals, tail + [""]);
    SectionPartReadsBack(c);
  }

  lemma PrintThenParse(c: Config)
    requires Printable(c)
    ensures Parse(Print(c)) == c
  {
    PrintedLinesAreRead(c);
    LinesReadBack(c);
  }
}
