/**
 The converse of the round trip: what any text can be read as, and so exactly which configurations
 and which texts survive printing and parsing. Also what reading over defaults does.
 */
module ConfigNormalForm {
  import opened Wrappers
  import opened Strings
  import opened ConfigText
  import opened ConfigReading

  // ---- What a parsed configuration looks like -----------------------------------------------------

  /** An entry that some line can be read as. Only the three characters `[=]` give a bracketed one. */
  predicate ReadableEntry(k: string, v: string) {
    EntryOk(k, v) && (Bracketed(k, v) ==> k == "[" && v == "]")
  }

  predicate ReadableStore(m: Store) {
    forall k :: k in m ==> ReadableEntry(k, m[k])
  }

  predicate Readable(c: Config) {
    ReadableStore(c.globals) && forall n :: n in c.sections ==> NameOk(n) && ReadableStore(c.sections[n])
  }

  predicate BracketFree(m: Store) {
    "[" in m ==> m["["] != "]"
  }

  predicate NoBracketEntry(c: Config) {
    BracketFree(c.globals) && forall n :: n in c.sections ==> BracketFree(c.sections[n])
  }

  lemma TrimKeeps(s: string)
    ensures Trimmed(Trim(s))
    ensures forall c :: c in Trim(s) ==> c in s
  {
    var i := TrimDecomposes(s);
  }

  lemma TrimKeepsEnds(s: string)
    ensures s != "" && !IsBlank(s[0]) ==> Trim(s) != "" && Trim(s)[0] == s[0]
    ensures s != "" && !IsBlank(s[|s| - 1]) ==> Trim(s) != "" && Trim(s)[|Trim(s)| - 1] == s[|s| - 1]
  {
    var i := TrimDecomposes(s);
  }

  /** Both halves of a trimmed line that is split at its first `=`. */
  lemma HalvesOk(line: string, p: nat)
    requires Trimmed(line) && '\n' !in line && p < |line| && line[0] != '#' && !SectionShape(line)
    requires line[p] == '=' && forall i :: 0 <= i < p ==> line[i] != '='
    ensures EntryOk(Trim(line[..p]), Trim(line[p + 1..]))
    ensures Bracketed(Trim(line[..p]), Trim(line[p + 1..])) ==> line == "[=]" && p == 1
  {
    var a, b := line[..p], line[p + 1..];
    TrimKeeps(a);
    TrimKeeps(b);
    TrimKeepsEnds(a);
    TrimKeepsEnds(b);
    assert a != "" ==> a[0] == line[0];
    assert b != "" ==> b[|b| - 1] == line[|line| - 1];
    if Bracketed(Trim(a), Trim(b)) {
      assert |line| == 3 && p == 1;
      assert line == [line[0], line[1], line[2]];
    }
  }

  lemma BracketHalves()
    ensures Trim("[=]"[..1]) == "[" && Trim("[=]"[2..]) == "]"
  {
    assert "[=]"[..1] == "[" && "[=]"[2..] == "]";
    TrimmedFixed("[");
    TrimmedFixed("]");
  }

  lemma EntryReadable(line: string)
    requires Trimmed(line) && '\n' !in line && ClassifyTrimmed(line).Entry?
    ensures var Entry(k, v) := ClassifyTrimmed(line); ReadableEntry(k, v) && (Bracketed(k, v) ==> line == "[=]")
  {
    HalvesOk(line, Find(line, '=', 0));
    BracketHalves();
  }

  predicate ReadableLine(l: Line) {
    match l
    case Entry(k, v) => ReadableEntry(k, v)
    case ToSection(n) => NameOk(n)
    case _ => true
  }

  lemma ClassifyReadable(raw: string)
    requires '\n' !in raw
    ensures ReadableLine(Classify(raw))
    ensures Classify(raw) == Entry("[", "]") ==> Trim(raw) == "[=]"
  {
    TrimKeeps(raw);
    assert Bracketed("[", "]");
    if Classify(raw).Entry? { EntryReadable(Trim(raw)); }
  }

  predicate NewlineFreeLines(lines: seq<string>) {
    forall i :: 0 <= i < |lines| ==> '\n' !in lines[i]
  }

  lemma PutReadable(c: Config, at: Cursor, k: string, v: string)
    requires CursorOk(c, at) && Readable(c) && ReadableEntry(k, v)
    ensures Readable(Put(c, at, k, v))
  {
    assert ReadableStore(Target(c, at)[k := v]);
  }

  lemma ObeyReadable(c: Config, at: Cursor, l: Line)
    requires CursorOk(c, at) && Readable(c) && ReadableLine(l)
    ensures Readable(Obey(c, at, l).0)
  {
    if l.Entry? { PutReadable(c, at, l.key, l.value); }
  }

  lemma {:induction false} ReadLinesReadable(c: Config, at: Cursor, lines: seq<string>)
    requires CursorOk(c, at) && Readable(c) && NewlineFreeLines(lines)
    ensures Readable(ReadLines(c, at, lines))
    decreases |lines|
  {
    if lines != [] {
      ClassifyReadable(lines[0]);
      ObeyReadable(c, at, Classify(lines[0]));
      var (c1, at1) := Obey(c, at, Classify(lines[0]));
      ReadLinesReadable(c1, at1, lines[1..]);
    }
  }

  /** Whatever the text, the configuration read from it has trimmed keys and values and proper names. */
  lemma ParseReadable(text: string)
    ensures Readable(Parse(text))
  {
    ReadLinesReadable(EMPTY, None, Split(text, '\n'));
  }

  // ---- The one entry that does not survive --------------------------------------------------------

  predicate NoBracketLine(lines: seq<string>) {
    forall i :: 0 <= i < |lines| ==> Trim(lines[i]) != "[=]"
  }

  lemma PutBracketFree(c: Config, at: Cursor, k: string, v: string)
    requires CursorOk(c, at) && NoBracketEntry(c) && !(k == "[" && v == "]")
    ensures NoBracketEntry(Put(c, at, k, v))
  {
    assert BracketFree(Target(c, at)[k := v]);
  }

  lemma ObeyBracketFree(c: Config, at: Cursor, l: Line)
    requires CursorOk(c, at) && NoBracketEntry(c) && l != Entry("[", "]")
    ensures NoBracketEntry(Obey(c, at, l).0)
  {
    if l.Entry? { PutBracketFree(c, at, l.key, l.value); }
  }

  lemma {:induction false} ReadLinesBracketFree(c: Config, at: Cursor, lines: seq<string>)
    requires CursorOk(c, at) && NoBracketEntry(c) && NewlineFreeLines(lines) && NoBracketLine(lines)
    ensures NoBracketEntry(ReadLines(c, at, lines))
    decreases |lines|
  {
    if lines != [] {
      ClassifyReadable(lines[0]);
      ObeyBracketFree(c, at, Classify(lines[0]));
      var (c1, at1) := Obey(c, at, Classify(lines[0]));
      ReadLinesBracketFree(c1, at1, lines[1..]);
    }
  }

  lemma ConcatNewlineFree(a: string, b: string)
    requires '\n' !in a && '\n' !in b
    ensures '\n' !in a + b
  {
  }

  /** An entry is printed with blanks around its `=`, so never as `[=]`. */
  lemma EntryLineNotBracket(k: string, v: string)
    requires Trimmed(k) && Trimmed(v)
    ensures Trim(EntryLine(k, v)) != "[=]"
  {
    EntryLineShape(k, v);
    var line := KeyPart(k) + "=" + ValuePart(v);
    assert if k == "" then line[0] == '=' else line[|k|] == ' ';
  }

  lemma EntryLineNewlineFree(k: string, v: string)
    requires EntryOk(k, v)
    ensures '\n' !in EntryLine(k, v)
  {
    ConcatNewlineFree(k, " = ");
    ConcatNewlineFree(k + " = ", v);
  }

  lemma SectionLineNotBracket(n: string)
    requires NameOk(n)
    ensures Trim(SectionLine(n)) != "[=]" && '\n' !in SectionLine(n)
  {
    TrimmedFixed(SectionLine(n));
    assert |SectionLine(n)| == |n| + 2;
    ConcatNewlineFree("[", n);
    ConcatNewlineFree("[" + n, "]");
  }

  predicate PlainLine(line: string) {
    '\n' !in line && Trim(line) != "[=]"
  }

  predicate PlainLines(lines: seq<string>) {
    forall i :: 0 <= i < |lines| ==> PlainLine(lines[i])
  }

  lemma PlainAppend(a: seq<string>, b: seq<string>)
    requires PlainLines(a) && PlainLines(b)
    ensures PlainLines(a + b)
  {
  }

  lemma {:induction false} StoreLinesPlain(m: Store, ks: seq<string>)
    requires ReadableStore(m) && forall k :: k in ks ==> k in m
    ensures PlainLines(StoreLines(m, ks))
  {
    if ks != [] {
      var line := EntryLine(ks[0], m[ks[0]]);
      EntryLineNotBracket(ks[0], m[ks[0]]);
      EntryLineNewlineFree(ks[0], m[ks[0]]);
      assert PlainLine(line);
      StoreLinesPlain(m, ks[1..]);
      PlainAppend([line], StoreLines(m, ks[1..]));
    }
  }

  lemma HeaderPlain(n: string)
    requires NameOk(n)
    ensures PlainLines(["", SectionLine(n)])
  {
    BlankPlain();
    SectionLineNotBracket(n);
    assert PlainLine(SectionLine(n));
  }

  lemma BlankPlain()
    ensures PlainLine("")
  {
    TrimmedFixed("");
  }

  lemma {:induction false} SectionLinesPlain(secs: map<string, Store>, ns: seq<string>)
    requires forall n :: n in ns ==> n in secs && NameOk(n) && ReadableStore(secs[n])
    ensures PlainLines(SectionLines(secs, ns))
  {
    if ns != [] {
      var head, body := ["", SectionLine(ns[0])], AllStoreLines(secs[ns[0]]);
      HeaderPlain(ns[0]);
      StoreLinesPlain(secs[ns[0]], SortedKeys(secs[ns[0]].Keys));
      SectionLinesPlain(secs, ns[1..]);
      PlainAppend(head, body);
      PlainAppend(head + body, SectionLines(secs, ns[1..]));
    }
  }

  lemma PlainEnd(lines: seq<string>)
    requires PlainLines(lines)
    ensures PlainLines(lines + [""])
  {
    BlankPlain();
  }

  lemma PrintedLinesPlain(c: Config)
    requires Readable(c)
    ensures PlainLines(PrintedLines(c) + [""])
  {
    StoreLinesPlain(c.globals, SortedKeys(c.globals.Keys));
    SectionLinesPlain(c.sections, SortedKeys(c.sections.Keys));
    PlainAppend(AllStoreLines(c.globals), SectionLines(c.sections, SortedKeys(c.sections.Keys)));
    PlainEnd(PrintedLines(c));
  }

  /** A printed configuration never reads back with an entry `[` holding `]`. */
  lemma PrintedBracketFree(c: Config)
    requires Readable(c)
    ensures NoBracketEntry(Parse(Print(c)))
  {
    PrintedLinesAreRead(c);
    PrintedLinesPlain(c);
    assert forall i :: 0 <= i < |PrintedLines(c) + [""]| ==> PlainLine((PrintedLines(c) + [""])[i]);
    ReadLinesBracketFree(EMPTY, None, PrintedLines(c) + [""]);
  }

  lemma PrintableIsReadable(c: Config)
    ensures Printable(c) <==> Readable(c) && NoBracketEntry(c)
  {
    StorePrintable(c.globals);
    forall n | n in c.sections
      ensures StoreOk(c.sections[n]) <==> ReadableStore(c.sections[n]) && BracketFree(c.sections[n])
    {
      StorePrintable(c.sections[n]);
    }
  }

  lemma StorePrintable(m: Store)
    ensures StoreOk(m) <==> ReadableStore(m) && BracketFree(m)
  {
    assert Bracketed("[", "]");
  }

  /** Printing then parsing gives a configuration back exactly when it is printable. */
  lemma RoundTripIff(c: Config)
    ensures Parse(Print(c)) == c <==> Printable(c)
  {
    PrintableIsReadable(c);
    if Printable(c) { PrintThenParse(c); }
    if Parse(Print(c)) == c {
      ParseReadable(Print(c));
      PrintedBracketFree(c);
    }
  }

  /** Parsing then printing then parsing again changes nothing, exactly when no store read from the
      text holds `]` under the key `[`. */
  lemma NormalFormStores(text: string)
    ensures Parse(Print(Parse(text))) == Parse(text) <==> NoBracketEntry(Parse(text))
  {
    ParseReadable(text);
    PrintableIsReadable(Parse(text));
    RoundTripIff(Parse(text));
  }

  /** A text without a line that trims to `[=]` is such a text. */
  lemma NormalForm(text: string)
    requires NoBracketLine(Split(text, '\n'))
    ensures Parse(Print(Parse(text))) == Parse(text)
  {
    ReadLinesBracketFree(EMPTY, None, Split(text, '\n'));
    NormalFormStores(text);
  }

  // ---- Which lines are lost -----------------------------------------------------------------------

  /** Line `j` trims to `[=]` and no later line writes the key `[` to the same store. */
  ghost predicate LostLine(lines: seq<string>, j: nat, t: Cursor) {
    LastWriter(lines, |lines|, j, t, "[", "]") && Trim(lines[j]) == "[=]"
  }

  lemma BracketEntryIff(c: Config)
    ensures NoBracketEntry(c) <==> forall t :: EntryAt(c, t, "[") != Some("]")
  {
    if NoBracketEntry(c) {
      forall t ensures EntryAt(c, t, "[") != Some("]") {}
    } else if !BracketFree(c.globals) {
      assert EntryAt(c, None, "[") == Some("]");
    } else {
      var n :| n in c.sections && !BracketFree(c.sections[n]);
      assert EntryAt(c, Some(n), "[") == Some("]");
    }
  }

  lemma LastBracketIsLost(lines: seq<string>, j: nat, t: Cursor)
    requires NewlineFreeLines(lines) && LastWriter(lines, |lines|, j, t, "[", "]")
    ensures LostLine(lines, j, t)
  {
    AssignsIff(lines[j], "[", "]");
    ClassifyReadable(lines[j]);
  }

  lemma ReadBracketIff(text: string, t: Cursor)
    ensures EntryAt(Parse(text), t, "[") == Some("]") <==> exists j: nat :: LostLine(Split(text, '\n'), j, t)
  {
    var lines := Split(text, '\n');
    ReadsLastWriter(EMPTY, text, t, "[", "]");
    if j: nat :| LastWriter(lines, |lines|, j, t, "[", "]") { LastBracketIsLost(lines, j, t); }
  }

  /** Parsing then printing then parsing again changes a text's meaning exactly when, in some store, the
      last line with the key `[` trims to `[=]`. */
  lemma NormalFormIff(text: string)
    ensures Parse(Print(Parse(text))) != Parse(text) <==> exists j: nat, t :: LostLine(Split(text, '\n'), j, t)
  {
    NormalFormStores(text);
    BracketEntryIff(Parse(text));
    if j: nat, t :| LostLine(Split(text, '\n'), j, t) { ReadBracketIff(text, t); }
    if t :| EntryAt(Parse(text), t, "[") == Some("]") { ReadBracketIff(text, t); }
  }

  lemma BracketLineIsEntry()
    ensures Classify("[=]") == Entry("[", "]")
  {
    TrimmedFixed("[=]");
    BracketHalves();
    FindUnique("[=]", '=', 1);
  }

  lemma SingleLine(line: string)
    requires '\n' !in line
    ensures Split(line, '\n') == [line]
  {
    FindUnique(line, '\n', |line|);
  }

  /** The three characters `[=]` are such a text: they read as an entry, which comes back as a section. */
  lemma BracketLineIsLost()
    ensures Parse(Print(Parse("[=]"))) != Parse("[=]")
  {
    var text := "[=]";
    assert '\n' !in text;
    SingleLine(text);
    BracketLineIsEntry();
    TrimmedFixed(text);
    OnlyLineWrites(text, "[", "]");
    assert LostLine([text], 0, None);
    NormalFormIff(text);
  }

  lemma OnlyLineWrites(line: string, k: string, v: string)
    requires Classify(line) == Entry(k, v)
    ensures LastWriter([line], 1, 0, None, k, v)
  {
    AssignsIff(line, k, v);
    assert NoHeader([line], 0, 0);
  }

  // ---- Reading over what is already there ---------------------------------------------------------

  function SectionOr(secs: map<string, Store>, n: string): Store {
    if n in secs then secs[n] else map[]
  }

  /** `over` laid on `base`, entry by entry. */
  function Override(base: Config, over: Config): Config {
    Config(base.globals + over.globals, base.sections + Merged(base.sections, over.sections))
  }

  function Merged(base: map<string, Store>, over: map<string, Store>): map<string, Store> {
    map n | n in over :: SectionOr(base, n) + over[n]
  }

  lemma MergedInsert(base: map<string, Store>, over: map<string, Store>, n: string, m: Store)
    ensures Merged(base, over[n := m]) == Merged(base, over)[n := SectionOr(base, n) + m]
  {
  }

  lemma OverrideObey(base: Config, c: Config, at: Cursor, l: Line)
    requires CursorOk(c, at)
    ensures CursorOk(Override(base, c), at)
    ensures Obey(Override(base, c), at, l) == (Override(base, Obey(c, at, l).0), Obey(c, at, l).1)
  {
    match l
    case Skipped =>
    case ToGlobals =>
    case ToSection(n) => OverrideOpen(base, c, n);
    case Entry(k, v) => OverridePut(base, c, at, k, v);
  }

  lemma MapAddRight(a: map<string, Store>, b: map<string, Store>, n: string, m: Store)
    ensures a + b[n := m] == (a + b)[n := m]
  {
  }

  lemma MapSame(a: map<string, Store>, n: string)
    requires n in a
    ensures a[n := a[n]] == a
  {
  }

  lemma OverrideOpen(base: Config, c: Config, n: string)
    ensures Open(Override(base, c), n) == Override(base, Open(c, n))
  {
    if n !in c.sections {
      MergedInsert(base.sections, c.sections, n, map[]);
      assert SectionOr(base.sections, n) + map[] == SectionOr(base.sections, n);
      MapAddRight(base.sections, Merged(base.sections, c.sections), n, SectionOr(base.sections, n));
      if n in base.sections { MapSame(Override(base, c).sections, n); }
    }
  }

  lemma OverridePutSection(base: Config, c: Config, n: string, k: string, v: string)
    requires n in c.sections
    ensures n in Override(base, c).sections
    ensures Put(Override(base, c), Some(n), k, v) == Override(base, Put(c, Some(n), k, v))
  {
    var b, m, over := SectionOr(base.sections, n), c.sections[n], Merged(base.sections, c.sections);
    assert over[n] == b + m;
    assert (b + m)[k := v] == b + m[k := v];
    MergedInsert(base.sections, c.sections, n, m[k := v]);
    MapAddRight(base.sections, over, n, over[n][k := v]);
  }

  lemma OverridePut(base: Config, c: Config, at: Cursor, k: string, v: string)
    requires CursorOk(c, at)
    ensures CursorOk(Override(base, c), at)
    ensures Put(Override(base, c), at, k, v) == Override(base, Put(c, at, k, v))
  {
    match at
    case None => assert (base.globals + c.globals)[k := v] == base.globals + c.globals[k := v];
    case Some(n) => OverridePutSection(base, c, n, k, v);
  }

  lemma {:induction false} OverrideReadLines(base: Config, c: Config, at: Cursor, lines: seq<string>)
    requires CursorOk(c, at)
    ensures CursorOk(Override(base, c), at)
    ensures ReadLines(Override(base, c), at, lines) == Override(base, ReadLines(c, at, lines))
    decreases |lines|
  {
    if lines == [] {
      OverrideObey(base, c, at, Skipped);
    } else {
      var l := Classify(lines[0]);
      OverrideObey(base, c, at, l);
      OverrideReadLines(base, Obey(c, at, l).0, Obey(c, at, l).1, lines[1..]);
    }
  }

  lemma OverrideEmpty(base: Config)
    ensures Override(base, EMPTY) == base
  {
    assert base.globals + map[] == base.globals;
    assert base.sections + Merged(base.sections, map[]) == base.sections;
  }

  /** Reading a file into a store overrides it by what the file holds, entry by entry. */
  lemma ParseOntoOverrides(base: Config, text: string)
    ensures ParseOnto(base, text) == Override(base, Parse(text))
  {
    OverrideEmpty(base);
    OverrideReadLines(base, EMPTY, None, Split(text, '\n'));
  }
}
