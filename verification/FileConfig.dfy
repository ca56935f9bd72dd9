/**
 `FileConfigBase` as the object it is: fields updated in place, the reading loop with its moving
 store pointer and the writing loops, each proved against the functions of the other modules.
 A file that cannot be opened is passed in as such; nothing here touches a disk. The reading loop takes
 one line at a time, as `getline` does, and its invariant is that reading what is left gives what reading
 the whole text would have given. The writing loops grow a text, and their invariant is that it is the
 text of the entries or the sections written so far.
 */
module FileConfig {
  import opened Wrappers
  import opened Strings
  import opened ConfigText
  import opened ConfigLookup
  import opened ConfigNormalForm

  // ---- Text written line by line ------------------------------------------------------------------

  lemma {:induction false} UnlinesAppend(a: seq<string>, b: seq<string>)
    ensures Unlines(a + b) == Unlines(a) + Unlines(b)
  {
    if a == [] {
      assert a + b == b;
    } else {
      assert (a + b)[1..] == a[1..] + b;
      UnlinesAppend(a[1..], b);
    }
  }

  lemma {:induction false} StoreLinesAppend(m: Store, a: seq<string>, k: string)
    requires k in m && forall x :: x in a ==> x in m
    ensures forall x :: x in a + [k] ==> x in m
    ensures StoreLines(m, a + [k]) == StoreLines(m, a) + [EntryLine(k, m[k])]
  {
    if a != [] {
      assert (a + [k])[1..] == a[1..] + [k];
      StoreLinesAppend(m, a[1..], k);
    }
  }

  lemma {:induction false} SectionLinesAppend(secs: map<string, Store>, a: seq<string>, n: string)
    requires n in secs && forall x :: x in a ==> x in secs
    ensures forall x :: x in a + [n] ==> x in secs
    ensures SectionLines(secs, a + [n]) == SectionLines(secs, a) + (["", SectionLine(n)] + AllStoreLines(secs[n]))
  {
    var last := ["", SectionLine(n)] + AllStoreLines(secs[n]);
    if a == [] {
      assert [] + [n] == [n] && [n][1..] == [];
      assert SectionLines(secs, [n]) == last + [] == last == [] + last;
    } else {
      assert (a + [n])[1..] == a[1..] + [n];
      SectionLinesAppend(secs, a[1..], n);
      Reassociate(["", SectionLine(a[0])] + AllStoreLines(secs[a[0]]), SectionLines(secs, a[1..]), last);
    }
  }

  lemma UnlinesOne(line: string)
    ensures Unlines([line]) == line + "\n"
  {
    assert [line][1..] == [];
  }

  /** The loop that writes one store, in key order. */
  method WriteStore(m: Store) returns (text: string)
    ensures text == Unlines(AllStoreLines(m))
  {
    text := "";
    var ks := SortedKeys(m.Keys);
    for i := 0 to |ks|
      invariant text == Unlines(StoreLines(m, ks[..i]))
    {
      StoreLinesAppend(m, ks[..i], ks[i]);
      UnlinesAppend(StoreLines(m, ks[..i]), [EntryLine(ks[i], m[ks[i]])]);
      UnlinesOne(EntryLine(ks[i], m[ks[i]]));
      assert ks[..i + 1] == ks[..i] + [ks[i]];
      text := text + (ks[i] + " = " + m[ks[i]] + "\n");
    }
    assert ks[..|ks|] == ks;
  }

  lemma UnlinesSection(n: string, m: Store)
    ensures Unlines(["", SectionLine(n)] + AllStoreLines(m)) == "\n" + SectionLine(n) + "\n" + Unlines(AllStoreLines(m))
  {
    UnlinesAppend(["", SectionLine(n)], AllStoreLines(m));
    UnlinesAppend([""], [SectionLine(n)]);
    UnlinesOne("");
    UnlinesOne(SectionLine(n));
    assert [""] + [SectionLine(n)] == ["", SectionLine(n)];
  }

  /** The text of one section, after a blank line. */
  ghost function OneSection(n: string, m: Store): string {
    "\n" + SectionLine(n) + "\n" + Unlines(AllStoreLines(m))
  }

  lemma OneMoreSection(secs: map<string, Store>, before: seq<string>, n: string)
    requires n in secs && forall x :: x in before ==> x in secs
    ensures forall x :: x in before + [n] ==> x in secs
    ensures Unlines(SectionLines(secs, before + [n])) == Unlines(SectionLines(secs, before)) + OneSection(n, secs[n])
  {
    SectionLinesAppend(secs, before, n);
    UnlinesAppend(SectionLines(secs, before), ["", SectionLine(n)] + AllStoreLines(secs[n]));
    UnlinesSection(n, secs[n]);
  }

  method WriteSection(n: string, m: Store) returns (text: string)
    ensures text == OneSection(n, m)
  {
    var body := WriteStore(m);
    text := "\n" + SectionLine(n) + "\n" + body;
  }

  /** The loop that writes the sections. */
  method WriteNamed(secs: map<string, Store>, ns: seq<string>) returns (text: string)
    requires forall x :: x in ns ==> x in secs
    ensures text == Unlines(SectionLines(secs, ns))
  {
    text := "";
    for i := 0 to |ns|
      invariant text == NamedText(secs, ns[..i])
    {
      assert ns[..i + 1] == ns[..i] + [ns[i]];
      NextNamed(secs, ns[..i], ns[i], ns[..i + 1]);
      var one := WriteSection(ns[i], secs[ns[i]]);
      text := text + one;
    }
    assert ns[..|ns|] == ns;
  }

  /** The text of these sections. */
  ghost function NamedText(secs: map<string, Store>, ns: seq<string>): string
    requires forall x :: x in ns ==> x in secs
  {
    Unlines(SectionLines(secs, ns))
  }

  lemma NextNamed(secs: map<string, Store>, before: seq<string>, n: string, next: seq<string>)
    requires next == before + [n] && forall x :: x in next ==> x in secs
    ensures n in secs && forall x :: x in before ==> x in secs
    ensures NamedText(secs, next) == NamedText(secs, before) + OneSection(n, secs[n])
  {
    assert n in next;
    OneMoreSection(secs, before, n);
  }

  /** The sections are written in name order. */
  method WriteSections(secs: map<string, Store>) returns (text: string)
    ensures text == Unlines(SectionLines(secs, SortedKeys(secs.Keys)))
  {
    text := WriteNamed(secs, SortedKeys(secs.Keys));
  }

  lemma OneEntryText(k: string, v: string)
    ensures Unlines(AllStoreLines(map[k := v])) == k + " = " + v + "\n"
  {
    var m := map[k := v];
    assert m.Keys == {k} && SortedKeys({k})[0] in {k};
    StoreLineAt(m, SortedKeys({k}), 0);
    assert AllStoreLines(m) == [EntryLine(k, v)];
    UnlinesOne(EntryLine(k, v));
  }

  lemma OneSectionText(n: string, m: Store)
    ensures Unlines(SectionLines(map[n := m], SortedKeys({n})))
         == "\n" + "[" + n + "]" + "\n" + Unlines(AllStoreLines(m))
  {
    assert SortedKeys({n})[0] in {n};
    assert [] + [n] == SortedKeys({n});
    OneMoreSection(map[n := m], [], n);
    assert "" + OneSection(n, m) == OneSection(n, m);
  }

  /** The text of a configuration with one global entry and one section of one entry. */
  lemma PrintedText(k: string, v: string, n: string, l: string, w: string)
    ensures Print(Config(map[k := v], map[n := map[l := w]])) ==
      (k + " = " + v + "\n") + ("\n" + "[" + n + "]" + "\n" + (l + " = " + w + "\n"))
  {
    var c := Config(map[k := v], map[n := map[l := w]]);
    assert c.sections.Keys == {n};
    UnlinesAppend(AllStoreLines(c.globals), SectionLines(c.sections, SortedKeys(c.sections.Keys)));
    OneEntryText(k, v);
    OneSectionText(n, map[l := w]);
    OneEntryText(l, w);
  }

  // ---- Text read line by line ---------------------------------------------------------------------

  /** The lines `getline` has not taken yet. */
  ghost function Remaining(text: string, pos: nat, good: bool): seq<string>
    requires pos <= |text|
  {
    if good then Split(text[pos..], '\n') else []
  }

  /** What `getline` takes at `pos` is the first piece of the rest of the text. */
  lemma NextLine(text: string, pos: nat, e: nat)
    requires pos <= e <= |text| && e == Find(text, '\n', pos)
    ensures Remaining(text, pos, true) == [text[pos..e]] + if e == |text| then [] else Remaining(text, e + 1, true)
  {
    var rest := text[pos..];
    var p := e - pos;
    FindUnique(rest, '\n', p);
    SplitFirst(rest, '\n', p);
    assert rest[..p] == text[pos..e];
    if e < |text| {
      assert rest[p + 1..] == text[e + 1..];
    } else {
      assert rest == text[pos..e] && [rest] + [] == [rest];
    }
  }

  /** `std::getline`; the stream is no longer good once the end of the text is reached. */
  method GetLine(text: string, pos: nat) returns (line: string, next: nat, good: bool)
    requires pos <= |text|
    ensures next <= |text| && (good ==> pos < next)
    ensures Remaining(text, pos, true) == [line] + Remaining(text, next, good)
  {
    var e := Find(text, '\n', pos);
    NextLine(text, pos, e);
    line, good := text[pos..e], e < |text|;
    next := if good then e + 1 else |text|;
  }

  lemma {:induction false} SetAllAppend(c: Config, d: Store, a: seq<string>, k: string)
    requires k in d && forall x :: x in a ==> x in d
    ensures forall x :: x in a + [k] ==> x in d
    ensures SetAll(c, d, a + [k]) == Set(SetAll(c, d, a), k, d[k])
    decreases |a|
  {
    if a != [] {
      assert (a + [k])[1..] == a[1..] + [k];
      SetAllAppend(Set(c, a[0], d[a[0]]), d, a[1..], k);
    }
  }

  // ---- The class ----------------------------------------------------------------------------------

  class FileConfig {
    var path: string
    var valid: bool
    var error: string
    var globals: Store
    var sections: map<string, Store>
    var defaults: Store

    ghost function Contents(): Config
      reads this
    {
      Config(globals, sections)
    }

    constructor (defaults: Store)
      ensures Contents() == Defaults(defaults) && this.defaults == defaults
      ensures path == "" && error == "" && valid == (defaults != map[])
    {
      this.defaults := defaults;
      path, valid, error := "", false, "";
      globals, sections := map[], map[];
      new;
      ApplyDefaults();
    }

    method ApplyDefaults()
      modifies this`globals, this`sections, this`valid
      ensures Contents() == Defaults(defaults)
      ensures valid == (old(valid) || defaults != map[])
    {
      globals, sections := map[], map[];
      var ks := SortedKeys(defaults.Keys);
      for i := 0 to |ks|
        invariant Contents() == SetAll(EMPTY, defaults, ks[..i])
        invariant valid == (old(valid) || i > 0)
      {
        SetAllAppend(EMPTY, defaults, ks[..i], ks[i]);
        assert ks[..i + 1] == ks[..i] + [ks[i]];
        SetValue(ks[i], defaults[ks[i]]);
        valid := true;
      }
      assert ks[..|ks|] == ks;
    }

    /** `operator=`: every field is copied. */
    method CopyFrom(rhs: FileConfig)
      modifies this
      ensures path == old(rhs.path) && valid == old(rhs.valid) && error == old(rhs.error)
      ensures Contents() == old(rhs.Contents()) && defaults == old(rhs.defaults)
    {
      path, valid, error := rhs.path, rhs.valid, rhs.error;
      globals, sections, defaults := rhs.globals, rhs.sections, rhs.defaults;
    }

    method SetPath(p: string)
      modifies this`path, this`valid, this`error, this`globals, this`sections
      ensures path == p && error == "" && valid == (defaults != map[]) && Contents() == Defaults(defaults)
    {
      valid, path, error := false, p, "";
      ApplyDefaults();
    }

    method Clear()
      modifies this`globals, this`sections
      ensures Contents() == EMPTY
    {
      globals, sections := map[], map[];
    }

    method AddError(e: string)
      modifies this`error
      ensures error == if old(error) == "" then e else old(error) + "\n" + e
    {
      if error != "" { error := error + "\n"; }
      error := error + e;
    }

    /** `error()`: the text is handed over and forgotten. */
    method TakeError() returns (e: string)
      modifies this`error
      ensures e == old(error) && error == ""
    {
      e, error := error, "";
    }

    /** `storep` is set to a section, which is created if it is not there. */
    method OpenSection(name: string) returns (at: Cursor)
      modifies this`sections
      ensures Contents() == Open(old(Contents()), name) && at == Some(name) && CursorOk(Contents(), at)
    {
      if name !in sections { sections := sections[name := map[]]; }
      at := Some(name);
    }

    /** `(*storep)[key] = value`. */
    method Assign(at: Cursor, key: string, value: string)
      requires CursorOk(Contents(), at)
      modifies this`globals, this`sections
      ensures Contents() == Put(old(Contents()), at, key, value)
    {
      if at.None? {
        globals := globals[key := value];
      } else {
        sections := sections[at.value := sections[at.value][key := value]];
      }
    }

    /** The body of the reading loop: `at` is where `storep` points. */
    method ReadLine(raw: string, at: Cursor) returns (at': Cursor)
      requires CursorOk(Contents(), at)
      modifies this`globals, this`sections
      ensures (Contents(), at') == Obey(old(Contents()), at, Classify(raw))
    {
      at' := at;
      var line := Trim(raw);
      if line == "" || line[0] == '#' {
        assert Classify(raw) == Skipped;
        return;
      }
      if |line| > 3 && line[0] == '[' && line[|line| - 1] == ']' {
        var name := line[1..|line| - 1];
        if ToUpper(name) == "GLOBAL" {
          assert Classify(raw) == ToGlobals;
          at' := None;
        } else {
          assert Classify(raw) == ToSection(name);
          at' := OpenSection(name);
        }
        return;
      }
      var p := Find(line, '=', 0);
      if p == |line| {
        assert Classify(raw) == Skipped;
        return;
      }
      assert Classify(raw) == Entry(Trim(line[..p]), Trim(line[p + 1..]));
      Assign(at, Trim(line[..p]), Trim(line[p + 1..]));
    }

    /** `_read`: a file that cannot be opened is reported and changes nothing else. */
    method Read(file: Option<string>) returns (ok: bool)
      modifies this`valid, this`error, this`globals, this`sections
      ensures ok == file.Some?
      ensures ok ==> valid && Contents() == ParseOnto(old(Contents()), file.value) && error == old(error)
      ensures !ok ==> valid == old(valid) && Contents() == old(Contents())
      ensures !ok ==> error == (if old(error) == "" then "" else old(error) + "\n") + "Unable to read control file"
    {
      if file.None? {
        AddError("Unable to read control file");
        return false;
      }
      ReadText(file.value);
      valid := true;
      ok := true;
    }

    /** The reading loop: `pos` is what `getline` has not taken yet. */
    method ReadText(text: string)
      modifies this`globals, this`sections
      ensures Contents() == ParseOnto(old(Contents()), text)
    {
      ghost var goal := ParseOnto(Contents(), text);
      var at: Cursor, pos: nat, good := None, 0, true;
      assert text[0..] == text;
      assert ReadLines(Contents(), at, Remaining(text, pos, good)) == goal;
      while good
        invariant pos <= |text| && CursorOk(Contents(), at)
        invariant ReadLines(Contents(), at, Remaining(text, pos, good)) == goal
        decreases if good then |text| - pos + 1 else 0
      {
        ghost var c := Contents();
        var line;
        line, pos, good := GetLine(text, pos);
        ReadCons(c, at, line, Remaining(text, pos, good));
        at := ReadLine(line, at);
      }
    }

    /** `_save`: what is written is the printed configuration. */
    method Save(writable: bool) returns (ok: bool, text: string)
      modifies this`error
      ensures ok == writable
      ensures ok ==> text == Print(Contents()) && error == old(error)
      ensures !ok ==> error == (if old(error) == "" then "" else old(error) + "\n") + ("Unable to write to " + path)
    {
      text := "";
      if !writable {
        AddError("Unable to write to " + path);
        return false, text;
      }
      var a := WriteStore(globals);
      var b := WriteSections(sections);
      UnlinesAppend(AllStoreLines(globals), SectionLines(sections, SortedKeys(sections.Keys)));
      return true, a + b;
    }

    method SetSectionValue(section: string, name: string, v: string)
      modifies this`sections
      ensures Contents() == SetIn(old(Contents()), section, name, v)
    {
      if section !in sections { sections := sections[section := map[]]; }
      sections := sections[section := sections[section][name := v]];
    }

    method SetValue(name: string, v: string)
      modifies this`globals, this`sections
      ensures Contents() == Set(old(Contents()), name, v)
    {
      match SplitName(name)
      case Some((section, rest)) => SetSectionValue(section, rest, v);
      case None => globals := globals[name := v];
    }

    method ModifyValue(name: string, v: string) returns (ok: bool)
      modifies this`globals, this`sections
      ensures (Contents(), ok) == Modify(old(Contents()), name, v)
    {
      ok := Lookup(Config(globals, sections), name).Some?;
      if ok { SetValue(name, v); }
    }

    method ModifySectionValue(section: string, name: string, v: string) returns (ok: bool)
      modifies this`globals, this`sections
      ensures (Contents(), ok) == ModifyIn(old(Contents()), section, name, v)
    {
      ok := LookupIn(Config(globals, sections), section, name).Some?;
      if ok { SetSectionValue(section, name, v); }
    }

    /** A file saved by one object and read by a fresh one without defaults gives the same contents,
        exactly when those are printable. */
    method SaveThenRead(other: FileConfig)
      requires other != this && other.Contents() == EMPTY
      modifies this`error, other
      ensures other.Contents() == Contents() <==> Printable(Contents())
    {
      var _, text := Save(true);
      var _ := other.Read(Some(text));
      RoundTripIff(Contents());
    }
  }
}
