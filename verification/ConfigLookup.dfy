/**
 Lookup, update, defaults and comparison of configurations.
 */
module ConfigLookup {
  import opened Wrappers
  import opened Strings
  import opened ConfigText

  // ---- Names --------------------------------------------------------------------------------------

  /** `nameIsPath`: the part before the first slash and the part after it. */
  function SplitName(name: string): (r: Option<(string, string)>)
    ensures r.None? <==> '/' !in name
    ensures r.Some? ==> '/' !in r.value.0 && name == ToPath(r.value.0, r.value.1) && |r.value.1| < |name|
  {
    var p := Find(name, '/', 0);
    if p == |name| then None else Some((name[..p], name[p + 1..]))
  }

  function ToPath(section: string, name: string): string {
    section + "/" + name
  }

  lemma SplitPath(section: string, name: string)
    requires '/' !in section
    ensures SplitName(ToPath(section, name)) == Some((section, name))
  {
    var path := ToPath(section, name);
    FindUnique(path, '/', |section|);
    assert path[..|section|] == section && path[|section| + 1..] == name;
  }

  // ---- The two finds ------------------------------------------------------------------------------

  function Lookup(c: Config, name: string): Option<string>
    decreases |name|, 0
  {
    match SplitName(name)
    case Some((section, rest)) => LookupIn(c, section, rest)
    case None => if name in c.globals then Some(c.globals[name]) else None
  }

  function LookupIn(c: Config, section: string, name: string): Option<string>
    decreases |name|, 1
  {
    if section !in c.sections then None
    else if name in c.sections[section] then Some(c.sections[section][name])
    else Lookup(c, name)
  }

  /** The rest of a path from its i-th component on. */
  function JoinFrom(parts: seq<string>, i: nat): string
    requires i < |parts|
    decreases |parts| - i
  {
    if i == |parts| - 1 then parts[i] else parts[i] + "/" + JoinFrom(parts, i + 1)
  }

  /** Component `i` is where the search ends with `v`: the last one in the globals, any other in the
      section it names, which holds the whole rest of the path. */
  predicate Hit(c: Config, parts: seq<string>, i: nat, v: string)
    requires i < |parts|
  {
    if i == |parts| - 1 then parts[i] in c.globals && c.globals[parts[i]] == v
    else
      && parts[i] in c.sections && JoinFrom(parts, i + 1) in c.sections[parts[i]]
      && c.sections[parts[i]][JoinFrom(parts, i + 1)] == v
  }

  /** Component `i` names a section that exists and does not hold the rest, so the search goes on. */
  predicate Pass(c: Config, parts: seq<string>, i: nat)
    requires i < |parts|
  {
    i < |parts| - 1 && parts[i] in c.sections && JoinFrom(parts, i + 1) !in c.sections[parts[i]]
  }

  predicate FoundAt(c: Config, parts: seq<string>, from: nat, i: nat, v: string)
    requires from <= i < |parts|
  {
    Hit(c, parts, i, v) && forall j :: from <= j < i ==> Pass(c, parts, j)
  }

  ghost predicate Found(c: Config, parts: seq<string>, from: nat, v: string) {
    exists i :: from <= i < |parts| && FoundAt(c, parts, from, i, v)
  }

  lemma JoinSplits(parts: seq<string>, i: nat)
    requires i < |parts| && forall k :: 0 <= k < |parts| ==> '/' !in parts[k]
    ensures SplitName(JoinFrom(parts, i)) ==
            if i == |parts| - 1 then None else Some((parts[i], JoinFrom(parts, i + 1)))
  {
    if i < |parts| - 1 {
      SplitPath(parts[i], JoinFrom(parts, i + 1));
    }
  }

  lemma FoundStep(c: Config, parts: seq<string>, i: nat, v: string)
    requires i < |parts|
    ensures Found(c, parts, i, v) <==> Hit(c, parts, i, v) || (Pass(c, parts, i) && Found(c, parts, i + 1, v))
  {
    if Found(c, parts, i, v) {
      var k :| i <= k < |parts| && FoundAt(c, parts, i, k, v);
      if i < k { assert FoundAt(c, parts, i + 1, k, v); }
    }
    if Hit(c, parts, i, v) {
      assert FoundAt(c, parts, i, i, v);
    } else if Pass(c, parts, i) && Found(c, parts, i + 1, v) {
      var k :| i + 1 <= k < |parts| && FoundAt(c, parts, i + 1, k, v);
      assert FoundAt(c, parts, i, k, v);
    }
  }

  lemma {:induction false} LookupFrom(c: Config, parts: seq<string>, i: nat, v: string)
    requires i < |parts| && forall k :: 0 <= k < |parts| ==> '/' !in parts[k]
    ensures Lookup(c, JoinFrom(parts, i)) == Some(v) <==> Found(c, parts, i, v)
    decreases |parts| - i
  {
    JoinSplits(parts, i);
    FoundStep(c, parts, i, v);
    if i < |parts| - 1 {
      LookupFrom(c, parts, i + 1, v);
    }
  }

  lemma {:induction false} JoinOfSplit(name: string)
    ensures JoinFrom(Split(name, '/'), 0) == name
    decreases |name|
  {
    var p := Find(name, '/', 0);
    if p < |name| {
      var rest := Split(name[p + 1..], '/');
      JoinOfSplit(name[p + 1..]);
      JoinShift(name[..p], rest, 0);
      assert name == name[..p] + "/" + name[p + 1..];
    }
  }

  lemma {:induction false} JoinShift(first: string, rest: seq<string>, i: nat)
    requires i < |rest|
    ensures JoinFrom([first] + rest, i + 1) == JoinFrom(rest, i)
    decreases |rest| - i
  {
    if i < |rest| - 1 { JoinShift(first, rest, i + 1); }
  }

  /** For every name p1/p2/.../pn: `find` looks in section p1 for the rest of the path, gives up if that
      section is missing, otherwise goes on with p2/.../pn, and ends in the globals with pn. */
  lemma LookupRule(c: Config, name: string, v: string)
    ensures Lookup(c, name) == Some(v) <==> Found(c, Split(name, '/'), 0, v)
  {
    JoinOfSplit(name);
    LookupFrom(c, Split(name, '/'), 0, v);
  }

  // ---- Setting and modifying ------------------------------------------------------------------------

  function SetIn(c: Config, section: string, name: string, v: string): Config {
    Put(Open(c, section), Some(section), name, v)
  }

  function Set(c: Config, name: string, v: string): Config {
    match SplitName(name)
    case Some((section, rest)) => SetIn(c, section, rest, v)
    case None => c.(globals := c.globals[name := v])
  }

  function Modify(c: Config, name: string, v: string): (Config, bool) {
    if Lookup(c, name).None? then (c, false) else (Set(c, name, v), true)
  }

  function ModifyIn(c: Config, section: string, name: string, v: string): (Config, bool) {
    if LookupIn(c, section, name).None? then (c, false) else (SetIn(c, section, name, v), true)
  }

  /** The key that a name stands for: of the globals, or behind the first slash of the section before it. */
  predicate Denotes(name: string, t: Cursor, k: string) {
    match t
    case None => '/' !in name && k == name
    case Some(n) => '/' !in n && name == n + "/" + k
  }

  lemma DenotesIff(name: string, t: Cursor, k: string)
    ensures Denotes(name, t, k) <==> match SplitName(name)
      case Some((section, rest)) => t == Some(section) && k == rest
      case None => t == None && k == name
  {
    if t.Some? && Denotes(name, t, k) { SplitPath(t.value, k); }
  }

  /** Setting a name changes the entry it stands for, and may open the section it names. */
  lemma SetEntry(c: Config, name: string, v: string, t: Cursor, k: string)
    ensures EntryAt(Set(c, name, v), t, k) == if Denotes(name, t, k) then Some(v) else EntryAt(c, t, k)
    ensures t.Some? ==>
      (t.value in Set(c, name, v).sections <==> t.value in c.sections || exists rest :: Denotes(name, t, rest))
  {
    DenotesIff(name, t, k);
    if rest :| Denotes(name, t, rest) { DenotesIff(name, t, rest); }
    if SplitName(name).Some? {
      var (section, rest) := SplitName(name).value;
      DenotesIff(name, Some(section), rest);
    }
  }

  /** `modifyValue` refuses a name that does not resolve, and then changes nothing. Otherwise it changes the
      entry that the name stands for and no other entry, and opens no section. */
  lemma ModifyEntry(c: Config, name: string, v: string, t: Cursor, k: string)
    ensures var (c', ok) := Modify(c, name, v);
      && (ok <==> Lookup(c, name).Some?)
      && (!ok ==> c' == c)
      && (ok ==> EntryAt(c', t, k) == if Denotes(name, t, k) then Some(v) else EntryAt(c, t, k))
      && c'.sections.Keys == c.sections.Keys
  {
    SetEntry(c, name, v, t, k);
  }

  /** The form with a section: the entry is that of the section, whatever its name and the key contain. */
  lemma ModifyInEntry(c: Config, section: string, name: string, v: string, t: Cursor, k: string)
    ensures var (c', ok) := ModifyIn(c, section, name, v);
      && (ok <==> LookupIn(c, section, name).Some?)
      && (!ok ==> c' == c)
      && (ok ==> EntryAt(c', t, k) == if t == Some(section) && k == name then Some(v) else EntryAt(c, t, k))
      && c'.sections.Keys == c.sections.Keys
  {
  }

  /** Read your write. */
  lemma SetReads(c: Config, name: string, v: string)
    ensures Lookup(Set(c, name, v), name) == Some(v)
  {
  }

  /** What a name resolves to after a write: the same, or the value written. */
  predicate Resolves(before: Option<string>, after: Option<string>, v: string) {
    (before.None? <==> after.None?) && (after == before || after == Some(v))
  }

  /** A write to a name that resolves in a section changes no other name's standing, in either find. */
  lemma {:induction false} SetInResolves(c: Config, section: string, name: string, v: string, other: string)
    requires LookupIn(c, section, name).Some?
    ensures Resolves(Lookup(c, other), Lookup(SetIn(c, section, name, v), other), v)
    decreases |other|, 0
  {
    match SplitName(other)
    case Some((s, rest)) => SetInResolvesIn(c, section, name, v, s, rest);
    case None =>
  }

  lemma {:induction false} SetInResolvesIn(c: Config, section: string, name: string, v: string,
                                           s: string, other: string)
    requires LookupIn(c, section, name).Some?
    ensures Resolves(LookupIn(c, s, other), LookupIn(SetIn(c, section, name, v), s, other), v)
    decreases |other|, 1
  {
    SetInResolves(c, section, name, v, other);
  }

  lemma {:induction false} SetGlobalResolves(c: Config, name: string, v: string, other: string)
    requires name in c.globals
    ensures Resolves(Lookup(c, other), Lookup(c.(globals := c.globals[name := v]), other), v)
    decreases |other|, 0
  {
    match SplitName(other)
    case Some((s, rest)) => SetGlobalResolves(c, name, v, rest);
    case None =>
  }

  /** After a successful `modifyValue` the name reads back, and every name resolves that did before, to the
      same value or to the one written; a refused one changes nothing. */
  lemma ModifyKeepsNames(c: Config, name: string, v: string, other: string)
    ensures var (c', ok) := Modify(c, name, v);
            && (ok ==> Lookup(c', name) == Some(v))
            && (if ok then Resolves(Lookup(c, other), Lookup(c', other), v) else c' == c)
  {
    SetReads(c, name, v);
    if Lookup(c, name).Some? {
      match SplitName(name)
      case Some((section, rest)) => SetInResolves(c, section, rest, v, other);
      case None => SetGlobalResolves(c, name, v, other);
    }
  }

  lemma ModifyInKeepsNames(c: Config, section: string, name: string, v: string, other: string)
    ensures var (c', ok) := ModifyIn(c, section, name, v);
            && (ok ==> LookupIn(c', section, name) == Some(v))
            && (if ok then Resolves(Lookup(c, other), Lookup(c', other), v) else c' == c)
  {
    if LookupIn(c, section, name).Some? { SetInResolves(c, section, name, v, other); }
  }

  // ---- Defaults -------------------------------------------------------------------------------------

  /** The slot a name denotes, without fallback. */
  function Slot(c: Config, name: string): Option<string> {
    match SplitName(name)
    case Some((section, rest)) =>
      if section in c.sections && rest in c.sections[section] then Some(c.sections[section][rest]) else None
    case None => if name in c.globals then Some(c.globals[name]) else None
  }

  function SetAll(c: Config, d: Store, ks: seq<string>): Config
    requires forall k :: k in ks ==> k in d
    decreases |ks|
  {
    if ks == [] then c else SetAll(Set(c, ks[0], d[ks[0]]), d, ks[1..])
  }

  function Defaults(d: Store): Config {
    SetAll(EMPTY, d, SortedKeys(d.Keys))
  }

  lemma SetSlot(c: Config, name: string, v: string, other: string)
    ensures Slot(Set(c, name, v), other) == if other == name then Some(v) else Slot(c, other)
  {
    var a, b := SplitName(name), SplitName(other);
    if a.Some? && b.Some? && a.value == b.value { assert name == other; }
  }

  lemma {:induction false} SetAllSlot(c: Config, d: Store, ks: seq<string>, name: string)
    requires forall k :: k in ks ==> k in d
    ensures Slot(SetAll(c, d, ks), name) == if name in ks then Some(d[name]) else Slot(c, name)
    decreases |ks|
  {
    if ks != [] {
      SetSlot(c, ks[0], d[ks[0]], name);
      SetAllSlot(Set(c, ks[0], d[ks[0]]), d, ks[1..], name);
    }
  }

  /** After `applyDefaults` every slot holds its default and there is nothing else. */
  lemma DefaultsSlots(d: Store, name: string)
    ensures Slot(Defaults(d), name) == if name in d then Some(d[name]) else None
    ensures name in d ==> Lookup(Defaults(d), name) == Some(d[name])
  {
    SetAllSlot(EMPTY, d, SortedKeys(d.Keys), name);
  }

  lemma {:induction false} SetAllSections(c: Config, d: Store, ks: seq<string>, n: string)
    requires forall k :: k in ks ==> k in d
    ensures n in SetAll(c, d, ks).sections <==>
      n in c.sections || exists name, rest :: name in ks && Denotes(name, Some(n), rest)
    decreases |ks|
  {
    if ks != [] {
      SetEntry(c, ks[0], d[ks[0]], Some(n), "");
      SetAllSections(Set(c, ks[0], d[ks[0]]), d, ks[1..], n);
      assert forall name :: name in ks <==> name == ks[0] || name in ks[1..];
    }
  }

  lemma {:induction false} SetAllEntry(c: Config, d: Store, ks: seq<string>, t: Cursor, k: string)
    requires forall x :: x in ks ==> x in d
    ensures EntryAt(SetAll(c, d, ks), t, k) != EntryAt(c, t, k) ==>
      exists name :: name in ks && Denotes(name, t, k) && EntryAt(SetAll(c, d, ks), t, k) == Some(d[name])
    decreases |ks|
  {
    if ks != [] {
      SetEntry(c, ks[0], d[ks[0]], t, k);
      SetAllEntry(Set(c, ks[0], d[ks[0]]), d, ks[1..], t, k);
      assert forall name :: name in ks <==> name == ks[0] || name in ks[1..];
    }
  }

  /** Each default is the entry its name stands for, and there is no other entry and no other section. */
  lemma DefaultsExactly(d: Store, t: Cursor, k: string, v: string, n: string)
    ensures EntryAt(Defaults(d), t, k) == Some(v) <==> exists name :: name in d && Denotes(name, t, k) && d[name] == v
    ensures n in Defaults(d).sections <==> exists name, rest :: name in d && Denotes(name, Some(n), rest)
  {
    SetAllEntry(EMPTY, d, SortedKeys(d.Keys), t, k);
    SetAllSections(EMPTY, d, SortedKeys(d.Keys), n);
    forall name | name in d && Denotes(name, t, k) ensures EntryAt(Defaults(d), t, k) == Some(d[name]) {
      DefaultsSlots(d, name);
      DenotesIff(name, t, k);
    }
  }

  // ---- Comparison -----------------------------------------------------------------------------------

  type Pair = (string, string)

  function StorePairs(m: Store, ks: seq<string>): (r: seq<Pair>)
    requires forall k :: k in ks ==> k in m
    ensures |r| == |ks| && forall i :: 0 <= i < |ks| ==> r[i] == (ks[i], m[ks[i]])
  {
    if ks == [] then [] else [(ks[0], m[ks[0]])] + StorePairs(m, ks[1..])
  }

  function PathPairs(section: string, pairs: seq<Pair>): (r: seq<Pair>)
    ensures |r| == |pairs|
    ensures forall i :: 0 <= i < |r| ==> r[i] == (ToPath(section, pairs[i].0), pairs[i].1)
  {
    if pairs == [] then [] else [(ToPath(section, pairs[0].0), pairs[0].1)] + PathPairs(section, pairs[1..])
  }

  function SectionPairs(secs: map<string, Store>, ns: seq<string>): seq<Pair>
    requires forall n :: n in ns ==> n in secs
  {
    if ns == [] then [] else
    PathPairs(ns[0], StorePairs(secs[ns[0]], SortedKeys(secs[ns[0]].Keys))) + SectionPairs(secs, ns[1..])
  }

  /** `values()`: the globals in key order, then each section in key order under its path. */
  function Values(c: Config): seq<Pair> {
    StorePairs(c.globals, SortedKeys(c.globals.Keys)) + SectionPairs(c.sections, SortedKeys(c.sections.Keys))
  }

  predicate IsEqual(a: Config, b: Config) {
    Values(a) == Values(b) && |a.sections| == |b.sections|
  }

  lemma StorePairsIn(m: Store, ks: seq<string>, p: Pair)
    requires forall k :: k in ks ==> k in m
    ensures p in StorePairs(m, ks) <==> p.0 in ks && m[p.0] == p.1
  {
    if p.0 in ks && m[p.0] == p.1 {
      var i :| 0 <= i < |ks| && ks[i] == p.0;
      assert StorePairs(m, ks)[i] == p;
    }
  }

  /** The pair is the path of an entry of section `n`. */
  predicate FromSection(secs: map<string, Store>, n: string, k: string, p: Pair)
    requires n in secs
  {
    k in secs[n] && p == (ToPath(n, k), secs[n][k])
  }

  lemma PathPairsIn(secs: map<string, Store>, n: string, p: Pair)
    requires n in secs
    ensures p in PathPairs(n, StorePairs(secs[n], SortedKeys(secs[n].Keys))) <==> exists k :: FromSection(secs, n, k, p)
  {
    var pairs := StorePairs(secs[n], SortedKeys(secs[n].Keys));
    var paths := PathPairs(n, pairs);
    if p in paths {
      var i :| 0 <= i < |paths| && paths[i] == p;
      assert FromSection(secs, n, pairs[i].0, p);
    }
    if k :| FromSection(secs, n, k, p) {
      StorePairsIn(secs[n], SortedKeys(secs[n].Keys), (k, secs[n][k]));
      var i :| 0 <= i < |pairs| && pairs[i] == (k, secs[n][k]);
      assert paths[i] == p;
    }
  }

  lemma {:induction false} SectionPairsIn(secs: map<string, Store>, ns: seq<string>, p: Pair)
    requires forall n :: n in ns ==> n in secs
    ensures p in SectionPairs(secs, ns) <==> exists n, k :: n in ns && FromSection(secs, n, k, p)
  {
    if ns != [] {
      PathPairsIn(secs, ns[0], p);
      SectionPairsIn(secs, ns[1..], p);
      assert forall n :: n in ns <==> n == ns[0] || n in ns[1..];
    }
  }

  /** Section names and global keys without slashes. */
  predicate SlashFree(c: Config) {
    (forall k :: k in c.globals ==> '/' !in k) && (forall n :: n in c.sections ==> '/' !in n)
  }

  predicate NoEmptySection(c: Config) {
    forall n :: n in c.sections ==> c.sections[n] != map[]
  }

  /** The flattened view of a slash-free configuration says of each slot what it holds. */
  lemma ValuesAreSlots(c: Config, name: string, v: string)
    requires SlashFree(c)
    ensures (name, v) in Values(c) <==> Slot(c, name) == Some(v)
  {
    StorePairsIn(c.globals, SortedKeys(c.globals.Keys), (name, v));
    SectionPairsIn(c.sections, SortedKeys(c.sections.Keys), (name, v));
    if n, k :| n in c.sections && FromSection(c.sections, n, k, (name, v)) {
      SplitPath(n, k);
    }
    if SplitName(name).Some? && Slot(c, name) == Some(v) {
      var (n, k) := SplitName(name).value;
      assert FromSection(c.sections, n, k, (name, v));
    }
  }

  ghost predicate SameSlots(a: Config, b: Config) {
    forall name :: Slot(a, name) == Slot(b, name)
  }

  lemma SlotCarriesOver(a: Config, b: Config, name: string)
    requires SlashFree(a) && SlashFree(b) && Values(a) == Values(b)
    ensures Slot(a, name).Some? ==> Slot(b, name) == Slot(a, name)
  {
    if Slot(a, name).Some? {
      var v := Slot(a, name).value;
      ValuesAreSlots(a, name, v);
      ValuesAreSlots(b, name, v);
    }
  }

  lemma SameValuesSameSlots(a: Config, b: Config)
    requires SlashFree(a) && SlashFree(b) && Values(a) == Values(b)
    ensures SameSlots(a, b)
  {
    forall name ensures Slot(a, name) == Slot(b, name) {
      SlotCarriesOver(a, b, name);
      SlotCarriesOver(b, a, name);
    }
  }

  lemma SameSlotsSameStore(a: Config, b: Config)
    requires SlashFree(a) && SlashFree(b) && SameSlots(a, b)
    ensures a.globals == b.globals
  {
    forall k ensures (k in a.globals <==> k in b.globals) && (k in a.globals ==> a.globals[k] == b.globals[k]) {
      if '/' !in k { assert Slot(a, k) == Slot(b, k); }
    }
  }

  /** The sections that hold something. */
  function Filled(secs: map<string, Store>): map<string, Store> {
    map n | n in secs && secs[n] != map[] :: secs[n]
  }

  lemma SameSlotsSameSection(a: Config, b: Config, n: string)
    requires SlashFree(a) && SlashFree(b) && SameSlots(a, b) && n in a.sections && a.sections[n] != map[]
    ensures n in b.sections && a.sections[n] == b.sections[n]
  {
    var m := a.sections[n];
    forall k ensures Slot(a, ToPath(n, k)) == Slot(b, ToPath(n, k)) && SplitName(ToPath(n, k)) == Some((n, k)) {
      SplitPath(n, k);
    }
    var k :| k in m;
    assert Slot(a, ToPath(n, k)).Some?;
    forall x ensures (x in m <==> x in b.sections[n]) && (x in m ==> m[x] == b.sections[n][x]) {
      assert Slot(a, ToPath(n, x)) == Slot(b, ToPath(n, x));
    }
  }

  lemma SameSlotsSameFilled(a: Config, b: Config)
    requires SlashFree(a) && SlashFree(b) && SameSlots(a, b)
    ensures Filled(a.sections) == Filled(b.sections)
  {
    var x, y := Filled(a.sections), Filled(b.sections);
    forall n | n in x ensures n in y && y[n] == x[n] { SameSlotsSameSection(a, b, n); }
    forall n | n in y ensures n in x { SameSlotsSameSection(b, a, n); }
    assert x.Keys == y.Keys;
  }

  /** The names of the sections that hold something. */
  function FilledNames(secs: map<string, Store>, ns: seq<string>): seq<string>
    requires forall n :: n in ns ==> n in secs
  {
    if ns == [] then [] else (if secs[ns[0]] != map[] then [ns[0]] else []) + FilledNames(secs, ns[1..])
  }

  lemma {:induction false} FilledNamesIn(secs: map<string, Store>, ns: seq<string>, n: string)
    requires forall x :: x in ns ==> x in secs
    ensures n in FilledNames(secs, ns) <==> n in ns && secs[n] != map[]
  {
    if ns != [] { FilledNamesIn(secs, ns[1..], n); }
  }

  lemma {:induction false} FilledNamesSorted(secs: map<string, Store>, ns: seq<string>)
    requires Sorted(ns) && forall x :: x in ns ==> x in secs
    ensures Sorted(FilledNames(secs, ns))
  {
    if ns != [] {
      var rest := FilledNames(secs, ns[1..]);
      SortedTail(ns);
      FilledNamesSorted(secs, ns[1..]);
      forall i | 0 <= i < |rest| ensures Leq(ns[0], rest[i]) && ns[0] != rest[i] {
        FilledNamesIn(secs, ns[1..], rest[i]);
        HeadBefore(ns, rest[i]);
      }
      SortedCons(ns[0], rest);
      assert [] + rest == rest;
    }
  }

  lemma HeadBefore(ns: seq<string>, x: string)
    requires Sorted(ns) && ns != [] && x in ns[1..]
    ensures Leq(ns[0], x) && ns[0] != x
  {
    var i :| 0 <= i < |ns[1..]| && ns[1..][i] == x;
    assert Before(ns, 0, i + 1);
  }

  lemma SortedCons(n: string, ns: seq<string>)
    requires Sorted(ns) && forall i :: 0 <= i < |ns| ==> Leq(n, ns[i]) && n != ns[i]
    ensures Sorted([n] + ns)
  {
    var all := [n] + ns;
    forall i, j | 0 <= i < j < |all| ensures Before(all, i, j) { if i > 0 { assert Before(ns, i - 1, j - 1); } }
  }

  /** Empty sections add nothing to the flattened view. */
  lemma {:induction false} EmptySectionsAddNothing(secs: map<string, Store>, ns: seq<string>)
    requires forall n :: n in ns ==> n in secs
    ensures forall n :: n in FilledNames(secs, ns) ==> n in Filled(secs)
    ensures SectionPairs(secs, ns) == SectionPairs(Filled(secs), FilledNames(secs, ns))
  {
    forall n | n in FilledNames(secs, ns) ensures n in Filled(secs) { FilledNamesIn(secs, ns, n); }
    if ns != [] {
      var rest := FilledNames(secs, ns[1..]);
      EmptySectionsAddNothing(secs, ns[1..]);
      if secs[ns[0]] == map[] {
        assert [] + rest == rest;
      } else {
        assert ([ns[0]] + rest)[1..] == rest;
      }
    }
  }

  lemma SectionsOfFilled(secs: map<string, Store>)
    ensures SectionPairs(secs, SortedKeys(secs.Keys)) == SectionPairs(Filled(secs), SortedKeys(Filled(secs).Keys))
  {
    var ns := SortedKeys(secs.Keys);
    EmptySectionsAddNothing(secs, ns);
    SortedKeysSorted(secs.Keys);
    FilledNamesSorted(secs, ns);
    forall n ensures n in FilledNames(secs, ns) <==> n in Filled(secs).Keys { FilledNamesIn(secs, ns, n); }
    SortedUnique(FilledNames(secs, ns), Filled(secs).Keys);
  }

  /** Equal but for which sections are empty, and with as many sections. */
  predicate SameButEmpty(a: Config, b: Config) {
    a.globals == b.globals && Filled(a.sections) == Filled(b.sections) && |a.sections| == |b.sections|
  }

  /** What `isEqual` compares, on slash-free configurations: the globals, the sections that hold something
      and the number of sections. */
  lemma IsEqualIff(a: Config, b: Config)
    requires SlashFree(a) && SlashFree(b)
    ensures IsEqual(a, b) <==> SameButEmpty(a, b)
  {
    SectionsOfFilled(a.sections);
    SectionsOfFilled(b.sections);
    if IsEqual(a, b) {
      SameValuesSameSlots(a, b);
      SameSlotsSameStore(a, b);
      SameSlotsSameFilled(a, b);
    }
  }

  lemma FilledAll(c: Config)
    ensures NoEmptySection(c) <==> Filled(c.sections) == c.sections
  {
    if n :| n in c.sections && c.sections[n] == map[] { assert n !in Filled(c.sections); }
  }

  lemma SameNames(x: set<string>, y: set<string>)
    requires x <= y && |x| == |y|
    ensures x == y
  {
    if n :| n in y && n !in x { CardinalityGrows(x, y - {n}); }
  }

  lemma {:induction false} CardinalityGrows(x: set<string>, y: set<string>)
    requires x <= y
    ensures |x| <= |y|
  {
    if n :| n in x { CardinalityGrows(x - {n}, y - {n}); }
  }

  /** Where `a` has no empty section, `isEqual` is equality of the two-level maps. */
  lemma IsEqualExact(a: Config, b: Config)
    requires SlashFree(a) && SlashFree(b) && NoEmptySection(a)
    ensures IsEqual(a, b) <==> a == b
  {
    IsEqualIff(a, b);
    FilledAll(a);
    if IsEqual(a, b) { AllFilled(b.sections); }
  }

  lemma AllFilled(secs: map<string, Store>)
    requires |Filled(secs)| == |secs|
    ensures Filled(secs) == secs
  {
    var x := Filled(secs);
    assert |x.Keys| == |x| && |secs.Keys| == |secs|;
    SameNames(x.Keys, secs.Keys);
  }

  lemma {:induction false} FreshName(names: set<string>) returns (n: string)
    ensures '/' !in n && forall x :: x in names ==> |x| < |n|
  {
    n := "x";
    if x :| x in names {
      var m := FreshName(names - {x});
      n := if |m| <= |x| then seq(|x| + 1, _ => 'x') else m;
      forall y | y in names ensures |y| < |n| { if y != x { assert y in names - {x}; } }
    }
  }

  function Renamed(secs: map<string, Store>, n: string, m: string): map<string, Store> {
    (secs - {n})[m := map[]]
  }

  /** An empty section under another name. */
  lemma RenamedFilled(secs: map<string, Store>, n: string, m: string)
    requires n in secs && secs[n] == map[] && m !in secs
    ensures Filled(Renamed(secs, n, m)) == Filled(secs)
  {
    var x, y := Filled(Renamed(secs, n, m)), Filled(secs);
    assert forall k :: k in x <==> k in y;
    assert forall k :: k in x ==> x[k] == y[k];
  }

  lemma RenamedCount(secs: map<string, Store>, n: string, m: string)
    requires n in secs && m !in secs
    ensures |Renamed(secs, n, m)| == |secs|
  {
    var x, y := Renamed(secs, n, m), secs;
    assert x.Keys == y.Keys - {n} + {m};
    assert |x.Keys| == |x| && |y.Keys| == |y|;
  }

  ghost predicate EqualOnlyToItself(a: Config) {
    forall b :: SlashFree(b) && IsEqual(a, b) ==> b == a
  }

  lemma AnotherEqual(a: Config, n: string) returns (b: Config)
    requires SlashFree(a) && n in a.sections && a.sections[n] == map[]
    ensures SlashFree(b) && IsEqual(a, b) && n !in b.sections
  {
    var m := FreshName(a.sections.Keys);
    assert m !in a.sections;
    b := a.(sections := Renamed(a.sections, n, m));
    RenamedFilled(a.sections, n, m);
    RenamedCount(a.sections, n, m);
    IsEqualIff(a, b);
  }

  /** `isEqual` tells a slash-free configuration from every other exactly when it has no empty section. */
  lemma IsEqualTellsIff(a: Config)
    requires SlashFree(a)
    ensures EqualOnlyToItself(a) <==> NoEmptySection(a)
  {
    if NoEmptySection(a) {
      forall b | SlashFree(b) && IsEqual(a, b) ensures b == a { IsEqualExact(a, b); }
    } else {
      var n :| n in a.sections && a.sections[n] == map[];
      var b := AnotherEqual(a, n);
      assert b != a;
    }
  }

  lemma OneKey(k: string)
    ensures SortedKeys({k}) == [k]
  {
    SortedUnique([k], {k});
  }

  /** The values of a configuration with one global entry and one empty section. */
  lemma ValuesOfGlobal(k: string, v: string, n: string)
    ensures Values(Config(map[k := v], map[n := map[]])) == [(k, v)]
  {
    var c := Config(map[k := v], map[n := map[]]);
    assert c.globals.Keys == {k} && c.sections.Keys == {n};
    OneKey(k);
    OneKey(n);
    assert SectionPairs(c.sections, [n]) == [];
  }

  /** The values of a configuration with one section of one entry. */
  lemma ValuesOfSection(n: string, k: string, v: string)
    ensures Values(Config(map[], map[n := map[k := v]])) == [(ToPath(n, k), v)]
  {
    var c := Config(map[], map[n := map[k := v]]);
    assert c.globals.Keys == {} && c.sections.Keys == {n} && c.sections[n].Keys == {k};
    OneKey(k);
    OneKey(n);
    assert SectionPairs(c.sections, [n]) == [(ToPath(n, k), v)];
  }

  /** Two configurations without a slash that compare equal and look a name up differently: they differ in
      the name of their empty section. */
  lemma IsEqualConfusesEmpty(k: string, v: string, n: string, m: string)
    requires '/' !in k && '/' !in n && '/' !in m && n != m
    ensures var a, b := Config(map[k := v], map[n := map[]]), Config(map[k := v], map[m := map[]]);
            && SlashFree(a) && SlashFree(b) && IsEqual(a, b)
            && Lookup(a, ToPath(n, k)) == Some(v) && Lookup(b, ToPath(n, k)) == None
  {
    ValuesOfGlobal(k, v, n);
    ValuesOfGlobal(k, v, m);
    LookupInSection(Config(map[k := v], map[n := map[]]), n, k);
    LookupInSection(Config(map[k := v], map[m := map[]]), n, k);
  }

  /** A slash-free name looked up from a section. */
  lemma LookupInSection(c: Config, n: string, k: string)
    requires '/' !in n && '/' !in k
    ensures Lookup(c, ToPath(n, k)) ==
      if n !in c.sections then None
      else if k in c.sections[n] then Some(c.sections[n][k])
      else if k in c.globals then Some(c.globals[k]) else None
  {
    LookupPath(c, n, k);
    LookupPlain(c, k);
  }

  lemma LookupPath(c: Config, n: string, k: string)
    requires '/' !in n
    ensures Lookup(c, ToPath(n, k)) == LookupIn(c, n, k)
  {
    SplitPath(n, k);
  }

  lemma LookupPlain(c: Config, k: string)
    requires '/' !in k
    ensures Lookup(c, k) == if k in c.globals then Some(c.globals[k]) else None
  {
    assert SplitName(k).None?;
  }

  /** With slashes `isEqual` also confuses a global key that is a path with a section entry, although
      lookup does not: for every slash-free section `n` and every other section name `x`. */
  lemma IsEqualConfusesPaths(n: string, k: string, v: string, x: string)
    requires '/' !in n && x != n
    ensures var a, b := Config(map[ToPath(n, k) := v], map[x := map[]]), Config(map[], map[n := map[k := v]]);
            IsEqual(a, b) && Lookup(a, ToPath(n, k)) == None && Lookup(b, ToPath(n, k)) == Some(v)
  {
    ValuesOfGlobal(ToPath(n, k), v, x);
    ValuesOfSection(n, k, v);
    SplitPath(n, k);
  }
}
