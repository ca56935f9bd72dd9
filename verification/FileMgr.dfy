/**
 Listing and deleting the files of one directory. The file system is a map from paths to what they
 name, which nothing else changes; removing a file may fail at any time. The listing sorts paths and
 keeps names, which comes to sorted names because a common prefix does not change the order. A wildcard
 chooses from it without regard to case. Deleting file by file, from a list made once or from the head of
 a new listing every time, removes the chosen files in order up to the first that cannot be removed.
 */
module FileMgr {
  import opened Wrappers
  import opened Strings
  import opened Paths

  datatype Kind = Regular | Other

  type FileSystem = map<string, Kind>

  // ---- The files of a directory -------------------------------------------------------------------

  predicate IsFile(fs: FileSystem, path: string) {
    path in fs && fs[path] == Regular
  }

  /** The directory with its separator, as `dirContents` puts it before every name. */
  function Prefix(dir: string): string {
    Joined(dir, "")
  }

  /** What a directory entry can be called, without the entries for the directory and its parent. */
  predicate EntryName(name: string) {
    name != "" && name != "." && name != ".." && SEPARATOR !in name
  }

  predicate InDir(dir: string, path: string) {
    dir != "" && Prefix(dir) <= path && EntryName(path[|Prefix(dir)|..])
  }

  /** `dirContents`, before sorting. */
  function Contents(fs: FileSystem, dir: string): set<string> {
    set p | p in fs && InDir(dir, p)
  }

  /** The names of the regular files in a directory. */
  function Files(fs: FileSystem, dir: string): set<string> {
    set p | p in fs && fs[p] == Regular && InDir(dir, p) :: p[|Prefix(dir)|..]
  }

  lemma PathOf(dir: string, name: string)
    requires dir != ""
    ensures Joined(dir, name) == Prefix(dir) + name
    ensures EntryName(name) ==> InDir(dir, Joined(dir, name))
    ensures Joined(dir, name)[|Prefix(dir)|..] == name
  {
  }

  lemma NameOf(dir: string, path: string)
    requires InDir(dir, path)
    ensures Basename(path) == path[|Prefix(dir)|..] && path == Joined(dir, Basename(path))
  {
    var name := path[|Prefix(dir)|..];
    assert path == Prefix(dir) + name;
    PathOf(dir, name);
    JoinThenSplit(dir, name);
  }

  /** A directory lists the regular files below it by every name without a separator but the empty one, the
      directory's own and its parent's; names that begin with a dot are listed too. */
  lemma ListedIff(fs: FileSystem, dir: string, name: string)
    ensures name in Files(fs, dir) <==>
      && dir != "" && name != "" && name != "." && name != ".." && '/' !in name
      && var path := if dir[|dir| - 1] == '/' then dir + name else dir + "/" + name;
         path in fs && fs[path] == Regular
  {
    FilesIff(fs, dir, name);
  }

  /** A name is listed exactly when its path is a regular file and it is a name. */
  lemma FilesIff(fs: FileSystem, dir: string, name: string)
    ensures name in Files(fs, dir) <==> dir != "" && EntryName(name) && IsFile(fs, Joined(dir, name))
  {
    if dir != "" { PathOf(dir, name); }
    if name in Files(fs, dir) {
      var p :| p in fs && fs[p] == Regular && InDir(dir, p) && p[|Prefix(dir)|..] == name;
      NameOf(dir, p);
    }
  }

  /** The paths of some names. */
  function PathsOf(dir: string, names: seq<string>): set<string> {
    set i | 0 <= i < |names| :: Joined(dir, names[i])
  }

  lemma PathsOfIff(dir: string, names: seq<string>, name: string)
    requires dir != ""
    ensures Joined(dir, name) in PathsOf(dir, names) <==> name in names
  {
    if Joined(dir, name) in PathsOf(dir, names) {
      var i :| 0 <= i < |names| && Joined(dir, names[i]) == Joined(dir, name);
      PathOf(dir, names[i]);
      PathOf(dir, name);
    }
  }

  lemma PathsOfNext(dir: string, names: seq<string>, i: nat)
    requires i < |names|
    ensures PathsOf(dir, names[..i + 1]) == PathsOf(dir, names[..i]) + {Joined(dir, names[i])}
  {
    var a, b := PathsOf(dir, names[..i + 1]), PathsOf(dir, names[..i]) + {Joined(dir, names[i])};
    forall p ensures p in a <==> p in b {
      if p in a {
        var k :| 0 <= k < i + 1 && Joined(dir, names[..i + 1][k]) == p;
        assert k < i ==> names[..i][k] == names[k];
      }
      if p in b && p != Joined(dir, names[i]) {
        var k :| 0 <= k < i && Joined(dir, names[..i][k]) == p;
        assert names[..i + 1][k] == names[k];
      }
      assert names[..i + 1][i] == names[i];
    }
  }

  lemma RemoveNext(fs: FileSystem, dir: string, names: seq<string>, i: nat)
    requires i < |names|
    ensures fs - PathsOf(dir, names[..i]) - {Joined(dir, names[i])} == fs - PathsOf(dir, names[..i + 1])
  {
    PathsOfNext(dir, names, i);
    var gone, p := PathsOf(dir, names[..i]), Joined(dir, names[i]);
    assert fs - gone - {p} == fs - (gone + {p});
  }

  /** The file system after the first `i` of the named files were removed, one by one. */
  function Without(fs: FileSystem, dir: string, names: seq<string>, i: nat): FileSystem
    requires i <= |names|
  {
    if i == 0 then fs else Without(fs, dir, names, i - 1) - {Joined(dir, names[i - 1])}
  }

  lemma {:induction false} WithoutIs(fs: FileSystem, dir: string, names: seq<string>, i: nat)
    requires i <= |names|
    ensures Without(fs, dir, names, i) == fs - PathsOf(dir, names[..i])
  {
    if i == 0 {
      assert PathsOf(dir, names[..0]) == {};
    } else {
      WithoutIs(fs, dir, names, i - 1);
      RemoveNext(fs, dir, names, i - 1);
    }
  }

  /** Removing the paths of some names removes those names from the listing. */
  lemma FilesWithout(fs: FileSystem, dir: string, names: seq<string>, name: string)
    ensures name in Files(fs - PathsOf(dir, names), dir) <==> name in Files(fs, dir) && name !in names
  {
    FilesIff(fs, dir, name);
    FilesIff(fs - PathsOf(dir, names), dir, name);
    if dir != "" { PathsOfIff(dir, names, name); }
  }

  // ---- Sorted listings ----------------------------------------------------------------------------

  /** What is left of a sorted listing is the sorted listing of what is left. */
  lemma SortedRest(fs: FileSystem, dir: string, names: seq<string>, i: nat)
    requires names == SortedKeys(Files(fs, dir)) && i <= |names|
    ensures SortedKeys(Files(Without(fs, dir, names, i), dir)) == names[i..]
  {
    WithoutIs(fs, dir, names, i);
    SortedKeysSorted(Files(fs, dir));
    var rest := Files(fs - PathsOf(dir, names[..i]), dir);
    forall name ensures name in names[i..] <==> name in rest {
      FilesWithout(fs, dir, names[..i], name);
      SplitDistinct(names, i, name);
    }
    SortedSuffix(names, i);
    SortedUnique(names[i..], rest);
  }

  /** After `i` files the next one is the only one that no file comes before. */
  lemma NextFile(fs: FileSystem, dir: string, names: seq<string>, i: nat, name: string)
    requires names == SortedKeys(Files(fs, dir)) && i < |names|
    ensures var left := Files(Without(fs, dir, names, i), dir);
      name in left && Rank(left, name) == 0 <==> name == names[i]
  {
    SortedRest(fs, dir, names, i);
    RankIff(Files(Without(fs, dir, names, i), dir), name, 0);
  }

  /** The file with `index` files before it was removed and nothing else, or nothing at all. */
  ghost predicate RemovedAt(fs: FileSystem, fs': FileSystem, dir: string, index: nat, ok: bool) {
    exists name ::
      && name in Files(fs, dir) && Rank(Files(fs, dir), name) == index
      && fs' == if ok then fs - {Joined(dir, name)} else fs
  }

  lemma FirstRemoved(fs: FileSystem, fs': FileSystem, dir: string, names: seq<string>, i: nat, ok: bool)
    requires names == SortedKeys(Files(fs, dir)) && i < |names|
    requires RemovedAt(Without(fs, dir, names, i), fs', dir, 0, ok)
    ensures fs' == Without(fs, dir, names, if ok then i + 1 else i)
  {
    var left := Without(fs, dir, names, i);
    var name :| name in Files(left, dir) && Rank(Files(left, dir), name) == 0
      && fs' == if ok then left - {Joined(dir, name)} else left;
    NextFile(fs, dir, names, i, name);
  }

  lemma SortedSuffix(names: seq<string>, i: nat)
    requires Sorted(names) && i <= |names|
    ensures Sorted(names[i..])
  {
    var rest := names[i..];
    forall a, b | 0 <= a < b < |rest| ensures Before(rest, a, b) { assert Before(names, i + a, i + b); }
  }

  lemma SplitDistinct(names: seq<string>, i: nat, name: string)
    requires Sorted(names) && i <= |names|
    ensures name in names[i..] <==> name in names && name !in names[..i]
  {
    assert names == names[..i] + names[i..];
    forall a, b | 0 <= a < i <= b < |names| ensures names[a] != names[b] { SortedDistinct(names, a, b); }
  }

  lemma SortedDistinct(names: seq<string>, a: nat, b: nat)
    requires Sorted(names) && a < b < |names|
    ensures names[a] != names[b]
  {
    assert Before(names, a, b);
  }

  lemma SortedAppend(names: seq<string>, n: string)
    requires Sorted(names) && forall i :: 0 <= i < |names| ==> Leq(names[i], n) && names[i] != n
    ensures Sorted(names + [n])
  {
    var all := names + [n];
    forall i, j | 0 <= i < j < |all| ensures Before(all, i, j) {
      if j < |names| { assert Before(names, i, j); }
    }
  }

  /** The names of the regular files among the first `i` paths. */
  function Kept(fs: FileSystem, contents: seq<string>, i: nat): seq<string>
    requires i <= |contents|
  {
    if i == 0 then []
    else Kept(fs, contents, i - 1) + if IsFile(fs, contents[i - 1]) then [Basename(contents[i - 1])] else []
  }

  predicate AllInDir(dir: string, contents: seq<string>) {
    forall k :: 0 <= k < |contents| ==> InDir(dir, contents[k])
  }

  lemma SameName(dir: string, path: string, n: string)
    requires InDir(dir, path)
    ensures Joined(dir, n) == path <==> Basename(path) == n
  {
    NameOf(dir, path);
    PathOf(dir, n);
    PathOf(dir, Basename(path));
  }

  lemma KeptLast(fs: FileSystem, contents: seq<string>, i: nat, n: string)
    requires 0 < i <= |contents|
    ensures n in Kept(fs, contents, i) <==>
      n in Kept(fs, contents, i - 1) || (IsFile(fs, contents[i - 1]) && Basename(contents[i - 1]) == n)
  {
  }

  lemma InPrefix(s: seq<string>, i: nat, x: string)
    requires 0 < i <= |s|
    ensures x in s[..i] <==> x in s[..i - 1] || x == s[i - 1]
  {
    assert s[..i] == s[..i - 1] + [s[i - 1]];
  }

  lemma {:induction false} KeptIff(fs: FileSystem, dir: string, contents: seq<string>, i: nat, n: string)
    requires AllInDir(dir, contents) && i <= |contents| && dir != ""
    ensures n in Kept(fs, contents, i) <==> IsFile(fs, Joined(dir, n)) && Joined(dir, n) in contents[..i]
  {
    if i > 0 {
      KeptIff(fs, dir, contents, i - 1, n);
      KeptLast(fs, contents, i, n);
      InPrefix(contents, i, Joined(dir, n));
      SameName(dir, contents[i - 1], n);
    }
  }

  lemma {:induction false} KeptSorted(fs: FileSystem, dir: string, contents: seq<string>, i: nat)
    requires AllInDir(dir, contents) && Sorted(contents) && i <= |contents| && dir != ""
    ensures Sorted(Kept(fs, contents, i))
  {
    if i > 0 {
      KeptSorted(fs, dir, contents, i - 1);
      var names, n := Kept(fs, contents, i - 1), Basename(contents[i - 1]);
      NameOf(dir, contents[i - 1]);
      forall k | 0 <= k < |names| ensures Leq(names[k], n) && names[k] != n {
        KeptIff(fs, dir, contents, i - 1, names[k]);
        NameBefore(dir, contents, i - 1, names[k], n);
      }
      SortedAppend(names, n);
      assert names + [] == names;
    }
  }

  lemma NameBefore(dir: string, contents: seq<string>, i: nat, a: string, b: string)
    requires Sorted(contents) && i < |contents| && dir != ""
    requires Joined(dir, a) in contents[..i] && Joined(dir, b) == contents[i]
    ensures Leq(a, b) && a != b
  {
    var k :| 0 <= k < i && contents[..i][k] == Joined(dir, a);
    assert Before(contents, k, i);
    PathOf(dir, a);
    PathOf(dir, b);
    LeqPrefix(Prefix(dir), a, b);
  }

  /** Filtering the sorted paths gives the sorted names of the regular files. */
  lemma ListingIsSorted(fs: FileSystem, dir: string, contents: seq<string>)
    requires dir != "" && contents == SortedKeys(Contents(fs, dir))
    ensures Kept(fs, contents, |contents|) == SortedKeys(Files(fs, dir))
  {
    SortedKeysSorted(Contents(fs, dir));
    assert AllInDir(dir, contents) by {
      forall k | 0 <= k < |contents| ensures InDir(dir, contents[k]) { assert contents[k] in Contents(fs, dir); }
    }
    var files := Kept(fs, contents, |contents|);
    KeptSorted(fs, dir, contents, |contents|);
    forall n ensures n in files <==> n in Files(fs, dir) {
      KeptIff(fs, dir, contents, |contents|, n);
      assert contents[..|contents|] == contents;
      FilesIff(fs, dir, n);
      PathOf(dir, n);
    }
    SortedUnique(files, Files(fs, dir));
  }

  lemma StillThere(fs: FileSystem, dir: string, names: seq<string>, i: nat)
    requires Sorted(names) && i < |names| && forall n :: n in names ==> n in Files(fs, dir)
    ensures dir != "" && IsFile(Without(fs, dir, names, i), Joined(dir, names[i]))
  {
    WithoutIs(fs, dir, names, i);
    var n := names[i];
    assert n in names;
    FilesIff(fs, dir, n);
    PathsOfIff(dir, names[..i], n);
    SplitDistinct(names, i, n);
    assert names[i..][0] == n;
  }

  // ---- Which files a wildcard names ---------------------------------------------------------------

  const STAR := '*'

  /** A star, and it is the last character. */
  predicate Wildcard(name: string) {
    STAR in name && Find(name, STAR, 0) == |name| - 1
  }

  /** Without regard to case, `file` starts with what is before the star. */
  predicate Matches(name: string, file: string) {
    ToLower(name[..Find(name, STAR, 0)]) <= ToLower(file)
  }

  function Targets(name: string, files: set<string>): set<string> {
    set f | f in files && Matches(name, f)
  }

  /** The matching files of a directory, in order. */
  function TargetList(fs: FileSystem, dir: string, name: string): seq<string> {
    SortedKeys(Targets(name, Files(fs, dir)))
  }

  /** A star alone names every file. */
  lemma StarMatchesAll(name: string, files: set<string>)
    requires name == [STAR]
    ensures Wildcard(name) && Targets(name, files) == files
  {
    assert name[..0] == "" && Find(name, STAR, 0) == 0;
    assert name[0] in name;
    EmptyLower();
  }

  lemma EmptyLower()
    ensures ToLower("") == ""
  {
  }

  /** The matching ones of the first `i` files. */
  function Chosen(name: string, files: seq<string>, i: nat): seq<string>
    requires i <= |files|
  {
    if i == 0 then []
    else Chosen(name, files, i - 1) + if Matches(name, files[i - 1]) then [files[i - 1]] else []
  }

  lemma {:induction false} ChosenIff(name: string, files: seq<string>, i: nat, n: string)
    requires i <= |files|
    ensures n in Chosen(name, files, i) <==> n in files[..i] && Matches(name, n)
  {
    if i > 0 {
      ChosenIff(name, files, i - 1, n);
      InPrefix(files, i, n);
    }
  }

  lemma {:induction false} ChosenSorted(name: string, files: seq<string>, i: nat)
    requires i <= |files| && Sorted(files)
    ensures Sorted(Chosen(name, files, i))
  {
    if i > 0 {
      ChosenSorted(name, files, i - 1);
      var names := Chosen(name, files, i - 1);
      forall k | 0 <= k < |names| ensures Leq(names[k], files[i - 1]) && names[k] != files[i - 1] {
        ChosenIff(name, files, i - 1, names[k]);
        var a :| 0 <= a < i - 1 && files[..i - 1][a] == names[k];
        assert Before(files, a, i - 1);
      }
      SortedAppend(names, files[i - 1]);
      assert names + [] == names;
    }
  }

  /** Choosing from a sorted listing gives the sorted targets. */
  lemma ChosenAll(name: string, files: seq<string>, all: set<string>)
    requires files == SortedKeys(all)
    ensures Chosen(name, files, |files|) == SortedKeys(Targets(name, all))
  {
    SortedKeysSorted(all);
    ChosenSorted(name, files, |files|);
    assert files[..|files|] == files;
    forall n ensures n in Chosen(name, files, |files|) <==> n in Targets(name, all) {
      ChosenIff(name, files, |files|, n);
    }
    SortedUnique(Chosen(name, files, |files|), Targets(name, all));
  }

  lemma ChosenGood(fs: FileSystem, dir: string, name: string, files: seq<string>)
    requires files == SortedKeys(Files(fs, dir))
    ensures Chosen(name, files, |files|) == TargetList(fs, dir, name) && Sorted(TargetList(fs, dir, name))
    ensures forall n :: n in TargetList(fs, dir, name) ==> n in Files(fs, dir)
  {
    ChosenAll(name, files, Files(fs, dir));
    SortedKeysSorted(Targets(name, Files(fs, dir)));
  }

  /** Matching compares the two beginnings character by character; the case of a letter does not count. */
  lemma MatchesIff(name: string, file: string)
    ensures var p, f := CString(name[..Find(name, STAR, 0)]), CString(file);
      Matches(name, file) <==> |p| <= |f| && forall i :: 0 <= i < |p| ==> SameLetter(p[i], f[i])
  {
    var p, f := CString(name[..Find(name, STAR, 0)]), CString(file);
    LowerAllAt(p);
    LowerAllAt(f);
    forall i | 0 <= i < |p| && i < |f| ensures LowerAll(p)[i] == LowerAll(f)[i] <==> SameLetter(p[i], f[i]) {
      CaseIff(p[i], f[i]);
    }
  }

  // ---- The class ----------------------------------------------------------------------------------

  function Added(errors: string, e: string): string {
    if errors == "" then e else errors + "\n" + e
  }

  function Noted(dir: string, errors: string): string {
    if dir == "" then Added(errors, "Directory not set") else errors
  }

  class FileMgr {
    var dir: string
    var error: string
    var fs: FileSystem

    constructor (dir: string, fs: FileSystem)
      ensures this.dir == dir && this.fs == fs && error == ""
    {
      this.dir, this.fs, error := dir, fs, "";
    }

    method SetError(e: string)
      modifies this`error
      ensures error == Added(old(error), e)
    {
      if error != "" { error := error + "\n"; }
      error := error + e;
    }

    method TakeError() returns (e: string)
      modifies this`error
      ensures e == old(error) && error == ""
    {
      e, error := error, "";
    }

    method ListFiles() returns (files: seq<string>)
      modifies this`error
      ensures files == SortedKeys(Files(fs, dir))
      ensures error == if dir == "" then Added(old(error), "Directory not set") else old(error)
    {
      files := [];
      if dir == "" {
        SetError("Directory not set");
        assert Files(fs, dir) == {};
        return;
      }
      var contents := SortedKeys(Contents(fs, dir));
      ListingIsSorted(fs, dir, contents);
      for i := 0 to |contents|
        invariant files == Kept(fs, contents, i)
      {
        if IsFile(fs, contents[i]) {
          files := files + [Basename(contents[i])];
        }
      }
    }

    /** `unlink`: it may fail, and then nothing has changed. */
    method Unlink(path: string) returns (ok: bool)
      requires path in fs
      modifies this`fs
      ensures fs == if ok then old(fs) - {path} else old(fs)
    {
      ok := *;
      if ok { fs := fs - {path}; }
    }

    method Del(filename: string) returns (ok: bool)
      modifies this`error, this`fs
      ensures ok ==> dir != "" && IsFile(old(fs), Joined(dir, filename))
      ensures fs == if ok then old(fs) - {Joined(dir, filename)} else old(fs)
      ensures ok ==> error == old(error)
      ensures !ok ==> error == Added(old(error),
        if dir == "" then "Directory not set"
        else if !IsFile(fs, Joined(dir, filename)) then "Invalid filename"
        else "Unable to delete file")
    {
      if dir == "" {
        SetError("Directory not set");
        return false;
      }
      var path := Join(dir, filename);
      if !IsFile(fs, path) {
        SetError("Invalid filename");
        return false;
      }
      ok := Unlink(path);
      if !ok { SetError("Unable to delete file"); }
    }

    /** The file with `index` files before it, in key order. */
    method IndexToFilename(index: nat) returns (name: string)
      modifies this`error
      ensures index < |Files(fs, dir)| ==>
        name in Files(fs, dir) && Rank(Files(fs, dir), name) == index && error == old(error)
      ensures index >= |Files(fs, dir)| ==>
        name == "" && error == Added(Noted(dir, old(error)), "File index not found")
    {
      var files := ListFiles();
      if |files| == 0 || index >= |files| {
        SetError("File index not found");
        return "";
      }
      name := files[index];
      RankIff(Files(fs, dir), name, index);
    }

    /** Removes the file with `index` files before it, and no other. */
    method DelIndex(index: nat) returns (ok: bool)
      modifies this`error, this`fs
      ensures index < |Files(old(fs), dir)| ==> RemovedAt(old(fs), fs, dir, index, ok)
      ensures index < |Files(old(fs), dir)| ==>
        error == if ok then old(error) else Added(old(error), "Unable to delete file")
      ensures index >= |Files(old(fs), dir)| ==>
        !ok && fs == old(fs) && error == Added(Noted(dir, old(error)), "File index not found")
    {
      var filename := IndexToFilename(index);
      FilesIff(fs, dir, filename);
      if filename == "" { return false; }
      ok := Del(filename);
    }

    /** The loop for a star: it always deletes the first file of a new listing. */
    method DelAll(files: seq<string>) returns (ok: bool, ghost removed: nat)
      requires files != [] && files == SortedKeys(Files(fs, dir))
      modifies this`error, this`fs
      ensures RemovedFirst(old(fs), fs, dir, files, ok, removed)
      ensures error == if ok then old(error) else Added(old(error), "Unable to delete file")
    {
      for i := 0 to |files|
        invariant fs == Without(old(fs), dir, files, i) && error == old(error)
      {
        SortedRest(old(fs), dir, files, i);
        ok := DelIndex(0);
        FirstRemoved(old(fs), fs, dir, files, i, ok);
        if !ok {
          RemovedNow(old(fs), dir, files, i, false);
          return false, i;
        }
      }
      RemovedNow(old(fs), dir, files, |files|, true);
      return true, |files|;
    }

    /** The loop over the chosen files. */
    method DelEach(names: seq<string>) returns (ok: bool, ghost removed: nat)
      requires names != [] && Sorted(names) && forall n :: n in names ==> n in Files(fs, dir)
      modifies this`error, this`fs
      ensures RemovedFirst(old(fs), fs, dir, names, ok, removed)
      ensures error == if ok then old(error) else Added(old(error), "Unable to delete file")
    {
      for i := 0 to |names|
        invariant fs == Without(old(fs), dir, names, i) && error == old(error)
      {
        StillThere(old(fs), dir, names, i);
        ok := Del(names[i]);
        if !ok {
          RemovedNow(old(fs), dir, names, i, false);
          return false, i;
        }
      }
      RemovedNow(old(fs), dir, names, |names|, true);
      return true, |names|;
    }

    /** Choosing the files whose name starts like the pattern. */
    method Choose(name: string, files: seq<string>) returns (chosen: seq<string>)
      ensures chosen == Chosen(name, files, |files|)
    {
      var start := Lower(name[..Find(name, STAR, 0)]);
      chosen := [];
      for i := 0 to |files|
        invariant chosen == Chosen(name, files, i)
      {
        var lower := Lower(files[i]);
        if start <= lower {
          chosen := chosen + [files[i]];
        }
      }
    }

    /** `delfile`. */
    method DelFile(name: string) returns (ok: bool, ghost removed: nat)
      modifies this`error, this`fs
      ensures Outcome(old(fs), fs, dir, name, ok, removed)
      ensures error == if ok then old(error) else Added(Noted(dir, old(error)), Complaint(old(fs), dir, name))
    {
      var files := ListFiles();
      if files == [] {
        SetError("No files to delete");
        NoTargets(fs, dir, name);
        return false, 0;
      }
      assert files[0] in Files(fs, dir);
      ok, removed := DelListed(name, files);
    }

    /** `delfile`, when there are files. */
    method DelListed(name: string, files: seq<string>) returns (ok: bool, ghost removed: nat)
      requires files == SortedKeys(Files(fs, dir)) && Files(fs, dir) != {}
      modifies this`error, this`fs
      ensures Outcome(old(fs), fs, dir, name, ok, removed)
      ensures error == if ok then old(error) else Added(old(error), Complaint(old(fs), dir, name))
    {
      removed := 0;
      StarFound(name);
      SomeDir(fs, dir);
      if name == [STAR] {
        StarMatchesAll(name, Files(fs, dir));
        ok, removed := DelAll(files);
        return;
      }
      var pos := Find(name, STAR, 0);
      if pos < |name| {
        if name[pos + 1..] != "" {
          SetError("Invalid wildcard expression, must be of the form: <name>*");
          return false, 0;
        }
        ok, removed := DelMatching(name, files);
        return;
      }
      ok := Del(name);
    }

    /** The part of `delfile` for a valid wildcard. */
    method DelMatching(name: string, files: seq<string>) returns (ok: bool, ghost removed: nat)
      requires files == SortedKeys(Files(fs, dir))
      modifies this`error, this`fs
      ensures RemovedFirst(old(fs), fs, dir, TargetList(old(fs), dir, name), ok, removed)
      ensures error == if ok then old(error) else Added(old(error), WildcardComplaint(TargetList(old(fs), dir, name)))
    {
      ChosenGood(fs, dir, name, files);
      var toDelete := Choose(name, files);
      ok, removed := DelChosen(toDelete);
    }

    method DelChosen(toDelete: seq<string>) returns (ok: bool, ghost removed: nat)
      requires Sorted(toDelete) && forall n :: n in toDelete ==> n in Files(fs, dir)
      modifies this`error, this`fs
      ensures RemovedFirst(old(fs), fs, dir, toDelete, ok, removed)
      ensures error == if ok then old(error) else Added(old(error), WildcardComplaint(toDelete))
    {
      if toDelete == [] {
        SetError("No matching files");
        NothingRemoved(fs, dir, toDelete);
        return false, 0;
      }
      ok, removed := DelEach(toDelete);
    }
  }

  /** From `fs` to `fs'`, the first `removed` targets were removed and nothing else changed. */
  ghost predicate RemovedFirst(fs: FileSystem, fs': FileSystem, dir: string, targets: seq<string>,
                               ok: bool, removed: nat) {
    && removed <= |targets| && fs' == fs - PathsOf(dir, targets[..removed])
    && (ok <==> removed == |targets| > 0)
  }

  /** What `delfile` does to the file system. With a wildcard, what is removed is always the first
      `removed` of the matching files in order: all of them, and at least one, exactly when the result
      is true. An invalid wildcard removes nothing, and another name at most the file of that name. */
  ghost predicate Outcome(fs: FileSystem, fs': FileSystem, dir: string, name: string, ok: bool, removed: nat) {
    if Wildcard(name) then RemovedFirst(fs, fs', dir, TargetList(fs, dir, name), ok, removed)
    else if STAR in name then !ok && fs' == fs
    else if ok then Files(fs, dir) != {} && IsFile(fs, Joined(dir, name)) && fs' == fs - {Joined(dir, name)}
    else fs' == fs
  }

  ghost function WildcardComplaint(targets: seq<string>): string {
    if targets == [] then "No matching files" else "Unable to delete file"
  }

  /** What `delfile` reports when its result is false. */
  ghost function Complaint(fs: FileSystem, dir: string, name: string): string {
    if Files(fs, dir) == {} then "No files to delete"
    else if Wildcard(name) then WildcardComplaint(TargetList(fs, dir, name))
    else if STAR in name then "Invalid wildcard expression, must be of the form: <name>*"
    else if !IsFile(fs, Joined(dir, name)) then "Invalid filename"
    else "Unable to delete file"
  }

  lemma SomeDir(fs: FileSystem, dir: string)
    requires Files(fs, dir) != {}
    ensures dir != ""
  {
  }

  lemma RemovedNow(fs: FileSystem, dir: string, names: seq<string>, i: nat, ok: bool)
    requires names != [] && i <= |names| && (ok <==> i == |names|)
    ensures RemovedFirst(fs, Without(fs, dir, names, i), dir, names, ok, i)
  {
    WithoutIs(fs, dir, names, i);
  }

  lemma NothingRemoved(fs: FileSystem, dir: string, targets: seq<string>)
    requires targets == []
    ensures RemovedFirst(fs, fs, dir, targets, false, 0)
  {
    assert PathsOf(dir, targets[..0]) == {};
  }

  lemma NoTargets(fs: FileSystem, dir: string, name: string)
    requires Files(fs, dir) == {}
    ensures RemovedFirst(fs, fs, dir, TargetList(fs, dir, name), false, 0)
  {
    assert Targets(name, Files(fs, dir)) == {};
    NothingRemoved(fs, dir, []);
  }

  lemma StarFound(name: string)
    ensures STAR in name <==> Find(name, STAR, 0) < |name|
    ensures Wildcard(name) <==> Find(name, STAR, 0) < |name| && name[Find(name, STAR, 0) + 1..] == ""
  {
  }

  /** After a wildcard delete that succeeded, the files left are exactly those that do not match. */
  lemma OnlyOthersLeft(fs: FileSystem, fs': FileSystem, dir: string, name: string, removed: nat)
    requires RemovedFirst(fs, fs', dir, TargetList(fs, dir, name), true, removed)
    ensures Files(fs', dir) == Files(fs, dir) - Targets(name, Files(fs, dir))
  {
    var targets := TargetList(fs, dir, name);
    assert targets[..removed] == targets;
    forall n ensures n in Files(fs', dir) <==> n in Files(fs, dir) - Targets(name, Files(fs, dir)) {
      FilesWithout(fs, dir, targets, n);
    }
  }
}
