/**
 The list of call-home clients: addresses with ports, kept in a live configuration and in a saved
 one, and stored in a file. The whole file behaves as a map from addresses to ports.
 */
module IpPortMgr {
  import opened Wrappers
  import opened Strings
  import opened Numbers
  import opened ConfigText
  import opened ConfigNormalForm
  import opened ConfigLookup
  import opened FileConfig

  type Client = (string, nat)

  // ---- Listing ------------------------------------------------------------------------------------

  /** The entries of a configuration as clients, or nothing when a port does not parse. */
  function Clients(pairs: seq<Pair>): (r: Option<seq<Client>>)
    ensures r.Some? ==> |r.value| == |pairs|
  {
    if pairs == [] then Some([]) else
    WithClient(Clients(pairs[..|pairs| - 1]), pairs[|pairs| - 1])
  }

  function WithClient(before: Option<seq<Client>>, p: Pair): (r: Option<seq<Client>>)
    ensures r.Some? <==> before.Some? && Stoi(p.1).Some?
    ensures r.Some? ==> |r.value| == |before.value| + 1
  {
    var port := Stoi(p.1);
    if before.None? || port.None? then None else Some(before.value + [(p.0, ToUnsigned(port.value))])
  }

  lemma ClientsSnoc(pairs: seq<Pair>, p: Pair)
    ensures Clients(pairs + [p]) == WithClient(Clients(pairs), p)
  {
    assert (pairs + [p])[..|pairs|] == pairs;
  }

  lemma ClientsNext(pairs: seq<Pair>, i: nat)
    requires i < |pairs|
    ensures Clients(pairs[..i + 1]) == WithClient(Clients(pairs[..i]), pairs[i])
  {
    ClientsSnoc(pairs[..i], pairs[i]);
    assert pairs[..i + 1] == pairs[..i] + [pairs[i]];
  }

  lemma {:induction false} ClientsPrefix(pairs: seq<Pair>, n: nat)
    requires n <= |pairs| && Clients(pairs[..n]).None?
    ensures Clients(pairs).None?
  {
    if n == |pairs| {
      assert pairs[..n] == pairs;
    } else {
      assert pairs[..|pairs| - 1][..n] == pairs[..n];
      ClientsPrefix(pairs[..|pairs| - 1], n);
    }
  }

  /** Listing throws exactly when a port does not parse, and otherwise lists every entry, in order. */
  lemma {:induction false} ClientsAre(pairs: seq<Pair>)
    ensures Clients(pairs).Some? <==> forall i :: 0 <= i < |pairs| ==> Stoi(pairs[i].1).Some?
    ensures Clients(pairs).Some? ==> forall i :: 0 <= i < |pairs| ==>
      Clients(pairs).value[i].0 == pairs[i].0 && Stoi(pairs[i].1).Some?
        && Clients(pairs).value[i].1 == ToUnsigned(Stoi(pairs[i].1).value)
    decreases |pairs|
  {
    if pairs != [] {
      var front := pairs[..|pairs| - 1];
      ClientsAre(front);
      assert forall i :: 0 <= i < |front| ==> front[i] == pairs[i];
    }
  }

  // ---- The abstract map ---------------------------------------------------------------------------

  type Book = map<string, nat>

  /** The configuration holds the map: each address names a slot with its port in decimal. */
  ghost predicate Holds(c: Config, b: Book) {
    && SlashFree(c) && NoEmptySection(c)
    && forall ip {:trigger Slot(c, ip)} :: Slot(c, ip) == if ip in b then Some(Decimal(b[ip])) else None
  }

  predicate Less(a: string, b: string) {
    Leq(a, b) && a != b
  }

  /** The order in which addresses are listed: those without a slash first, then section by section. */
  predicate Earlier(a: string, b: string) {
    match SplitName(a)
    case None => SplitName(b).Some? || Less(a, b)
    case Some((n, k)) =>
      match SplitName(b)
      case None => false
      case Some((m, l)) => Less(n, m) || (n == m && Less(k, l))
  }

  predicate EarlierAt(pairs: seq<Pair>, i: nat, j: nat)
    requires i < |pairs| && j < |pairs|
  {
    Earlier(pairs[i].0, pairs[j].0)
  }

  predicate Ordered(pairs: seq<Pair>) {
    forall i, j {:trigger EarlierAt(pairs, i, j)} :: 0 <= i < j < |pairs| ==> EarlierAt(pairs, i, j)
  }

  /** Every address with its port, in order, and nothing else. */
  ghost predicate IsListing(r: seq<Client>, b: Book) {
    && (forall ip, port :: (ip, port) in r <==> ip in b && b[ip] == port)
    && (forall i, j :: 0 <= i < j < |r| ==> Earlier(r[i].0, r[j].0))
  }

  predicate PortsFit(b: Book) {
    forall ip :: ip in b ==> b[ip] < TWO31
  }

  lemma StorePairsOrdered(m: Store)
    requires forall k :: k in m ==> '/' !in k
    ensures Ordered(StorePairs(m, SortedKeys(m.Keys)))
  {
    var ks := SortedKeys(m.Keys);
    var pairs := StorePairs(m, ks);
    SortedKeysSorted(m.Keys);
    forall i, j | 0 <= i < j < |pairs| ensures EarlierAt(pairs, i, j) {
      assert Before(ks, i, j) && ks[i] in m && ks[j] in m;
    }
  }

  lemma PathPairsOrdered(n: string, m: Store)
    requires '/' !in n
    ensures Ordered(PathPairs(n, StorePairs(m, SortedKeys(m.Keys))))
  {
    var ks := SortedKeys(m.Keys);
    var pairs := PathPairs(n, StorePairs(m, ks));
    SortedKeysSorted(m.Keys);
    forall i, j | 0 <= i < j < |pairs| ensures EarlierAt(pairs, i, j) {
      assert Before(ks, i, j);
      SplitPath(n, ks[i]);
      SplitPath(n, ks[j]);
    }
  }

  lemma OrderedConcat(a: seq<Pair>, b: seq<Pair>)
    requires Ordered(a) && Ordered(b) && forall p, q :: p in a && q in b ==> Earlier(p.0, q.0)
    ensures Ordered(a + b)
  {
    var all := a + b;
    forall i, j | 0 <= i < j < |all| ensures EarlierAt(all, i, j) {
      if j < |a| {
        assert EarlierAt(a, i, j);
      } else if i >= |a| {
        assert EarlierAt(b, i - |a|, j - |a|);
      } else {
        assert a[i] in a && b[j - |a|] in b;
      }
    }
  }

  lemma HeadEarlier(ns: seq<string>, secs: map<string, Store>, p: Pair, q: Pair)
    requires ns != [] && Sorted(ns) && forall n :: n in ns ==> n in secs && '/' !in n
    requires p in PathPairs(ns[0], StorePairs(secs[ns[0]], SortedKeys(secs[ns[0]].Keys)))
    requires q in SectionPairs(secs, ns[1..])
    ensures Earlier(p.0, q.0)
  {
    PathPairsIn(secs, ns[0], p);
    SectionPairsIn(secs, ns[1..], q);
    var k :| FromSection(secs, ns[0], k, p);
    var m, l :| m in ns[1..] && FromSection(secs, m, l, q);
    HeadBefore(ns, m);
    SplitPath(ns[0], k);
    SplitPath(m, l);
  }

  lemma {:induction false} SectionPairsOrdered(secs: map<string, Store>, ns: seq<string>)
    requires Sorted(ns) && forall n :: n in ns ==> n in secs && '/' !in n
    ensures Ordered(SectionPairs(secs, ns))
  {
    if ns != [] {
      var first := PathPairs(ns[0], StorePairs(secs[ns[0]], SortedKeys(secs[ns[0]].Keys)));
      SortedTail(ns);
      PathPairsOrdered(ns[0], secs[ns[0]]);
      SectionPairsOrdered(secs, ns[1..]);
      forall p, q | p in first && q in SectionPairs(secs, ns[1..]) ensures Earlier(p.0, q.0) {
        HeadEarlier(ns, secs, p, q);
      }
      OrderedConcat(first, SectionPairs(secs, ns[1..]));
    }
  }

  lemma GlobalEarlier(c: Config, p: Pair, q: Pair)
    requires SlashFree(c)
    requires p in StorePairs(c.globals, SortedKeys(c.globals.Keys))
    requires q in SectionPairs(c.sections, SortedKeys(c.sections.Keys))
    ensures Earlier(p.0, q.0)
  {
    StorePairsIn(c.globals, SortedKeys(c.globals.Keys), p);
    SectionPairsIn(c.sections, SortedKeys(c.sections.Keys), q);
    var n, k :| n in c.sections && FromSection(c.sections, n, k, q);
    SplitPath(n, k);
  }

  lemma ValuesOrdered(c: Config)
    requires SlashFree(c)
    ensures Ordered(Values(c))
  {
    var globals := StorePairs(c.globals, SortedKeys(c.globals.Keys));
    var sections := SectionPairs(c.sections, SortedKeys(c.sections.Keys));
    StorePairsOrdered(c.globals);
    SortedKeysSorted(c.sections.Keys);
    SectionPairsOrdered(c.sections, SortedKeys(c.sections.Keys));
    forall p, q | p in globals && q in sections ensures Earlier(p.0, q.0) { GlobalEarlier(c, p, q); }
    OrderedConcat(globals, sections);
  }

  /** The value listed for an address is its port in decimal. */
  lemma ListedPort(c: Config, b: Book, i: nat)
    requires Holds(c, b) && i < |Values(c)|
    ensures var (ip, v) := Values(c)[i];
      ip in b && v == Decimal(b[ip]) && Stoi(v) == if b[ip] < TWO31 then Some(b[ip]) else None
  {
    var (ip, v) := Values(c)[i];
    assert (ip, v) in Values(c);
    ValuesAreSlots(c, ip, v);
    StoiDecimal(b[ip]);
  }

  lemma AddressListed(c: Config, b: Book, ip: string) returns (i: nat)
    requires Holds(c, b) && ip in b
    ensures i < |Values(c)| && Values(c)[i].0 == ip
  {
    ValuesAreSlots(c, ip, Decimal(b[ip]));
    i :| 0 <= i < |Values(c)| && Values(c)[i] == (ip, Decimal(b[ip]));
  }

  lemma ThrowsIff(c: Config, b: Book)
    requires Holds(c, b)
    ensures Clients(Values(c)).Some? <==> PortsFit(b)
  {
    var pairs := Values(c);
    ClientsAre(pairs);
    if PortsFit(b) {
      forall i | 0 <= i < |pairs| ensures Stoi(pairs[i].1).Some? { ListedPort(c, b, i); }
    } else {
      var ip :| ip in b && b[ip] >= TWO31;
      var i := AddressListed(c, b, ip);
      ListedPort(c, b, i);
    }
  }

  lemma ListedClient(c: Config, b: Book, r: seq<Client>, i: nat)
    requires Holds(c, b) && Clients(Values(c)) == Some(r) && i < |r|
    ensures i < |Values(c)| && r[i].0 == Values(c)[i].0 && r[i].0 in b && r[i].1 == b[r[i].0]
  {
    ClientsAre(Values(c));
    ListedPort(c, b, i);
  }

  /** What is listed for a configuration that holds a map is the map, in order. */
  lemma ListedInOrder(c: Config, b: Book, r: seq<Client>)
    requires Holds(c, b) && Clients(Values(c)) == Some(r)
    ensures IsListing(r, b)
  {
    forall ip, port ensures (ip, port) in r <==> ip in b && b[ip] == port {
      if (ip, port) in r {
        var i :| 0 <= i < |r| && r[i] == (ip, port);
        ListedClient(c, b, r, i);
      }
      if ip in b {
        var i := AddressListed(c, b, ip);
        ListedClient(c, b, r, i);
      }
    }
    ValuesOrdered(c);
    forall i, j | 0 <= i < j < |r| ensures Earlier(r[i].0, r[j].0) {
      ListedClient(c, b, r, i);
      ListedClient(c, b, r, j);
      assert EarlierAt(Values(c), i, j);
    }
  }

  /** Without slashes that order is the order of the addresses, so the listing is determined. */
  lemma SlashFreeListing(r: seq<Client>, b: Book)
    requires IsListing(r, b) && forall ip :: ip in b ==> '/' !in ip
    ensures |r| == |b| && forall i :: 0 <= i < |r| ==> r[i].0 == SortedKeys(b.Keys)[i] && r[i].1 == b[r[i].0]
  {
    var names := seq(|r|, i requires 0 <= i < |r| => r[i].0);
    forall i | 0 <= i < |r| ensures r[i].0 in b && r[i].1 == b[r[i].0] { assert (r[i].0, r[i].1) in r; }
    forall i, j | 0 <= i < j < |names| ensures Before(names, i, j) { assert Earlier(r[i].0, r[j].0); }
    forall ip ensures ip in names <==> ip in b.Keys {
      if ip in b {
        assert (ip, b[ip]) in r;
        var i :| 0 <= i < |r| && r[i] == (ip, b[ip]);
        assert names[i] == ip;
      }
    }
    SortedUnique(names, b.Keys);
    assert |b.Keys| == |b|;
  }

  // ---- Operations over values ---------------------------------------------------------------------

  /** `SaveTo(false)` and `Restart(false)` are a file that cannot be written or opened. */
  datatype Op =
    | SetList(list: seq<Client>)
    | AddEntry(ip: string, port: nat)
    | Clear
    | SaveTo(writable: bool)
    | Restore
    | Restart(readable: bool)

  datatype State = State(current: Config, saved: Config, file: Option<string>)

  function AddAll(c: Config, list: seq<Client>): Config {
    if list == [] then c else
    Set(AddAll(c, list[..|list| - 1]), list[|list| - 1].0, Decimal(list[|list| - 1].1))
  }

  /** What the constructor finds: a missing or unreadable file gives nothing. */
  function Loaded(file: Option<string>, readable: bool): Config {
    if file.Some? && readable then Parse(file.value) else EMPTY
  }

  function Apply(s: State, op: Op): State {
    match op
    case SetList(list) => s.(current := AddAll(EMPTY, list))
    case AddEntry(ip, port) => s.(current := Set(s.current, ip, Decimal(port)))
    case Clear => s.(current := EMPTY)
    case SaveTo(writable) => State(s.current, s.current, if writable then Some(Print(s.current)) else s.file)
    case Restore => s.(current := s.saved)
    case Restart(readable) => State(Loaded(s.file, readable), Loaded(s.file, readable), s.file)
  }

  function Run(s: State, ops: seq<Op>): State {
    if ops == [] then s else Apply(Run(s, ops[..|ops| - 1]), ops[|ops| - 1])
  }

  /** The same operations on maps: the live one, the saved one, and the one in the file. */
  datatype Books = Books(current: Book, saved: Book, stored: Book)

  function NoteAll(b: Book, list: seq<Client>): Book {
    if list == [] then b else NoteAll(b, list[..|list| - 1])[list[|list| - 1].0 := list[|list| - 1].1]
  }

  function Note(b: Books, op: Op): Books {
    match op
    case SetList(list) => b.(current := NoteAll(map[], list))
    case AddEntry(ip, port) => b.(current := b.current[ip := port])
    case Clear => b.(current := map[])
    case SaveTo(writable) => Books(b.current, b.current, if writable then b.current else b.stored)
    case Restore => b.(current := b.saved)
    case Restart(readable) => var m := if readable then b.stored else map[]; Books(m, m, b.stored)
  }

  function NoteRun(b: Books, ops: seq<Op>): Books {
    if ops == [] then b else Note(NoteRun(b, ops[..|ops| - 1]), ops[|ops| - 1])
  }

  // ---- The operations refine the map --------------------------------------------------------------

  /** An address the file can hold: a key, or a section name and a key, that the format can hold. */
  predicate AddressOk(ip: string) {
    match SplitName(ip)
    case None => KeyOk(ip)
    case Some((n, k)) => NameOk(n) && KeyOk(k)
  }

  predicate BookOk(b: Book) {
    forall ip :: ip in b ==> AddressOk(ip)
  }

  ghost predicate FileHolds(file: Option<string>, b: Book) {
    match file
    case None => b == map[]
    case Some(text) => exists c :: Holds(c, b) && Printable(c) && text == Print(c)
  }

  /** The manager's state stands for the three maps. */
  ghost predicate Refines(s: State, b: Books) {
    Holds(s.current, b.current) && Holds(s.saved, b.saved) && FileHolds(s.file, b.stored)
  }

  lemma SetKeepsShape(c: Config, ip: string, v: string)
    requires SlashFree(c) && NoEmptySection(c)
    ensures SlashFree(Set(c, ip, v)) && NoEmptySection(Set(c, ip, v))
  {
    if SplitName(ip).Some? {
      var (n, k) := SplitName(ip).value;
      assert k in Set(c, ip, v).sections[n];
    }
  }

  lemma HoldsInsert(c: Config, b: Book, ip: string, port: nat)
    requires Holds(c, b)
    ensures Holds(Set(c, ip, Decimal(port)), b[ip := port])
  {
    SetKeepsShape(c, ip, Decimal(port));
    forall other ensures Slot(Set(c, ip, Decimal(port)), other)
      == if other in b[ip := port] then Some(Decimal(b[ip := port][other])) else None
    {
      SetSlot(c, ip, Decimal(port), other);
      assert Slot(c, other) == if other in b then Some(Decimal(b[other])) else None;
    }
  }

  lemma HoldsNothing()
    ensures Holds(EMPTY, map[])
  {
  }

  lemma {:induction false} AddAllNotes(c: Config, b: Book, list: seq<Client>)
    requires Holds(c, b)
    ensures Holds(AddAll(c, list), NoteAll(b, list))
  {
    if list != [] {
      var front, last := list[..|list| - 1], list[|list| - 1];
      AddAllNotes(c, b, front);
      HoldsInsert(AddAll(c, front), NoteAll(b, front), last.0, last.1);
    }
  }

  lemma DecimalPrintable(n: nat, k: string)
    ensures ValueOk(Decimal(n)) && !Bracketed(k, Decimal(n))
  {
    var v := Decimal(n);
    assert '0' <= v[0] <= '9' && '0' <= v[|v| - 1] <= '9';
  }

  lemma GlobalStorableIff(c: Config, b: Book)
    requires Holds(c, b)
    ensures StoreOk(c.globals) <==> forall ip :: ip in b && '/' !in ip ==> KeyOk(ip)
  {
    forall ip | '/' !in ip ensures (ip in b <==> ip in c.globals) && (ip in b ==> c.globals[ip] == Decimal(b[ip])) {
      assert Slot(c, ip) == if ip in b then Some(Decimal(b[ip])) else None;
    }
    forall ip | ip in c.globals ensures ValueOk(c.globals[ip]) && !Bracketed(ip, c.globals[ip]) {
      DecimalPrintable(b[ip], ip);
    }
  }

  lemma SectionSlot(c: Config, b: Book, n: string, k: string)
    requires Holds(c, b) && n in c.sections
    ensures SplitName(ToPath(n, k)) == Some((n, k)) && (k in c.sections[n] <==> ToPath(n, k) in b)
    ensures k in c.sections[n] ==> c.sections[n][k] == Decimal(b[ToPath(n, k)])
  {
    SplitPath(n, k);
    var ip := ToPath(n, k);
    assert Slot(c, ip) == if ip in b then Some(Decimal(b[ip])) else None;
  }

  lemma SectionStorable(c: Config, b: Book, n: string)
    requires Holds(c, b) && n in c.sections && BookOk(b)
    ensures NameOk(n) && StoreOk(c.sections[n])
  {
    forall k | k in c.sections[n] ensures NameOk(n) && EntryOk(k, c.sections[n][k]) && !Bracketed(k, c.sections[n][k]) {
      SectionSlot(c, b, n, k);
      DecimalPrintable(b[ToPath(n, k)], k);
    }
    var k :| k in c.sections[n];
  }

  lemma AddressStorable(c: Config, b: Book, ip: string)
    requires Holds(c, b) && Printable(c) && ip in b
    ensures AddressOk(ip)
  {
    GlobalStorableIff(c, b);
    assert Slot(c, ip) == Some(Decimal(b[ip]));
    if SplitName(ip).Some? {
      var (n, k) := SplitName(ip).value;
      assert n in c.sections && StoreOk(c.sections[n]);
    }
  }

  /** A configuration that holds a map survives a file exactly when the file can hold every address. */
  lemma StorableIff(c: Config, b: Book)
    requires Holds(c, b)
    ensures Printable(c) <==> BookOk(b)
  {
    if BookOk(b) {
      GlobalStorableIff(c, b);
      forall n | n in c.sections ensures NameOk(n) && StoreOk(c.sections[n]) { SectionStorable(c, b, n); }
    }
    if Printable(c) {
      forall ip | ip in b ensures AddressOk(ip) { AddressStorable(c, b, ip); }
    }
  }

  lemma LoadedHolds(file: Option<string>, b: Book, readable: bool)
    requires FileHolds(file, b)
    ensures Holds(Loaded(file, readable), if readable then b else map[])
  {
    HoldsNothing();
    if file.Some? && readable {
      var c :| Holds(c, b) && Printable(c) && file.value == Print(c);
      PrintThenParse(c);
    }
  }

  lemma SavedHolds(c: Config, b: Book)
    requires Holds(c, b) && BookOk(b)
    ensures FileHolds(Some(Print(c)), b)
  {
    StorableIff(c, b);
  }

  /** Each operation does to the three configurations what it does to the three maps, if what is written
      to the file can be held there. */
  lemma ApplyRefines(s: State, b: Books, op: Op)
    requires Refines(s, b) && (op == SaveTo(true) ==> BookOk(b.current))
    ensures Refines(Apply(s, op), Note(b, op))
  {
    HoldsNothing();
    match op
    case SetList(list) => AddAllNotes(EMPTY, map[], list);
    case AddEntry(ip, port) => HoldsInsert(s.current, b.current, ip, port);
    case SaveTo(writable) => if writable { SavedHolds(s.current, b.current); }
    case Restart(readable) => LoadedHolds(s.file, b.stored, readable);
    case _ =>
  }

  const START := State(EMPTY, EMPTY, None)
  const NOBODY := Books(map[], map[], map[])

  /** Whenever the list is written to the file, the file can hold every address in it. */
  predicate SavesOk(b: Books, ops: seq<Op>) {
    forall i :: 0 <= i < |ops| && ops[i] == SaveTo(true) ==> BookOk(NoteRun(b, ops[..i]).current)
  }

  lemma SavesFront(b: Books, ops: seq<Op>)
    requires ops != [] && SavesOk(b, ops)
    ensures SavesOk(b, ops[..|ops| - 1])
  {
    var front := ops[..|ops| - 1];
    forall i | 0 <= i < |front| && front[i] == SaveTo(true) ensures BookOk(NoteRun(b, front[..i]).current) {
      assert front[..i] == ops[..i] && ops[i] == front[i];
    }
  }

  lemma {:induction false} RunRefines(s: State, b: Books, ops: seq<Op>)
    requires Refines(s, b) && SavesOk(b, ops)
    ensures Refines(Run(s, ops), NoteRun(b, ops))
    decreases |ops|
  {
    if ops != [] {
      var front := ops[..|ops| - 1];
      SavesFront(b, ops);
      RunRefines(s, b, front);
      ApplyRefines(Run(s, front), NoteRun(b, front), ops[|ops| - 1]);
    }
  }

  /** After any operations on any addresses, as long as what is written to the file can be held there,
      `list` gives the map, every address once and in order, and throws exactly when some port does not
      fit an `int`. */
  lemma ListsTheMap(ops: seq<Op>)
    requires SavesOk(NOBODY, ops)
    ensures var b, r := NoteRun(NOBODY, ops).current, Clients(Values(Run(START, ops).current));
      (r.Some? <==> PortsFit(b)) && (r.Some? ==> IsListing(r.value, b))
  {
    HoldsNothing();
    RunRefines(START, NOBODY, ops);
    var c, b := Run(START, ops).current, NoteRun(NOBODY, ops).current;
    ThrowsIff(c, b);
    if Clients(Values(c)).Some? { ListedInOrder(c, b, Clients(Values(c)).value); }
  }

  // ---- What restoring and restarting bring back ---------------------------------------------------

  predicate Edits(ops: seq<Op>) {
    forall i :: 0 <= i < |ops| ==> ops[i].SetList? || ops[i].AddEntry? || ops[i].Clear? || ops[i].Restore?
  }

  predicate KeepsFile(ops: seq<Op>) {
    forall i :: 0 <= i < |ops| ==> ops[i] != SaveTo(true)
  }

  lemma {:induction false} EditsKeepSaved(s: State, ops: seq<Op>)
    requires Edits(ops)
    ensures Run(s, ops).saved == s.saved
  {
    if ops != [] { EditsKeepSaved(s, ops[..|ops| - 1]); }
  }

  lemma {:induction false} FileKept(s: State, ops: seq<Op>)
    requires KeepsFile(ops)
    ensures Run(s, ops).file == s.file
  {
    if ops != [] { FileKept(s, ops[..|ops| - 1]); }
  }

  /** Restoring brings back what was live at the latest save, even one that failed, or was loaded at
      the latest start, whatever was edited or restored since. */
  lemma RestoreBringsBack(s: State, mark: Op, edits: seq<Op>)
    requires (mark.SaveTo? || mark.Restart?) && Edits(edits)
    ensures Apply(Run(Apply(s, mark), edits), Restore).current == Apply(s, mark).current
  {
    EditsKeepSaved(Apply(s, mark), edits);
  }

  lemma RestartReads(s: State, between: seq<Op>, text: string)
    requires KeepsFile(between) && s.file == Some(text)
    ensures Apply(Run(s, between), Restart(true)).current == Parse(text)
  {
    FileKept(s, between);
  }

  /** A restart after a successful save gives back the configuration that was saved, whatever came in
      between short of another successful save, exactly when that configuration is printable. */
  lemma RestartBringsBackIff(s: State, between: seq<Op>)
    requires KeepsFile(between)
    ensures Apply(Run(Apply(s, SaveTo(true)), between), Restart(true)).current == s.current <==> Printable(s.current)
  {
    RestartReads(Apply(s, SaveTo(true)), between, Print(s.current));
    RoundTripIff(s.current);
  }

  /** An address with a slash after one character is lost by a save and a restart. */
  lemma ShortPathIsLost(s: State, letter: char, rest: string, port: nat)
    requires letter != '/'
    ensures var t := Apply(s, AddEntry([letter] + "/" + rest, port));
      Apply(Apply(t, SaveTo(true)), Restart(true)).current != t.current
  {
    var t := Apply(s, AddEntry([letter] + "/" + rest, port));
    SplitPath([letter], rest);
    assert [letter] in t.current.sections;
    assert !NameOk([letter]);
    RestartBringsBackIff(t, []);
  }

  /** How a message is added to those not yet taken. */
  function Joined(before: string, e: string): string {
    (if before == "" then "" else before + "\n") + e
  }

  // ---- The class ----------------------------------------------------------------------------------

  class IpPortMgr {
    var error: string
    const current: FileConfig
    const saved: FileConfig

    ghost predicate Valid()
      reads this
    {
      current != saved
    }

    /** The state of the model, given what the file holds. */
    ghost function Value(file: Option<string>): State
      reads this, current, saved
    {
      State(current.Contents(), saved.Contents(), file)
    }

    /** A file that does not exist is `None`; one that cannot be opened is not `readable`. */
    constructor (path: string, file: Option<string>, readable: bool)
      ensures Valid() && fresh(current) && fresh(saved)
      ensures forall s: State :: s.file == file ==> Value(file) == Apply(s, Restart(readable))
      ensures error == "" && saved.path == path && current.path == path
    {
      error := "";
      var s := new FileConfig(map[]);
      var c := new FileConfig(map[]);
      s.SetPath(path);
      assert s.Contents() == EMPTY;
      if file.Some? {
        var _ := s.Read(if readable then file else None);
      }
      c.CopyFrom(s);
      current, saved := c, s;
    }

    method List() returns (r: Option<seq<Client>>)
      ensures r == Clients(Values(current.Contents()))
    {
      var values := Values(Config(current.globals, current.sections));
      var list := [];
      for i := 0 to |values|
        invariant Clients(values[..i]) == Some(list)
      {
        ClientsNext(values, i);
        var port := Stoi(values[i].1);
        if port.None? {
          ClientsPrefix(values, i + 1);
          return None;
        }
        list := list + [(values[i].0, ToUnsigned(port.value))];
      }
      assert values[..|values|] == values;
      r := Some(list);
    }

    method AddEntry(ip: string, port: nat)
      requires Valid()
      modifies current`globals, current`sections
      ensures forall file :: Value(file) == Apply(old(Value(file)), Op.AddEntry(ip, port))
    {
      current.SetValue(ip, Decimal(port));
    }

    method Clear()
      requires Valid()
      modifies current`globals, current`sections
      ensures forall file :: Value(file) == Apply(old(Value(file)), Op.Clear)
    {
      current.Clear();
    }

    method TakeError() returns (e: string)
      modifies this`error
      ensures e == old(error) && error == ""
    {
      e, error := error, "";
    }

    method SetList(list: seq<Client>)
      requires Valid()
      modifies current`globals, current`sections
      ensures forall file :: Value(file) == Apply(old(Value(file)), Op.SetList(list))
    {
      current.Clear();
      for i := 0 to |list|
        invariant current.Contents() == AddAll(EMPTY, list[..i])
      {
        assert list[..i + 1][..i] == list[..i];
        current.SetValue(list[i].0, Decimal(list[i].1));
      }
      assert list[..|list|] == list;
    }

    /** `text` is what the file holds afterwards if it could be written. */
    method Save(writable: bool) returns (ok: bool, text: string)
      requires Valid()
      modifies this`error, saved
      ensures ok == writable && saved.path == current.path
      ensures ok ==> Value(Some(text)) == Apply(old(Value(None)), SaveTo(true))
      ensures !ok ==> forall file :: Value(file) == Apply(old(Value(file)), SaveTo(false))
      ensures ok ==> error == old(error)
      ensures !ok ==> saved.error == ""
      ensures !ok ==> error == Joined(old(error), Joined(current.error, "Unable to write to " + current.path))
    {
      saved.CopyFrom(current);
      ok, text := saved.Save(writable);
      if !ok {
        var e := saved.TakeError();
        if error != "" { error := error + "\n"; }
        error := error + e;
      }
    }

    method Restore() returns (ok: bool)
      requires Valid()
      modifies current
      ensures ok && forall file :: Value(file) == Apply(old(Value(file)), Op.Restore)
      ensures current.path == saved.path && current.error == saved.error
    {
      current.CopyFrom(saved);
      ok := true;
    }
  }
}
