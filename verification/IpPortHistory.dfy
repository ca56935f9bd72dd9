/** Which clients there are, from the list of operations alone. */
module IpPortHistory {
  import opened Wrappers
  import opened IpPortMgr

  /** The three maps after the first `n` operations on a new manager without a file. */
  function At(ops: seq<Op>, n: nat): Books
    requires n <= |ops|
  {
    if n == 0 then NOBODY else Note(At(ops, n - 1), ops[n - 1])
  }

  lemma {:induction false} AtIsRun(ops: seq<Op>, n: nat)
    requires n <= |ops|
    ensures At(ops, n) == NoteRun(NOBODY, ops[..n])
  {
    if n > 0 {
      AtIsRun(ops, n - 1);
      assert ops[..n][..n - 1] == ops[..n - 1];
    }
  }

  lemma AtEnd(ops: seq<Op>)
    ensures At(ops, |ops|) == NoteRun(NOBODY, ops) && At(ops, 0) == Books(map[], map[], map[])
  {
    AtIsRun(ops, |ops|);
    assert ops[..|ops|] == ops;
  }

  function PortOf(b: Book, ip: string): Option<nat> {
    if ip in b then Some(b[ip]) else None
  }

  /** The operation puts another list in the place of the live one. */
  predicate Replaces(op: Op) {
    op.SetList? || op.Clear? || op.Restore? || op.Restart?
  }

  /** The operation gives this address a port. */
  predicate Adds(op: Op, ip: string) {
    op.AddEntry? && op.ip == ip
  }

  /** An address has the port it was last given since the list was last replaced; if it was given none since then,
      the one it had when the list was replaced. */
  lemma {:induction false} LiveAt(ops: seq<Op>, i: nat, k: nat, n: nat, ip: string)
    requires i <= k <= n <= |ops| && (forall j :: i <= j < n ==> !Replaces(ops[j]))
    requires (k > i ==> Adds(ops[k - 1], ip)) && (forall j :: k <= j < n ==> !Adds(ops[j], ip))
    ensures PortOf(At(ops, n).current, ip) == if k > i then Some(ops[k - 1].port) else PortOf(At(ops, i).current, ip)
    decreases n
  {
    if k < n { LiveAt(ops, i, k, n - 1, ip); }
  }

  /** Of the pairs of a list, number `m` is the last one for the address; `|list|` if there is none. */
  predicate LastFor(list: seq<Client>, m: nat, ip: string) {
    && m <= |list| && (m < |list| ==> list[m].0 == ip)
    && forall j :: 0 <= j < |list| && (j > m || m == |list|) ==> list[j].0 != ip
  }

  lemma {:induction false} ListedPort(list: seq<Client>, m: nat, ip: string)
    requires LastFor(list, m, ip)
    ensures PortOf(NoteAll(map[], list), ip) == if m < |list| then Some(list[m].1) else None
  {
    if list != [] && m != |list| - 1 {
      var front := list[..|list| - 1];
      ListedPort(front, if m == |list| then |front| else m, ip);
    }
  }

  /** What the live list is after it was replaced: the given one, in which later pairs win, nothing, the saved one,
      or what the file holds. */
  lemma ReplacedAt(ops: seq<Op>, n: nat, ip: string, m: nat)
    requires n < |ops| && Replaces(ops[n]) && (ops[n].SetList? ==> LastFor(ops[n].list, m, ip))
    ensures PortOf(At(ops, n + 1).current, ip) ==
      if ops[n].SetList? && m < |ops[n].list| then Some(ops[n].list[m].1)
      else if ops[n].Restore? then PortOf(At(ops, n).saved, ip)
      else if ops[n] == Restart(true) then PortOf(At(ops, n).stored, ip)
      else None
  {
    if ops[n].SetList? { ListedPort(ops[n].list, m, ip); }
  }

  /** The saved list is what was live at the latest save, failed or not, or loaded at the latest start. */
  lemma {:induction false} SavedAt(ops: seq<Op>, i: nat, n: nat)
    requires i <= n <= |ops| && (i > 0 ==> ops[i - 1].SaveTo? || ops[i - 1].Restart?)
    requires forall j :: i <= j < n ==> !ops[j].SaveTo? && !ops[j].Restart?
    ensures At(ops, n).saved == At(ops, i).current
    decreases n
  {
    if i < n { SavedAt(ops, i, n - 1); }
  }

  /** The file holds what was live at the latest save that succeeded. */
  lemma {:induction false} StoredAt(ops: seq<Op>, i: nat, n: nat)
    requires i <= n <= |ops| && (i > 0 ==> ops[i - 1] == SaveTo(true))
    requires forall j :: i <= j < n ==> ops[j] != SaveTo(true)
    ensures At(ops, n).stored == At(ops, i).current
    decreases n
  {
    if i < n { StoredAt(ops, i, n - 1); }
  }
}
