/** The analytics view over the ledger: accounts LEFT JOIN entries, grouped by account. */
module LedgerView {
  import opened Wrappers
  import opened LedgerTables
  import opened LedgerOperations
  import opened LedgerInvariant

  /** One row of the join; the entry is NULL for an account without entries. */
  datatype Joined = Joined(account: AccountId, entry: Option<LedgerEntry>)

  datatype BalanceRow = BalanceRow(account: AccountId, balance: int, credit: int, debit: int, count: nat)

  function Matches(a: AccountId, es: seq<LedgerEntry>): seq<Joined> {
    if es == [] then []
    else
      var e := es[|es| - 1];
      Matches(a, es[..|es| - 1]) + if e.account == a then [Joined(a, Some(e))] else []
  }

  function Block(a: AccountId, es: seq<LedgerEntry>): seq<Joined> {
    if Matches(a, es) == [] then [Joined(a, None)] else Matches(a, es)
  }

  function LeftJoin(rows: seq<Account>, es: seq<LedgerEntry>): seq<Joined> {
    if rows == [] then [] else LeftJoin(rows[..|rows| - 1], es) + Block(rows[|rows| - 1].id, es)
  }

  /** SUM(CASE WHEN entry_type = k THEN amount ELSE 0 END) over one group. */
  function SumCase(js: seq<Joined>, a: AccountId, k: EntryType): int {
    if js == [] then 0
    else
      var j := js[|js| - 1];
      SumCase(js[..|js| - 1], a, k) +
      if j.account == a && j.entry.Some? && j.entry.value.entryType == k then j.entry.value.amount else 0
  }

  /** COUNT(entry_id) over one group: NULLs are not counted. */
  function CountEntries(js: seq<Joined>, a: AccountId): nat {
    if js == [] then 0
    else
      CountEntries(js[..|js| - 1], a) + if js[|js| - 1].account == a && js[|js| - 1].entry.Some? then 1 else 0
  }

  /** The groups, one per distinct account. */
  function Groups(js: seq<Joined>): seq<AccountId> {
    if js == [] then []
    else
      var g := Groups(js[..|js| - 1]);
      if js[|js| - 1].account in g then g else g + [js[|js| - 1].account]
  }

  function Balances(rows: seq<Account>, es: seq<LedgerEntry>): seq<BalanceRow> {
    var js := LeftJoin(rows, es);
    seq(|Groups(js)|, i requires 0 <= i < |Groups(js)| =>
      var a := Groups(js)[i];
      BalanceRow(a, SumCase(js, a, Credit) - SumCase(js, a, Debit), SumCase(js, a, Credit), SumCase(js, a, Debit),
                 CountEntries(js, a)))
  }

  function CountOf(es: seq<LedgerEntry>, a: AccountId): nat {
    if es == [] then 0 else CountOf(es[..|es| - 1], a) + if es[|es| - 1].account == a then 1 else 0
  }

  lemma {:induction false} AppendOne(js: seq<Joined>, j: Joined, a: AccountId, k: EntryType)
    ensures SumCase(js + [j], a, k) == SumCase(js, a, k) +
      if j.account == a && j.entry.Some? && j.entry.value.entryType == k then j.entry.value.amount else 0
    ensures CountEntries(js + [j], a) == CountEntries(js, a) + if j.account == a && j.entry.Some? then 1 else 0
  {
    assert (js + [j])[..|js|] == js;
  }

  lemma {:induction false} Append(js: seq<Joined>, more: seq<Joined>, a: AccountId, k: EntryType)
    ensures SumCase(js + more, a, k) == SumCase(js, a, k) + SumCase(more, a, k)
    ensures CountEntries(js + more, a) == CountEntries(js, a) + CountEntries(more, a)
  {
    if more == [] {
      assert js + more == js;
    } else {
      var pre, j := more[..|more| - 1], more[|more| - 1];
      var all := js + pre;
      assert more == pre + [j];
      assert js + more == all + [j];
      Append(js, pre, a, k);
      AppendOne(all, j, a, k);
      AppendOne(pre, j, a, k);
    }
  }

  lemma {:induction false} MatchesSums(a: AccountId, b: AccountId, es: seq<LedgerEntry>, k: EntryType)
    ensures SumCase(Matches(a, es), b, k) == if a == b then SumOf(es, a, k) else 0
    ensures CountEntries(Matches(a, es), b) == if a == b then CountOf(es, a) else 0
  {
    if es != [] {
      var pre, e := es[..|es| - 1], es[|es| - 1];
      MatchesSums(a, b, pre, k);
      if e.account == a {
        AppendOne(Matches(a, pre), Joined(a, Some(e)), b, k);
      } else {
        assert Matches(a, es) == Matches(a, pre);
      }
    }
  }

  lemma {:induction false} MatchesOwn(a: AccountId, es: seq<LedgerEntry>)
    ensures forall i :: 0 <= i < |Matches(a, es)| ==> Matches(a, es)[i].account == a
  {
    if es != [] { MatchesOwn(a, es[..|es| - 1]); }
  }

  lemma {:induction false} BlockSums(a: AccountId, b: AccountId, es: seq<LedgerEntry>, k: EntryType)
    ensures SumCase(Block(a, es), b, k) == if a == b then SumOf(es, a, k) else 0
    ensures CountEntries(Block(a, es), b) == if a == b then CountOf(es, a) else 0
  {
    MatchesSums(a, b, es, k);
    if Matches(a, es) == [] { AppendOne([], Joined(a, None), b, k); }
  }

  lemma {:induction false} JoinSums(rows: seq<Account>, es: seq<LedgerEntry>, a: AccountId, k: EntryType)
    requires UniqueAccounts(rows)
    ensures SumCase(LeftJoin(rows, es), a, k) == if FindAccount(rows, a).Some? then SumOf(es, a, k) else 0
    ensures CountEntries(LeftJoin(rows, es), a) == if FindAccount(rows, a).Some? then CountOf(es, a) else 0
  {
    if rows != [] {
      var pre, b := rows[..|rows| - 1], rows[|rows| - 1].id;
      JoinSums(pre, es, a, k);
      Append(LeftJoin(pre, es), Block(b, es), a, k);
      BlockSums(b, a, es, k);
      if a == b { assert FindAccount(pre, a).None?; }
    }
  }

  lemma {:induction false} GroupsOfBlock(js: seq<Joined>, block: seq<Joined>, a: AccountId)
    requires block != [] && (forall i :: 0 <= i < |block| ==> block[i].account == a) && a !in Groups(js)
    ensures Groups(js + block) == Groups(js) + [a]
  {
    var pre := block[..|block| - 1];
    assert (js + block)[..|js + block| - 1] == js + pre;
    if pre == [] {
      assert js + pre == js;
    } else {
      GroupsOfBlock(js, pre, a);
    }
  }

  function IdsOf(rows: seq<Account>): (ids: seq<AccountId>)
    ensures |ids| == |rows|
    ensures forall i :: 0 <= i < |rows| ==> ids[i] == rows[i].id
  {
    seq(|rows|, i requires 0 <= i < |rows| => rows[i].id)
  }

  lemma {:induction false} IdsSplit(rows: seq<Account>)
    requires rows != [] && UniqueAccounts(rows)
    ensures var pre, b := rows[..|rows| - 1], rows[|rows| - 1].id;
            IdsOf(rows) == IdsOf(pre) + [b] && b !in IdsOf(pre) && UniqueAccounts(pre)
  {
    var pre, b := rows[..|rows| - 1], rows[|rows| - 1].id;
    assert forall i :: 0 <= i < |pre| ==> pre[i] == rows[i] && rows[i].id != b;
  }

  lemma {:induction false} JoinGroups(rows: seq<Account>, es: seq<LedgerEntry>)
    requires UniqueAccounts(rows)
    ensures Groups(LeftJoin(rows, es)) == IdsOf(rows)
  {
    if rows == [] {
      assert LeftJoin(rows, es) == [];
    } else {
      var pre, b := rows[..|rows| - 1], rows[|rows| - 1].id;
      IdsSplit(rows);
      JoinGroups(pre, es);
      MatchesOwn(b, es);
      GroupsOfBlock(LeftJoin(pre, es), Block(b, es), b);
      assert LeftJoin(rows, es) == LeftJoin(pre, es) + Block(b, es);
    }
  }

  /** In every reachable state the view has one row per account, in table order, with the stored balance,
      the two filtered sums and the number of entries, also for accounts without entries. */
  lemma {:induction false} ViewShowsStoredBalances(rs: seq<Request>)
    ensures var t := Run(EMPTY_TABLES, rs);
            var v := Balances(t.accounts, t.ledger);
            |v| == |t.accounts| &&
            forall i :: 0 <= i < |v| ==>
              var a := t.accounts[i];
              v[i] == BalanceRow(a.id, a.balance, SumOf(t.ledger, a.id, Credit), SumOf(t.ledger, a.id, Debit),
                                 CountOf(t.ledger, a.id))
  {
    Reachable(rs);
    ViewOf(Run(EMPTY_TABLES, rs));
  }

  lemma {:induction false} ViewOf(t: Tables)
    requires AccountsAgree(t.accounts, t.ledger)
    ensures var v := Balances(t.accounts, t.ledger);
            |v| == |t.accounts| &&
            forall i :: 0 <= i < |v| ==>
              var a := t.accounts[i];
              v[i] == BalanceRow(a.id, a.balance, SumOf(t.ledger, a.id, Credit), SumOf(t.ledger, a.id, Debit),
                                 CountOf(t.ledger, a.id))
  {
    var v := Balances(t.accounts, t.ledger);
    JoinGroups(t.accounts, t.ledger);
    forall i | 0 <= i < |v|
      ensures var a := t.accounts[i];
              v[i] == BalanceRow(a.id, a.balance, SumOf(t.ledger, a.id, Credit), SumOf(t.ledger, a.id, Debit),
                                 CountOf(t.ledger, a.id))
    {
      assert BalanceAt(t.accounts, t.ledger, i);
      JoinSums(t.accounts, t.ledger, t.accounts[i].id, Credit);
      JoinSums(t.accounts, t.ledger, t.accounts[i].id, Debit);
    }
  }
}
