/** What every reachable state of the tables satisfies, and that each operation keeps it. */
module LedgerInvariant {
  import opened Wrappers
  import opened LedgerTables
  import opened LedgerOperations

  // ---------------------------------------------------------------- the invariant

  ghost predicate UniqueAccounts(rows: seq<Account>) {
    forall i, j :: 0 <= i < j < |rows| ==> rows[i].id != rows[j].id && rows[i].number != rows[j].number
  }

  ghost predicate UniqueKeys(rows: seq<Transaction>) {
    forall i, j :: 0 <= i < j < |rows| ==> rows[i].key != rows[j].key
  }

  ghost predicate UniqueCards(rows: seq<Card>) {
    forall i, j :: 0 <= i < j < |rows| ==> rows[i].id != rows[j].id
  }

  ghost predicate UniqueCharges(rows: seq<Charge>) {
    forall i, j :: 0 <= i < j < |rows| ==> rows[i].key != rows[j].key
  }

  ghost predicate Known(rows: seq<Account>, a: AccountId) {
    exists i :: 0 <= i < |rows| && rows[i].id == a
  }

  ghost predicate KnownCard(rows: seq<Card>, c: CardId) {
    exists i :: 0 <= i < |rows| && rows[i].id == c
  }

  /** A stored balance is the ledger sum and never negative. */
  ghost predicate BalanceAt(rows: seq<Account>, es: seq<LedgerEntry>, i: nat)
    requires i < |rows|
  {
    rows[i].balance == Net(es, rows[i].id) && 0 <= rows[i].balance
  }

  ghost predicate BalancesAgree(rows: seq<Account>, es: seq<LedgerEntry>) {
    forall i :: 0 <= i < |rows| ==> BalanceAt(rows, es, i)
  }

  /** An entry carries its account's net sum at the moment it was written. */
  ghost predicate EntryAt(rows: seq<Account>, es: seq<LedgerEntry>, k: nat)
    requires k < |es|
  {
    es[k].running == Net(es[..k + 1], es[k].account) && 0 < es[k].amount && Known(rows, es[k].account)
  }

  ghost predicate RunningAgree(rows: seq<Account>, es: seq<LedgerEntry>) {
    forall k :: 0 <= k < |es| ==> EntryAt(rows, es, k)
  }

  datatype Posting = Posting(account: AccountId, entryType: EntryType, amount: int)

  /** The ledger entries of one transaction, in rowid order. */
  function Postings(es: seq<LedgerEntry>, n: TxnId): seq<Posting> {
    if es == [] then []
    else
      var e := es[|es| - 1];
      Postings(es[..|es| - 1], n) + if e.txn == n then [Posting(e.account, e.entryType, e.amount)] else []
  }

  /** The entries a transaction must have: settlement, seed deposit, or transfer between two accounts. */
  function Expected(x: Transaction): seq<Posting> {
    if x.settlement.CardSettlement? then [Posting(x.sender, Debit, x.amount)]
    else if x.sender == x.receiver then [Posting(x.receiver, Credit, x.amount)]
    else [Posting(x.sender, Debit, x.amount), Posting(x.receiver, Credit, x.amount)]
  }

  ghost predicate PostingsMatch(xs: seq<Transaction>, es: seq<LedgerEntry>, n: TxnId)
    requires n < |xs|
  {
    Postings(es, n) == Expected(xs[n])
  }

  ghost predicate EntriesMatch(xs: seq<Transaction>, es: seq<LedgerEntry>) {
    && (forall k :: 0 <= k < |es| ==> es[k].txn < |xs|)
    && (forall n :: 0 <= n < |xs| ==> PostingsMatch(xs, es, n))
  }

  /** One card: charges up to the watermark are paid, the rest stays within the limit. */
  ghost predicate CardAgrees(cs: seq<Charge>, xs: seq<Transaction>, c: Card) {
    var w := Watermark(xs, c.id);
    && w <= |cs|
    && ChargeTotal(cs[..w], c.id) == SettledTotal(xs, c.id)
    && 0 <= UsageBeyond(cs, c.id, w) <= c.limit
  }

  ghost predicate CardAt(rows: seq<Account>, cards: seq<Card>, cs: seq<Charge>, xs: seq<Transaction>, i: nat)
    requires i < |cards|
  {
    CardAgrees(cs, xs, cards[i]) && Known(rows, cards[i].account)
  }

  ghost predicate ChargeAt(cards: seq<Card>, cs: seq<Charge>, k: nat)
    requires k < |cs|
  {
    KnownCard(cards, cs[k].card) && 0 < cs[k].amount
  }

  /** A settlement pays exactly its card's charges after the previous watermark up to its own. */
  ghost predicate SettlementPays(cs: seq<Charge>, xs: seq<Transaction>, n: nat)
    requires n < |xs| && xs[n].settlement.CardSettlement?
  {
    var c, w := xs[n].settlement.card, xs[n].settlement.watermark;
    && Watermark(xs[..n], c) < w <= |cs|
    && cs[w - 1].card == c
    && xs[n].amount == UsageBeyond(cs[..w], c, Watermark(xs[..n], c))
    && xs[n].key == Settle(c, w)
  }

  ghost predicate SettlementAt(cards: seq<Card>, cs: seq<Charge>, xs: seq<Transaction>, n: nat)
    requires n < |xs|
  {
    xs[n].settlement.CardSettlement? ==> SettlementPays(cs, xs, n) && KnownCard(cards, xs[n].settlement.card)
  }

  /** A snapshot is the account's sums over the entries up to its last rowid. */
  ghost predicate SnapshotTrue(es: seq<LedgerEntry>, a: AccountId, s: Snapshot) {
    var k := match s.lastRowid case None => 0 case Some(r) => r;
    && k <= |es|
    && s.lastRowid == LastRowid(es[..k], a)
    && s.credit == SumOf(es[..k], a, Credit)
    && s.debit == SumOf(es[..k], a, Debit)
    && s.closing == Net(es[..k], a)
  }

  ghost predicate SnapshotAt(es: seq<LedgerEntry>, snapshots: map<(AccountId, Date), Snapshot>, a: AccountId, d: Date) {
    (a, d) in snapshots ==> SnapshotTrue(es, a, snapshots[(a, d)])
  }

  ghost predicate SnapshotsTrue(es: seq<LedgerEntry>, snapshots: map<(AccountId, Date), Snapshot>) {
    forall a, d :: SnapshotAt(es, snapshots, a, d)
  }

  function TotalBalance(rows: seq<Account>): int {
    if rows == [] then 0 else TotalBalance(rows[..|rows| - 1]) + rows[|rows| - 1].balance
  }

  /** Money that entered with initial deposits, minus money that left with card settlements. */
  function Inflow(xs: seq<Transaction>): int {
    if xs == [] then 0
    else
      var x := xs[|xs| - 1];
      Inflow(xs[..|xs| - 1]) +
      if x.settlement.CardSettlement? then -x.amount else if x.sender == x.receiver then x.amount else 0
  }

  /** The accounts agree with the ledger, entry by entry. */
  ghost predicate AccountsAgree(rows: seq<Account>, es: seq<LedgerEntry>) {
    UniqueAccounts(rows) && BalancesAgree(rows, es) && RunningAgree(rows, es)
  }

  /** The books: accounts, transactions and ledger. */
  ghost predicate BooksAgree(rows: seq<Account>, xs: seq<Transaction>, es: seq<LedgerEntry>) {
    AccountsAgree(rows, es) && UniqueKeys(xs) && EntriesMatch(xs, es) && TotalBalance(rows) == Inflow(xs)
  }

  /** The card side: cards, their charges, and the settlements among the transactions. */
  ghost predicate CardSide(rows: seq<Account>, cards: seq<Card>, cs: seq<Charge>, xs: seq<Transaction>) {
    && UniqueCards(cards)
    && UniqueCharges(cs)
    && (forall i :: 0 <= i < |cards| ==> CardAt(rows, cards, cs, xs, i))
    && (forall k :: 0 <= k < |cs| ==> ChargeAt(cards, cs, k))
    && (forall n :: 0 <= n < |xs| ==> SettlementAt(cards, cs, xs, n))
  }

  ghost predicate Inv(t: Tables) {
    && BooksAgree(t.accounts, t.transactions, t.ledger)
    && CardSide(t.accounts, t.cards, t.charges, t.transactions)
    && SnapshotsTrue(t.ledger, t.snapshots)
  }

  // ---------------------------------------------------------------- writing one entry

  /** Writing one entry together with its account's balance keeps every balance and running sum. */
  lemma {:induction false} WriteEntry(rows: seq<Account>, es: seq<LedgerEntry>, i: nat, e: LedgerEntry)
    requires i < |rows| && AccountsAgree(rows, es)
    requires e.account == rows[i].id && 0 < e.amount
    requires e.running == rows[i].balance + Signed(e) && 0 <= e.running
    ensures var rows' := rows[i := rows[i].(balance := e.running)];
            AccountsAgree(rows', es + [e])
  {
    var rows' := rows[i := rows[i].(balance := e.running)];
    var es' := es + [e];
    forall j | 0 <= j < |rows'|
      ensures BalanceAt(rows', es', j)
    {
      assert BalanceAt(rows, es, j);
      NetAppend(es, e, rows[j].id);
      assert rows'[j].id == rows[j].id;
    }
    assert BalanceAt(rows, es, i);
    NetAppend(es, e, e.account);
    assert rows'[i].id == e.account;
    EntriesKept(rows, rows', es, e);
  }

  lemma {:induction false} EntriesKept(rows: seq<Account>, rows': seq<Account>, es: seq<LedgerEntry>, e: LedgerEntry)
    requires RunningAgree(rows, es)
    requires SameIds(rows, rows') && Known(rows', e.account) && 0 < e.amount && e.running == Net(es + [e], e.account)
    ensures RunningAgree(rows', es + [e])
  {
    var es' := es + [e];
    forall k | 0 <= k < |es'|
      ensures EntryAt(rows', es', k)
    {
      if k < |es| {
        assert EntryAt(rows, es, k);
        assert es'[..k + 1] == es[..k + 1];
        KnownKept(rows, rows', es[k].account);
      } else {
        assert es'[..k + 1] == es';
      }
    }
  }

  lemma {:induction false} TotalUpdate(rows: seq<Account>, i: nat, balance: int)
    requires i < |rows|
    ensures TotalBalance(rows[i := rows[i].(balance := balance)]) == TotalBalance(rows) - rows[i].balance + balance
  {
    var rows' := rows[i := rows[i].(balance := balance)];
    if i == |rows| - 1 {
      assert rows'[..i] == rows[..i];
    } else {
      TotalUpdate(rows[..|rows| - 1], i, balance);
      assert rows'[..|rows| - 1] == rows[..|rows| - 1][i := rows[i].(balance := balance)];
    }
  }

  lemma {:induction false} PostingsAppend(es: seq<LedgerEntry>, e: LedgerEntry, n: TxnId)
    ensures Postings(es + [e], n) ==
      Postings(es, n) + if e.txn == n then [Posting(e.account, e.entryType, e.amount)] else []
  {
    assert (es + [e])[..|es|] == es;
  }

  lemma {:induction false} NoPostings(es: seq<LedgerEntry>, n: TxnId)
    requires forall k :: 0 <= k < |es| ==> es[k].txn < n
    ensures Postings(es, n) == []
  {
    if es != [] { NoPostings(es[..|es| - 1], n); }
  }

  /** Appending a transaction with its one entry. */
  lemma {:induction false} WriteOne(xs: seq<Transaction>, es: seq<LedgerEntry>, x: Transaction, e: LedgerEntry)
    requires EntriesMatch(xs, es) && e.txn == |xs|
    requires Expected(x) == [Posting(e.account, e.entryType, e.amount)]
    ensures EntriesMatch(xs + [x], es + [e])
  {
    forall n | 0 <= n < |xs| + 1
      ensures PostingsMatch(xs + [x], es + [e], n)
    {
      if n < |xs| { assert PostingsMatch(xs, es, n); }
      PostingsAppend(es, e, n);
      if n == |xs| { NoPostings(es, n); }
    }
  }

  /** Appending a transaction with its two entries. */
  lemma {:induction false} WriteTwo(
    xs: seq<Transaction>, es: seq<LedgerEntry>, x: Transaction, e: LedgerEntry, f: LedgerEntry)
    requires EntriesMatch(xs, es) && e.txn == |xs| && f.txn == |xs|
    requires Expected(x) == [Posting(e.account, e.entryType, e.amount), Posting(f.account, f.entryType, f.amount)]
    ensures EntriesMatch(xs + [x], es + [e] + [f])
  {
    forall n | 0 <= n < |xs| + 1
      ensures PostingsMatch(xs + [x], es + [e] + [f], n)
    {
      if n < |xs| { assert PostingsMatch(xs, es, n); }
      PostingsAppend(es, e, n);
      PostingsAppend(es + [e], f, n);
      if n == |xs| { NoPostings(es, n); }
    }
  }

  lemma {:induction false} WriteKey(xs: seq<Transaction>, x: Transaction)
    requires UniqueKeys(xs) && FindKey(xs, x.key).None?
    ensures UniqueKeys(xs + [x])
  {
  }

  // ---------------------------------------------------------------- appending leaves the past alone

  /** The same accounts, perhaps with other balances, perhaps followed by new ones. */
  ghost predicate SameIds(rows: seq<Account>, rows': seq<Account>) {
    |rows| <= |rows'| && forall j :: 0 <= j < |rows| ==> rows'[j].id == rows[j].id
  }

  lemma {:induction false} KnownKept(rows: seq<Account>, rows': seq<Account>, a: AccountId)
    requires Known(rows, a) && SameIds(rows, rows')
    ensures Known(rows', a)
  {
    var j :| 0 <= j < |rows| && rows[j].id == a;
    assert rows'[j].id == a;
  }

  lemma {:induction false} SnapshotsKept(
    es: seq<LedgerEntry>, es': seq<LedgerEntry>, snapshots: map<(AccountId, Date), Snapshot>)
    requires SnapshotsTrue(es, snapshots) && es <= es'
    ensures SnapshotsTrue(es', snapshots)
  {
    forall a, d
      ensures SnapshotAt(es', snapshots, a, d)
    {
      assert SnapshotAt(es, snapshots, a, d);
      if (a, d) in snapshots {
        var s := snapshots[(a, d)];
        var k := match s.lastRowid case None => 0 case Some(r) => r;
        assert es'[..k] == es[..k];
      }
    }
  }

  /** A transaction that settles nothing leaves the card side as it was. */
  lemma {:induction false} CardsKept(
    rows: seq<Account>, rows': seq<Account>, cards: seq<Card>, cs: seq<Charge>, xs: seq<Transaction>, x: Transaction)
    requires CardSide(rows, cards, cs, xs) && SameIds(rows, rows') && x.settlement.NoSettlement?
    ensures CardSide(rows', cards, cs, xs + [x])
  {
    forall i | 0 <= i < |cards|
      ensures CardAt(rows', cards, cs, xs + [x], i)
    {
      assert CardAt(rows, cards, cs, xs, i);
      TransactionAppend(xs, x, cards[i].id);
      KnownKept(rows, rows', cards[i].account);
    }
    SettlementsKept(cards, cs, xs, x);
  }

  lemma {:induction false} SettlementsKept(cards: seq<Card>, cs: seq<Charge>, xs: seq<Transaction>, x: Transaction)
    requires forall n :: 0 <= n < |xs| ==> SettlementAt(cards, cs, xs, n)
    requires SettlementAt(cards, cs, xs + [x], |xs|)
    ensures forall n :: 0 <= n < |xs + [x]| ==> SettlementAt(cards, cs, xs + [x], n)
  {
    var xs' := xs + [x];
    forall n | 0 <= n < |xs'|
      ensures SettlementAt(cards, cs, xs', n)
    {
      if n < |xs| {
        assert SettlementAt(cards, cs, xs, n);
        assert xs'[..n] == xs[..n];
      }
    }
  }

  // ---------------------------------------------------------------- each operation keeps the invariant

  lemma {:induction false} CreateAccountKeeps(
    t: Tables, id: AccountId, number: string, owner: string, bank: string, initial: nat)
    requires Inv(t)
    ensures Inv(CreateAccount(t, id, number, owner, bank, initial).tables)
  {
    var e := CreateAccount(t, id, number, owner, bank, initial);
    if e.reply.Created? {
      if initial == 0 {
        NewAccountRow(t, Account(id, owner, bank, number, 0));
      } else {
        NewDeposit(t, Account(id, owner, bank, number, 0), initial);
      }
    }
  }

  /** A new account that comes with an initial deposit. */
  lemma {:induction false} NewDeposit(t: Tables, row: Account, initial: pos)
    requires Inv(t) && row.balance == 0
    requires FindAccount(t.accounts, row.id).None? && FindNumber(t.accounts, row.number).None?
    requires FindKey(t.transactions, Seed(row.id)).None?
    ensures Inv(t.(accounts := t.accounts + [row.(balance := initial)],
                   transactions := t.transactions + [SeedTransaction(row.id, initial)],
                   ledger := t.ledger + [LedgerEntry(|t.transactions|, row.id, Credit, initial, initial)]))
  {
    NewAccountRow(t, row);
    SeedKeeps(t.(accounts := t.accounts + [row]), |t.accounts|, initial);
    assert (t.accounts + [row])[|t.accounts| := row.(balance := initial)] == t.accounts + [row.(balance := initial)];
  }

  /** A new account has no entries yet, so an opening balance of zero agrees with the ledger. */
  lemma {:induction false} NewAccountRow(t: Tables, row: Account)
    requires Inv(t) && row.balance == 0
    requires FindAccount(t.accounts, row.id).None? && FindNumber(t.accounts, row.number).None?
    ensures Inv(t.(accounts := t.accounts + [row]))
  {
    NewAccountBooks(t.accounts, t.transactions, t.ledger, row);
    MoreAccounts(t.accounts, t.accounts + [row], t.cards, t.charges, t.transactions);
  }

  lemma {:induction false} NewAccountBooks(
    rows: seq<Account>, xs: seq<Transaction>, es: seq<LedgerEntry>, row: Account)
    requires BooksAgree(rows, xs, es) && row.balance == 0
    requires FindAccount(rows, row.id).None? && FindNumber(rows, row.number).None?
    ensures BooksAgree(rows + [row], xs, es)
  {
    NewAccountAgrees(rows, es, row);
    assert (rows + [row])[..|rows|] == rows;
  }

  lemma {:induction false} MoreAccounts(
    rows: seq<Account>, rows': seq<Account>, cards: seq<Card>, cs: seq<Charge>, xs: seq<Transaction>)
    requires CardSide(rows, cards, cs, xs) && SameIds(rows, rows')
    ensures CardSide(rows', cards, cs, xs)
  {
    forall i | 0 <= i < |cards|
      ensures CardAt(rows', cards, cs, xs, i)
    {
      assert CardAt(rows, cards, cs, xs, i);
      KnownKept(rows, rows', cards[i].account);
    }
  }

  lemma {:induction false} NewAccountAgrees(rows: seq<Account>, es: seq<LedgerEntry>, row: Account)
    requires AccountsAgree(rows, es) && row.balance == 0
    requires FindAccount(rows, row.id).None? && FindNumber(rows, row.number).None?
    ensures AccountsAgree(rows + [row], es)
  {
    NoEntries(rows, es, row.id);
    forall i | 0 <= i <= |rows|
      ensures BalanceAt(rows + [row], es, i)
    {
      if i < |rows| { assert BalanceAt(rows, es, i); }
    }
    forall k | 0 <= k < |es|
      ensures EntryAt(rows + [row], es, k)
    {
      assert EntryAt(rows, es, k);
      KnownKept(rows, rows + [row], es[k].account);
    }
  }

  lemma {:induction false} NoEntries(rows: seq<Account>, es: seq<LedgerEntry>, a: AccountId)
    requires RunningAgree(rows, es) && FindAccount(rows, a).None?
    ensures Net(es, a) == 0 && LastRowid(es, a).None?
  {
    forall k | 0 <= k < |es|
      ensures es[k].account != a
    {
      assert EntryAt(rows, es, k);
      assert Known(rows, es[k].account);
    }
    LastRowidCovers(es, a);
  }

  /** The initial deposit into an account that is still empty. */
  lemma {:induction false} SeedKeeps(t: Tables, i: nat, initial: pos)
    requires Inv(t) && i < |t.accounts| && t.accounts[i].balance == 0
    requires FindKey(t.transactions, Seed(t.accounts[i].id)).None?
    ensures var a := t.accounts[i];
            Inv(t.(accounts := t.accounts[i := a.(balance := initial)],
                   transactions := t.transactions + [SeedTransaction(a.id, initial)],
                   ledger := t.ledger + [LedgerEntry(|t.transactions|, a.id, Credit, initial, initial)]))
  {
    var a := t.accounts[i];
    var x := SeedTransaction(a.id, initial);
    var entry := LedgerEntry(|t.transactions|, a.id, Credit, initial, initial);
    BooksOfOneEntry(t.accounts, t.transactions, t.ledger, i, x, entry);
    CardsKept(t.accounts, t.accounts[i := a.(balance := initial)], t.cards, t.charges, t.transactions, x);
    SnapshotsKept(t.ledger, t.ledger + [entry], t.snapshots);
  }

  /** A transaction with a single entry on the account it is linked to twice. */
  lemma {:induction false} BooksOfOneEntry(
    rows: seq<Account>, xs: seq<Transaction>, es: seq<LedgerEntry>, i: nat, x: Transaction, e: LedgerEntry)
    requires BooksAgree(rows, xs, es) && i < |rows| && FindKey(xs, x.key).None?
    requires x.sender == x.receiver == e.account == rows[i].id && x.amount == e.amount && 0 < e.amount
    requires e.txn == |xs| && e.entryType == if x.settlement.CardSettlement? then Debit else Credit
    requires e.running == rows[i].balance + Signed(e) && 0 <= e.running
    ensures BooksAgree(rows[i := rows[i].(balance := e.running)], xs + [x], es + [e])
  {
    WriteEntry(rows, es, i, e);
    WriteOne(xs, es, x, e);
    WriteKey(xs, x);
    TotalUpdate(rows, i, e.running);
    InflowAppend(xs, x);
  }

  lemma {:induction false} InflowAppend(xs: seq<Transaction>, x: Transaction)
    ensures Inflow(xs + [x]) == Inflow(xs) +
      if x.settlement.CardSettlement? then -x.amount else if x.sender == x.receiver then x.amount else 0
  {
    assert (xs + [x])[..|xs|] == xs;
  }

  lemma {:induction false} TransferKeeps(t: Tables, p: Payload, key: Key)
    requires Inv(t) && p.TransferPayload?
    ensures Inv(Transfer(t, p, key).tables)
  {
    if Transfer(t, p, key).reply.Created? {
      var s, d := FindNumber(t.accounts, p.sender).value, FindNumber(t.accounts, p.receiver).value;
      PostTransferKeeps(t, s, d, p, key);
    }
  }

  lemma {:induction false} PostTransferKeeps(t: Tables, s: nat, d: nat, p: Payload, key: Key)
    requires Inv(t) && p.TransferPayload? && s < |t.accounts| && d < |t.accounts| && s != d
    requires 0 < p.amount <= t.accounts[s].balance && FindKey(t.transactions, key).None?
    ensures Inv(PostTransfer(t, s, d, p, key))
  {
    var t' := PostTransfer(t, s, d, p, key);
    PostTransferBooks(t, s, d, p, key);
    PostTransferCards(t, s, d, p, key);
    SnapshotsKept(t.ledger, t'.ledger, t.snapshots);
    assert t'.snapshots == t.snapshots;
  }

  lemma {:induction false} PostTransferBooks(t: Tables, s: nat, d: nat, p: Payload, key: Key)
    requires BooksAgree(t.accounts, t.transactions, t.ledger)
    requires p.TransferPayload? && s < |t.accounts| && d < |t.accounts| && s != d
    requires 0 < p.amount <= t.accounts[s].balance && FindKey(t.transactions, key).None?
    ensures var t' := PostTransfer(t, s, d, p, key); BooksAgree(t'.accounts, t'.transactions, t'.ledger)
  {
    var from, to, n := t.accounts[s], t.accounts[d], |t.transactions|;
    var x := Transaction(key, p, from.id, to.id, p.amount, NoSettlement);
    var debit := LedgerEntry(n, from.id, Debit, p.amount, from.balance - p.amount);
    var credit := LedgerEntry(n, to.id, Credit, p.amount, to.balance + p.amount);
    BooksMoved(t.accounts, t.transactions, t.ledger, s, d, x, debit, credit, PostTransfer(t, s, d, p, key));
  }

  lemma {:induction false} BooksMoved(
    rows: seq<Account>, xs: seq<Transaction>, es: seq<LedgerEntry>, s: nat, d: nat,
    x: Transaction, debit: LedgerEntry, credit: LedgerEntry, t': Tables)
    requires BooksAgree(rows, xs, es) && FindKey(xs, x.key).None?
    requires s < |rows| && d < |rows| && s != d
    requires x.settlement.NoSettlement? && x.sender == rows[s].id && x.receiver == rows[d].id
    requires debit == LedgerEntry(|xs|, x.sender, Debit, x.amount, rows[s].balance - x.amount)
    requires credit == LedgerEntry(|xs|, x.receiver, Credit, x.amount, rows[d].balance + x.amount)
    requires 0 < x.amount <= rows[s].balance
    requires t'.accounts == rows[s := rows[s].(balance := debit.running)][d := rows[d].(balance := credit.running)]
    requires t'.transactions == xs + [x] && t'.ledger == es + [debit] + [credit]
    ensures BooksAgree(t'.accounts, t'.transactions, t'.ledger)
  {
    BooksOfPair(rows, xs, es, s, d, x, debit, credit);
  }

  lemma {:induction false} PostTransferCards(t: Tables, s: nat, d: nat, p: Payload, key: Key)
    requires CardSide(t.accounts, t.cards, t.charges, t.transactions)
    requires p.TransferPayload? && s < |t.accounts| && d < |t.accounts|
    ensures var t' := PostTransfer(t, s, d, p, key);
            CardSide(t'.accounts, t'.cards, t'.charges, t'.transactions)
  {
    var t' := PostTransfer(t, s, d, p, key);
    var x := Transaction(key, p, t.accounts[s].id, t.accounts[d].id, p.amount, NoSettlement);
    CardsKept(t.accounts, t'.accounts, t.cards, t.charges, t.transactions, x);
  }

  /** A transaction with a debit and a credit of the same amount on two accounts. */
  lemma {:induction false} BooksOfPair(
    rows: seq<Account>, xs: seq<Transaction>, es: seq<LedgerEntry>, s: nat, d: nat,
    x: Transaction, debit: LedgerEntry, credit: LedgerEntry)
    requires BooksAgree(rows, xs, es) && FindKey(xs, x.key).None?
    requires s < |rows| && d < |rows| && s != d
    requires x.settlement.NoSettlement? && x.sender == rows[s].id && x.receiver == rows[d].id
    requires debit == LedgerEntry(|xs|, x.sender, Debit, x.amount, rows[s].balance - x.amount)
    requires credit == LedgerEntry(|xs|, x.receiver, Credit, x.amount, rows[d].balance + x.amount)
    requires 0 < x.amount <= rows[s].balance
    ensures var rows' := rows[s := rows[s].(balance := debit.running)][d := rows[d].(balance := credit.running)];
            BooksAgree(rows', xs + [x], es + [debit] + [credit])
  {
    assert x.sender != x.receiver;
    WritePair(rows, es, s, d, debit, credit);
    WriteTwo(xs, es, x, debit, credit);
    WriteKey(xs, x);
    InflowAppend(xs, x);
  }

  /** The two entries of a transfer leave the total alone. */
  lemma {:induction false} WritePair(
    rows: seq<Account>, es: seq<LedgerEntry>, s: nat, d: nat, debit: LedgerEntry, credit: LedgerEntry)
    requires s < |rows| && d < |rows| && s != d && AccountsAgree(rows, es)
    requires debit.account == rows[s].id && debit.entryType == Debit && credit.account == rows[d].id
    requires credit.entryType == Credit && 0 < debit.amount == credit.amount <= rows[s].balance
    requires debit.running == rows[s].balance - debit.amount && credit.running == rows[d].balance + debit.amount
    ensures var rows' := rows[s := rows[s].(balance := debit.running)][d := rows[d].(balance := credit.running)];
            AccountsAgree(rows', es + [debit] + [credit]) && TotalBalance(rows') == TotalBalance(rows)
  {
    var rows1 := rows[s := rows[s].(balance := debit.running)];
    WriteEntry(rows, es, s, debit);
    assert BalanceAt(rows, es, d);
    WriteEntry(rows1, es + [debit], d, credit);
    TotalUpdate(rows, s, debit.running);
    TotalUpdate(rows1, d, credit.running);
  }

  lemma {:induction false} CreateCardKeeps(t: Tables, id: CardId, account: AccountId, limit: pos, currency: string)
    requires Inv(t)
    ensures Inv(CreateCard(t, id, account, limit, currency).tables)
  {
    var e := CreateCard(t, id, account, limit, currency);
    if e.reply.Created? {
      var i := FindAccount(t.accounts, account).value;
      assert Known(t.accounts, t.accounts[i].id);
      NewCardKeeps(t.accounts, t.cards, t.charges, t.transactions, Card(id, account, limit, currency));
    }
  }

  lemma {:induction false} NewCardKeeps(
    rows: seq<Account>, cards: seq<Card>, cs: seq<Charge>, xs: seq<Transaction>, c: Card)
    requires CardSide(rows, cards, cs, xs)
    requires FindCard(cards, c.id).None? && Known(rows, c.account) && 0 < c.limit
    ensures CardSide(rows, cards + [c], cs, xs)
  {
    var cards' := cards + [c];
    NoCharges(rows, cards, cs, xs, c.id);
    forall k | KnownCard(cards, k)
      ensures KnownCard(cards', k)
    {
      var i :| 0 <= i < |cards| && cards[i].id == k;
      assert cards'[i].id == k;
    }
    forall i | 0 <= i < |cards'|
      ensures CardAt(rows, cards', cs, xs, i)
    {
      if i < |cards| { assert CardAt(rows, cards, cs, xs, i); }
    }
    forall k | 0 <= k < |cs|
      ensures ChargeAt(cards', cs, k)
    {
      assert ChargeAt(cards, cs, k);
    }
    forall n | 0 <= n < |xs|
      ensures SettlementAt(cards', cs, xs, n)
    {
      assert SettlementAt(cards, cs, xs, n);
    }
  }

  /** A card that does not exist yet has neither charges nor settlements. */
  lemma {:induction false} NoCharges(
    rows: seq<Account>, cards: seq<Card>, cs: seq<Charge>, xs: seq<Transaction>, c: CardId)
    requires CardSide(rows, cards, cs, xs) && FindCard(cards, c).None?
    ensures Watermark(xs, c) == 0 && SettledTotal(xs, c) == 0 && UsageBeyond(cs, c, 0) == 0
  {
    assert !KnownCard(cards, c);
    forall n | 0 <= n < |xs|
      ensures !Settles(xs[n], c)
    {
      assert SettlementAt(cards, cs, xs, n);
    }
    NoSettlements(xs, c);
    forall k | 0 <= k < |cs|
      ensures cs[k].card != c
    {
      assert ChargeAt(cards, cs, k);
    }
    NoChargesOf(cs, c);
  }

  lemma {:induction false} NoSettlements(xs: seq<Transaction>, c: CardId)
    requires forall n :: 0 <= n < |xs| ==> !Settles(xs[n], c)
    ensures Watermark(xs, c) == 0 && SettledTotal(xs, c) == 0
  {
    if xs != [] { NoSettlements(xs[..|xs| - 1], c); }
  }

  lemma {:induction false} NoChargesOf(cs: seq<Charge>, c: CardId)
    requires forall k :: 0 <= k < |cs| ==> cs[k].card != c
    ensures UsageBeyond(cs, c, 0) == 0
  {
    if cs != [] { NoChargesOf(cs[..|cs| - 1], c); }
  }

  lemma {:induction false} ChargeCardKeeps(t: Tables, card: CardId, amount: pos, key: string)
    requires Inv(t)
    ensures Inv(ChargeCard(t, card, amount, key).tables)
  {
    var e := ChargeCard(t, card, amount, key);
    if e.reply.Created? {
      var at := FindCard(t.cards, card).value;
      NewChargeKeeps(t.accounts, t.cards, t.charges, t.transactions, at, Charge(card, amount, key));
    }
  }

  lemma {:induction false} NewChargeKeeps(
    rows: seq<Account>, cards: seq<Card>, cs: seq<Charge>, xs: seq<Transaction>, at: nat, x: Charge)
    requires CardSide(rows, cards, cs, xs) && at < |cards| && cards[at].id == x.card && 0 < x.amount
    requires FindCharge(cs, x.key).None?
    requires UsageBeyond(cs, x.card, Watermark(xs, x.card)) + x.amount <= cards[at].limit
    ensures CardSide(rows, cards, cs + [x], xs)
  {
    var cs' := cs + [x];
    forall i | 0 <= i < |cards|
      ensures CardAt(rows, cards, cs', xs, i)
    {
      assert CardAt(rows, cards, cs, xs, i);
      ChargeAppend(cs, x, cards[i].id);
      assert cs'[..Watermark(xs, cards[i].id)] == cs[..Watermark(xs, cards[i].id)];
      assert cards[i].id == x.card ==> i == at;
    }
    forall k | 0 <= k < |cs'|
      ensures ChargeAt(cards, cs', k)
    {
      if k < |cs| { assert ChargeAt(cards, cs, k); }
    }
    forall n | 0 <= n < |xs|
      ensures SettlementAt(cards, cs', xs, n)
    {
      assert SettlementAt(cards, cs, xs, n);
      if xs[n].settlement.CardSettlement? {
        assert cs'[..xs[n].settlement.watermark] == cs[..xs[n].settlement.watermark];
      }
    }
  }

  lemma {:induction false} SettleCardKeeps(t: Tables, card: CardId)
    requires Inv(t)
    ensures Inv(SettleCard(t, card).tables)
  {
    var e := SettleCard(t, card);
    if e.reply.Created? {
      var c := FindCard(t.cards, card).value;
      var i := FindAccount(t.accounts, t.cards[c].account).value;
      var amount := UsageBeyond(t.charges, card, Watermark(t.transactions, card));
      var last := LastCharge(t.charges, card);
      assert CardAt(t.accounts, t.cards, t.charges, t.transactions, c);
      PostSettlementKeeps(t, i, c, last, amount);
    }
  }

  lemma {:induction false} PostSettlementKeeps(t: Tables, i: nat, c: nat, last: nat, amount: int)
    requires Inv(t) && i < |t.accounts| && c < |t.cards|
    requires last == LastCharge(t.charges, t.cards[c].id) && Watermark(t.transactions, t.cards[c].id) < last
    requires amount == UsageBeyond(t.charges, t.cards[c].id, Watermark(t.transactions, t.cards[c].id))
    requires 0 < amount <= t.accounts[i].balance
    requires FindKey(t.transactions, Settle(t.cards[c].id, last)).None?
    ensures Inv(PostSettlement(t, i, t.cards[c].id, last, amount))
  {
    PostSettlementBooks(t, i, t.cards[c].id, last, amount);
    PostSettlementCards(t, i, c, last, amount);
    SnapshotsKept(t.ledger, PostSettlement(t, i, t.cards[c].id, last, amount).ledger, t.snapshots);
  }

  lemma {:induction false} PostSettlementBooks(t: Tables, i: nat, card: CardId, last: nat, amount: int)
    requires BooksAgree(t.accounts, t.transactions, t.ledger) && i < |t.accounts|
    requires 0 < amount <= t.accounts[i].balance && FindKey(t.transactions, Settle(card, last)).None?
    ensures var owner := t.accounts[i];
            var x := SettlementTransaction(owner.id, card, last, amount);
            var debit := LedgerEntry(|t.transactions|, owner.id, Debit, amount, owner.balance - amount);
            BooksAgree(t.accounts[i := owner.(balance := debit.running)], t.transactions + [x], t.ledger + [debit])
  {
    var owner := t.accounts[i];
    var x := SettlementTransaction(owner.id, card, last, amount);
    var debit := LedgerEntry(|t.transactions|, owner.id, Debit, amount, owner.balance - amount);
    BooksOfOneEntry(t.accounts, t.transactions, t.ledger, i, x, debit);
  }

  lemma {:induction false} PostSettlementCards(t: Tables, i: nat, c: nat, last: nat, amount: int)
    requires CardSide(t.accounts, t.cards, t.charges, t.transactions) && i < |t.accounts| && c < |t.cards|
    requires last == LastCharge(t.charges, t.cards[c].id) && Watermark(t.transactions, t.cards[c].id) < last
    requires amount == UsageBeyond(t.charges, t.cards[c].id, Watermark(t.transactions, t.cards[c].id))
    ensures var t' := PostSettlement(t, i, t.cards[c].id, last, amount);
            CardSide(t'.accounts, t'.cards, t'.charges, t'.transactions)
  {
    var t' := PostSettlement(t, i, t.cards[c].id, last, amount);
    var x := SettlementTransaction(t.accounts[i].id, t.cards[c].id, last, amount);
    SettlementCards(t.accounts, t'.accounts, t.cards, t.charges, t.transactions, c, x);
  }

  lemma {:induction false} SettlementCards(
    rows: seq<Account>, rows': seq<Account>, cards: seq<Card>, cs: seq<Charge>, xs: seq<Transaction>,
    c: nat, x: Transaction)
    requires CardSide(rows, cards, cs, xs) && SameIds(rows, rows') && c < |cards|
    requires var w, last := Watermark(xs, cards[c].id), LastCharge(cs, cards[c].id);
             && w < last
             && x.settlement == CardSettlement(cards[c].id, last)
             && x.key == Settle(cards[c].id, last)
             && x.amount == UsageBeyond(cs, cards[c].id, w)
    ensures CardSide(rows', cards, cs, xs + [x])
  {
    var card := cards[c].id;
    SettledUpTo(cs, card, Watermark(xs, card));
    LastChargeIsMax(cs, card);
    assert (xs + [x])[..|xs|] == xs;
    assert KnownCard(cards, card);
    SettlementsKept(cards, cs, xs, x);
    forall k | 0 <= k < |cards|
      ensures CardAt(rows', cards, cs, xs + [x], k)
    {
      assert CardAt(rows, cards, cs, xs, k);
      TransactionAppend(xs, x, cards[k].id);
      KnownKept(rows, rows', cards[k].account);
      assert cards[k].id == card ==> k == c;
    }
  }

  /** The unsettled usage lies entirely between the watermark and the last charge. */
  lemma {:induction false} SettledUpTo(cs: seq<Charge>, c: CardId, w: nat)
    requires w < LastCharge(cs, c)
    ensures LastCharge(cs, c) <= |cs|
    ensures UsageBeyond(cs[..LastCharge(cs, c)], c, w) == UsageBeyond(cs, c, w)
    ensures ChargeTotal(cs[..LastCharge(cs, c)], c) == ChargeTotal(cs[..w], c) + UsageBeyond(cs, c, w)
  {
    var last := LastCharge(cs, c);
    LastChargeIsMax(cs, c);
    UsageSplits(cs, c, w);
    UsageSplits(cs, c, last);
    UsageSplits(cs[..last], c, w);
    assert cs[..last][..w] == cs[..w];
  }

  lemma {:induction false} RunDailyClosingKeeps(t: Tables, date: Date)
    requires Inv(t)
    ensures Inv(RunDailyClosing(t, date).tables)
  {
    var ids := Unclosed(t, date, |t.accounts|);
    var t' := RunDailyClosing(t, date).tables;
    forall a, d
      ensures SnapshotAt(t.ledger, t'.snapshots, a, d)
    {
      if (a, d) in Close(t, date, ids) {
        SnapshotOfIsTrue(t, a);
      } else {
        assert SnapshotAt(t.ledger, t.snapshots, a, d);
      }
    }
  }

  lemma {:induction false} SnapshotOfIsTrue(t: Tables, a: AccountId)
    ensures SnapshotTrue(t.ledger, a, SnapshotOf(t, a))
  {
    LastRowidCovers(t.ledger, a);
    match LastRowid(t.ledger, a)
    case None =>
    case Some(k) =>
      assert LastRowid(t.ledger[..k], a) == Some(k);
  }

  // ---------------------------------------------------------------- every reachable state

  lemma {:induction false} StepKeeps(t: Tables, r: Request)
    requires Inv(t)
    ensures Inv(Step(t, r))
  {
    match r
    case NewAccount(id, number, owner, bank, initial) => CreateAccountKeeps(t, id, number, owner, bank, initial);
    case NewTransfer(s, b, d, a, key) => TransferKeeps(t, TransferPayload(s, b, d, a), key);
    case NewCard(id, account, limit, currency) => CreateCardKeeps(t, id, account, limit, currency);
    case NewCharge(card, amount, key) => ChargeCardKeeps(t, card, amount, key);
    case NewSettlement(card) => SettleCardKeeps(t, card);
    case NewClosing(date) => RunDailyClosingKeeps(t, date);
  }

  lemma {:induction false} RunKeeps(t: Tables, rs: seq<Request>)
    requires Inv(t)
    ensures Inv(Run(t, rs))
    decreases |rs|
  {
    if rs != [] {
      StepKeeps(t, rs[0]);
      RunKeeps(Step(t, rs[0]), rs[1..]);
    }
  }

  /** Every state reachable from the empty store satisfies the invariant. */
  lemma {:induction false} Reachable(rs: seq<Request>)
    ensures Inv(Run(EMPTY_TABLES, rs))
  {
    RunKeeps(EMPTY_TABLES, rs);
  }
}
