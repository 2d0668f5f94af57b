/** The chronological walk that turns mock events into transactions, ledger entries and card charges.

    Ids are the numbers drawn from the sequence, which the generator prints with a fixed prefix and at least six
    digits; the two entries of one transaction differ by their type. */
module MockLedger {
  import opened LedgerTables

  datatype Source = Salary | Friend | Opening | Own(account: AccountId)

  datatype Event =
    | CardUse(card: CardId, amount: int)
    | Transfer(source: Source, to: AccountId, amount: int, success: bool)

  const EXTERNAL_SOURCE: AccountId := "acct-b099-0000-0000-000000000099"

  datatype MockTransaction = MockTransaction(
    id: nat, sender: AccountId, receiver: AccountId, amount: int, success: bool)
  datatype MockCharge = MockCharge(id: nat, card: CardId, amount: int)

  datatype Books = Books(
    transactions: seq<MockTransaction>, entries: seq<LedgerEntry>, charges: seq<MockCharge>,
    balance: map<AccountId, int>)

  function Sender(e: Event): AccountId
    requires e.Transfer?
  {
    if e.source.Own? then e.source.account else EXTERNAL_SOURCE
  }

  function BalanceOf(balance: map<AccountId, int>, a: AccountId): int {
    if a in balance then balance[a] else 0
  }

  // ---------------------------------------------------------------- the walk

  /** One turn of the walk.  Both balances are updated before either entry is written. */
  function Post(b: Books, e: Event, id: nat): Books {
    match e
    case CardUse(card, amount) => b.(charges := b.charges + [MockCharge(id, card, amount)])
    case Transfer(_, to, amount, success) =>
      var sender := Sender(e);
      var txns := b.transactions + [MockTransaction(id, sender, to, amount, success)];
      if !success then b.(transactions := txns)
      else
        var out := b.balance[sender := BalanceOf(b.balance, sender) - amount];
        var both := out[to := BalanceOf(out, to) + amount];
        Books(txns,
              b.entries + [LedgerEntry(id, sender, Debit, amount, both[sender])]
              + [LedgerEntry(id, to, Credit, amount, both[to])],
              b.charges, both)
  }

  function Walk(events: seq<Event>, first: nat): Books {
    if events == [] then Books([], [], [], map[])
    else Post(Walk(events[..|events| - 1], first), events[|events| - 1], first + |events| - 1)
  }

  method BuildTransactionDataset(events: seq<Event>, first: nat) returns (books: Books)
    ensures books == Walk(events, first)
  {
    var transactions: seq<MockTransaction>, entries: seq<LedgerEntry>, charges: seq<MockCharge> := [], [], [];
    var balance: map<AccountId, int> := map[];
    for i := 0 to |events|
      invariant Books(transactions, entries, charges, balance) == Walk(events[..i], first)
    {
      var e, id := events[i], first + i;
      ghost var before := Books(transactions, entries, charges, balance);
      assert Walk(events[..i + 1], first) == Post(before, e, id) by {
        assert events[..i + 1][..i] == events[..i];
      }
      if e.CardUse? {
        charges := charges + [MockCharge(id, e.card, e.amount)];
      } else {
        var sender := Sender(e);
        transactions := transactions + [MockTransaction(id, sender, e.to, e.amount, e.success)];
        if e.success {
          balance := balance[sender := BalanceOf(balance, sender) - e.amount];
          balance := balance[e.to := BalanceOf(balance, e.to) + e.amount];
          entries := entries + [LedgerEntry(id, sender, Debit, e.amount, balance[sender])];
          entries := entries + [LedgerEntry(id, e.to, Credit, e.amount, balance[e.to])];
        }
      }
    }
    assert events[..|events|] == events;
    return Books(transactions, entries, charges, balance);
  }

  // ---------------------------------------------------------------- balances

  /** The returned balances are the ledger sums. */
  lemma {:induction false} BalancesAreLedgerSums(events: seq<Event>, first: nat, a: AccountId)
    ensures BalanceOf(Walk(events, first).balance, a) == Net(Walk(events, first).entries, a)
  {
    if events != [] {
      var before, e := Walk(events[..|events| - 1], first), events[|events| - 1];
      BalancesAreLedgerSums(events[..|events| - 1], first, a);
      if e.Transfer? && e.success {
        PostedNet(before, e, first + |events| - 1, a);
      }
    }
  }

  lemma {:induction false} PostedNet(b: Books, e: Event, id: nat, a: AccountId)
    requires e.Transfer? && e.success
    ensures Net(Post(b, e, id).entries, a) - Net(b.entries, a)
         == BalanceOf(Post(b, e, id).balance, a) - BalanceOf(b.balance, a)
  {
    var es, es' := b.entries, Post(b, e, id).entries;
    NetAppend(es, es'[|es|], a);
    NetAppend(es + [es'[|es|]], es'[|es| + 1], a);
  }

  // ---------------------------------------------------------------- running balances

  predicate RunningAt(es: seq<LedgerEntry>, k: nat)
    requires k < |es|
  {
    es[k].running == Net(es[..k + 1], es[k].account)
  }

  predicate RunningBalances(es: seq<LedgerEntry>) {
    forall k :: 0 <= k < |es| ==> RunningAt(es, k)
  }

  /** Moves money from an account to itself, the external source included. */
  predicate SelfTransfer(e: Event) {
    Moves(e) && Sender(e) == e.to && e.amount != 0
  }

  lemma {:induction false} RunningKept(es: seq<LedgerEntry>, more: seq<LedgerEntry>, k: nat)
    requires k < |es|
    ensures RunningAt(es + more, k) <==> RunningAt(es, k)
  {
    assert (es + more)[..k + 1] == es[..k + 1];
  }

  /** The two entries of one transfer show their prefix sums exactly when it is no self-transfer: the debit of a
      self-transfer shows the balance after the credit as well. */
  lemma {:induction false} PostedRunning(b: Books, e: Event, id: nat)
    requires e.Transfer? && e.success
    requires BalanceOf(b.balance, Sender(e)) == Net(b.entries, Sender(e))
    requires BalanceOf(b.balance, e.to) == Net(b.entries, e.to)
    ensures var es := Post(b, e, id).entries;
            && |es| == |b.entries| + 2
            && (RunningAt(es, |b.entries|) <==> !SelfTransfer(e))
            && RunningAt(es, |b.entries| + 1)
  {
    var es, es' := b.entries, Post(b, e, id).entries;
    var debit, credit := es'[|es|], es'[|es| + 1];
    NetAppend(es, debit, Sender(e));
    NetAppend(es, debit, e.to);
    NetAppend(es + [debit], credit, e.to);
    assert es'[..|es| + 1] == es + [debit];
    assert es'[..|es| + 2] == es + [debit] + [credit];
  }

  lemma {:induction false} PostRunning(b: Books, e: Event, id: nat)
    requires e.Transfer? && e.success
    requires BalanceOf(b.balance, Sender(e)) == Net(b.entries, Sender(e))
    requires BalanceOf(b.balance, e.to) == Net(b.entries, e.to)
    ensures RunningBalances(Post(b, e, id).entries) <==> RunningBalances(b.entries) && !SelfTransfer(e)
  {
    var es, es' := b.entries, Post(b, e, id).entries;
    PostedRunning(b, e, id);
    RunningSplit(es, [es'[|es|], es'[|es| + 1]]);
    assert es' == es + [es'[|es|], es'[|es| + 1]];
  }

  predicate NoSelfTransfers(events: seq<Event>) {
    forall i :: 0 <= i < |events| ==> !SelfTransfer(events[i])
  }

  lemma {:induction false} NoSelfTransfersSplit(events: seq<Event>, e: Event)
    ensures NoSelfTransfers(events + [e]) <==> NoSelfTransfers(events) && !SelfTransfer(e)
  {
    var more := events + [e];
    assert more[|events|] == e;
    assert forall i :: 0 <= i < |events| ==> more[i] == events[i];
  }

  /** Running balances are right throughout exactly when no event is a self-transfer. */
  lemma {:induction false} RunningBalancesExactly(events: seq<Event>, first: nat)
    ensures RunningBalances(Walk(events, first).entries) <==> NoSelfTransfers(events)
  {
    if events != [] {
      var n := |events| - 1;
      var earlier, e := events[..n], events[n];
      RunningBalancesExactly(earlier, first);
      NoSelfTransfersSplit(earlier, e);
      assert events == earlier + [e];
      if Moves(e) {
        BalancesAreLedgerSums(earlier, first, Sender(e));
        BalancesAreLedgerSums(earlier, first, e.to);
        PostRunning(Walk(earlier, first), e, first + n);
      }
    }
  }

  lemma {:induction false} RunningSplit(es: seq<LedgerEntry>, more: seq<LedgerEntry>)
    requires |more| == 2
    ensures RunningBalances(es + more) <==>
            RunningBalances(es) && RunningAt(es + more, |es|) && RunningAt(es + more, |es| + 1)
  {
    forall k | 0 <= k < |es| ensures RunningAt(es + more, k) <==> RunningAt(es, k) {
      RunningKept(es, more, k);
    }
  }

  // ---------------------------------------------------------------- the total

  function Total(accounts: seq<AccountId>, balance: map<AccountId, int>): int {
    if accounts == [] then 0
    else Total(accounts[..|accounts| - 1], balance) + BalanceOf(balance, accounts[|accounts| - 1])
  }

  predicate Distinct(accounts: seq<AccountId>) {
    forall i, j :: 0 <= i < j < |accounts| ==> accounts[i] != accounts[j]
  }

  lemma {:induction false} TotalMoves(accounts: seq<AccountId>, m: map<AccountId, int>, a: AccountId, v: int)
    requires Distinct(accounts)
    ensures Total(accounts, m[a := v]) ==
            Total(accounts, m) + if a in accounts then v - BalanceOf(m, a) else 0
  {
    if accounts != [] {
      TotalMoves(accounts[..|accounts| - 1], m, a, v);
      assert accounts == accounts[..|accounts| - 1] + [accounts[|accounts| - 1]];
    }
  }

  /** The balances of any list of distinct accounts that has all of them add up to zero. */
  lemma {:induction false} BalancesTotalZero(events: seq<Event>, first: nat, accounts: seq<AccountId>)
    requires Distinct(accounts)
    requires forall a :: a in Walk(events, first).balance ==> a in accounts
    ensures Total(accounts, Walk(events, first).balance) == 0
  {
    if events == [] {
      NothingTotals(accounts);
    } else {
      var n := |events| - 1;
      var b, e := Walk(events[..n], first), events[n];
      BalancesTotalZero(events[..n], first, accounts);
      if e.Transfer? && e.success {
        var out := b.balance[Sender(e) := BalanceOf(b.balance, Sender(e)) - e.amount];
        TotalMoves(accounts, b.balance, Sender(e), BalanceOf(b.balance, Sender(e)) - e.amount);
        TotalMoves(accounts, out, e.to, BalanceOf(out, e.to) + e.amount);
      }
    }
  }

  lemma {:induction false} NothingTotals(accounts: seq<AccountId>)
    ensures Total(accounts, map[]) == 0
  {
    if accounts != [] {
      NothingTotals(accounts[..|accounts| - 1]);
    }
  }

  // ---------------------------------------------------------------- what is emitted

  predicate Moves(e: Event) {
    e.Transfer? && e.success
  }

  function Successes(events: seq<Event>): nat {
    if events == [] then 0
    else Successes(events[..|events| - 1]) + if Moves(events[|events| - 1]) then 1 else 0
  }

  /** The ledger holds two entries for each successful transfer and none for anything else: the pairs stand in the
      order of the events, and there is room for no other entry. */
  lemma {:induction false} EntriesAreCounted(events: seq<Event>, first: nat)
    ensures |Walk(events, first).entries| == 2 * Successes(events)
  {
    if events != [] {
      EntriesAreCounted(events[..|events| - 1], first);
    }
  }

  /** The account an event debits: its own account, and one shared placeholder for every source outside. */
  predicate Debits(e: Event, a: AccountId)
    requires e.Transfer?
  {
    match e.source
    case Own(account) => a == account
    case _ => a == EXTERNAL_SOURCE
  }

  /** The pair at position p is the debit and the credit of event e. */
  predicate PairAt(es: seq<LedgerEntry>, p: nat, e: Event, id: nat)
    requires Moves(e)
  {
    && p + 1 < |es|
    && Debits(e, es[p].account)
    && es[p] == LedgerEntry(id, es[p].account, Debit, e.amount, es[p].running)
    && es[p + 1] == LedgerEntry(id, e.to, Credit, e.amount, es[p + 1].running)
  }

  lemma {:induction false} PostPair(b: Books, e: Event, id: nat)
    requires Moves(e)
    ensures PairAt(Post(b, e, id).entries, |b.entries|, e, id)
  {
  }

  lemma {:induction false} PairKept(es: seq<LedgerEntry>, es': seq<LedgerEntry>, p: nat, e: Event, id: nat)
    requires Moves(e) && PairAt(es, p, e, id) && es <= es'
    ensures PairAt(es', p, e, id)
  {
  }

  lemma {:induction false} WalkExtends(events: seq<Event>, first: nat, i: nat)
    requires i <= |events|
    ensures Walk(events[..i], first).entries <= Walk(events, first).entries
    decreases |events|
  {
    var n := |events| - 1;
    if i <= n {
      WalkExtends(events[..n], first, i);
      assert events[..n][..i] == events[..i];
    } else {
      assert events[..i] == events;
    }
  }

  lemma {:induction false} EntriesExactly(events: seq<Event>, first: nat, i: nat)
    requires i < |events| && Moves(events[i])
    ensures PairAt(Walk(events, first).entries, 2 * Successes(events[..i]), events[i], first + i)
  {
    var before, upTo := events[..i], events[..i + 1];
    assert upTo[..i] == before;
    EntriesAreCounted(before, first);
    PostPair(Walk(before, first), events[i], first + i);
    WalkExtends(events, first, i + 1);
    PairKept(Walk(upTo, first).entries, Walk(events, first).entries, 2 * Successes(before), events[i], first + i);
  }

  lemma {:induction false} PostShows(b: Books, e: Event, id: nat)
    requires Moves(e)
    ensures var b' := Post(b, e, id); var n := |b.entries|;
            && b'.entries[n].running == BalanceOf(b'.balance, b'.entries[n].account)
            && b'.entries[n + 1].running == BalanceOf(b'.balance, b'.entries[n + 1].account)
  {
  }

  /** Both entries of a transfer show what their accounts hold once the whole transfer is posted, self-transfers
      included. */
  lemma {:induction false} EntriesShowBalances(events: seq<Event>, first: nat, i: nat)
    requires i < |events| && Moves(events[i])
    ensures var es, p := Walk(events, first).entries, 2 * Successes(events[..i]);
            && p + 2 <= |es|
            && es[p].running == Net(es[..p + 2], es[p].account)
            && es[p + 1].running == Net(es[..p + 2], es[p + 1].account)
  {
    var before, upTo := events[..i], events[..i + 1];
    var es, posted, p := Walk(events, first).entries, Walk(upTo, first).entries, 2 * Successes(events[..i]);
    assert upTo[..i] == before;
    EntriesAreCounted(before, first);
    PostShows(Walk(before, first), events[i], first + i);
    BalancesAreLedgerSums(upTo, first, posted[p].account);
    BalancesAreLedgerSums(upTo, first, posted[p + 1].account);
    WalkExtends(events, first, i + 1);
    assert es[..p + 2] == posted;
  }

  /** Transactions and charges partition the events: ids increase, and each names its event. */
  lemma {:induction false} IdsIncrease(events: seq<Event>, first: nat)
    ensures var b := Walk(events, first);
            && |b.transactions| + |b.charges| == |events|
            && (forall i :: 0 <= i < |b.transactions| ==> TransactionAt(events, first, b.transactions[i]))
            && (forall i :: 0 <= i < |b.charges| ==> ChargeAt(events, first, b.charges[i]))
            && (forall i, j :: 0 <= i < j < |b.transactions| ==> b.transactions[i].id < b.transactions[j].id)
            && (forall i, j :: 0 <= i < j < |b.charges| ==> b.charges[i].id < b.charges[j].id)
  {
    if events != [] {
      var n := |events| - 1;
      IdsIncrease(events[..n], first);
      assert forall t :: TransactionAt(events[..n], first, t) ==> TransactionAt(events, first, t);
      assert forall c :: ChargeAt(events[..n], first, c) ==> ChargeAt(events, first, c);
    }
  }

  predicate TransactionAt(events: seq<Event>, first: nat, t: MockTransaction) {
    && first <= t.id < first + |events|
    && var e := events[t.id - first];
       e.Transfer? && Debits(e, t.sender) && t == MockTransaction(t.id, t.sender, e.to, e.amount, e.success)
  }

  predicate ChargeAt(events: seq<Event>, first: nat, c: MockCharge) {
    && first <= c.id < first + |events|
    && events[c.id - first] == CardUse(c.card, c.amount)
  }
}
