/** The service object: the tables as fields that the operations update in place.

    Each operation is proved against its function in LedgerOperations and keeps Valid(); the audit
    table only grows.  An operation that raises has written nothing but the failure audit row that
    transfer writes after its rollback. */
module FinancialService {
  import opened Wrappers
  import opened LedgerTables
  import opened LedgerOperations
  import opened LedgerInvariant
  import opened LedgerAnswers

  datatype Reconciliation = Reconciliation(cached: int, expected: int, credit: int, debit: int, drift: bool, delta: int)

  lemma {:induction false} CloseOneMore(t: Tables, date: Date, ids: seq<AccountId>, a: AccountId)
    ensures Close(t, date, ids + [a]) == Close(t, date, ids)[(a, date) := SnapshotOf(t, a)]
  {
    var more := Close(t, date, ids + [a]);
    forall k
      ensures k in more <==> k == (a, date) || k in Close(t, date, ids)
    {
      assert (k.0 in ids + [a]) == (k.0 in ids || k.0 == a);
    }
  }

  lemma {:induction false} UnclosedStep(t: Tables, date: Date, n: nat)
    requires n < |t.accounts|
    ensures var a := t.accounts[n].id;
            Unclosed(t, date, n + 1) == Unclosed(t, date, n) + if (a, date) in t.snapshots then [] else [a]
  {
  }

  class Service {
    var accounts: seq<Account>
    var cards: seq<Card>
    var transactions: seq<Transaction>
    var ledger: seq<LedgerEntry>
    var charges: seq<Charge>
    var snapshots: map<(AccountId, Date), Snapshot>
    var audits: seq<Audit>

    function State(): Tables
      reads this
    {
      Tables(accounts, cards, transactions, ledger, charges, snapshots)
    }

    ghost predicate Valid()
      reads this
    {
      Inv(State())
    }

    constructor ()
      ensures Valid() && State() == EMPTY_TABLES && audits == []
    {
      accounts, cards, transactions, ledger, charges, snapshots, audits := [], [], [], [], [], map[], [];
      new;
      LedgerInvariant.Reachable([]);
    }

    method CreateAccount(id: AccountId, number: string, owner: string, bank: string, initial: nat)
      returns (reply: Reply<AccountId>)
      requires Valid()
      modifies this
      ensures Valid()
      ensures var e := LedgerOperations.CreateAccount(old(State()), id, number, owner, bank, initial);
              && State() == e.tables && audits == old(audits) + e.audits && reply == e.reply
              && OpeningOutcome(old(State()), id, number, owner, bank, initial, e)
    {
      OpeningDecided(State(), id, number, owner, bank, initial);
      CreateAccountKeeps(State(), id, number, owner, bank, initial);
      if FindAccount(accounts, id).Some? || FindNumber(accounts, number).Some? {
        return Rejected(IntegrityError);
      }
      if 0 < initial && FindKey(transactions, Seed(id)).Some? {
        return Rejected(IntegrityError);
      }
      Open(LedgerTables.Account(id, owner, bank, number, 0), initial);
      reply := Created(id);
    }

    /** The account row, and its initial deposit if it comes with one. */
    method Open(row: Account, initial: nat)
      requires FindAccount(accounts, row.id).None? && FindNumber(accounts, row.number).None? && row.balance == 0
      requires 0 < initial ==> FindKey(transactions, Seed(row.id)).None?
      modifies this
      ensures var e := LedgerOperations.CreateAccount(old(State()), row.id, row.number, row.owner, row.bank, initial);
              State() == e.tables && audits == old(audits) + e.audits && e.reply == Created(row.id)
    {
      var account, seed := row, None;
      if 0 < initial {
        seed := Some(|transactions|);
        transactions := transactions + [SeedTransaction(row.id, initial)];
        ledger := ledger + [LedgerEntry(seed.value, row.id, Credit, initial, initial)];
        account := account.(balance := initial);
      }
      accounts := accounts + [account];
      audits := audits + [Audit(row.owner, AccountCreate(initial), seed)];
    }

    /** Recomputes one account's balance from the whole ledger. */
    method GetBalance(account: AccountId) returns (balance: int)
      requires Valid()
      ensures balance == Net(ledger, account)
      ensures forall i :: 0 <= i < |accounts| && accounts[i].id == account ==> balance == accounts[i].balance
    {
      var credits := SumOf(ledger, account, Credit);
      var debits := SumOf(ledger, account, Debit);
      balance := credits - debits;
      forall i | 0 <= i < |accounts| && accounts[i].id == account
        ensures balance == accounts[i].balance
      {
        assert BalanceAt(accounts, ledger, i);
      }
    }

    method WriteFailureAudit(p: Payload, key: Key, error: Error)
      requires p.TransferPayload?
      modifies this`audits
      ensures audits == old(audits) + [Audit(p.sender, TransferFailed(p, key, error), None)]
    {
      audits := audits + [Audit(p.sender, TransferFailed(p, key, error), None)];
    }

    method Transfer(p: Payload, key: Key) returns (reply: Reply<TxnId>)
      requires Valid() && p.TransferPayload?
      modifies this
      ensures Valid()
      ensures var e := LedgerOperations.Transfer(old(State()), p, key);
              && State() == e.tables && audits == old(audits) + e.audits && reply == e.reply
              && TransferVerdict(old(State()), p, key, e.reply) && TransferOutcome(old(State()), p, key, e)
    {
      TransferKeeps(State(), p, key);
      TransferDecided(State(), p, key);
      TransferCarriedOut(State(), p, key);
      reply := CheckAndTransfer(p, key);
    }

    /** The checks in their order, the transfer, and the assertions on it. */
    method CheckAndTransfer(p: Payload, key: Key) returns (reply: Reply<TxnId>)
      requires Valid() && p.TransferPayload?
      modifies this
      ensures Valid()
      ensures var e := LedgerOperations.Transfer(old(State()), p, key);
              && State() == e.tables && audits == old(audits) + e.audits && reply == e.reply
    {
      TransferKeeps(State(), p, key);
      var existing := FindKey(transactions, key);
      if existing.Some? {
        if transactions[existing.value].payload != p {
          WriteFailureAudit(p, key, IdempotencyConflict);
          return Rejected(IdempotencyConflict);
        }
        return Replayed(existing.value);
      }
      var failure := CheckTransfer(State(), p);
      if failure.Some? {
        WriteFailureAudit(p, key, failure.value);
        return Rejected(failure.value);
      }
      var s, d := FindNumber(accounts, p.sender).value, FindNumber(accounts, p.receiver).value;
      var preTransferTotal := accounts[s].balance + accounts[d].balance;
      Post(s, d, p, key);
      reply := Created(|transactions| - 1);
      // The integrity assertions after the commit never fire.
      var postSender := GetBalance(accounts[s].id);
      var postReceiver := GetBalance(accounts[d].id);
      assert postSender + postReceiver == preTransferTotal;
      assert postSender == accounts[s].balance;
      assert postReceiver == accounts[d].balance;
    }

    /** The transaction, its two entries, both stored balances and the audit row of one transfer. */
    method Post(s: nat, d: nat, p: Payload, key: Key)
      requires p.TransferPayload? && s < |accounts| && d < |accounts| && s != d
      modifies this
      ensures State() == PostTransfer(old(State()), s, d, p, key)
      ensures audits == old(audits) + [Audit(p.sender, TransferDone(p, key), Some(|old(transactions)|))]
    {
      var sender, receiver := accounts[s], accounts[d];
      var txn := |transactions|;
      transactions := transactions + [Transaction(key, p, sender.id, receiver.id, p.amount, NoSettlement)];
      ledger := ledger + [LedgerEntry(txn, sender.id, Debit, p.amount, sender.balance - p.amount)];
      ledger := ledger + [LedgerEntry(txn, receiver.id, Credit, p.amount, receiver.balance + p.amount)];
      accounts := accounts[s := sender.(balance := sender.balance - p.amount)];
      accounts := accounts[d := receiver.(balance := receiver.balance + p.amount)];
      audits := audits + [Audit(p.sender, TransferDone(p, key), Some(txn))];
    }

    /** Compares the stored balance with the full ledger sums: there is never any drift. */
    method ReconcileBalance(account: AccountId) returns (r: Reconciliation)
      requires Valid()
      ensures r.credit == SumOf(ledger, account, Credit) && r.debit == SumOf(ledger, account, Debit)
      ensures r.cached == r.expected == r.credit - r.debit
      ensures !r.drift && r.delta == 0
      ensures FindAccount(accounts, account).None? ==> r.credit == r.debit == 0
    {
      var found := FindAccount(accounts, account);
      var cached := if found.Some? then accounts[found.value].balance else 0;
      var credit := SumOf(ledger, account, Credit);
      var debit := SumOf(ledger, account, Debit);
      var expected := credit - debit;
      var delta := cached - expected;
      if found.Some? {
        assert BalanceAt(accounts, ledger, found.value);
      } else {
        NoEntries(accounts, ledger, account);
        LastRowidCovers(ledger, account);
      }
      r := Reconciliation(cached, expected, credit, debit, delta != 0, delta);
    }

    method CreateCard(id: CardId, account: AccountId, limit: pos, currency: string) returns (reply: Reply<CardId>)
      requires Valid()
      modifies this
      ensures Valid()
      ensures var e := LedgerOperations.CreateCard(old(State()), id, account, limit, currency);
              && State() == e.tables && audits == old(audits) + e.audits && reply == e.reply
              && IssueOutcome(old(State()), id, account, limit, currency, e)
    {
      IssueDecided(State(), id, account, limit, currency);
      CreateCardKeeps(State(), id, account, limit, currency);
      if FindAccount(accounts, account).None? {
        return Rejected(AccountNotFound);
      }
      if FindCard(cards, id).Some? {
        return Rejected(IntegrityError);
      }
      cards := cards + [LedgerTables.Card(id, account, limit, currency)];
      audits := audits + [Audit(account, CardCreate(limit, currency), None)];
      reply := Created(id);
    }

    method ChargeCard(card: CardId, amount: pos, key: string) returns (reply: Reply<nat>)
      requires Valid()
      modifies this
      ensures Valid()
      ensures var e := LedgerOperations.ChargeCard(old(State()), card, amount, key);
              && State() == e.tables && audits == old(audits) + e.audits && reply == e.reply
              && ChargeVerdict(old(State()), card, amount, key, e.reply)
              && ChargeOutcome(old(State()), card, amount, key, e)
    {
      ChargeDecided(State(), card, amount, key);
      ChargeCardKeeps(State(), card, amount, key);
      var found := FindCard(cards, card);
      if found.None? {
        return Rejected(CardNotFound);
      }
      var existing := FindCharge(charges, key);
      if existing.Some? {
        return Replayed(existing.value);
      }
      var watermark := Watermark(transactions, card);
      var unsettled := UsageBeyond(charges, card, watermark);
      if unsettled + amount > cards[found.value].limit {
        return Rejected(CardLimitExceeded);
      }
      charges := charges + [Charge(card, amount, key)];
      audits := audits + [Audit(card, CardCharge(amount, key), None)];
      reply := Created(|charges| - 1);
    }

    method SettleCard(card: CardId) returns (reply: Reply<TxnId>)
      requires Valid()
      modifies this
      ensures Valid()
      ensures var e := LedgerOperations.SettleCard(old(State()), card);
              && State() == e.tables && audits == old(audits) + e.audits && reply == e.reply
              && SettleVerdict(old(State()), card, e.reply) && SettlementOutcome(old(State()), card, e)
    {
      SettleCardKeeps(State(), card);
      SettlementDecided(State(), card);
      SettlementCarriedOut(State(), card);
      reply := CheckAndSettle(card);
    }

    /** The checks in their order, and the settlement. */
    method CheckAndSettle(card: CardId) returns (reply: Reply<TxnId>)
      modifies this
      ensures var e := LedgerOperations.SettleCard(old(State()), card);
              && State() == e.tables && audits == old(audits) + e.audits && reply == e.reply
    {
      var found := FindCard(cards, card);
      if found.None? {
        return Rejected(CardNotFound);
      }
      var watermark := Watermark(transactions, card);
      var newWatermark := LastCharge(charges, card);
      if newWatermark <= watermark {
        return Rejected(NothingToSettle);
      }
      var settled := UsageBeyond(charges, card, watermark);
      if settled == 0 {
        return Rejected(NothingToSettle);
      }
      var a := FindAccount(accounts, cards[found.value].account);
      if a.None? {
        return Rejected(AccountNotFound);
      }
      var account := accounts[a.value];
      if account.balance < settled {
        return Rejected(InsufficientBalance);
      }
      if FindKey(transactions, Key.Settle(card, newWatermark)).Some? {
        return Rejected(IntegrityError);
      }
      reply := Created(|transactions|);
      Settle(a.value, card, newWatermark, settled);
    }

    /** The transaction, its single entry, the stored balance and the audit row of one settlement. */
    method Settle(i: nat, card: CardId, watermark: nat, amount: int)
      requires i < |accounts|
      modifies this
      ensures State() == PostSettlement(old(State()), i, card, watermark, amount)
      ensures audits == old(audits) + [Audit(old(accounts)[i].id, CardSettled(card, amount, watermark),
                                             Some(|old(transactions)|))]
    {
      var account, txn := accounts[i], |transactions|;
      transactions := transactions + [SettlementTransaction(account.id, card, watermark, amount)];
      ledger := ledger + [LedgerEntry(txn, account.id, Debit, amount, account.balance - amount)];
      accounts := accounts[i := account.(balance := account.balance - amount)];
      audits := audits + [Audit(account.id, CardSettled(card, amount, watermark), Some(txn))];
    }

    /** The loop over the accounts: skips those already closed, snapshots the others. */
    method CloseOpenAccounts(date: Date) returns (created: seq<AccountId>, rows: map<(AccountId, Date), Snapshot>)
      ensures created == Unclosed(State(), date, |accounts|)
      ensures rows == Close(State(), date, created)
    {
      ghost var t := State();
      created, rows := [], map[];
      for n := 0 to |accounts|
        invariant created == Unclosed(t, date, n)
        invariant rows == Close(t, date, created)
      {
        var a := accounts[n].id;
        UnclosedStep(t, date, n);
        if (a, date) !in snapshots {
          CloseOneMore(t, date, created, a);
          var credit := SumOf(ledger, a, Credit);
          var debit := SumOf(ledger, a, Debit);
          var row := Snapshot(credit - debit, credit, debit, LastRowid(ledger, a));
          assert row == SnapshotOf(t, a);
          rows := rows[(a, date) := row];
          created := created + [a];
        }
      }
    }

    method RunDailyClosing(date: Date) returns (reply: Reply<seq<AccountId>>)
      requires Valid()
      modifies this
      ensures Valid()
      ensures var e := LedgerOperations.RunDailyClosing(old(State()), date);
              && State() == e.tables && audits == old(audits) + e.audits && reply == e.reply
              && ClosingOutcome(old(State()), date, e)
    {
      ClosingDecided(State(), date);
      RunDailyClosingKeeps(State(), date);
      var created, rows := CloseOpenAccounts(date);
      snapshots := snapshots + rows;
      audits := audits + [Audit("SYSTEM_BATCH", DailyClose(date, |created|), None)];
      reply := Created(created);
    }
  }
}
