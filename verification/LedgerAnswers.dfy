/** When each request succeeds, which refusal it gets, and what it changes, read off the rows of the tables. */
module LedgerAnswers {
  import opened Wrappers
  import opened LedgerTables
  import opened LedgerOperations
  import opened LedgerInvariant

  // ---------------------------------------------------------------- rows

  ghost predicate KeyUsed(xs: seq<Transaction>, key: Key) {
    exists n :: 0 <= n < |xs| && xs[n].key == key
  }

  ghost predicate NumberUsed(rows: seq<Account>, number: string) {
    exists i :: 0 <= i < |rows| && rows[i].number == number
  }

  predicate HasNumber(rows: seq<Account>, i: int, number: string) {
    0 <= i < |rows| && rows[i].number == number
  }

  lemma {:induction false} NumberFound(rows: seq<Account>, number: string)
    requires UniqueAccounts(rows)
    ensures FindNumber(rows, number).Some? <==> NumberUsed(rows, number)
    ensures forall i :: HasNumber(rows, i, number) <==> FindNumber(rows, number) == Some(i)
  {
  }

  lemma {:induction false} KeyFound(xs: seq<Transaction>, key: Key)
    requires UniqueKeys(xs)
    ensures FindKey(xs, key).Some? <==> KeyUsed(xs, key)
    ensures forall n :: 0 <= n < |xs| && xs[n].key == key <==> FindKey(xs, key) == Some(n)
  {
  }

  // ---------------------------------------------------------------- transfers

  /** The row of the sender and the row of the receiver, which are different rows. */
  predicate Parties(rows: seq<Account>, p: Payload, s: int, d: int)
    requires p.TransferPayload?
  {
    HasNumber(rows, s, p.sender) && HasNumber(rows, d, p.receiver) && s != d
  }

  /** The answer to a transfer under a new key, first reason first. */
  ghost predicate FreshVerdict(rows: seq<Account>, p: Payload, e: Option<Error>)
    requires p.TransferPayload?
  {
    && (e == Some(SelfTransfer) <==> p.sender == p.receiver)
    && (e == Some(SenderNotFound) <==> p.sender != p.receiver && !NumberUsed(rows, p.sender))
    && (e == Some(ReceiverNotFound) <==>
          p.sender != p.receiver && NumberUsed(rows, p.sender) && !NumberUsed(rows, p.receiver))
    && (e == Some(ReceiverBankMismatch) <==> exists s, d :: Parties(rows, p, s, d) && rows[d].bank != p.bank)
    && (e == Some(InvalidAmount) <==>
          exists s, d :: Parties(rows, p, s, d) && rows[d].bank == p.bank && p.amount <= 0)
    && (e == Some(InsufficientBalance) <==>
          exists s, d :: Parties(rows, p, s, d) && rows[d].bank == p.bank && 0 < p.amount && rows[s].balance < p.amount)
    && (e == None <==>
          exists s, d :: Parties(rows, p, s, d) && rows[d].bank == p.bank && 0 < p.amount <= rows[s].balance)
  }

  lemma {:induction false} FreshTransferDecided(t: Tables, p: Payload)
    requires p.TransferPayload? && UniqueAccounts(t.accounts)
    ensures FreshVerdict(t.accounts, p, CheckTransfer(t, p))
  {
    NumberFound(t.accounts, p.sender);
    NumberFound(t.accounts, p.receiver);
    if NumberUsed(t.accounts, p.sender) && NumberUsed(t.accounts, p.receiver) && p.sender != p.receiver {
      var s, d := FindNumber(t.accounts, p.sender).value, FindNumber(t.accounts, p.receiver).value;
      assert Parties(t.accounts, p, s, d);
    }
  }

  /** The answer to any transfer: a used key decides alone. */
  ghost predicate TransferVerdict(t: Tables, p: Payload, key: Key, r: Reply<TxnId>)
    requires p.TransferPayload?
  {
    var xs := t.transactions;
    if KeyUsed(xs, key) then
      forall n :: 0 <= n < |xs| && xs[n].key == key ==>
        r == if xs[n].payload == p then Replayed(n) else Rejected(IdempotencyConflict)
    else
      && FreshVerdict(t.accounts, p, if r.Rejected? then Some(r.error) else None)
      && (!r.Rejected? ==> r == Created(|xs|))
  }

  lemma {:induction false} TransferDecided(t: Tables, p: Payload, key: Key)
    requires p.TransferPayload? && UniqueAccounts(t.accounts) && UniqueKeys(t.transactions)
    ensures TransferVerdict(t, p, key, Transfer(t, p, key).reply)
  {
    KeyFound(t.transactions, key);
    FreshTransferDecided(t, p);
  }

  /** What a transfer does to a row. */
  function Moved(a: Account, p: Payload): Account
    requires p.TransferPayload?
  {
    if a.number == p.sender then a.(balance := a.balance - p.amount)
    else if a.number == p.receiver then a.(balance := a.balance + p.amount)
    else a
  }

  predicate SameElsewhere(t: Tables, t': Tables) {
    t'.cards == t.cards && t'.charges == t.charges && t'.snapshots == t.snapshots
  }

  ghost predicate RowsMoved(rows: seq<Account>, rows': seq<Account>, p: Payload)
    requires p.TransferPayload?
  {
    |rows'| == |rows| && forall i :: 0 <= i < |rows| ==> rows'[i] == Moved(rows[i], p)
  }

  /** The tables after a transfer that was made: every row but the two stays, and the transaction and its two entries
      are the only rows added. */
  ghost predicate TransferMade(t: Tables, t': Tables, p: Payload, key: Key)
    requires p.TransferPayload?
  {
    && RowsMoved(t.accounts, t'.accounts, p) && SameElsewhere(t, t')
    && forall s, d :: Parties(t.accounts, p, s, d) ==>
         var from, to, n := t.accounts[s], t.accounts[d], |t.transactions|;
         && t'.transactions == t.transactions + [Transaction(key, p, from.id, to.id, p.amount, NoSettlement)]
         && t'.ledger == t.ledger + [LedgerEntry(n, from.id, Debit, p.amount, from.balance - p.amount),
                                     LedgerEntry(n, to.id, Credit, p.amount, to.balance + p.amount)]
  }

  lemma {:induction false} PostTransferMoves(t: Tables, s: nat, d: nat, p: Payload, key: Key)
    requires p.TransferPayload? && UniqueAccounts(t.accounts) && Parties(t.accounts, p, s, d)
    ensures TransferMade(t, PostTransfer(t, s, d, p, key), p, key)
  {
    var t' := PostTransfer(t, s, d, p, key);
    var n, from, to := |t.transactions|, t.accounts[s], t.accounts[d];
    var debit := LedgerEntry(n, from.id, Debit, p.amount, from.balance - p.amount);
    var credit := LedgerEntry(n, to.id, Credit, p.amount, to.balance + p.amount);
    assert t.ledger + [debit] + [credit] == t.ledger + [debit, credit];
    assert forall x, y :: Parties(t.accounts, p, x, y) ==> x == s && y == d;
  }

  /** A transfer is made or changes nothing; either is recorded, a replay is not. */
  ghost predicate TransferOutcome(t: Tables, p: Payload, key: Key, e: Effect<TxnId>)
    requires p.TransferPayload?
  {
    match e.reply
    case Created(n) =>
      TransferMade(t, e.tables, p, key) && e.audits == [Audit(p.sender, TransferDone(p, key), Some(n))]
    case Replayed(_) => e.tables == t && e.audits == []
    case Rejected(x) => e.tables == t && e.audits == [Audit(p.sender, TransferFailed(p, key, x), None)]
  }

  lemma {:induction false} TransferCarriedOut(t: Tables, p: Payload, key: Key)
    requires p.TransferPayload? && UniqueAccounts(t.accounts)
    ensures TransferOutcome(t, p, key, Transfer(t, p, key))
  {
    if FindKey(t.transactions, key).None? && CheckTransfer(t, p).None? {
      PostTransferMoves(t, FindNumber(t.accounts, p.sender).value, FindNumber(t.accounts, p.receiver).value, p, key);
    }
  }

  // ---------------------------------------------------------------- what a card owes

  /** No settlement of the card covers the charge at place k. */
  ghost predicate Unpaid(xs: seq<Transaction>, c: CardId, k: nat) {
    forall n :: 0 <= n < |xs| && Settles(xs[n], c) ==> xs[n].settlement.watermark <= k
  }

  /** The sum of the card's charges that no settlement covers. */
  ghost function Due(cs: seq<Charge>, xs: seq<Transaction>, c: CardId): int {
    if cs == [] then 0
    else
      var k := |cs| - 1;
      Due(cs[..k], xs, c) + if cs[k].card == c && Unpaid(xs, c, k) then cs[k].amount else 0
  }

  lemma {:induction false} DueIsUsage(cs: seq<Charge>, xs: seq<Transaction>, c: CardId)
    ensures Due(cs, xs, c) == UsageBeyond(cs, c, Watermark(xs, c))
  {
    WatermarkIsMax(xs, c);
    if cs != [] {
      DueIsUsage(cs[..|cs| - 1], xs, c);
    }
  }

  /** The card's last charge. */
  predicate IsLastCharge(cs: seq<Charge>, c: CardId, k: int) {
    0 <= k < |cs| && cs[k].card == c && forall j :: k < j < |cs| ==> cs[j].card != c
  }

  lemma {:induction false} NothingBeyondLast(cs: seq<Charge>, c: CardId, w: nat)
    requires LastCharge(cs, c) <= w
    ensures UsageBeyond(cs, c, w) == 0
  {
    LastChargeIsMax(cs, c);
    if |cs| > w {
      assert cs[|cs| - 1].card != c;
      NothingBeyondLast(cs[..|cs| - 1], c, w);
    }
  }

  lemma {:induction false} LastChargeFound(cs: seq<Charge>, c: CardId)
    ensures forall k :: IsLastCharge(cs, c, k) <==> k == LastCharge(cs, c) - 1 && 0 <= k
  {
    LastChargeIsMax(cs, c);
  }

  predicate HasCard(cards: seq<Card>, i: int, c: CardId) {
    0 <= i < |cards| && cards[i].id == c
  }

  lemma {:induction false} CardFound(cards: seq<Card>, c: CardId)
    requires UniqueCards(cards)
    ensures FindCard(cards, c).Some? <==> KnownCard(cards, c)
    ensures forall i :: HasCard(cards, i, c) <==> FindCard(cards, c) == Some(i)
  {
  }

  predicate HasId(rows: seq<Account>, i: int, id: AccountId) {
    0 <= i < |rows| && rows[i].id == id
  }

  lemma {:induction false} AccountFound(rows: seq<Account>, id: AccountId)
    requires UniqueAccounts(rows)
    ensures FindAccount(rows, id).Some? <==> Known(rows, id)
    ensures forall i :: HasId(rows, i, id) <==> FindAccount(rows, id) == Some(i)
  {
  }

  // ---------------------------------------------------------------- charges

  /** A charge under a new key is accepted exactly up to the card's limit. */
  ghost predicate ChargeVerdict(t: Tables, card: CardId, amount: int, key: string, r: Reply<nat>) {
    && (r == Rejected(CardNotFound) <==> !KnownCard(t.cards, card))
    && (KnownCard(t.cards, card) ==>
          forall k :: 0 <= k < |t.charges| && t.charges[k].key == key ==> r == Replayed(k))
    && ((forall k :: 0 <= k < |t.charges| ==> t.charges[k].key != key) ==>
          forall i :: HasCard(t.cards, i, card) ==>
            r == if Due(t.charges, t.transactions, card) + amount <= t.cards[i].limit then Created(|t.charges|)
                 else Rejected(CardLimitExceeded))
  }

  ghost predicate ChargeOutcome(t: Tables, card: CardId, amount: int, key: string, e: Effect<nat>) {
    if e.reply.Created? then
      && e.tables.charges == t.charges + [Charge(card, amount, key)]
      && e.tables.accounts == t.accounts && e.tables.transactions == t.transactions && e.tables.ledger == t.ledger
      && e.tables.cards == t.cards && e.tables.snapshots == t.snapshots
      && e.audits == [Audit(card, CardCharge(amount, key), None)]
    else e.tables == t && e.audits == []
  }

  lemma {:induction false} ChargeDecided(t: Tables, card: CardId, amount: pos, key: string)
    requires UniqueCards(t.cards) && UniqueCharges(t.charges)
    ensures ChargeVerdict(t, card, amount, key, ChargeCard(t, card, amount, key).reply)
    ensures ChargeOutcome(t, card, amount, key, ChargeCard(t, card, amount, key))
  {
    CardFound(t.cards, card);
    DueIsUsage(t.charges, t.transactions, card);
  }

  // ---------------------------------------------------------------- settlements

  /** The card's row, its account's row and its last charge. */
  predicate Settling(t: Tables, card: CardId, c: int, i: int, k: int) {
    HasCard(t.cards, c, card) && HasId(t.accounts, i, t.cards[c].account) && IsLastCharge(t.charges, card, k)
  }

  /** The answer to a settlement: it pays what is due, out of the card's own account. */
  ghost predicate SettleVerdict(t: Tables, card: CardId, r: Reply<TxnId>) {
    var due := Due(t.charges, t.transactions, card);
    && (r == Rejected(CardNotFound) <==> !KnownCard(t.cards, card))
    && (r == Rejected(NothingToSettle) <==> KnownCard(t.cards, card) && due == 0)
    && (r == Rejected(AccountNotFound) <==>
          due != 0 && exists c :: HasCard(t.cards, c, card) && !Known(t.accounts, t.cards[c].account))
    && (due != 0 ==> forall c, i, k :: Settling(t, card, c, i, k) ==>
          r == if t.accounts[i].balance < due then Rejected(InsufficientBalance)
               else if KeyUsed(t.transactions, Settle(card, k + 1)) then Rejected(IntegrityError)
               else Created(|t.transactions|))
  }

  /** What a settlement does to a row. */
  function Paid(a: Account, owner: AccountId, amount: int): Account {
    if a.id == owner then a.(balance := a.balance - amount) else a
  }

  ghost predicate RowsPaid(rows: seq<Account>, rows': seq<Account>, owner: AccountId, amount: int) {
    |rows'| == |rows| && forall i :: 0 <= i < |rows| ==> rows'[i] == Paid(rows[i], owner, amount)
  }

  /** The tables after a settlement: only the account of the card pays, and it pays exactly what is due. */
  ghost predicate SettlementMade(t: Tables, t': Tables, card: CardId) {
    var due, n := Due(t.charges, t.transactions, card), |t.transactions|;
    && SameElsewhere(t, t')
    && forall c, i, k :: Settling(t, card, c, i, k) ==>
         var owner := t.cards[c].account;
         && RowsPaid(t.accounts, t'.accounts, owner, due)
         && t'.transactions == t.transactions + [
              Transaction(Settle(card, k + 1), SettlePayload(card, k + 1, due), owner, owner, due,
                          CardSettlement(card, k + 1))]
         && t'.ledger == t.ledger + [LedgerEntry(n, owner, Debit, due, t.accounts[i].balance - due)]
  }

  /** A settlement is made and recorded, or changes nothing. */
  ghost predicate SettlementOutcome(t: Tables, card: CardId, e: Effect<TxnId>) {
    match e.reply
    case Created(n) =>
      && SettlementMade(t, e.tables, card)
      && forall c, i, k :: Settling(t, card, c, i, k) ==>
           e.audits == [Audit(t.cards[c].account,
                              CardSettled(card, Due(t.charges, t.transactions, card), k + 1), Some(n))]
    case _ => e.tables == t && e.audits == []
  }

  lemma {:induction false} SettlementDecided(t: Tables, card: CardId)
    requires UniqueCards(t.cards) && UniqueAccounts(t.accounts) && UniqueKeys(t.transactions)
    ensures SettleVerdict(t, card, SettleCard(t, card).reply)
  {
    CardFound(t.cards, card);
    DueIsUsage(t.charges, t.transactions, card);
    var w := Watermark(t.transactions, card);
    if LastCharge(t.charges, card) <= w { NothingBeyondLast(t.charges, card, w); }
    LastChargeFound(t.charges, card);
    if FindCard(t.cards, card).Some? {
      AccountFound(t.accounts, t.cards[FindCard(t.cards, card).value].account);
    }
    KeyFound(t.transactions, Settle(card, LastCharge(t.charges, card)));
  }

  lemma {:induction false} PostSettlementPays(t: Tables, card: CardId, c: nat, i: nat, k: nat)
    requires UniqueCards(t.cards) && UniqueAccounts(t.accounts) && Settling(t, card, c, i, k)
    ensures SettlementMade(t, PostSettlement(t, i, card, k + 1, Due(t.charges, t.transactions, card)), card)
  {
    assert forall x, y, z :: Settling(t, card, x, y, z) ==> x == c && y == i && z == k;
  }

  lemma {:induction false} SettlementCarriedOut(t: Tables, card: CardId)
    requires UniqueCards(t.cards) && UniqueAccounts(t.accounts)
    ensures SettlementOutcome(t, card, SettleCard(t, card))
  {
    if SettleCard(t, card).reply.Created? {
      var c, k := FindCard(t.cards, card).value, LastCharge(t.charges, card) - 1;
      var i := FindAccount(t.accounts, t.cards[c].account).value;
      DueIsUsage(t.charges, t.transactions, card);
      LastChargeFound(t.charges, card);
      assert Settling(t, card, c, i, k);
      PostSettlementPays(t, card, c, i, k);
      assert forall x, y, z :: Settling(t, card, x, y, z) ==> x == c && y == i && z == k;
    }
  }

  // ---------------------------------------------------------------- who pays for a card

  /** A settlement is paid by the account of the card it settles. */
  ghost predicate PayerAt(cards: seq<Card>, x: Transaction) {
    x.settlement.CardSettlement? ==>
      && x.sender == x.receiver
      && exists c :: HasCard(cards, c, x.settlement.card) && cards[c].account == x.sender
  }

  ghost predicate Payers(t: Tables) {
    forall n :: 0 <= n < |t.transactions| ==> PayerAt(t.cards, t.transactions[n])
  }

  lemma {:induction false} PayersKept(t: Tables, t': Tables)
    requires Payers(t) && t.cards <= t'.cards
    requires t.transactions <= t'.transactions && |t'.transactions| <= |t.transactions| + 1
    requires |t'.transactions| > |t.transactions| ==> PayerAt(t'.cards, t'.transactions[|t.transactions|])
    ensures Payers(t')
  {
    forall n | 0 <= n < |t'.transactions| ensures PayerAt(t'.cards, t'.transactions[n]) {
      if n < |t.transactions| {
        assert PayerAt(t.cards, t.transactions[n]);
        if t.transactions[n].settlement.CardSettlement? {
          var x := t.transactions[n];
          var c :| HasCard(t.cards, c, x.settlement.card) && t.cards[c].account == x.sender;
          assert HasCard(t'.cards, c, x.settlement.card);
        }
      }
    }
  }

  lemma {:induction false} StepPayers(t: Tables, r: Request)
    requires Payers(t)
    ensures Payers(Step(t, r))
  {
    var t' := Step(t, r);
    match r
    case NewTransfer(s, b, d, a, key) =>
      assert t' == Transfer(t, TransferPayload(s, b, d, a), key).tables;
      PayersKept(t, t');
    case NewSettlement(card) =>
      assert t' == SettleCard(t, card).tables;
      SettlementPayer(t, card);
      PayersKept(t, t');
    case _ => PayersKept(t, t');
  }

  lemma {:induction false} SettlementPayer(t: Tables, card: CardId)
    ensures var t' := SettleCard(t, card).tables;
            && t'.cards == t.cards && t.transactions <= t'.transactions && |t'.transactions| <= |t.transactions| + 1
            && (|t'.transactions| > |t.transactions| ==> PayerAt(t'.cards, t'.transactions[|t.transactions|]))
  {
    if SettleCard(t, card).reply.Created? {
      assert HasCard(t.cards, FindCard(t.cards, card).value, card);
    }
  }

  lemma {:induction false} RunPayers(t: Tables, rs: seq<Request>)
    requires Payers(t)
    ensures Payers(Run(t, rs))
    decreases |rs|
  {
    if rs != [] {
      StepPayers(t, rs[0]);
      RunPayers(Step(t, rs[0]), rs[1..]);
    }
  }

  /** In every reachable state each settlement was paid by the account of the card it settles. */
  lemma {:induction false} CardsPayThemselves(rs: seq<Request>, n: nat, c: nat)
    requires var t := Run(EMPTY_TABLES, rs);
             n < |t.transactions| && c < |t.cards| && Settles(t.transactions[n], t.cards[c].id)
    ensures var t := Run(EMPTY_TABLES, rs);
            t.transactions[n].sender == t.transactions[n].receiver == t.cards[c].account
  {
    var t := Run(EMPTY_TABLES, rs);
    RunPayers(EMPTY_TABLES, rs);
    LedgerInvariant.Reachable(rs);
    assert PayerAt(t.cards, t.transactions[n]);
  }

  // ---------------------------------------------------------------- accounts, cards and closings

  /** Opening an account adds its row, and its deposit if there is one, unless an id, number or key is taken. */
  ghost predicate OpeningOutcome(
    t: Tables, id: AccountId, number: string, owner: string, bank: string, initial: nat, e: Effect<AccountId>)
  {
    var t', n := e.tables, |t.transactions|;
    if Known(t.accounts, id) || NumberUsed(t.accounts, number) || (0 < initial && KeyUsed(t.transactions, Seed(id)))
    then e == Effect(t, [], Rejected(IntegrityError))
    else
      && e.reply == Created(id) && SameElsewhere(t, t')
      && t'.accounts == t.accounts + [Account(id, owner, bank, number, initial)]
      && e.audits == [Audit(owner, AccountCreate(initial), if initial == 0 then None else Some(n))]
      && (initial == 0 ==> t'.transactions == t.transactions && t'.ledger == t.ledger)
      && (initial != 0 ==>
            && t'.transactions ==
                 t.transactions + [Transaction(Seed(id), SeedPayload(id, initial), id, id, initial, NoSettlement)]
            && t'.ledger == t.ledger + [LedgerEntry(n, id, Credit, initial, initial)])
  }

  lemma {:induction false} OpeningDecided(
    t: Tables, id: AccountId, number: string, owner: string, bank: string, initial: nat)
    requires UniqueAccounts(t.accounts) && UniqueKeys(t.transactions)
    ensures OpeningOutcome(t, id, number, owner, bank, initial, CreateAccount(t, id, number, owner, bank, initial))
  {
    AccountFound(t.accounts, id);
    NumberFound(t.accounts, number);
    KeyFound(t.transactions, Seed(id));
  }

  ghost predicate IssueOutcome(
    t: Tables, id: CardId, account: AccountId, limit: int, currency: string, e: Effect<CardId>)
  {
    if !Known(t.accounts, account) then e == Effect(t, [], Rejected(AccountNotFound))
    else if KnownCard(t.cards, id) then e == Effect(t, [], Rejected(IntegrityError))
    else
      e == Effect(t.(cards := t.cards + [Card(id, account, limit, currency)]),
                  [Audit(account, CardCreate(limit, currency), None)], Created(id))
  }

  lemma {:induction false} IssueDecided(t: Tables, id: CardId, account: AccountId, limit: pos, currency: string)
    requires UniqueAccounts(t.accounts) && UniqueCards(t.cards)
    ensures IssueOutcome(t, id, account, limit, currency, CreateCard(t, id, account, limit, currency))
  {
    AccountFound(t.accounts, account);
    CardFound(t.cards, id);
  }

  /** The accounts that have no snapshot for the date. */
  ghost predicate Open(t: Tables, date: Date, a: AccountId) {
    Known(t.accounts, a) && (a, date) !in t.snapshots
  }

  /** A closing adds a snapshot of every open account, of its sums so far, and touches nothing else. */
  ghost predicate ClosingOutcome(t: Tables, date: Date, e: Effect<seq<AccountId>>) {
    var t' := e.tables;
    && t' == t.(snapshots := t'.snapshots) && e.reply.Created?
    && var created := e.reply.value;
       && (forall a :: a in created <==> Open(t, date, a))
       && (forall i, j :: 0 <= i < j < |created| ==> created[i] != created[j])
       && e.audits == [Audit("SYSTEM_BATCH", DailyClose(date, |created|), None)]
       && SnapshotsAdded(t, date, created, t'.snapshots)
  }

  ghost predicate SnapshotsAdded(
    t: Tables, date: Date, created: seq<AccountId>, snapshots: map<(AccountId, Date), Snapshot>)
  {
    forall a, d ::
      if (a, d) in t.snapshots then (a, d) in snapshots && snapshots[(a, d)] == t.snapshots[(a, d)]
      else
        && ((a, d) in snapshots <==> a in created && d == date)
        && ((a, d) in snapshots ==>
              snapshots[(a, d)] == Snapshot(Net(t.ledger, a), SumOf(t.ledger, a, Credit), SumOf(t.ledger, a, Debit),
                                            LastRowid(t.ledger, a)))
  }

  lemma {:induction false} CloseAdds(t: Tables, date: Date, created: seq<AccountId>)
    requires forall a :: a in created ==> (a, date) !in t.snapshots
    ensures SnapshotsAdded(t, date, created, t.snapshots + Close(t, date, created))
  {
    var rows := Close(t, date, created);
    forall a, d ensures (a, d) in rows <==> a in created && d == date {}
  }

  lemma {:induction false} UnclosedOnce(t: Tables, date: Date, n: nat)
    requires UniqueAccounts(t.accounts) && n <= |t.accounts|
    ensures var ids := Unclosed(t, date, n);
            && (forall a :: a in ids <==>
                  (a, date) !in t.snapshots && exists i :: 0 <= i < n && t.accounts[i].id == a)
            && forall i, j :: 0 <= i < j < |ids| ==> ids[i] != ids[j]
  {
    if n > 0 {
      UnclosedOnce(t, date, n - 1);
    }
  }

  lemma {:induction false} ClosingDecided(t: Tables, date: Date)
    requires UniqueAccounts(t.accounts)
    ensures ClosingOutcome(t, date, RunDailyClosing(t, date))
  {
    UnclosedOnce(t, date, |t.accounts|);
    CloseAdds(t, date, Unclosed(t, date, |t.accounts|));
  }
}