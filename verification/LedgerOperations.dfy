/** The six operations of the financial service as functions from the tables to an effect:
    the tables after commit or rollback, the audit rows written, and what the caller gets. */
module LedgerOperations {
  import opened Wrappers
  import opened LedgerTables

  datatype Error =
    | IdempotencyConflict
    | SelfTransfer
    | SenderNotFound
    | ReceiverNotFound
    | ReceiverBankMismatch
    | InvalidAmount
    | InsufficientBalance
    | AccountNotFound
    | CardNotFound
    | CardLimitExceeded
    | NothingToSettle
    | IntegrityError  // a unique or primary-key constraint failed; the session is rolled back

  /** A replay returns the row of an earlier request and writes nothing. */
  datatype Reply<+T> = Created(value: T) | Replayed(value: T) | Rejected(error: Error)

  datatype Action =
    | AccountCreate(initial: nat)
    | TransferDone(payload: Payload, key: Key)
    | TransferFailed(payload: Payload, key: Key, error: Error)
    | CardCreate(limit: int, currency: string)
    | CardCharge(amount: int, chargeKey: string)
    | CardSettled(card: CardId, settled: int, watermark: nat)
    | DailyClose(date: Date, closed: nat)

  datatype Audit = Audit(actor: string, action: Action, txn: Option<TxnId>)

  datatype Effect<+T> = Effect(tables: Tables, audits: seq<Audit>, reply: Reply<T>)

  // ---------------------------------------------------------------- accounts

  /** The generated account id and number and the chosen bank arrive as parameters. */
  function CreateAccount(t: Tables, id: AccountId, number: string, owner: string, bank: string, initial: nat):
    Effect<AccountId>
  {
    if FindAccount(t.accounts, id).Some? || FindNumber(t.accounts, number).Some?
       || (0 < initial && FindKey(t.transactions, Seed(id)).Some?) then
      Effect(t, [], Rejected(IntegrityError))
    else
      var t1 := t.(accounts := t.accounts + [Account(id, owner, bank, number, initial)]);
      if initial == 0 then
        Effect(t1, [Audit(owner, AccountCreate(initial), None)], Created(id))
      else
        var n := |t.transactions|;
        Effect(
          t1.(transactions := t.transactions + [SeedTransaction(id, initial)],
              ledger := t.ledger + [LedgerEntry(n, id, Credit, initial, initial)]),
          [Audit(owner, AccountCreate(initial), Some(n))],
          Created(id))
  }

  function SeedTransaction(id: AccountId, amount: int): Transaction {
    Transaction(Seed(id), SeedPayload(id, amount), id, id, amount, NoSettlement)
  }

  // ---------------------------------------------------------------- transfers

  /** The checks of transfer, in the order the service makes them. */
  function CheckTransfer(t: Tables, p: Payload): (r: Option<Error>)
    requires p.TransferPayload?
    ensures r.None? ==>
      var s, d := FindNumber(t.accounts, p.sender), FindNumber(t.accounts, p.receiver);
      s.Some? && d.Some? && s != d && 0 < p.amount <= t.accounts[s.value].balance
  {
    if p.sender == p.receiver then Some(SelfTransfer)
    else
      match FindNumber(t.accounts, p.sender)
      case None => Some(SenderNotFound)
      case Some(s) =>
        match FindNumber(t.accounts, p.receiver)
        case None => Some(ReceiverNotFound)
        case Some(d) =>
          if p.bank != t.accounts[d].bank then Some(ReceiverBankMismatch)
          else if p.amount <= 0 then Some(InvalidAmount)
          else if t.accounts[s].balance < p.amount then Some(InsufficientBalance)
          else None
  }

  function Transfer(t: Tables, p: Payload, key: Key): Effect<TxnId>
    requires p.TransferPayload?
  {
    match FindKey(t.transactions, key)
    case Some(n) =>
      if t.transactions[n].payload != p then
        Effect(t, [Audit(p.sender, TransferFailed(p, key, IdempotencyConflict), None)], Rejected(IdempotencyConflict))
      else
        Effect(t, [], Replayed(n))
    case None =>
      match CheckTransfer(t, p)
      case Some(e) => Effect(t, [Audit(p.sender, TransferFailed(p, key, e), None)], Rejected(e))
      case None =>
        var n := |t.transactions|;
        Effect(
          PostTransfer(t, FindNumber(t.accounts, p.sender).value, FindNumber(t.accounts, p.receiver).value, p, key),
          [Audit(p.sender, TransferDone(p, key), Some(n))],
          Created(n))
  }

  /** One transaction, a DEBIT and a CREDIT entry, and both stored balances, written together. */
  function PostTransfer(t: Tables, s: nat, d: nat, p: Payload, key: Key): Tables
    requires p.TransferPayload? && s < |t.accounts| && d < |t.accounts|
  {
    var from, to := t.accounts[s], t.accounts[d];
    var n := |t.transactions|;
    t.(accounts := t.accounts[s := from.(balance := from.balance - p.amount)]
                             [d := to.(balance := to.balance + p.amount)],
       transactions := t.transactions + [Transaction(key, p, from.id, to.id, p.amount, NoSettlement)],
       ledger := t.ledger + [LedgerEntry(n, from.id, Debit, p.amount, from.balance - p.amount)]
                          + [LedgerEntry(n, to.id, Credit, p.amount, to.balance + p.amount)])
  }

  // ---------------------------------------------------------------- cards

  function CreateCard(t: Tables, id: CardId, account: AccountId, limit: pos, currency: string): Effect<CardId> {
    if FindAccount(t.accounts, account).None? then Effect(t, [], Rejected(AccountNotFound))
    else if FindCard(t.cards, id).Some? then Effect(t, [], Rejected(IntegrityError))
    else
      Effect(t.(cards := t.cards + [Card(id, account, limit, currency)]),
             [Audit(account, CardCreate(limit, currency), None)],
             Created(id))
  }

  /** A replay is recognised by the key alone: neither the card nor the amount is compared. */
  function ChargeCard(t: Tables, card: CardId, amount: pos, key: string): Effect<nat> {
    match FindCard(t.cards, card)
    case None => Effect(t, [], Rejected(CardNotFound))
    case Some(c) =>
      match FindCharge(t.charges, key)
      case Some(k) => Effect(t, [], Replayed(k))
      case None =>
        var unsettled := UsageBeyond(t.charges, card, Watermark(t.transactions, card));
        if unsettled + amount > t.cards[c].limit then Effect(t, [], Rejected(CardLimitExceeded))
        else
          Effect(t.(charges := t.charges + [Charge(card, amount, key)]),
                 [Audit(card, CardCharge(amount, key), None)],
                 Created(|t.charges|))
  }

  function SettleCard(t: Tables, card: CardId): Effect<TxnId> {
    match FindCard(t.cards, card)
    case None => Effect(t, [], Rejected(CardNotFound))
    case Some(c) =>
      var watermark := Watermark(t.transactions, card);
      var last := LastCharge(t.charges, card);
      var amount := UsageBeyond(t.charges, card, watermark);
      if last <= watermark || amount == 0 then Effect(t, [], Rejected(NothingToSettle))
      else
        match FindAccount(t.accounts, t.cards[c].account)
        case None => Effect(t, [], Rejected(AccountNotFound))
        case Some(i) =>
          if t.accounts[i].balance < amount then Effect(t, [], Rejected(InsufficientBalance))
          else if FindKey(t.transactions, Settle(card, last)).Some? then Effect(t, [], Rejected(IntegrityError))
          else
            var n := |t.transactions|;
            Effect(PostSettlement(t, i, card, last, amount),
                   [Audit(t.accounts[i].id, CardSettled(card, amount, last), Some(n))],
                   Created(n))
  }

  /** A self-linked transaction with a single DEBIT entry, and the stored balance. */
  function PostSettlement(t: Tables, i: nat, card: CardId, watermark: nat, amount: int): Tables
    requires i < |t.accounts|
  {
    var owner := t.accounts[i];
    t.(accounts := t.accounts[i := owner.(balance := owner.balance - amount)],
       transactions := t.transactions + [SettlementTransaction(owner.id, card, watermark, amount)],
       ledger := t.ledger + [LedgerEntry(|t.transactions|, owner.id, Debit, amount, owner.balance - amount)])
  }

  function SettlementTransaction(owner: AccountId, card: CardId, watermark: nat, amount: int): Transaction {
    Transaction(Settle(card, watermark), SettlePayload(card, watermark, amount), owner, owner, amount,
                CardSettlement(card, watermark))
  }

  // ---------------------------------------------------------------- daily closing

  function SnapshotOf(t: Tables, a: AccountId): Snapshot {
    var credit, debit := SumOf(t.ledger, a, Credit), SumOf(t.ledger, a, Debit);
    Snapshot(credit - debit, credit, debit, LastRowid(t.ledger, a))
  }

  /** The accounts among the first n that have no snapshot for the date, in table order. */
  function Unclosed(t: Tables, date: Date, n: nat): seq<AccountId>
    requires n <= |t.accounts|
  {
    if n == 0 then []
    else
      Unclosed(t, date, n - 1) +
      if (t.accounts[n - 1].id, date) in t.snapshots then [] else [t.accounts[n - 1].id]
  }

  function Close(t: Tables, date: Date, ids: seq<AccountId>): map<(AccountId, Date), Snapshot> {
    map a | a in ids :: (a, date) := SnapshotOf(t, a)
  }

  function RunDailyClosing(t: Tables, date: Date): Effect<seq<AccountId>> {
    var created := Unclosed(t, date, |t.accounts|);
    Effect(t.(snapshots := t.snapshots + Close(t, date, created)),
           [Audit("SYSTEM_BATCH", DailyClose(date, |created|), None)],
           Created(created))
  }

  // ---------------------------------------------------------------- requests and runs

  datatype Request =
    | NewAccount(id: AccountId, number: string, owner: string, bank: string, initial: nat)
    | NewTransfer(sender: string, receiverBank: string, receiver: string, amount: int, key: Key)
    | NewCard(card: CardId, account: AccountId, limit: pos, currency: string)
    | NewCharge(card: CardId, charge: pos, chargeKey: string)
    | NewSettlement(card: CardId)
    | NewClosing(date: Date)

  datatype Outcome = Took(id: AnyId) | Repeated(id: AnyId) | Refused(error: Error)
  datatype AnyId = AccountNo(account: AccountId) | TxnNo(txn: TxnId) | CardNo(card: CardId) | ChargeNo(charge: nat)
                 | Closed(accounts: seq<AccountId>)

  function Wrap<T>(e: Effect<T>, f: T -> AnyId): (Tables, seq<Audit>, Outcome) {
    (e.tables, e.audits,
     match e.reply
     case Created(v) => Took(f(v))
     case Replayed(v) => Repeated(f(v))
     case Rejected(x) => Refused(x))
  }

  function Handle(t: Tables, r: Request): (Tables, seq<Audit>, Outcome) {
    match r
    case NewAccount(id, number, owner, bank, initial) =>
      Wrap(CreateAccount(t, id, number, owner, bank, initial), x => AccountNo(x))
    case NewTransfer(s, b, d, a, key) => Wrap(Transfer(t, TransferPayload(s, b, d, a), key), x => TxnNo(x))
    case NewCard(id, account, limit, currency) => Wrap(CreateCard(t, id, account, limit, currency), x => CardNo(x))
    case NewCharge(card, amount, key) => Wrap(ChargeCard(t, card, amount, key), x => ChargeNo(x))
    case NewSettlement(card) => Wrap(SettleCard(t, card), x => TxnNo(x))
    case NewClosing(date) => Wrap(RunDailyClosing(t, date), x => Closed(x))
  }

  function Step(t: Tables, r: Request): Tables { Handle(t, r).0 }

  function Answer(t: Tables, r: Request): Outcome { Handle(t, r).2 }

  /** The tables after a sequence of requests, whatever became of each of them. */
  function Run(t: Tables, rs: seq<Request>): Tables
    decreases |rs|
  {
    if rs == [] then t else Run(Step(t, rs[0]), rs[1..])
  }
}
