/** The tables of the financial service and the queries its operations run on them.

    Every table is append-only, so a SQLite rowid is a position: row k of a table has
    rowid k + 1.  A transaction is identified by its position in its table.  Queries that
    the service writes as SELECT statements are recursive functions over the rows. */
module LedgerTables {
  import opened Wrappers

  type AccountId = string
  type CardId = string
  type TxnId = nat
  type Date = int
  type pos = x: int | 0 < x witness 1

  /** An idempotency key.  Clients choose the text freely, so a transfer may carry any of the
      three forms; the service itself derives only the last two. */
  datatype Key =
    | Client(text: string)
    | Seed(account: AccountId)
    | Settle(card: CardId, watermark: nat)

  /** The dictionary that is hashed into payload_hash; the hash is taken to be injective. */
  datatype Payload =
    | TransferPayload(sender: string, bank: string, receiver: string, amount: int)
    | SeedPayload(account: AccountId, amount: int)
    | SettlePayload(card: CardId, watermark: nat, amount: int)

  datatype Account = Account(id: AccountId, owner: string, bank: string, number: string, balance: int)
  datatype Card = Card(id: CardId, account: AccountId, limit: int, currency: string)
  datatype Settlement = NoSettlement | CardSettlement(card: CardId, watermark: nat)
  datatype Transaction = Transaction(
    key: Key, payload: Payload, sender: AccountId, receiver: AccountId, amount: int, settlement: Settlement)
  datatype EntryType = Debit | Credit
  datatype LedgerEntry = LedgerEntry(txn: TxnId, account: AccountId, entryType: EntryType, amount: int, running: int)
  datatype Charge = Charge(card: CardId, amount: int, key: string)
  datatype Snapshot = Snapshot(closing: int, credit: int, debit: int, lastRowid: Option<nat>)

  datatype Tables = Tables(
    accounts: seq<Account>,
    cards: seq<Card>,
    transactions: seq<Transaction>,
    ledger: seq<LedgerEntry>,
    charges: seq<Charge>,
    snapshots: map<(AccountId, Date), Snapshot>)

  const EMPTY_TABLES := Tables([], [], [], [], [], map[])

  // ---------------------------------------------------------------- lookups

  function FindFirst<T>(rows: seq<T>, p: T -> bool): (r: Option<nat>)
    ensures r.Some? ==> r.value < |rows| && p(rows[r.value])
    ensures r.Some? ==> forall i :: 0 <= i < r.value ==> !p(rows[i])
    ensures r.None? ==> forall i :: 0 <= i < |rows| ==> !p(rows[i])
  {
    if rows == [] then None
    else
      match FindFirst(rows[..|rows| - 1], p)
      case Some(i) => Some(i)
      case None => if p(rows[|rows| - 1]) then Some(|rows| - 1) else None
  }

  function FindAccount(rows: seq<Account>, id: AccountId): Option<nat> {
    FindFirst(rows, (a: Account) => a.id == id)
  }

  function FindNumber(rows: seq<Account>, number: string): Option<nat> {
    FindFirst(rows, (a: Account) => a.number == number)
  }

  function FindCard(rows: seq<Card>, id: CardId): Option<nat> {
    FindFirst(rows, (c: Card) => c.id == id)
  }

  function FindKey(rows: seq<Transaction>, key: Key): Option<TxnId> {
    FindFirst(rows, (x: Transaction) => x.key == key)
  }

  function FindCharge(rows: seq<Charge>, key: string): Option<nat> {
    FindFirst(rows, (c: Charge) => c.key == key)
  }

  // ---------------------------------------------------------------- ledger sums

  /** SUM(amount) over one account's entries of one type. */
  function SumOf(es: seq<LedgerEntry>, a: AccountId, k: EntryType): int {
    if es == [] then 0
    else
      var e := es[|es| - 1];
      SumOf(es[..|es| - 1], a, k) + if e.account == a && e.entryType == k then e.amount else 0
  }

  /** The balance recomputed from the whole ledger. */
  function Net(es: seq<LedgerEntry>, a: AccountId): int {
    SumOf(es, a, Credit) - SumOf(es, a, Debit)
  }

  function Signed(e: LedgerEntry): int {
    if e.entryType == Credit then e.amount else -e.amount
  }

  /** MAX(rowid) over one account's entries, NULL when it has none. */
  function LastRowid(es: seq<LedgerEntry>, a: AccountId): Option<nat> {
    if es == [] then None
    else if es[|es| - 1].account == a then Some(|es|)
    else LastRowid(es[..|es| - 1], a)
  }

  // ---------------------------------------------------------------- card sums

  function ChargeTotal(cs: seq<Charge>, c: CardId): int {
    if cs == [] then 0
    else ChargeTotal(cs[..|cs| - 1], c) + if cs[|cs| - 1].card == c then cs[|cs| - 1].amount else 0
  }

  /** SUM(amount) over one card's charges whose rowid is strictly beyond a watermark. */
  function UsageBeyond(cs: seq<Charge>, c: CardId, watermark: nat): int {
    if |cs| <= watermark then 0
    else UsageBeyond(cs[..|cs| - 1], c, watermark) + if cs[|cs| - 1].card == c then cs[|cs| - 1].amount else 0
  }

  /** MAX(rowid) over one card's charges; 0 stands for NULL. */
  function LastCharge(cs: seq<Charge>, c: CardId): nat {
    if cs == [] then 0 else if cs[|cs| - 1].card == c then |cs| else LastCharge(cs[..|cs| - 1], c)
  }

  predicate Settles(x: Transaction, c: CardId) {
    x.settlement.CardSettlement? && x.settlement.card == c
  }

  /** The highest watermark among one card's settlements, 0 when there is none. */
  function Watermark(xs: seq<Transaction>, c: CardId): nat {
    if xs == [] then 0
    else
      var rest := Watermark(xs[..|xs| - 1], c);
      var x := xs[|xs| - 1];
      if Settles(x, c) && rest < x.settlement.watermark then x.settlement.watermark else rest
  }

  function SettledTotal(xs: seq<Transaction>, c: CardId): int {
    if xs == [] then 0
    else SettledTotal(xs[..|xs| - 1], c) + if Settles(xs[|xs| - 1], c) then xs[|xs| - 1].amount else 0
  }

  // ---------------------------------------------------------------- appending a row

  lemma {:induction false} NetAppend(es: seq<LedgerEntry>, e: LedgerEntry, a: AccountId)
    ensures Net(es + [e], a) == Net(es, a) + if e.account == a then Signed(e) else 0
  {
    assert (es + [e])[..|es|] == es;
  }

  lemma {:induction false} ChargeAppend(cs: seq<Charge>, x: Charge, c: CardId)
    ensures ChargeTotal(cs + [x], c) == ChargeTotal(cs, c) + if x.card == c then x.amount else 0
    ensures LastCharge(cs + [x], c) == if x.card == c then |cs| + 1 else LastCharge(cs, c)
    ensures forall w: nat :: w <= |cs| ==>
      UsageBeyond(cs + [x], c, w) == UsageBeyond(cs, c, w) + if x.card == c then x.amount else 0
  {
    assert (cs + [x])[..|cs|] == cs;
  }

  lemma {:induction false} TransactionAppend(xs: seq<Transaction>, x: Transaction, c: CardId)
    ensures SettledTotal(xs + [x], c) == SettledTotal(xs, c) + if Settles(x, c) then x.amount else 0
    ensures Watermark(xs + [x], c) ==
      if Settles(x, c) && Watermark(xs, c) < x.settlement.watermark then x.settlement.watermark else Watermark(xs, c)
  {
    assert (xs + [x])[..|xs|] == xs;
  }

  // ---------------------------------------------------------------- what the queries mean

  /** The watermark is reached by a settlement (unless it is 0) and bounds all of them. */
  lemma {:induction false} WatermarkIsMax(xs: seq<Transaction>, c: CardId)
    ensures forall i :: 0 <= i < |xs| && Settles(xs[i], c) ==> xs[i].settlement.watermark <= Watermark(xs, c)
    ensures Watermark(xs, c) != 0 ==>
      exists i :: 0 <= i < |xs| && Settles(xs[i], c) && xs[i].settlement.watermark == Watermark(xs, c)
  {
    if xs != [] {
      var pre := xs[..|xs| - 1];
      WatermarkIsMax(pre, c);
      if Watermark(pre, c) != 0 {
        var i :| 0 <= i < |pre| && Settles(pre[i], c) && pre[i].settlement.watermark == Watermark(pre, c);
        assert Settles(xs[i], c);
      }
    }
  }

  /** A card's charges split at any watermark into the covered part and the rest. */
  lemma {:induction false} UsageSplits(cs: seq<Charge>, c: CardId, w: nat)
    requires w <= |cs|
    ensures ChargeTotal(cs, c) == ChargeTotal(cs[..w], c) + UsageBeyond(cs, c, w)
  {
    if w == |cs| {
      assert cs[..w] == cs;
    } else {
      UsageSplits(cs[..|cs| - 1], c, w);
      assert cs[..|cs| - 1][..w] == cs[..w];
    }
  }

  /** LastCharge is the greatest rowid of the card's charges, so nothing is used beyond it. */
  lemma {:induction false} LastChargeIsMax(cs: seq<Charge>, c: CardId)
    ensures LastCharge(cs, c) <= |cs|
    ensures LastCharge(cs, c) != 0 ==> cs[LastCharge(cs, c) - 1].card == c
    ensures forall i :: LastCharge(cs, c) <= i < |cs| ==> cs[i].card != c
    ensures UsageBeyond(cs, c, LastCharge(cs, c)) == 0
  {
    if cs != [] && cs[|cs| - 1].card != c {
      LastChargeIsMax(cs[..|cs| - 1], c);
    }
  }

  /** The watermark of the last entry covers every entry of the account. */
  lemma {:induction false} LastRowidCovers(es: seq<LedgerEntry>, a: AccountId)
    ensures var r := LastRowid(es, a);
            match r
            case None => forall i :: 0 <= i < |es| ==> es[i].account != a
            case Some(k) => 1 <= k <= |es| && es[k - 1].account == a && forall i :: k <= i < |es| ==> es[i].account != a
    ensures forall k: EntryType ::
      SumOf(es, a, k) ==
        match LastRowid(es, a) case None => 0 case Some(n) => if n <= |es| then SumOf(es[..n], a, k) else 0
  {
    if es != [] {
      if es[|es| - 1].account == a {
        assert es[..|es|] == es;
      } else {
        var pre := es[..|es| - 1];
        LastRowidCovers(pre, a);
        if LastRowid(pre, a).Some? {
          assert pre[..LastRowid(pre, a).value] == es[..LastRowid(pre, a).value];
        }
      }
    }
  }
}
