/** What the ledger service promises, over every sequence of requests from the empty store. */
module LedgerTheorems {
  import opened Wrappers
  import opened LedgerTables
  import opened LedgerOperations
  import opened LedgerInvariant

  // ---------------------------------------------------------------- balances

  /** Each account's stored balance is its CREDIT sum minus its DEBIT sum, is never negative, and is
      the running balance of the account's last ledger entry. */
  lemma {:induction false} BalancesOfRun(rs: seq<Request>, i: nat)
    requires i < |Run(EMPTY_TABLES, rs).accounts|
    ensures var t := Run(EMPTY_TABLES, rs);
            var a := t.accounts[i];
            && a.balance == SumOf(t.ledger, a.id, Credit) - SumOf(t.ledger, a.id, Debit)
            && 0 <= a.balance
            && match LastRowid(t.ledger, a.id)
               case None => a.balance == 0
               case Some(k) => 1 <= k <= |t.ledger| && t.ledger[k - 1].running == a.balance
  {
    RunAgrees(rs);
    BalanceShown(Run(EMPTY_TABLES, rs).accounts, Run(EMPTY_TABLES, rs).ledger, i);
  }

  lemma {:induction false} RunAgrees(rs: seq<Request>)
    ensures AccountsAgree(Run(EMPTY_TABLES, rs).accounts, Run(EMPTY_TABLES, rs).ledger)
  {
    Reachable(rs);
  }

  lemma {:induction false} BalanceShown(rows: seq<Account>, es: seq<LedgerEntry>, i: nat)
    requires AccountsAgree(rows, es) && i < |rows|
    ensures var a := rows[i];
            && a.balance == SumOf(es, a.id, Credit) - SumOf(es, a.id, Debit)
            && 0 <= a.balance
            && match LastRowid(es, a.id)
               case None => a.balance == 0
               case Some(k) => 1 <= k <= |es| && es[k - 1].running == a.balance
  {
    var a := rows[i].id;
    assert BalanceAt(rows, es, i);
    LastRowidCovers(es, a);
    match LastRowid(es, a)
    case None =>
    case Some(k) =>
      assert EntryAt(rows, es, k - 1);
  }

  /** Each entry's running balance is its account's net sum over the entries up to and including it. */
  lemma {:induction false} RunningBalancesOfRun(rs: seq<Request>, k: nat)
    requires k < |Run(EMPTY_TABLES, rs).ledger|
    ensures var es := Run(EMPTY_TABLES, rs).ledger;
            es[k].running == Net(es[..k + 1], es[k].account) && 0 < es[k].amount
  {
    var t := Run(EMPTY_TABLES, rs);
    Reachable(rs);
    assert EntryAt(t.accounts, t.ledger, k);
  }

  /** Money is conserved: balances total the initial deposits minus the card settlements, and every
      transaction has exactly the entries of its kind. */
  lemma {:induction false} MoneyIsConserved(rs: seq<Request>)
    ensures var t := Run(EMPTY_TABLES, rs);
            && TotalBalance(t.accounts) == Inflow(t.transactions)
            && (forall n {:trigger t.transactions[n]} :: 0 <= n < |t.transactions| ==>
                  Postings(t.ledger, n) == Expected(t.transactions[n]))
  {
    var t := Run(EMPTY_TABLES, rs);
    Reachable(rs);
    forall n | 0 <= n < |t.transactions|
      ensures Postings(t.ledger, n) == Expected(t.transactions[n])
    {
      assert PostingsMatch(t.transactions, t.ledger, n);
    }
  }

  // ---------------------------------------------------------------- append-only history

  ghost predicate Extends(t: Tables, t': Tables) {
    && t.transactions <= t'.transactions
    && t.ledger <= t'.ledger
    && t.charges <= t'.charges
    && t.cards <= t'.cards
    && SameIds(t.accounts, t'.accounts)
    && (forall k :: k in t.snapshots ==> k in t'.snapshots && t'.snapshots[k] == t.snapshots[k])
  }

  lemma {:induction false} StepExtends(t: Tables, r: Request)
    ensures Extends(t, Step(t, r))
  {
    match r
    case NewClosing(date) => ClosingExtends(t, date);
    case NewTransfer(s, b, d, a, key) => TransferExtends(t, TransferPayload(s, b, d, a), key);
    case NewSettlement(card) => SettlementExtends(t, card);
    case _ =>
  }

  lemma {:induction false} TransferExtends(t: Tables, p: Payload, key: Key)
    requires p.TransferPayload?
    ensures Extends(t, Transfer(t, p, key).tables)
  {
  }

  lemma {:induction false} SettlementExtends(t: Tables, card: CardId)
    ensures Extends(t, SettleCard(t, card).tables)
  {
  }

  lemma {:induction false} ClosingExtends(t: Tables, date: Date)
    ensures Extends(t, RunDailyClosing(t, date).tables)
  {
    ClosingAddsOnly(t, date);
  }

  lemma {:induction false} ClosingAddsOnly(t: Tables, date: Date)
    ensures var created := Unclosed(t, date, |t.accounts|);
            forall k :: k in t.snapshots ==> k !in Close(t, date, created)
  {
    UnclosedExactly(t, date, |t.accounts|);
  }

  lemma {:induction false} RunExtends(t: Tables, rs: seq<Request>)
    ensures Extends(t, Run(t, rs))
    decreases |rs|
  {
    if rs != [] {
      StepExtends(t, rs[0]);
      RunExtends(Step(t, rs[0]), rs[1..]);
    }
  }

  // ---------------------------------------------------------------- exactly once

  /** The requests that took effect; replays, conflicts and rejections are dropped. */
  function Effective(t: Tables, rs: seq<Request>): seq<Request>
    decreases |rs|
  {
    if rs == [] then []
    else (if Answer(t, rs[0]).Took? then [rs[0]] else []) + Effective(Step(t, rs[0]), rs[1..])
  }

  ghost predicate AllTake(t: Tables, rs: seq<Request>)
    decreases |rs|
  {
    rs == [] || (Answer(t, rs[0]).Took? && AllTake(Step(t, rs[0]), rs[1..]))
  }

  /** Dropping every replay, conflict and rejection changes no table, and what remains all succeeds. */
  lemma {:induction false} ExactlyOnce(t: Tables, rs: seq<Request>)
    ensures Run(t, Effective(t, rs)) == Run(t, rs)
    ensures AllTake(t, Effective(t, rs))
    decreases |rs|
  {
    if rs != [] {
      var rest := Effective(Step(t, rs[0]), rs[1..]);
      ExactlyOnce(Step(t, rs[0]), rs[1..]);
      if Answer(t, rs[0]).Took? {
        assert Effective(t, rs) == [rs[0]] + rest;
        assert ([rs[0]] + rest)[1..] == rest;
      } else {
        assert Effective(t, rs) == rest;
        Ineffective(t, rs[0]);
      }
    }
  }

  lemma {:induction false} Ineffective(t: Tables, r: Request)
    requires !Answer(t, r).Took?
    ensures Step(t, r) == t
  {
    match r
    case NewTransfer(s, b, d, a, key) => assert Step(t, r) == Transfer(t, TransferPayload(s, b, d, a), key).tables;
    case _ =>
  }

  lemma {:induction false} FoundKey(xs: seq<Transaction>, n: TxnId)
    requires UniqueKeys(xs) && n < |xs|
    ensures FindKey(xs, xs[n].key) == Some(n)
  {
  }

  lemma {:induction false} RunKeysUnique(t: Tables, rs: seq<Request>)
    requires Inv(t)
    ensures UniqueKeys(Run(t, rs).transactions) && UniqueCharges(Run(t, rs).charges)
  {
    RunKeeps(t, rs);
  }

  /** What a transfer that took effect leaves behind. */
  lemma {:induction false} Posted(t: Tables, p: Payload, key: Key, n: TxnId)
    requires p.TransferPayload? && Transfer(t, p, key).reply == Created(n)
    ensures var xs := Transfer(t, p, key).tables.transactions;
            n < |xs| && xs[n].key == key && xs[n].payload == p
  {
  }

  lemma {:induction false} Replays(t: Tables, p: Payload, key: Key, n: TxnId)
    requires p.TransferPayload? && UniqueKeys(t.transactions)
    requires n < |t.transactions| && t.transactions[n].key == key && t.transactions[n].payload == p
    ensures Transfer(t, p, key) == Effect(t, [], Replayed(n))
  {
    FoundKey(t.transactions, n);
  }

  /** Once a transfer took effect, the same request returns its transaction for ever after, whatever
      happened to the balances in between, and changes nothing. */
  lemma {:induction false} ReplayReturnsTheOriginal(t: Tables, p: Payload, key: Key, n: TxnId, later: seq<Request>)
    requires Inv(t) && p.TransferPayload? && Transfer(t, p, key).reply == Created(n)
    ensures var t' := Run(Transfer(t, p, key).tables, later);
            && Transfer(t', p, key) == Effect(t', [], Replayed(n))
            && n < |t'.transactions|
            && t'.transactions[n] == Transfer(t, p, key).tables.transactions[n]
  {
    var t1 := Transfer(t, p, key).tables;
    TransferKeeps(t, p, key);
    Posted(t, p, key, n);
    ReplayLater(t1, t1.transactions, p, key, n, later);
  }

  lemma {:induction false} ReplayLater(
    t1: Tables, xs: seq<Transaction>, p: Payload, key: Key, n: TxnId, later: seq<Request>)
    requires Inv(t1) && p.TransferPayload? && xs == t1.transactions
    requires n < |xs| && xs[n].key == key && xs[n].payload == p
    ensures var t' := Run(t1, later);
            && Transfer(t', p, key) == Effect(t', [], Replayed(n))
            && n < |t'.transactions| && t'.transactions[n] == xs[n]
  {
    var t' := Run(t1, later);
    RunKeysUnique(t1, later);
    RunExtends(t1, later);
    Replays(t', p, key, n);
  }

  /** A request with a used key and another payload is a conflict for ever after. */
  lemma {:induction false} ConflictStays(t: Tables, p: Payload, q: Payload, key: Key, later: seq<Request>)
    requires Inv(t) && p.TransferPayload? && q.TransferPayload? && p != q
    requires Transfer(t, p, key).reply.Created?
    ensures Transfer(Run(Transfer(t, p, key).tables, later), q, key).reply == Rejected(IdempotencyConflict)
  {
    ReplayReturnsTheOriginal(t, p, key, Transfer(t, p, key).reply.value, later);
  }

  /** A refused transfer, other than a conflict, leaves its key free for the next attempt. */
  lemma {:induction false} RefusalKeepsTheKey(t: Tables, p: Payload, key: Key)
    requires p.TransferPayload? && Transfer(t, p, key).reply.Rejected?
    ensures Transfer(t, p, key).reply.error != IdempotencyConflict <==>
            FindKey(Transfer(t, p, key).tables.transactions, key).None?
  {
    assert CheckTransfer(t, p) != Some(IdempotencyConflict);
  }

  // ---------------------------------------------------------------- cards

  /** Charges are settled or within the limit: a card's charges total its settlements plus the usage
      beyond the watermark, and that usage stays between 0 and the limit. */
  lemma {:induction false} CardsOfRun(rs: seq<Request>, i: nat)
    requires i < |Run(EMPTY_TABLES, rs).cards|
    ensures var t := Run(EMPTY_TABLES, rs);
            var c := t.cards[i];
            var unsettled := UsageBeyond(t.charges, c.id, Watermark(t.transactions, c.id));
            && ChargeTotal(t.charges, c.id) == SettledTotal(t.transactions, c.id) + unsettled
            && 0 <= unsettled <= c.limit
  {
    var t := Run(EMPTY_TABLES, rs);
    Reachable(rs);
    assert CardAt(t.accounts, t.cards, t.charges, t.transactions, i);
    UsageSplits(t.charges, t.cards[i].id, Watermark(t.transactions, t.cards[i].id));
  }

  lemma {:induction false} WatermarksIncrease(t: Tables, c: CardId, m: nat, n: nat)
    requires Inv(t) && m < n < |t.transactions|
    requires Settles(t.transactions[m], c) && Settles(t.transactions[n], c)
    ensures t.transactions[m].settlement.watermark <= Watermark(t.transactions[..n], c)
    ensures t.transactions[m].settlement.watermark < t.transactions[n].settlement.watermark
  {
    assert SettlementAt(t.cards, t.charges, t.transactions, n);
    WatermarkIsMax(t.transactions[..n], c);
    assert Settles(t.transactions[..n][m], c);
  }

  /** Settlement n pays for charge k: it is the card's, after the watermark before n, up to n's own. */
  ghost predicate PaysFor(t: Tables, n: nat, k: nat)
    requires n < |t.transactions| && k < |t.charges|
  {
    var c := t.charges[k].card;
    && Settles(t.transactions[n], c)
    && Watermark(t.transactions[..n], c) < k + 1 <= t.transactions[n].settlement.watermark
  }

  /** No charge is settled twice. */
  lemma {:induction false} SettledAtMostOnce(t: Tables, k: nat, m: nat, n: nat)
    requires Inv(t) && m < |t.transactions| && n < |t.transactions| && k < |t.charges|
    requires PaysFor(t, m, k) && PaysFor(t, n, k)
    ensures m == n
  {
    var c := t.charges[k].card;
    if m < n { WatermarksIncrease(t, c, m, n); }
    if n < m { WatermarksIncrease(t, c, n, m); }
  }

  lemma {:induction false} FirstReached(xs: seq<Transaction>, c: CardId, k: nat) returns (n: nat)
    requires k < Watermark(xs, c)
    ensures n < |xs| && Settles(xs[n], c) && Watermark(xs[..n], c) <= k < xs[n].settlement.watermark
  {
    var pre := xs[..|xs| - 1];
    if k < Watermark(pre, c) {
      n := FirstReached(pre, c, k);
      assert pre[..n] == xs[..n];
    } else {
      n := |xs| - 1;
    }
  }

  /** A charge is settled exactly when its rowid is covered by its card's watermark. */
  lemma {:induction false} SettledExactlyUpToWatermark(t: Tables, k: nat)
    requires Inv(t) && k < |t.charges|
    ensures (exists n :: 0 <= n < |t.transactions| && PaysFor(t, n, k))
            <==> k + 1 <= Watermark(t.transactions, t.charges[k].card)
  {
    var c := t.charges[k].card;
    if k + 1 <= Watermark(t.transactions, c) {
      var n := FirstReached(t.transactions, c, k);
      assert PaysFor(t, n, k);
    }
    if n :| 0 <= n < |t.transactions| && PaysFor(t, n, k) {
      WatermarkIsMax(t.transactions, c);
    }
  }

  /** A used charge key replays its first charge for ever after, on any existing card and for any amount:
      nothing is compared, so no conflict is ever reported.  The row that comes back is the one asked for
      exactly when the first charge was for this card and amount. */
  lemma {:induction false} ChargeReplay(t: Tables, k: nat, card: CardId, amount: pos, later: seq<Request>)
    requires Inv(t) && k < |t.charges|
    ensures var t' := Run(t, later);
            var e := ChargeCard(t', card, amount, t.charges[k].key);
            && e.tables == t' && e.audits == []
            && (e.reply == Replayed(k) <==> FindCard(t'.cards, card).Some?)
            && (e.reply.Rejected? ==> e.reply.error == CardNotFound)
            && k < |t'.charges|
            && (t'.charges[k] == Charge(card, amount, t.charges[k].key)
                <==> t.charges[k].card == card && t.charges[k].amount == amount)
  {
    RunKeeps(t, later);
    RunExtends(t, later);
    FoundCharge(Run(t, later).charges, k);
  }

  lemma {:induction false} FoundCharge(cs: seq<Charge>, k: nat)
    requires UniqueCharges(cs) && k < |cs|
    ensures FindCharge(cs, cs[k].key) == Some(k)
  {
  }

  // ---------------------------------------------------------------- the settlement key

  /** Everything settle_card checks before it inserts. */
  ghost predicate ReadyToSettle(t: Tables, card: CardId) {
    var i := FindCard(t.cards, card);
    && i.Some?
    && Watermark(t.transactions, card) < LastCharge(t.charges, card)
    && UsageBeyond(t.charges, card, Watermark(t.transactions, card)) != 0
    && var a := FindAccount(t.accounts, t.cards[i.value].account);
       a.Some? && UsageBeyond(t.charges, card, Watermark(t.transactions, card)) <= t.accounts[a.value].balance
  }

  /** A transfer, not a settlement, sits on the key of the card's next settlement. */
  ghost predicate NextKeyTaken(t: Tables, card: CardId) {
    exists n :: 0 <= n < |t.transactions|
      && t.transactions[n].settlement.NoSettlement?
      && t.transactions[n].key == Settle(card, LastCharge(t.charges, card))
  }

  /** The derived key never collides with an earlier settlement: settling fails on the unique key
      exactly when a transfer has taken that very key. */
  lemma {:induction false} SettlementKeyFresh(t: Tables, card: CardId)
    requires Inv(t)
    ensures SettleCard(t, card).reply == Rejected(IntegrityError) <==> ReadyToSettle(t, card) && NextKeyTaken(t, card)
    ensures SettleCard(t, card).reply.Created? <==> ReadyToSettle(t, card) && !NextKeyTaken(t, card)
  {
    var key := Settle(card, LastCharge(t.charges, card));
    if ReadyToSettle(t, card) && FindKey(t.transactions, key).Some? {
      var n := FindKey(t.transactions, key).value;
      if t.transactions[n].settlement.CardSettlement? {
        assert SettlementAt(t.cards, t.charges, t.transactions, n);
        WatermarkIsMax(t.transactions, card);
        assert Settles(t.transactions[n], card);
      }
      assert NextKeyTaken(t, card);
    }
  }

  /** Every transfer in the requests carries a key of the client form. */
  ghost predicate ClientKeysOnly(rs: seq<Request>) {
    forall i :: 0 <= i < |rs| && rs[i].NewTransfer? ==> rs[i].key.Client?
  }

  ghost predicate KeysOwnForm(xs: seq<Transaction>) {
    forall n :: 0 <= n < |xs| ==> (xs[n].key.Settle? ==> xs[n].settlement.CardSettlement?)
  }

  lemma {:induction false} KeysOfRun(t: Tables, rs: seq<Request>)
    requires KeysOwnForm(t.transactions) && ClientKeysOnly(rs)
    ensures KeysOwnForm(Run(t, rs).transactions)
    decreases |rs|
  {
    if rs != [] {
      StepKeys(t, rs[0]);
      KeysOfRun(Step(t, rs[0]), rs[1..]);
    }
  }

  lemma {:induction false} StepKeys(t: Tables, r: Request)
    requires KeysOwnForm(t.transactions) && (r.NewTransfer? ==> r.key.Client?)
    ensures KeysOwnForm(Step(t, r).transactions)
  {
    match r
    case NewTransfer(s, b, d, a, key) =>
      var e := Transfer(t, TransferPayload(s, b, d, a), key);
      assert Step(t, r) == e.tables;
    case _ =>
  }

  /** When clients keep to their own key form, a settlement that passes its checks always succeeds. */
  lemma {:induction false} SettlementSucceeds(rs: seq<Request>, card: CardId)
    requires ClientKeysOnly(rs)
    ensures var t := Run(EMPTY_TABLES, rs);
            SettleCard(t, card).reply.Created? <==> ReadyToSettle(t, card)
  {
    var t := Run(EMPTY_TABLES, rs);
    Reachable(rs);
    KeysOfRun(EMPTY_TABLES, rs);
    SettlementKeyFresh(t, card);
  }

  // A run in which a transfer carries the text of a settlement key.
  const KIM := LedgerTables.Account("a", "Kim", "Bank", "1", 100)
  const LEE := LedgerTables.Account("b", "Lee", "Bank", "2", 0)
  const DEPOSIT := SeedTransaction("a", 100)
  const SQUATTER := Transaction(Settle("c", 1), TransferPayload("1", "Bank", "2", 10), "a", "b", 10, NoSettlement)
  const OPENED := Tables([KIM, LEE], [], [DEPOSIT], [LedgerEntry(0, "a", Credit, 100, 100)], [], map[])
  const ISSUED := OPENED.(cards := [Card("c", "a", 50, "KRW")])
  const MOVED := ISSUED.(
    accounts := [KIM.(balance := 90), LEE.(balance := 10)],
    transactions := [DEPOSIT, SQUATTER],
    ledger := OPENED.ledger + [LedgerEntry(1, "a", Debit, 10, 90)] + [LedgerEntry(1, "b", Credit, 10, 10)])
  const CHARGED := MOVED.(charges := [Charge("c", 20, "k")])
  const COLLISION: seq<Request> := [
    NewAccount("a", "1", "Kim", "Bank", 100),
    NewAccount("b", "2", "Lee", "Bank", 0),
    NewCard("c", "a", 50, "KRW"),
    NewTransfer("1", "Bank", "2", 10, Settle("c", 1)),
    NewCharge("c", 20, "k")]

  const FIRST := Tables([KIM], [], [DEPOSIT], [LedgerEntry(0, "a", Credit, 100, 100)], [], map[])

  lemma {:induction false} OpenFirst()
    ensures Step(EMPTY_TABLES, COLLISION[0]) == FIRST
  {
  }

  lemma {:induction false} OpenSecond()
    ensures Step(FIRST, COLLISION[1]) == OPENED
  {
    assert FIRST.accounts[0].id == "a" && FIRST.accounts[0].number == "1";
  }

  lemma {:induction false} OpenBoth()
    ensures Step(Step(EMPTY_TABLES, COLLISION[0]), COLLISION[1]) == OPENED
  {
    OpenFirst();
    OpenSecond();
  }

  lemma {:induction false} MoveAndCharge()
    ensures Step(ISSUED, COLLISION[3]) == MOVED
    ensures Step(MOVED, COLLISION[4]) == CHARGED
  {
    assert ISSUED.accounts[0].number == "1" && ISSUED.accounts[1].number == "2";
    assert FindNumber(ISSUED.accounts, "1") == Some(0) && FindNumber(ISSUED.accounts, "2") == Some(1);
    var e := Transfer(ISSUED, SQUATTER.payload, SQUATTER.key);
    assert Step(ISSUED, COLLISION[3]) == e.tables;
    assert e.tables.accounts == MOVED.accounts;
    NoSettlements(MOVED.transactions, "c");
    assert MOVED.cards[0].id == "c";
  }

  /** Without that restriction it can fail: a transfer that carries the text of a settlement key is
      accepted, and the card's charge can then not be settled. */
  lemma {:induction false} SettlementCanCollide()
    ensures var t := Run(EMPTY_TABLES, COLLISION);
            ReadyToSettle(t, "c") && SettleCard(t, "c").reply == Rejected(IntegrityError)
  {
    CollisionRun();
    ChargedIsStuck();
  }

  lemma {:induction false} CollisionRun()
    ensures Run(EMPTY_TABLES, COLLISION) == CHARGED
  {
    OpenBoth();
    IssueCard();
    MoveAndCharge();
    UnrollRun(EMPTY_TABLES, COLLISION);
  }

  lemma {:induction false} IssueCard()
    ensures Step(OPENED, COLLISION[2]) == ISSUED
  {
    assert OPENED.accounts[0].id == "a";
  }

  lemma {:induction false} ChargedIsStuck()
    ensures ReadyToSettle(CHARGED, "c") && SettleCard(CHARGED, "c").reply == Rejected(IntegrityError)
  {
    NoSettlements(CHARGED.transactions, "c");
    assert CHARGED.charges[..0] == [];
    assert CHARGED.cards[0].id == "c" && CHARGED.accounts[0].id == "a" && CHARGED.transactions[1].key == Settle("c", 1);
  }

  lemma {:induction false} UnrollRun(t: Tables, rs: seq<Request>)
    requires |rs| == 5
    ensures Run(t, rs) == Step(Step(Step(Step(Step(t, rs[0]), rs[1]), rs[2]), rs[3]), rs[4])
  {
    assert rs == [rs[0]] + [rs[1]] + [rs[2]] + [rs[3]] + [rs[4]];
    RunAppend(t, [rs[0]] + [rs[1]] + [rs[2]] + [rs[3]], rs[4]);
    RunAppend(t, [rs[0]] + [rs[1]] + [rs[2]], rs[3]);
    RunAppend(t, [rs[0]] + [rs[1]], rs[2]);
    RunAppend(t, [rs[0]], rs[1]);
    RunAppend(t, [], rs[0]);
    assert [] + [rs[0]] == [rs[0]];
  }

  lemma {:induction false} RunAppend(t: Tables, rs: seq<Request>, r: Request)
    ensures Run(t, rs + [r]) == Step(Run(t, rs), r)
    decreases |rs|
  {
    if rs == [] {
      assert [r][1..] == [];
    } else {
      RunAppend(Step(t, rs[0]), rs[1..], r);
      assert (rs + [r])[1..] == rs[1..] + [r];
    }
  }

  // ---------------------------------------------------------------- daily closing

  /** The accounts closed by a run are exactly those without a snapshot for the date. */
  lemma {:induction false} UnclosedExactly(t: Tables, date: Date, n: nat)
    requires n <= |t.accounts|
    ensures forall a :: a in Unclosed(t, date, n) <==>
      (a, date) !in t.snapshots && exists i :: 0 <= i < n && t.accounts[i].id == a
  {
    if n != 0 {
      UnclosedExactly(t, date, n - 1);
      forall a
        ensures a in Unclosed(t, date, n) <==>
          (a, date) !in t.snapshots && exists i :: 0 <= i < n && t.accounts[i].id == a
      {
        if i :| 0 <= i < n && t.accounts[i].id == a {
          if i < n - 1 { assert 0 <= i < n - 1; }
        }
      }
    }
  }

  /** A closing gives every open account one snapshot, whose closing balance is the stored balance,
      and a second closing of the same date creates nothing and changes nothing. */
  lemma {:induction false} ClosingIsIdempotent(t: Tables, date: Date)
    requires Inv(t)
    ensures var t' := RunDailyClosing(t, date).tables;
            && (forall i {:trigger t.accounts[i]} :: 0 <= i < |t.accounts| ==>
                  var k := (t.accounts[i].id, date);
                  && k in t'.snapshots
                  && (k in t.snapshots ==> t'.snapshots[k] == t.snapshots[k])
                  && (k !in t.snapshots ==> t'.snapshots[k].closing == t.accounts[i].balance))
            && RunDailyClosing(t', date).reply == Created([])
            && RunDailyClosing(t', date).tables == t'
  {
    var t' := RunDailyClosing(t, date).tables;
    forall i | 0 <= i < |t.accounts|
      ensures var k := (t.accounts[i].id, date);
              && k in t'.snapshots
              && (k in t.snapshots ==> t'.snapshots[k] == t.snapshots[k])
              && (k !in t.snapshots ==> t'.snapshots[k].closing == t.accounts[i].balance)
    {
      ClosingOf(t, date, i);
    }
    NothingUnclosed(t', date, |t.accounts|);
    assert t'.snapshots + Close(t', date, []) == t'.snapshots;
  }

  lemma {:induction false} ClosingOf(t: Tables, date: Date, i: nat)
    requires BalancesAgree(t.accounts, t.ledger) && i < |t.accounts|
    ensures var t' := RunDailyClosing(t, date).tables;
            var k := (t.accounts[i].id, date);
            && k in t'.snapshots
            && (k in t.snapshots ==> t'.snapshots[k] == t.snapshots[k])
            && (k !in t.snapshots ==> t'.snapshots[k].closing == t.accounts[i].balance)
  {
    assert BalanceAt(t.accounts, t.ledger, i);
    UnclosedExactly(t, date, |t.accounts|);
  }

  lemma {:induction false} NothingUnclosed(t: Tables, date: Date, n: nat)
    requires n <= |t.accounts|
    requires forall i :: 0 <= i < n ==> (t.accounts[i].id, date) in t.snapshots
    ensures Unclosed(t, date, n) == []
  {
    if n != 0 { NothingUnclosed(t, date, n - 1); }
  }

  lemma {:induction false} SnapshotHolds(es: seq<LedgerEntry>, a: AccountId, s: Snapshot)
    requires SnapshotTrue(es, a, s)
    ensures var k := match s.lastRowid case None => 0 case Some(r) => r;
            && k <= |es|
            && Net(es[..k], a) == s.closing == s.credit - s.debit
            && (k != 0 ==> es[k - 1].account == a)
  {
    var k := match s.lastRowid case None => 0 case Some(r) => r;
    LastRowidCovers(es[..k], a);
  }

  lemma {:induction false} RunSnapshots(t: Tables, rs: seq<Request>)
    requires Inv(t)
    ensures SnapshotsTrue(Run(t, rs).ledger, Run(t, rs).snapshots)
  {
    RunKeeps(t, rs);
  }

  /** A snapshot stays true for ever: whatever requests follow, it is still there unchanged, and the
      entries up to its last rowid still net to its closing balance. */
  lemma {:induction false} SnapshotStaysTrue(t: Tables, a: AccountId, date: Date, later: seq<Request>)
    requires Inv(t) && (a, date) in t.snapshots
    ensures var t' := Run(t, later);
            var s := t.snapshots[(a, date)];
            var k := match s.lastRowid case None => 0 case Some(r) => r;
            && (a, date) in t'.snapshots && t'.snapshots[(a, date)] == s
            && k <= |t'.ledger|
            && Net(t'.ledger[..k], a) == s.closing == s.credit - s.debit
            && (k != 0 ==> t'.ledger[k - 1].account == a)
  {
    RunSnapshots(t, later);
    RunExtends(t, later);
    var t' := Run(t, later);
    assert SnapshotAt(t'.ledger, t'.snapshots, a, date);
    SnapshotHolds(t'.ledger, a, t.snapshots[(a, date)]);
  }
}
