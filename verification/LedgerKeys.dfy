/** When the key the service derives for an initial deposit is free. */
module LedgerKeys {
  import opened Wrappers
  import opened LedgerTables
  import opened LedgerOperations
  import opened LedgerInvariant
  import opened LedgerTheorems

  /** Who wrote a transaction shows in its key: a deposit has its account's seed key, a settlement a settlement key. */
  ghost predicate OriginAt(rows: seq<Account>, x: Transaction) {
    match x.payload
    case TransferPayload(_, _, _, _) => true
    case SeedPayload(_, _) => x.key == Seed(x.sender) && Known(rows, x.sender)
    case SettlePayload(_, _, _) => x.key.Settle?
  }

  ghost predicate Origins(t: Tables) {
    forall n :: 0 <= n < |t.transactions| ==> OriginAt(t.accounts, t.transactions[n])
  }

  lemma {:induction false} OriginsKept(t: Tables, t': Tables)
    requires Origins(t) && SameIds(t.accounts, t'.accounts)
    requires t.transactions <= t'.transactions && |t'.transactions| <= |t.transactions| + 1
    requires |t'.transactions| > |t.transactions| ==> OriginAt(t'.accounts, t'.transactions[|t.transactions|])
    ensures Origins(t')
  {
    forall n | 0 <= n < |t'.transactions| ensures OriginAt(t'.accounts, t'.transactions[n]) {
      if n < |t.transactions| {
        assert OriginAt(t.accounts, t.transactions[n]);
        if t.transactions[n].payload.SeedPayload? {
          KnownKept(t.accounts, t'.accounts, t.transactions[n].sender);
        }
      }
    }
  }

  lemma {:induction false} StepOrigins(t: Tables, r: Request)
    requires Origins(t)
    ensures Origins(Step(t, r))
  {
    var t' := Step(t, r);
    StepExtends(t, r);
    match r
    case NewAccount(id, number, owner, bank, initial) =>
      if t'.accounts != t.accounts {
        assert t'.accounts[|t.accounts|].id == id;
      }
      OriginsKept(t, t');
    case NewTransfer(s, b, d, a, key) =>
      assert t' == Transfer(t, TransferPayload(s, b, d, a), key).tables;
      OriginsKept(t, t');
    case _ => OriginsKept(t, t');
  }

  lemma {:induction false} RunOrigins(t: Tables, rs: seq<Request>)
    requires Origins(t)
    ensures Origins(Run(t, rs))
    decreases |rs|
  {
    if rs != [] {
      StepOrigins(t, rs[0]);
      RunOrigins(Step(t, rs[0]), rs[1..]);
    }
  }

  /** A transfer sits on the key of the account's initial deposit. */
  ghost predicate SeedKeyTaken(t: Tables, id: AccountId) {
    exists n :: 0 <= n < |t.transactions|
      && t.transactions[n].payload.TransferPayload? && t.transactions[n].key == Seed(id)
  }

  /** The id and the number are free. */
  predicate Unused(t: Tables, id: AccountId, number: string) {
    FindAccount(t.accounts, id).None? && FindNumber(t.accounts, number).None?
  }

  /** Opening an account under an unused id and number fails exactly when it comes with a deposit whose key a transfer
      has taken; no earlier deposit or settlement is ever in the way. */
  lemma {:induction false} SeedKeyFresh(
    rs: seq<Request>, id: AccountId, number: string, owner: string, bank: string, initial: nat)
    ensures var t := Run(EMPTY_TABLES, rs); var reply := CreateAccount(t, id, number, owner, bank, initial).reply;
            && (reply.Created? <==> Unused(t, id, number) && !(0 < initial && SeedKeyTaken(t, id)))
            && (!reply.Created? ==> reply == Rejected(IntegrityError))
  {
    var t := Run(EMPTY_TABLES, rs);
    RunOrigins(EMPTY_TABLES, rs);
    if FindKey(t.transactions, Seed(id)).Some? && FindAccount(t.accounts, id).None? {
      var n := FindKey(t.transactions, Seed(id)).value;
      assert OriginAt(t.accounts, t.transactions[n]);
      assert SeedKeyTaken(t, id);
    }
  }

  lemma {:induction false} ClientRun(t: Tables, rs: seq<Request>)
    requires ClientKeysOnly(rs) && forall n :: 0 <= n < |t.transactions| ==> OwnKey(t.transactions[n])
    ensures forall n :: 0 <= n < |Run(t, rs).transactions| ==> OwnKey(Run(t, rs).transactions[n])
    decreases |rs|
  {
    if rs != [] {
      ClientStep(t, rs[0]);
      ClientRun(Step(t, rs[0]), rs[1..]);
    }
  }

  predicate OwnKey(x: Transaction) {
    x.payload.TransferPayload? ==> x.key.Client?
  }

  lemma {:induction false} ClientStep(t: Tables, r: Request)
    requires r.NewTransfer? ==> r.key.Client?
    requires forall n :: 0 <= n < |t.transactions| ==> OwnKey(t.transactions[n])
    ensures forall n :: 0 <= n < |Step(t, r).transactions| ==> OwnKey(Step(t, r).transactions[n])
  {
    match r
    case NewTransfer(s, b, d, a, key) =>
      assert Step(t, r) == Transfer(t, TransferPayload(s, b, d, a), key).tables;
    case _ =>
  }

  /** When clients keep to their own key form, an unused id and number are all it takes. */
  lemma {:induction false} OpeningSucceeds(
    rs: seq<Request>, id: AccountId, number: string, owner: string, bank: string, initial: nat)
    requires ClientKeysOnly(rs)
    ensures var t := Run(EMPTY_TABLES, rs);
            CreateAccount(t, id, number, owner, bank, initial).reply.Created? <==> Unused(t, id, number)
  {
    SeedKeyFresh(rs, id, number, owner, bank, initial);
    ClientRun(EMPTY_TABLES, rs);
    var t := Run(EMPTY_TABLES, rs);
    assert forall n :: 0 <= n < |t.transactions| ==> OwnKey(t.transactions[n]);
  }

  const SEED_SQUAT: seq<Request> := [COLLISION[0], COLLISION[1], NewTransfer("1", "Bank", "2", 10, Seed("c"))]

  /** Without that restriction a transfer can keep an account from being opened with a deposit. */
  lemma {:induction false} OpeningCanCollide()
    ensures var t := Run(EMPTY_TABLES, SEED_SQUAT);
            Unused(t, "c", "3") && CreateAccount(t, "c", "3", "Park", "Bank", 5).reply == Rejected(IntegrityError)
  {
    SquatRun();
    SquatSeed();
    SquatBlocks(Step(OPENED, SEED_SQUAT[2]));
  }

  lemma {:induction false} SquatBlocks(t: Tables)
    requires Unused(t, "c", "3") && FindKey(t.transactions, Seed("c")).Some?
    ensures CreateAccount(t, "c", "3", "Park", "Bank", 5).reply == Rejected(IntegrityError)
  {
  }

  lemma {:induction false} UnrollThree(t: Tables, rs: seq<Request>)
    requires |rs| == 3
    ensures Run(t, rs) == Step(Step(Step(t, rs[0]), rs[1]), rs[2])
  {
    assert rs == [rs[0]] + [rs[1]] + [rs[2]];
    RunAppend(t, [rs[0]] + [rs[1]], rs[2]);
    RunAppend(t, [rs[0]], rs[1]);
    RunAppend(t, [], rs[0]);
    assert [] + [rs[0]] == [rs[0]];
  }

  lemma {:induction false} SquatRun()
    ensures Run(EMPTY_TABLES, SEED_SQUAT) == Step(OPENED, SEED_SQUAT[2])
  {
    UnrollThree(EMPTY_TABLES, SEED_SQUAT);
    OpenBoth();
  }

  lemma {:induction false} SquatSeed()
    ensures var t := Step(OPENED, SEED_SQUAT[2]);
            && |t.transactions| == 2 && t.transactions[1].key == Seed("c") && SameIds(OPENED.accounts, t.accounts)
            && Unused(t, "c", "3") && FindKey(t.transactions, Seed("c")).Some?
  {
    assert OPENED.accounts[0].number == "1" && OPENED.accounts[1].number == "2";
    assert FindNumber(OPENED.accounts, "1") == Some(0) && FindNumber(OPENED.accounts, "2") == Some(1);
    var e := Transfer(OPENED, TransferPayload("1", "Bank", "2", 10), Seed("c"));
    assert Step(OPENED, SEED_SQUAT[2]) == e.tables;
    assert e.tables.accounts == MOVED.accounts;
    assert e.tables.transactions[1].key == Seed("c");
  }
}
