/** What the audit log records of a sequence of requests. */
module LedgerAudit {
  import opened LedgerTables
  import opened LedgerOperations

  function AuditsOf(t: Tables, rs: seq<Request>): seq<Audit>
    decreases |rs|
  {
    if rs == [] then [] else Handle(t, rs[0]).1 + AuditsOf(Step(t, rs[0]), rs[1..])
  }

  /** The failed transfers a log records, by their reason. */
  function FailuresIn(log: seq<Audit>): seq<Error> {
    if log == [] then []
    else if log[0].action.TransferFailed? then [log[0].action.error] + FailuresIn(log[1..])
    else FailuresIn(log[1..])
  }

  /** The refusals the clients were given for their transfers, in order. */
  function Refusals(t: Tables, rs: seq<Request>): seq<Error>
    decreases |rs|
  {
    if rs == [] then []
    else
      var rest := Refusals(Step(t, rs[0]), rs[1..]);
      if rs[0].NewTransfer? && Answer(t, rs[0]).Refused? then [Answer(t, rs[0]).error] + rest else rest
  }

  /** The transactions a log names. */
  function NamedIn(log: seq<Audit>): seq<TxnId> {
    if log == [] then []
    else if log[0].txn.Some? then [log[0].txn.value] + NamedIn(log[1..])
    else NamedIn(log[1..])
  }

  /** The ids are first, first + 1, and so on up to end. */
  predicate Consecutive(ids: seq<TxnId>, first: nat, end: nat) {
    first + |ids| == end && forall i :: 0 <= i < |ids| ==> ids[i] == first + i
  }

  lemma {:induction false} FailuresConcat(a: seq<Audit>, b: seq<Audit>)
    requires |a| <= 1
    ensures FailuresIn(a + b) == FailuresIn(a) + FailuresIn(b)
    ensures NamedIn(a + b) == NamedIn(a) + NamedIn(b)
  {
    if a == [] {
      assert a + b == b;
    } else {
      assert (a + b)[1..] == b && a[1..] == [];
    }
  }

  lemma {:induction false} OneTransfer(t: Tables, r: Request)
    requires r.NewTransfer?
    ensures |Handle(t, r).1| <= 1
    ensures FailuresIn(Handle(t, r).1) == if Answer(t, r).Refused? then [Answer(t, r).error] else []
    ensures Consecutive(NamedIn(Handle(t, r).1), |t.transactions|, |Step(t, r).transactions|)
  {
    var e := Transfer(t, TransferPayload(r.sender, r.receiverBank, r.receiver, r.amount), r.key);
    assert Handle(t, r).0 == e.tables && Handle(t, r).1 == e.audits;
  }

  lemma {:induction false} OneOther(t: Tables, r: Request)
    requires !r.NewTransfer?
    ensures |Handle(t, r).1| <= 1 && FailuresIn(Handle(t, r).1) == []
    ensures Consecutive(NamedIn(Handle(t, r).1), |t.transactions|, |Step(t, r).transactions|)
  {
  }

  lemma {:induction false} OneRequest(t: Tables, r: Request)
    ensures |Handle(t, r).1| <= 1
    ensures FailuresIn(Handle(t, r).1) ==
            if r.NewTransfer? && Answer(t, r).Refused? then [Answer(t, r).error] else []
    ensures Consecutive(NamedIn(Handle(t, r).1), |t.transactions|, |Step(t, r).transactions|)
  {
    if r.NewTransfer? { OneTransfer(t, r); } else { OneOther(t, r); }
  }

  lemma {:induction false} ConsecutiveConcat(a: seq<TxnId>, b: seq<TxnId>, first: nat, middle: nat, end: nat)
    requires Consecutive(a, first, middle) && Consecutive(b, middle, end)
    ensures Consecutive(a + b, first, end)
  {
  }

  /** Every refused transfer leaves exactly one failure row with the reason the client was given, and nothing else
      does. */
  lemma {:induction false} RefusalsAreLogged(t: Tables, rs: seq<Request>)
    ensures FailuresIn(AuditsOf(t, rs)) == Refusals(t, rs)
    decreases |rs|
  {
    if rs != [] {
      RefusalsAreLogged(Step(t, rs[0]), rs[1..]);
      OneRequest(t, rs[0]);
      FailuresConcat(Handle(t, rs[0]).1, AuditsOf(Step(t, rs[0]), rs[1..]));
    }
  }

  /** The log names every transaction of a run exactly once, in the order of the table. */
  lemma {:induction false} TransactionsAreLogged(t: Tables, rs: seq<Request>)
    ensures Consecutive(NamedIn(AuditsOf(t, rs)), |t.transactions|, |Run(t, rs).transactions|)
    decreases |rs|
  {
    if rs != [] {
      var t', rest := Step(t, rs[0]), rs[1..];
      var one, others := Handle(t, rs[0]).1, AuditsOf(t', rest);
      OneRequest(t, rs[0]);
      TransactionsAreLogged(t', rest);
      FailuresConcat(one, others);
      var end := |Run(t', rest).transactions|;
      ConsecutiveConcat(NamedIn(one), NamedIn(others), |t.transactions|, |t'.transactions|, end);
    }
  }
}
