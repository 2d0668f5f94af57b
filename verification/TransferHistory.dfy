/** The history of a run: what its answers made of the state, and what must have happened before money moves. */
module TransferHistory {
  import opened Wrappers
  import opened TransferContract
  import opened TransferWorkflow

  // ---------------------------------------------------------------- the history of a run

  ghost predicate Moves(ms: seq<Machine>, es: seq<Event>, i: nat)
    requires |ms| == |es| + 1 && i < |es|
  {
    Enabled(ms[i], es[i]) && ms[i + 1] == Next(ms[i], es[i])
  }

  /** The machines a run passes through, before and after each outcome. */
  ghost predicate IsHistory(kind: Kind, ms: seq<Machine>, es: seq<Event>) {
    && |ms| == |es| + 1 && ms[0] == Start(kind)
    && forall i {:trigger Moves(ms, es, i)} :: 0 <= i < |es| ==> Moves(ms, es, i)
  }

  // ---------------------------------------------------------------- the state is what the last answers said

  function IdIn(o: Option<nat>): Option<Value> {
    if o.Some? then Some(Id(o.value)) else None
  }

  function AccountIn(e: Event): Option<Value> {
    match e
    case Resolved(a, _) => Some(Id(a))
    case Selected(a) => Some(Id(a))
    case _ => None
  }

  /** The answer about a key that an outcome of a step carries; a step that starts an attempt clears what it counts. */
  function Answer(kind: Kind, step: StepId, e: Event, k: Key): Option<Value> {
    match k
    case FromAccountId => if step.ResolveFrom? || step.SelectFrom? then AccountIn(e) else None
    case ToAccountId => if step.ResolveTo? || step.SelectTo? then AccountIn(e) else None
    case ToRecipientId =>
      if e.RecipientResolved? then Some(Id(e.recipient)) else if e.RecipientSelected? then IdIn(e.known) else None
    case ToRecipientCandidateId => if e.RecipientSelected? then IdIn(e.candidate) else None
    case Amount =>
      if e.Slots? then Some(e.amount) else if e.Submitted? then Some(Num(e.value)) else None
    case RecipientNameHint => if kind == External && e.Slots? then Some(Text(e.recipientHint)) else None
    case Accounts =>
      if e.Resolved? then Some(AccountIds(e.candidates))
      else if e.SelectionRequired? then Some(AccountIds(e.candidates))
      else if e.NoAccounts? then Some(AccountIds([]))
      else None
    case CorrectionView =>
      if e.CorrectionRequired? then Some(Correction(e.targets)) else if step.StartPrepare? then Some(Null) else None
    case BlockedView => if e.Blocked? then Some(View(0)) else None
    case TransactionId => if e.Completed? then Some(Id(e.transaction)) else None
    case CompletedAt => if e.Completed? then Some(View(e.transaction)) else None
    case ConfirmationId => if e.Ready? then Some(Id(e.confirmation)) else None
    case ConfirmationView => if e.Ready? then Some(View(e.confirmation)) else None
    case AuthContextId =>
      if e.AuthenticationRequired? then Some(Id(e.context)) else if step.StartAuth? then Some(Null) else None
    case AuthRequestView =>
      if e.AuthenticationRequired? then Some(View(e.context)) else if step.StartAuth? then Some(Null) else None
    case AuthStatus =>
      if e.Verified? then Some(Word("verified"))
      else if e.NotVerified? then Some(Word(e.status))
      else if e.Cancelled? && step.RequestAuth? then Some(Word("cancelled"))
      else if step.StartAuth? then Some(Null)
      else None
    case FromAccountHint => if e.Slots? then Some(Text(e.fromHint)) else None
    case ToAccountHint => if e.Slots? && kind == Internal then Some(Text(e.toHint)) else None
    case AccountResolutionOutcome =>
      if e.Resolved? then Some(Word("resolved"))
      else if e.SelectionRequired? then Some(Word("selection_required"))
      else if e.NoAccounts? then Some(Word("no_accounts"))
      else None
    case AccountSelectionOutcome =>
      if e.Selected? then Some(Word("selected"))
      else if e.Cancelled? && (step.SelectFrom? || step.SelectTo?) then Some(Word("cancelled"))
      else None
    case RecipientResolutionOutcome =>
      if e.RecipientResolved? then Some(Word("resolved"))
      else if e.RecipientUnclear? then Some(Word("selection_required"))
      else None
    case RecipientSelectionReason => if e.RecipientUnclear? then Some(Word(e.reason)) else None
    case RecipientSelectionOutcome =>
      if e.RecipientSelected? then Some(Word("selected"))
      else if e.Cancelled? && step.RequestRecipient? then Some(Word("cancelled"))
      else None
    case AmountInputOutcome =>
      if e.Submitted? then Some(Word("submitted"))
      else if e.Cancelled? && step.RequestAmount? then Some(Word("cancelled"))
      else None
    case ApprovalOutcome =>
      if e.Approved? then Some(Word("approved"))
      else if e.ChangeRequested? then Some(Word("change_requested"))
      else if e.Cancelled? && step.RequestApproval? then Some(Word("cancelled"))
      else None
    case ChangeTarget =>
      if e.ChangeRequested? || e.CorrectionSelected? then Some(Change(e.target)) else None
    case CorrectionSelectionOutcome =>
      if e.CorrectionSelected? then Some(Word("selected"))
      else if e.Cancelled? && step.RequestCorrection? then Some(Word("cancelled"))
      else None
    case AuthRetryOutcome =>
      if e.Retry? then Some(Word("retry"))
      else if e.Cancelled? && step.RequestAuthRetry? then Some(Word("cancelled"))
      else if step.StartAuth? then Some(Null)
      else None
    case _ => None
  }

  /** What an outcome of a step says about a key of the state: the answer it carries, or that the key is reset. */
  function Says(kind: Kind, step: StepId, e: Event, k: Key): Option<Value> {
    if k in ResetFields(kind, step) then Some(Cleared(k))
    else Answer(kind, step, e, k)
  }

  /** The two counters are not answers; CountersCount speaks of them. */
  predicate IsCounter(k: Key) {
    k.PrepareAttempt? || k.AuthAttempt?
  }

  predicate Holds(before: Option<Value>, answer: Option<Value>, after: Option<Value>) {
    after == if before.Some? && answer.Some? then answer else before
  }

  lemma {:induction false} TermAnswered(kind: Kind, step: StepId, t: Terms, e: Event, k: Key)
    requires Accepts(step, e) && !Resets(kind, step) && !IsCounter(k)
    ensures Holds(ReadTerms(t, k), Answer(kind, step, e, k), ReadTerms(TermsAfter(kind, step, t, e), k))
  {
  }

  lemma {:induction false} SearchAnswered(kind: Kind, step: StepId, s: Search, e: Event, k: Key)
    requires Accepts(step, e) && !Resets(kind, step) && !IsCounter(k)
    ensures Holds(ReadSearch(s, k), Answer(kind, step, e, k), ReadSearch(SearchAfter(kind, step, s, e), k))
  {
  }

  lemma {:induction false} ReportAnswered(kind: Kind, step: StepId, r: Report, e: Event, k: Key)
    requires Accepts(step, e) && !Resets(kind, step) && !IsCounter(k)
    ensures Holds(ReadReport(r, k), Answer(kind, step, e, k), ReadReport(ReportAfter(kind, step, r, e), k))
  {
  }

  lemma {:induction false} ConsentAnswered(kind: Kind, step: StepId, c: Consent, e: Event, k: Key)
    requires Accepts(step, e) && !Resets(kind, step) && !IsCounter(k)
    ensures Holds(ReadConsent(c, k), Answer(kind, step, e, k), ReadConsent(ConsentAfter(kind, step, c, e), k))
  {
  }

  lemma {:induction false} AuthAnswered(kind: Kind, step: StepId, a: Auth, e: Event, k: Key)
    requires Accepts(step, e) && !Resets(kind, step) && !IsCounter(k)
    ensures Holds(ReadAuth(a, k), Answer(kind, step, e, k), ReadAuth(AuthAfter(kind, step, a, e), k))
  {
  }

  lemma {:induction false} LookupCancelled(kind: Kind, step: StepId, l: Lookups, e: Event, k: Key)
    requires Accepts(step, e) && !Resets(kind, step) && !IsCounter(k) && e.Cancelled?
    ensures Holds(ReadLookups(l, k), Answer(kind, step, e, k), ReadLookups(LookupsAfter(kind, step, l, e), k))
  {
  }

  lemma {:induction false} LookupGiven(kind: Kind, step: StepId, l: Lookups, e: Event, k: Key)
    requires Accepts(step, e) && !Resets(kind, step) && !IsCounter(k) && !e.Cancelled?
    ensures Holds(ReadLookups(l, k), Answer(kind, step, e, k), ReadLookups(LookupsAfter(kind, step, l, e), k))
  {
  }

  lemma {:induction false} LookupAnswered(kind: Kind, step: StepId, l: Lookups, e: Event, k: Key)
    requires Accepts(step, e) && !Resets(kind, step) && !IsCounter(k)
    ensures Holds(ReadLookups(l, k), Answer(kind, step, e, k), ReadLookups(LookupsAfter(kind, step, l, e), k))
  {
    if e.Cancelled? { LookupCancelled(kind, step, l, e, k); } else { LookupGiven(kind, step, l, e, k); }
  }

  lemma {:induction false} ReplyAnswered(kind: Kind, step: StepId, r: Replies, e: Event, k: Key)
    requires Accepts(step, e) && !Resets(kind, step) && !IsCounter(k)
    ensures Holds(ReadReplies(r, k), Answer(kind, step, e, k), ReadReplies(RepliesAfter(kind, step, r, e), k))
  {
  }

  lemma {:induction false} StepSays(kind: Kind, step: StepId, d: Data, e: Event, k: Key)
    requires Accepts(step, e) && !Resets(kind, step) && !IsCounter(k)
    ensures Read(Updated(kind, step, d, e), k) == match Says(kind, step, e, k)
              case Some(v) => v
              case None => Read(d, k)
  {
    TermAnswered(kind, step, d.terms, e, k);
    SearchAnswered(kind, step, d.search, e, k);
    ReportAnswered(kind, step, d.report, e, k);
    ConsentAnswered(kind, step, d.consent, e, k);
    AuthAnswered(kind, step, d.auth, e, k);
    LookupAnswered(kind, step, d.lookups, e, k);
    ReplyAnswered(kind, step, d.replies, e, k);
  }

  lemma {:induction false} ResetsAnswerNothing(kind: Kind, step: StepId, k: Key)
    requires Resets(kind, step)
    ensures Answer(kind, step, Go, k).None?
    ensures k in ResetFields(kind, step) <==> k in TargetFields(kind, step) || k in Tail()
  {
  }

  lemma {:induction false} ResetSays(kind: Kind, step: StepId, d: Data, k: Key)
    requires Resets(kind, step)
    ensures Read(Updated(kind, step, d, Go), k) == match Says(kind, step, Go, k)
              case Some(v) => v
              case None => Read(d, k)
  {
    ResetsAnswerNothing(kind, step, k);
    ResetClears(kind, step, d, k);
  }

  lemma {:induction false} NextSays(kind: Kind, step: StepId, d: Data, e: Event, k: Key)
    requires Accepts(step, e) && !IsCounter(k)
    ensures Read(Updated(kind, step, d, e), k) == match Says(kind, step, e, k)
              case Some(v) => v
              case None => Read(d, k)
  {
    if Resets(kind, step) { ResetSays(kind, step, d, k); } else { StepSays(kind, step, d, e, k); }
  }

  lemma {:induction false} MoveSays(ms: seq<Machine>, es: seq<Event>, k: Key, j: nat)
    requires |ms| == |es| + 1 && j < |es| && Moves(ms, es, j) && !IsCounter(k)
    ensures Read(ms[j + 1].data, k) == match Says(ms[j].kind, ms[j].step, es[j], k)
              case Some(v) => v
              case None => Read(ms[j].data, k)
  {
    NextSays(ms[j].kind, ms[j].step, ms[j].data, es[j], k);
  }

  /** What each of the first n outcomes says about the key. */
  function Statements(ms: seq<Machine>, es: seq<Event>, k: Key, n: nat): seq<Option<Value>>
    requires |ms| == |es| + 1 && n <= |es|
  {
    seq(n, j requires 0 <= j < n => Says(ms[j].kind, ms[j].step, es[j], k))
  }

  /** The entry at place i is a statement, and the last one. */
  predicate IsLast(said: seq<Option<Value>>, i: int) {
    0 <= i < |said| && said[i].Some? && forall j :: i < j < |said| ==> said[j].None?
  }

  predicate Silent(said: seq<Option<Value>>) {
    forall j :: 0 <= j < |said| ==> said[j].None?
  }

  /** Each statement replaces the value before it. */
  predicate Replaces(said: seq<Option<Value>>, values: seq<Value>) {
    && |values| == |said| + 1
    && forall j :: 0 <= j < |said| ==> values[j + 1] == if said[j].Some? then said[j].value else values[j]
  }

  /** So the last one stands. */
  lemma {:induction false} LastStands(said: seq<Option<Value>>, values: seq<Value>)
    requires Replaces(said, values)
    ensures forall i :: IsLast(said, i) ==> values[|said|] == said[i].value
    ensures Silent(said) ==> values[|said|] == values[0]
  {
    if said != [] {
      var n := |said| - 1;
      LastStands(said[..n], values[..n + 1]);
      forall i | IsLast(said, i) ensures values[|said|] == said[i].value {
        assert i < n ==> IsLast(said[..n], i);
      }
    }
  }

  lemma {:induction false} ReplacesMore(said: seq<Option<Value>>, values: seq<Value>, next: Option<Value>, v: Value)
    requires Replaces(said, values) && v == if next.Some? then next.value else values[|said|]
    ensures Replaces(said + [next], values + [v])
  {
  }

  lemma {:induction false} StatementAdded(ms: seq<Machine>, es: seq<Event>, k: Key, n: nat)
    requires |ms| == |es| + 1 && n < |es|
    ensures Statements(ms, es, k, n + 1) == Statements(ms, es, k, n) + [Says(ms[n].kind, ms[n].step, es[n], k)]
  {
  }

  lemma {:induction false} StatementReplaces(
    ms: seq<Machine>, es: seq<Event>, k: Key, n: nat, values: seq<Value>)
    requires |ms| == |es| + 1 && n < |es| && Moves(ms, es, n) && !IsCounter(k)
    requires Replaces(Statements(ms, es, k, n), values) && values[n] == Read(ms[n].data, k)
    ensures Replaces(Statements(ms, es, k, n + 1), values + [Read(ms[n + 1].data, k)])
  {
    MoveSays(ms, es, k, n);
    StatementAdded(ms, es, k, n);
    ReplacesMore(Statements(ms, es, k, n), values, Says(ms[n].kind, ms[n].step, es[n], k), Read(ms[n + 1].data, k));
  }

  lemma {:induction false} StatementsReplace(kind: Kind, ms: seq<Machine>, es: seq<Event>, k: Key, n: nat)
    returns (values: seq<Value>)
    requires IsHistory(kind, ms, es) && n <= |es| && !IsCounter(k)
    ensures Replaces(Statements(ms, es, k, n), values)
    ensures values[0] == Read(ms[0].data, k) && values[n] == Read(ms[n].data, k)
  {
    if n == 0 { return [Read(ms[0].data, k)]; }
    var before := StatementsReplace(kind, ms, es, k, n - 1);
    assert Moves(ms, es, n - 1);
    StatementReplaces(ms, es, k, n - 1, before);
    values := before + [Read(ms[n].data, k)];
  }

  /** At every point of a run each key holds what the last outcome about it said, resets included, and its default
      before the first; so the accounts and the amount a Prepare is called with are the ones given last. */
  lemma {:induction false} StateIsTheLastAnswers(kind: Kind, ms: seq<Machine>, es: seq<Event>, k: Key, n: nat)
    requires IsHistory(kind, ms, es) && n <= |es| && !IsCounter(k)
    ensures var said, now := Statements(ms, es, k, n), Read(ms[n].data, k);
            && (forall i :: IsLast(said, i) ==> now == said[i].value)
            && (Silent(said) ==> now == Read(ms[0].data, k))
  {
    var values := StatementsReplace(kind, ms, es, k, n);
    LastStands(Statements(ms, es, k, n), values);
  }

  // ---------------------------------------------------------------- what led to Execute

  /** At place q the Prepare of the very terms of now was answered with the confirmation of now, then it was approved,
      and from there to place n the run only authenticated. */
  predicate AgreedAt(ms: seq<Machine>, es: seq<Event>, q: nat, n: nat)
    requires |ms| == |es| + 1 && n <= |es|
  {
    && q + 2 <= n && ms[q].step.Prepare? && es[q].Ready? && es[q + 1].Approved?
    && ms[q].data.terms == ms[n].data.terms && ms[n].data.consent.confirmation == Some(es[q].confirmation)
    && forall j :: q + 2 <= j <= n ==> Authorising(ms[j].step)
  }

  /** A step that shows an approval card comes from a Prepare just answered. */
  lemma {:induction false} ApprovalFollowsPrepare(kind: Kind, step: StepId, d: Data, e: Event)
    requires Accepts(step, e) && Route(kind, step, d, e).RequestApproval?
    ensures step.Prepare? && e.Ready? && TermsAfter(kind, step, d.terms, e) == d.terms
    ensures ConsentAfter(kind, step, d.consent, e).confirmation == Some(e.confirmation)
  {
  }

  lemma {:induction false} CollectingGoesElsewhere(kind: Kind, step: StepId, d: Data, e: Event)
    requires Accepts(step, e) && Collecting(step)
    ensures !Authorising(Route(kind, step, d, e))
  {
  }

  lemma {:induction false} AuthorisingIsEntered(kind: Kind, step: StepId, d: Data, e: Event)
    requires Accepts(step, e) && !Collecting(step) && Authorising(Route(kind, step, d, e))
    ensures (step.RequestApproval? && e.Approved?) || Authorising(step)
    ensures TermsAfter(kind, step, d.terms, e) == d.terms
    ensures ConsentAfter(kind, step, d.consent, e) == d.consent
  {
  }

  /** Authentication is entered by an approval, or goes on, and changes neither the terms nor the confirmation. */
  lemma {:induction false} AuthorisingFollowsApproval(kind: Kind, step: StepId, d: Data, e: Event)
    requires Accepts(step, e) && Authorising(Route(kind, step, d, e))
    ensures (step.RequestApproval? && e.Approved?) || Authorising(step)
    ensures TermsAfter(kind, step, d.terms, e) == d.terms
    ensures ConsentAfter(kind, step, d.consent, e) == d.consent
  {
    if Collecting(step) { CollectingGoesElsewhere(kind, step, d, e); } else { AuthorisingIsEntered(kind, step, d, e); }
  }

  /** The user is asked to authenticate in the context just created, and Execute follows a success there. */
  lemma {:induction false} ExecuteFollowsVerification(kind: Kind, step: StepId, d: Data, e: Event)
    requires Accepts(step, e)
    ensures Route(kind, step, d, e).RequestAuth? ==>
              e.AuthenticationRequired? && AuthAfter(kind, step, d.auth, e).context == Some(e.context)
    ensures Route(kind, step, d, e).Execute? ==>
              step.RequestAuth? && e.Verified? && AuthAfter(kind, step, d.auth, e).context == d.auth.context
  {
  }

  lemma {:induction false} ApprovalShown(kind: Kind, ms: seq<Machine>, es: seq<Event>, n: nat)
    requires IsHistory(kind, ms, es) && n <= |es| && ms[n].step.RequestApproval?
    ensures n > 0 && ms[n - 1].step.Prepare? && es[n - 1].Ready? && ms[n - 1].data.terms == ms[n].data.terms
    ensures ms[n].data.consent.confirmation == Some(es[n - 1].confirmation)
  {
    if n > 0 {
      var m, e := ms[n - 1], es[n - 1];
      assert Moves(ms, es, n - 1);
      ApprovalFollowsPrepare(m.kind, m.step, m.data, e);
    }
  }

  lemma {:induction false} AgreementStands(kind: Kind, ms: seq<Machine>, es: seq<Event>, n: nat) returns (q: nat)
    requires IsHistory(kind, ms, es) && n <= |es| && Authorising(ms[n].step)
    ensures AgreedAt(ms, es, q, n)
  {
    if n > 0 {
      var m, e := ms[n - 1], es[n - 1];
      assert Moves(ms, es, n - 1);
      AuthorisingFollowsApproval(m.kind, m.step, m.data, e);
      if Authorising(m.step) {
        q := AgreementStands(kind, ms, es, n - 1);
      } else {
        ApprovalShown(kind, ms, es, n - 1);
        q := n - 2;
      }
    }
  }

  /** What has happened in any run that is about to move money: the Prepare of the very terms it holds was answered
      with the confirmation it holds, the user approved that answer next, the run has done nothing but authenticate
      since, and its last two outcomes created the auth context it holds and verified the user in it. */
  lemma {:induction false} WhatLedToExecute(kind: Kind, ms: seq<Machine>, es: seq<Event>, n: nat)
    requires IsHistory(kind, ms, es) && n <= |es| && ms[n].step.Execute?
    ensures n >= 2 && es[n - 1].Verified? && es[n - 2].AuthenticationRequired?
    ensures ms[n].data.auth.context == Some(es[n - 2].context)
    ensures exists q: nat :: AgreedAt(ms, es, q, n)
  {
    var q := AgreementStands(kind, ms, es, n);
    assert Moves(ms, es, n - 1) && Moves(ms, es, n - 2);
    ExecuteFollowsVerification(ms[n - 1].kind, ms[n - 1].step, ms[n - 1].data, es[n - 1]);
    ExecuteFollowsVerification(ms[n - 2].kind, ms[n - 2].step, ms[n - 2].data, es[n - 2]);
  }

  // ---------------------------------------------------------------- counters and keys

  /** How many of the steps from place i up to place n are the given one. */
  function Visits(ms: seq<Machine>, step: StepId, i: nat, n: nat): nat
    requires i <= n <= |ms|
    decreases n
  {
    if i == n then 0 else Visits(ms, step, i, n - 1) + if ms[n - 1].step == step then 1 else 0
  }

  lemma {:induction false} CounterMoves(kind: Kind, step: StepId, d: Data, e: Event)
    requires Accepts(step, e)
    ensures ConsentAfter(kind, step, d.consent, e).attempt == d.consent.attempt + if step.StartPrepare? then 1 else 0
    ensures !Resets(kind, step) ==>
              AuthAfter(kind, step, d.auth, e).attempt == d.auth.attempt + if step.StartAuth? then 1 else 0
    ensures Resets(kind, step) ==> AuthAfter(kind, step, d.auth, e).attempt == 0
  {
  }

  /** The Prepare counter is the number of Prepare attempts the run has started. */
  lemma {:induction false} PrepareAttemptCounts(kind: Kind, ms: seq<Machine>, es: seq<Event>, n: nat)
    requires IsHistory(kind, ms, es) && n <= |es|
    ensures ms[n].data.consent.attempt == Visits(ms, StartPrepare, 0, n)
  {
    if n > 0 {
      PrepareAttemptCounts(kind, ms, es, n - 1);
      assert Moves(ms, es, n - 1);
      CounterMoves(ms[n - 1].kind, ms[n - 1].step, ms[n - 1].data, es[n - 1]);
    }
  }

  predicate ResetsAt(ms: seq<Machine>, j: int) {
    0 <= j < |ms| && Resets(ms[j].kind, ms[j].step)
  }

  /** The auth counter is the number of authentications started since the last reset. */
  lemma {:induction false} AuthAttemptCounts(kind: Kind, ms: seq<Machine>, es: seq<Event>, r: nat, n: nat)
    requires IsHistory(kind, ms, es) && r <= n <= |es|
    requires r == 0 || ResetsAt(ms, r - 1)
    requires forall j :: r <= j < n ==> !ResetsAt(ms, j)
    ensures ms[n].data.auth.attempt == Visits(ms, StartAuth, r, n)
  {
    if n > 0 {
      assert Moves(ms, es, n - 1);
      CounterMoves(ms[n - 1].kind, ms[n - 1].step, ms[n - 1].data, es[n - 1]);
      if r < n {
        assert !ResetsAt(ms, n - 1);
        AuthAttemptCounts(kind, ms, es, r, n - 1);
      }
    }
  }

  /** The key of a call made at a step. */
  predicate IsKeyOf(m: Machine, k: IdempotencyKey) {
    match m.step
    case Prepare => k == PrepareKey(m.data.consent.attempt)
    case CreateAuth =>
      k.AuthKey? && m.data.consent.confirmation == Some(k.confirmation) && k.attempt == m.data.auth.attempt
    case Execute =>
      k.ExecuteKey? && m.data.consent.confirmation == Some(k.confirmation) && k.attempt == m.data.auth.attempt
    case _ => false
  }

  lemma {:induction false} CallIsKeyed(kind: Kind, ms: seq<Machine>, es: seq<Event>, i: nat)
    requires IsHistory(kind, ms, es) && i < |es|
    requires ms[i].step.Prepare? || ms[i].step.CreateAuth? || ms[i].step.Execute?
    ensures exists k :: IsKeyOf(ms[i], k) && ms[i + 1].keys == ms[i].keys + [k]
  {
    assert Moves(ms, es, i);
    if Authorising(ms[i].step) { var q := AgreementStands(kind, ms, es, i); }
    var k := KeysSent(ms[i].step, ms[i].data.consent, ms[i].data.auth)[0];
    assert IsKeyOf(ms[i], k);
  }

  /** Each of the calls a run made was sent under its own key, and no other key was used: as many keys as calls, in
      the order of the calls. */
  lemma {:induction false} EveryCallHasItsKey(kind: Kind, ms: seq<Machine>, es: seq<Event>, i: nat, n: nat)
    requires IsHistory(kind, ms, es) && i < n <= |es|
    requires ms[i].step.Prepare? || ms[i].step.CreateAuth? || ms[i].step.Execute?
    ensures Calls(ms, i) < |ms[n].keys| == Calls(ms, n) && IsKeyOf(ms[i], ms[n].keys[Calls(ms, i)])
  {
    KeysAreCalls(kind, ms, es, i);
    KeysAreCalls(kind, ms, es, n);
    CallIsKeyed(kind, ms, es, i);
    KeysGrow(kind, ms, es, i + 1, n);
  }

  /** How many calls the run has made before place n. */
  function Calls(ms: seq<Machine>, n: nat): nat
    requires n <= |ms|
  {
    Visits(ms, Prepare, 0, n) + Visits(ms, CreateAuth, 0, n) + Visits(ms, Execute, 0, n)
  }

  lemma {:induction false} KeySent(m: Machine, e: Event)
    requires Accepts(m.step, e)
    ensures |Next(m, e).keys| == |m.keys| + if m.step.Prepare? || m.step.CreateAuth? || m.step.Execute? then 1 else 0
  {
  }

  lemma {:induction false} KeysAreCalls(kind: Kind, ms: seq<Machine>, es: seq<Event>, n: nat)
    requires IsHistory(kind, ms, es) && n <= |es|
    ensures |ms[n].keys| == Calls(ms, n)
  {
    if n > 0 {
      KeysAreCalls(kind, ms, es, n - 1);
      assert Moves(ms, es, n - 1);
      KeySent(ms[n - 1], es[n - 1]);
    }
  }

  lemma {:induction false} KeysGrow(kind: Kind, ms: seq<Machine>, es: seq<Event>, i: nat, n: nat)
    requires IsHistory(kind, ms, es) && i <= n <= |es|
    ensures ms[i].keys <= ms[n].keys
  {
    if i < n {
      KeysGrow(kind, ms, es, i, n - 1);
      assert Moves(ms, es, n - 1);
    }
  }

  /** Every run has its history. */
  lemma {:induction false} RunHasHistory(kind: Kind, es: seq<Event>) returns (ms: seq<Machine>)
    requires IsRun(Start(kind), es)
    ensures IsHistory(kind, ms, es) && ms[|es|] == Reached(kind, es)
  {
    ms := Passed(Start(kind), es);
  }

  lemma {:induction false} Passed(m: Machine, es: seq<Event>) returns (ms: seq<Machine>)
    requires IsRun(m, es)
    ensures |ms| == |es| + 1 && ms[0] == m && ms[|es|] == After(m, es)
    ensures forall i {:trigger Moves(ms, es, i)} :: 0 <= i < |es| ==> Moves(ms, es, i)
    decreases |es|
  {
    if es == [] { return [m]; }
    var rest := Passed(Next(m, es[0]), es[1..]);
    ms := [m] + rest;
    MovesBefore(m, rest, es);
  }

  lemma {:induction false} MovesBefore(m: Machine, rest: seq<Machine>, es: seq<Event>)
    requires es != [] && |rest| == |es| && Enabled(m, es[0]) && rest[0] == Next(m, es[0])
    requires forall i {:trigger Moves(rest, es[1..], i)} :: 0 <= i < |es| - 1 ==> Moves(rest, es[1..], i)
    ensures forall i {:trigger Moves([m] + rest, es, i)} :: 0 <= i < |es| ==> Moves([m] + rest, es, i)
  {
    var ms := [m] + rest;
    forall i | 0 <= i < |es| ensures Moves(ms, es, i) {
      if i > 0 {
        assert Moves(rest, es[1..], i - 1);
        assert ms[i] == rest[i - 1] && ms[i + 1] == rest[i] && es[i] == es[1..][i - 1];
      }
    }
  }
}
