/** Runs of the transfer workflows against a Backend and a user that keep to the documented outcomes.

    The machine carries, beside the workflow's own step and data, what the Backend remembers and the
    history of the idempotency keys it was sent. */
module TransferWorkflow {
  import opened Wrappers
  import opened TransferContract

  /** The three idempotency key formats; the execution context in them is the run itself. */
  datatype IdempotencyKey =
    | PrepareKey(attempt: int)
    | AuthKey(confirmation: nat, attempt: int)
    | ExecuteKey(confirmation: nat, attempt: int)

  datatype Prepared = Prepared(attempt: int, terms: Terms, confirmation: Option<nat>)

  datatype Machine = Machine(
    kind: Kind, step: StepId, data: Data,
    keys: seq<IdempotencyKey>,            // one per logical Prepare, auth-context and Execute call
    last: Option<Prepared>,               // the most recent Prepare call
    issued: map<nat, int>,                // confirmation id -> the Prepare attempt it was issued for
    contexts: map<nat, (nat, int)>,       // auth context id -> confirmation and auth attempt it was created for
    approved: set<nat>, verified: set<nat>)

  function Start(kind: Kind): Machine {
    Machine(kind, ExtractSlots, Initial(), [], None, map[], map[], {}, {})
  }

  /** An id a required input supplies; 0 stands for a missing one, which DefinitelyAssigned rules out. */
  function IdOf(o: Option<nat>): nat {
    if o.Some? then o.value else 0
  }

  function KeysSent(step: StepId, c: Consent, a: Auth): seq<IdempotencyKey> {
    match step
    case Prepare => [PrepareKey(c.attempt)]
    case CreateAuth => [AuthKey(IdOf(c.confirmation), a.attempt)]
    case Execute => [ExecuteKey(IdOf(c.confirmation), a.attempt)]
    case _ => []
  }

  // ---------------------------------------------------------------- the environment

  /** The account the accounts API is told to leave out. */
  function Excluded(kind: Kind, step: StepId, t: Terms): set<nat> {
    var o := if step.ResolveTo? then t.from else t.to;
    if kind == Internal && o.Some? then {o.value} else {}
  }

  /** The Backend honours the exclusion and lets the user choose among the candidates only. */
  predicate Choices(kind: Kind, step: StepId, t: Terms, s: Search, e: Event) {
    match e
    case Resolved(a, cs) => a !in Excluded(kind, step, t) && forall c :: c in cs ==> c !in Excluded(kind, step, t)
    case SelectionRequired(cs) => forall c :: c in cs ==> c !in Excluded(kind, step, t)
    case Selected(a) => a in s.accounts
    case _ => true
  }

  /** And it is idempotent: an id it has issued before comes back only for the key it was issued for. */
  predicate Idempotent(c: Consent, a: Auth, issued: map<nat, int>, contexts: map<nat, (nat, int)>, e: Event) {
    match e
    case Ready(x) => x in issued ==> issued[x] == c.attempt
    case AuthenticationRequired(x) => x in contexts ==> contexts[x] == (IdOf(c.confirmation), a.attempt)
    case _ => true
  }

  predicate Enabled(m: Machine, e: Event) {
    && Accepts(m.step, e)
    && Choices(m.kind, m.step, m.data.terms, m.data.search, e)
    && Idempotent(m.data.consent, m.data.auth, m.issued, m.contexts, e)
  }

  function LastAfter(step: StepId, d: Data, last: Option<Prepared>, e: Event): Option<Prepared> {
    if step.Prepare? then
      Some(Prepared(d.consent.attempt, d.terms, if e.Ready? then Some(e.confirmation) else None))
    else last
  }

  function IssuedAfter(c: Consent, issued: map<nat, int>, e: Event): map<nat, int> {
    if e.Ready? then issued[e.confirmation := c.attempt] else issued
  }

  function ContextsAfter(c: Consent, a: Auth, contexts: map<nat, (nat, int)>, e: Event): map<nat, (nat, int)> {
    if e.AuthenticationRequired? then contexts[e.context := (IdOf(c.confirmation), a.attempt)] else contexts
  }

  function ApprovedAfter(c: Consent, approved: set<nat>, e: Event): set<nat> {
    if e.Approved? then approved + {IdOf(c.confirmation)} else approved
  }

  function VerifiedAfter(a: Auth, verified: set<nat>, e: Event): set<nat> {
    if e.Verified? then verified + {IdOf(a.context)} else verified
  }

  /** One step: route on the outcome, update the data, and let the Backend remember. */
  function Next(m: Machine, e: Event): Machine
    requires Accepts(m.step, e)
  {
    var d, c, a := m.data, m.data.consent, m.data.auth;
    Machine(
      m.kind, Route(m.kind, m.step, d, e), Updated(m.kind, m.step, d, e), m.keys + KeysSent(m.step, c, a),
      LastAfter(m.step, d, m.last, e), IssuedAfter(c, m.issued, e), ContextsAfter(c, a, m.contexts, e),
      ApprovedAfter(c, m.approved, e), VerifiedAfter(a, m.verified, e))
  }

  ghost predicate IsRun(m: Machine, es: seq<Event>)
    decreases |es|
  {
    es == [] || (Enabled(m, es[0]) && IsRun(Next(m, es[0]), es[1..]))
  }

  function After(m: Machine, es: seq<Event>): Machine
    requires IsRun(m, es)
    decreases |es|
  {
    if es == [] then m else After(Next(m, es[0]), es[1..])
  }

  // ---------------------------------------------------------------- the invariant

  predicate Belongs(kind: Kind, step: StepId) {
    match step
    case ResolveTo => kind == Internal
    case SelectTo => kind == Internal
    case EmitToEmpty => kind == Internal
    case ResetTo => kind == Internal
    case ResolveRecipientHint => kind == External
    case RequestRecipient => kind == External
    case ResetRecipient => kind == External
    case _ => true
  }

  /** Steps before a confirmation exists. */
  predicate Collecting(step: StepId) {
    step.ExtractSlots? || step.ResolveRecipientHint? || step.RequestRecipient? || step.ResolveFrom? || step.SelectFrom?
    || step.ResolveTo? || step.SelectTo? || step.CheckAmount? || step.RequestAmount? || step.StartPrepare?
    || step.Prepare?
  }

  /** Steps that run on a confirmation; all but the first need its approval. */
  predicate Confirming(step: StepId) {
    step.RequestApproval? || Authorising(step)
  }

  predicate Authorising(step: StepId) {
    step.StartAuth? || step.CreateAuth? || step.RequestAuth? || step.RequestAuthRetry? || step.Execute?
    || step.EmitResult?
  }

  predicate Correcting(step: StepId) {
    step.RouteCorrection? || step.RequestCorrection?
    || step.ResetFrom? || step.ResetTo? || step.ResetRecipient? || step.ResetAmount?
  }

  predicate FromKnown(step: StepId) {
    step.ResolveTo? || step.SelectTo? || step.EmitToEmpty? || DestinationKnown(step)
  }

  predicate DestinationKnown(step: StepId) {
    step.CheckAmount? || step.RequestAmount? || step.StartPrepare? || step.Prepare? || Confirming(step)
    || Correcting(step)
  }

  predicate AmountKnown(step: StepId) {
    step.StartPrepare? || step.Prepare? || Confirming(step) || Correcting(step)
  }

  predicate OneRecipient(t: Terms) {
    t.recipient.Some? != t.candidate.Some?
  }

  /** What each step can rely on among the terms. */
  predicate TermsKnown(kind: Kind, s: StepId, t: Terms) {
    && (FromKnown(s) ==> t.from.Some?)
    && (kind == Internal && DestinationKnown(s) ==> t.to.Some? && t.to != t.from)
    && (kind == External && (DestinationKnown(s) || s.ResolveFrom? || s.SelectFrom?) ==> OneRecipient(t))
    && (s.ExtractSlots? || s.ResolveRecipientHint? || s.RequestRecipient? ==> t.recipient.None? && t.candidate.None?)
    && (AmountKnown(s) ==> ValidAmount(t.amount))
  }

  /** And among the values looked up and reported. */
  predicate LookupsKnown(kind: Kind, s: StepId, t: Terms, q: Search) {
    && (s.SelectTo? ==> IdOf(t.from) !in q.accounts)
    && (s.SelectFrom? && kind == Internal && t.to.Some? ==> t.to.value !in q.accounts)
    && (s.ResolveRecipientHint? ==> q.hint.Some?)
    && q.currency == "KRW"
  }

  predicate ReportKnown(s: StepId, r: Report) {
    && (s.RouteCorrection? || s.RequestCorrection? ==> r.correction.Some?)
    && (s.EmitBlocked? ==> r.blocked.Some?)
    && (s.EmitResult? ==> r.transaction.Some? && r.completedAt.Some?)
  }

  predicate Counted(s: StepId, c: Consent, a: Auth) {
    && (s.Prepare? || Confirming(s) ==> 0 < c.attempt)
    && (Authorising(s) && !s.StartAuth? ==> 0 < a.attempt)
    && (Collecting(s) ==> c.confirmation.None? && a.attempt == 0)
    && (Confirming(s) ==> c.confirmation.Some? && c.view == c.confirmation)
    && (Authenticating(s) ==> a.context.Some? && a.request == a.context)
    && (s.Execute? ==> a.status == Some("verified"))
  }

  /** The values each step can rely on. */
  predicate Assigned(kind: Kind, s: StepId, d: Data) {
    && TermsKnown(kind, s, d.terms) && LookupsKnown(kind, s, d.terms, d.search) && ReportKnown(s, d.report)
    && Counted(s, d.consent, d.auth)
  }

  /** The confirmation is the answer to the most recent Prepare, for the very terms, and was approved. */
  predicate Consented(
    s: StepId, t: Terms, c: Consent, last: Option<Prepared>, issued: map<nat, int>, approved: set<nat>)
  {
    && (Confirming(s) ==>
          && IdOf(c.confirmation) in issued && last == Some(Prepared(c.attempt, t, c.confirmation)))
    && (Authorising(s) ==> IdOf(c.confirmation) in approved)
  }

  /** The auth context was created for the confirmation in the current attempt, and verified. */
  predicate Authenticated(s: StepId, c: Consent, a: Auth, contexts: map<nat, (nat, int)>, verified: set<nat>) {
    && (Authenticating(s) ==>
          IdOf(a.context) in contexts && contexts[IdOf(a.context)] == (IdOf(c.confirmation), a.attempt))
    && (s.Execute? ==> IdOf(a.context) in verified)
  }

  /** What the confirmation and the auth context in the data stand for. */
  predicate Trusted(m: Machine) {
    && Consented(m.step, m.data.terms, m.data.consent, m.last, m.issued, m.approved)
    && Authenticated(m.step, m.data.consent, m.data.auth, m.contexts, m.verified)
  }

  predicate Authenticating(s: StepId) {
    s.RequestAuth? || s.RequestAuthRetry? || s.Execute?
  }

  /** How a key already sent relates to the counters now. */
  predicate Spent(s: StepId, c: Consent, a: Auth, issued: map<nat, int>, k: IdempotencyKey) {
    match k
    case PrepareKey(n) => if s.Prepare? then n < c.attempt else n <= c.attempt
    case AuthKey(x, n) =>
      && x in issued
      && (c.confirmation == Some(x) ==> if s.CreateAuth? then n < a.attempt else n <= a.attempt)
    case ExecuteKey(x, n) =>
      && x in issued
      && (c.confirmation == Some(x) ==>
            if s.CreateAuth? || Authenticating(s) then n < a.attempt else n <= a.attempt)
  }

  predicate Distinct(keys: seq<IdempotencyKey>) {
    forall i, j :: 0 <= i < j < |keys| ==> keys[i] != keys[j]
  }

  predicate AllSpent(s: StepId, c: Consent, a: Auth, issued: map<nat, int>, keys: seq<IdempotencyKey>) {
    forall i :: 0 <= i < |keys| ==> Spent(s, c, a, issued, keys[i])
  }

  ghost predicate IssuedByPrepare(issued: map<nat, int>, keys: seq<IdempotencyKey>) {
    forall c :: c in issued ==> PrepareKey(issued[c]) in keys
  }

  ghost predicate CreatedByAuth(contexts: map<nat, (nat, int)>, keys: seq<IdempotencyKey>) {
    forall x :: x in contexts ==> AuthKey(contexts[x].0, contexts[x].1) in keys
  }

  ghost predicate KeysFresh(m: Machine) {
    Distinct(m.keys) && AllSpent(m.step, m.data.consent, m.data.auth, m.issued, m.keys)
  }

  /** What the Backend remembers comes from calls it received. */
  ghost predicate Remembered(m: Machine) {
    && IssuedByPrepare(m.issued, m.keys) && CreatedByAuth(m.contexts, m.keys)
    && m.approved <= m.issued.Keys && m.verified <= m.contexts.Keys
  }

  ghost predicate Inv(m: Machine) {
    Belongs(m.kind, m.step) && Assigned(m.kind, m.step, m.data) && Trusted(m) && KeysFresh(m)
    && Remembered(m)
  }

  // ---------------------------------------------------------------- every step keeps it

  lemma {:induction false} BelongsKept(kind: Kind, s: StepId, d: Data, e: Event)
    requires Belongs(kind, s) && Accepts(s, e)
    ensures Belongs(kind, Route(kind, s, d, e))
  {
    var ts := CorrectionTargets(d.report);
    assert ts == [] || ts[0] in ts;
  }

  lemma {:induction false} TermsKeptRecipient(kind: Kind, s: StepId, d: Data, e: Event)
    requires Belongs(kind, s) && Accepts(s, e) && Choices(kind, s, d.terms, d.search, e)
    requires TermsKnown(kind, s, d.terms) && LookupsKnown(kind, s, d.terms, d.search)
    requires Collecting(s)
    requires s.ExtractSlots? || s.ResolveRecipientHint? || s.RequestRecipient?
    ensures TermsKnown(kind, Route(kind, s, d, e), TermsAfter(kind, s, d.terms, e))
  {
  }

  lemma {:induction false} TermsKeptFrom(kind: Kind, s: StepId, d: Data, e: Event)
    requires Belongs(kind, s) && Accepts(s, e) && Choices(kind, s, d.terms, d.search, e)
    requires TermsKnown(kind, s, d.terms) && LookupsKnown(kind, s, d.terms, d.search)
    requires Collecting(s)
    requires s.ResolveFrom? || s.SelectFrom?
    ensures TermsKnown(kind, Route(kind, s, d, e), TermsAfter(kind, s, d.terms, e))
  {
  }

  lemma {:induction false} TermsKeptTo(kind: Kind, s: StepId, d: Data, e: Event)
    requires Belongs(kind, s) && Accepts(s, e) && Choices(kind, s, d.terms, d.search, e)
    requires TermsKnown(kind, s, d.terms) && LookupsKnown(kind, s, d.terms, d.search)
    requires Collecting(s)
    requires Collecting(s) && !s.ExtractSlots? && !s.ResolveRecipientHint? && !s.RequestRecipient?
      && !s.ResolveFrom? && !s.SelectFrom?
    ensures TermsKnown(kind, Route(kind, s, d, e), TermsAfter(kind, s, d.terms, e))
  {
  }

  lemma {:induction false} TermsKeptCollecting(kind: Kind, s: StepId, d: Data, e: Event)
    requires Belongs(kind, s) && Accepts(s, e) && Choices(kind, s, d.terms, d.search, e)
    requires TermsKnown(kind, s, d.terms) && LookupsKnown(kind, s, d.terms, d.search)
    requires Collecting(s)
    ensures TermsKnown(kind, Route(kind, s, d, e), TermsAfter(kind, s, d.terms, e))
  {
    if s.ExtractSlots? || s.ResolveRecipientHint? || s.RequestRecipient? { TermsKeptRecipient(kind, s, d, e); }
    else if s.ResolveFrom? || s.SelectFrom? { TermsKeptFrom(kind, s, d, e); }
    else { TermsKeptTo(kind, s, d, e); }
  }

  lemma {:induction false} TermsKeptApproval(kind: Kind, s: StepId, d: Data, e: Event)
    requires Belongs(kind, s) && Accepts(s, e) && Choices(kind, s, d.terms, d.search, e)
    requires TermsKnown(kind, s, d.terms) && LookupsKnown(kind, s, d.terms, d.search)
    requires Confirming(s)
    requires s.RequestApproval?
    ensures TermsKnown(kind, Route(kind, s, d, e), TermsAfter(kind, s, d.terms, e))
  {
  }

  lemma {:induction false} TermsKeptExecute(kind: Kind, s: StepId, d: Data, e: Event)
    requires Belongs(kind, s) && Accepts(s, e) && Choices(kind, s, d.terms, d.search, e)
    requires TermsKnown(kind, s, d.terms) && LookupsKnown(kind, s, d.terms, d.search)
    requires Confirming(s)
    requires Authorising(s)
    requires s.Execute?
    ensures TermsKnown(kind, Route(kind, s, d, e), TermsAfter(kind, s, d.terms, e))
  {
  }

  lemma {:induction false} TermsKeptAuth(kind: Kind, s: StepId, d: Data, e: Event)
    requires Belongs(kind, s) && Accepts(s, e) && Choices(kind, s, d.terms, d.search, e)
    requires TermsKnown(kind, s, d.terms) && LookupsKnown(kind, s, d.terms, d.search)
    requires Confirming(s)
    requires Authorising(s)
    requires Authorising(s) && !s.Execute?
    ensures TermsKnown(kind, Route(kind, s, d, e), TermsAfter(kind, s, d.terms, e))
  {
  }

  lemma {:induction false} TermsKeptAuthorising(kind: Kind, s: StepId, d: Data, e: Event)
    requires Belongs(kind, s) && Accepts(s, e) && Choices(kind, s, d.terms, d.search, e)
    requires TermsKnown(kind, s, d.terms) && LookupsKnown(kind, s, d.terms, d.search)
    requires Confirming(s)
    requires Authorising(s)
    ensures TermsKnown(kind, Route(kind, s, d, e), TermsAfter(kind, s, d.terms, e))
  {
    if s.Execute? { TermsKeptExecute(kind, s, d, e); }
    else { TermsKeptAuth(kind, s, d, e); }
  }

  lemma {:induction false} TermsKeptGranting(kind: Kind, s: StepId, d: Data, e: Event)
    requires Belongs(kind, s) && Accepts(s, e) && Choices(kind, s, d.terms, d.search, e)
    requires TermsKnown(kind, s, d.terms) && LookupsKnown(kind, s, d.terms, d.search)
    requires Confirming(s)
    ensures TermsKnown(kind, Route(kind, s, d, e), TermsAfter(kind, s, d.terms, e))
  {
    if s.RequestApproval? { TermsKeptApproval(kind, s, d, e); }
    else { TermsKeptAuthorising(kind, s, d, e); }
  }

  lemma {:induction false} TermsKeptOtherwise(kind: Kind, s: StepId, d: Data, e: Event)
    requires Belongs(kind, s) && Accepts(s, e) && Choices(kind, s, d.terms, d.search, e)
    requires TermsKnown(kind, s, d.terms) && LookupsKnown(kind, s, d.terms, d.search)
    requires !Collecting(s) && !Confirming(s)
    ensures TermsKnown(kind, Route(kind, s, d, e), TermsAfter(kind, s, d.terms, e))
  {
  }

  lemma {:induction false} TermsKept(kind: Kind, s: StepId, d: Data, e: Event)
    requires Belongs(kind, s) && Accepts(s, e) && Choices(kind, s, d.terms, d.search, e)
    requires TermsKnown(kind, s, d.terms) && LookupsKnown(kind, s, d.terms, d.search)
    ensures TermsKnown(kind, Route(kind, s, d, e), TermsAfter(kind, s, d.terms, e))
  {
    if Collecting(s) { TermsKeptCollecting(kind, s, d, e); }
    else if Confirming(s) { TermsKeptGranting(kind, s, d, e); }
    else { TermsKeptOtherwise(kind, s, d, e); }
  }

  lemma {:induction false} LookupsKeptFrom(kind: Kind, s: StepId, d: Data, e: Event)
    requires Belongs(kind, s) && Accepts(s, e) && Choices(kind, s, d.terms, d.search, e)
    requires TermsKnown(kind, s, d.terms) && LookupsKnown(kind, s, d.terms, d.search)
    requires Collecting(s)
    requires s.ResolveFrom? || s.SelectFrom?
    ensures LookupsKnown(kind, Route(kind, s, d, e), TermsAfter(kind, s, d.terms, e), SearchAfter(kind, s, d.search, e))
  {
  }

  lemma {:induction false} LookupsKeptElsewhere(kind: Kind, s: StepId, d: Data, e: Event)
    requires Belongs(kind, s) && Accepts(s, e) && Choices(kind, s, d.terms, d.search, e)
    requires TermsKnown(kind, s, d.terms) && LookupsKnown(kind, s, d.terms, d.search)
    requires Collecting(s)
    requires Collecting(s) && !s.ResolveFrom? && !s.SelectFrom?
    ensures LookupsKnown(kind, Route(kind, s, d, e), TermsAfter(kind, s, d.terms, e), SearchAfter(kind, s, d.search, e))
  {
  }

  lemma {:induction false} LookupsKeptCollecting(kind: Kind, s: StepId, d: Data, e: Event)
    requires Belongs(kind, s) && Accepts(s, e) && Choices(kind, s, d.terms, d.search, e)
    requires TermsKnown(kind, s, d.terms) && LookupsKnown(kind, s, d.terms, d.search)
    requires Collecting(s)
    ensures LookupsKnown(kind, Route(kind, s, d, e), TermsAfter(kind, s, d.terms, e), SearchAfter(kind, s, d.search, e))
  {
    if s.ResolveFrom? || s.SelectFrom? { LookupsKeptFrom(kind, s, d, e); }
    else { LookupsKeptElsewhere(kind, s, d, e); }
  }

  lemma {:induction false} LookupsKeptLater(kind: Kind, s: StepId, d: Data, e: Event)
    requires Belongs(kind, s) && Accepts(s, e) && Choices(kind, s, d.terms, d.search, e)
    requires TermsKnown(kind, s, d.terms) && LookupsKnown(kind, s, d.terms, d.search)
    requires !Collecting(s)
    ensures LookupsKnown(kind, Route(kind, s, d, e), TermsAfter(kind, s, d.terms, e), SearchAfter(kind, s, d.search, e))
  {
  }

  lemma {:induction false} LookupsKept(kind: Kind, s: StepId, d: Data, e: Event)
    requires Belongs(kind, s) && Accepts(s, e) && Choices(kind, s, d.terms, d.search, e)
    requires TermsKnown(kind, s, d.terms) && LookupsKnown(kind, s, d.terms, d.search)
    ensures LookupsKnown(kind, Route(kind, s, d, e), TermsAfter(kind, s, d.terms, e), SearchAfter(kind, s, d.search, e))
  {
    if Collecting(s) { LookupsKeptCollecting(kind, s, d, e); }
    else { LookupsKeptLater(kind, s, d, e); }
  }

  lemma {:induction false} ReportKeptCollecting(kind: Kind, s: StepId, d: Data, e: Event)
    requires Accepts(s, e) && ReportKnown(s, d.report)
    requires Collecting(s)
    ensures ReportKnown(Route(kind, s, d, e), ReportAfter(kind, s, d.report, e))
  {
  }

  lemma {:induction false} ReportKeptLater(kind: Kind, s: StepId, d: Data, e: Event)
    requires Accepts(s, e) && ReportKnown(s, d.report)
    requires !Collecting(s)
    ensures ReportKnown(Route(kind, s, d, e), ReportAfter(kind, s, d.report, e))
  {
  }

  lemma {:induction false} ReportKept(kind: Kind, s: StepId, d: Data, e: Event)
    requires Accepts(s, e) && ReportKnown(s, d.report)
    ensures ReportKnown(Route(kind, s, d, e), ReportAfter(kind, s, d.report, e))
  {
    if Collecting(s) { ReportKeptCollecting(kind, s, d, e); }
    else { ReportKeptLater(kind, s, d, e); }
  }

  lemma {:induction false} CountedKeptCollecting(kind: Kind, s: StepId, d: Data, e: Event)
    requires Belongs(kind, s) && Accepts(s, e) && Counted(s, d.consent, d.auth)
    requires Collecting(s)
    ensures Counted(Route(kind, s, d, e), ConsentAfter(kind, s, d.consent, e), AuthAfter(kind, s, d.auth, e))
  {
  }

  lemma {:induction false} CountedKeptExecute(kind: Kind, s: StepId, d: Data, e: Event)
    requires Belongs(kind, s) && Accepts(s, e) && Counted(s, d.consent, d.auth)
    requires Confirming(s)
    requires s.Execute?
    ensures Counted(Route(kind, s, d, e), ConsentAfter(kind, s, d.consent, e), AuthAfter(kind, s, d.auth, e))
  {
  }

  lemma {:induction false} CountedKeptAuth(kind: Kind, s: StepId, d: Data, e: Event)
    requires Belongs(kind, s) && Accepts(s, e) && Counted(s, d.consent, d.auth)
    requires Confirming(s)
    requires Confirming(s) && !s.Execute?
    ensures Counted(Route(kind, s, d, e), ConsentAfter(kind, s, d.consent, e), AuthAfter(kind, s, d.auth, e))
  {
  }

  lemma {:induction false} CountedKeptGranting(kind: Kind, s: StepId, d: Data, e: Event)
    requires Belongs(kind, s) && Accepts(s, e) && Counted(s, d.consent, d.auth)
    requires Confirming(s)
    ensures Counted(Route(kind, s, d, e), ConsentAfter(kind, s, d.consent, e), AuthAfter(kind, s, d.auth, e))
  {
    if s.Execute? { CountedKeptExecute(kind, s, d, e); }
    else { CountedKeptAuth(kind, s, d, e); }
  }

  lemma {:induction false} CountedKeptOtherwise(kind: Kind, s: StepId, d: Data, e: Event)
    requires Belongs(kind, s) && Accepts(s, e) && Counted(s, d.consent, d.auth)
    requires !Collecting(s) && !Confirming(s)
    ensures Counted(Route(kind, s, d, e), ConsentAfter(kind, s, d.consent, e), AuthAfter(kind, s, d.auth, e))
  {
  }

  lemma {:induction false} CountedKept(kind: Kind, s: StepId, d: Data, e: Event)
    requires Belongs(kind, s) && Accepts(s, e) && Counted(s, d.consent, d.auth)
    ensures Counted(Route(kind, s, d, e), ConsentAfter(kind, s, d.consent, e), AuthAfter(kind, s, d.auth, e))
  {
    if Collecting(s) { CountedKeptCollecting(kind, s, d, e); }
    else if Confirming(s) { CountedKeptGranting(kind, s, d, e); }
    else { CountedKeptOtherwise(kind, s, d, e); }
  }

  lemma {:induction false} AssignedKept(kind: Kind, s: StepId, d: Data, e: Event)
    requires Belongs(kind, s) && Assigned(kind, s, d) && Accepts(s, e) && Choices(kind, s, d.terms, d.search, e)
    ensures Belongs(kind, Route(kind, s, d, e)) && Assigned(kind, Route(kind, s, d, e), Updated(kind, s, d, e))
  {
    BelongsKept(kind, s, d, e);
    TermsKept(kind, s, d, e);
    LookupsKept(kind, s, d, e);
    ReportKept(kind, s, d, e);
    CountedKept(kind, s, d, e);
  }

  lemma {:induction false} ConsentedKeptCollecting(
    kind: Kind, s: StepId, d: Data, last: Option<Prepared>, issued: map<nat, int>, approved: set<nat>, e: Event)
    requires Accepts(s, e) && Counted(s, d.consent, d.auth)
    requires Consented(s, d.terms, d.consent, last, issued, approved)
    requires Collecting(s)
    ensures Consented(Route(kind, s, d, e), TermsAfter(kind, s, d.terms, e), ConsentAfter(kind, s, d.consent, e),
                      LastAfter(s, d, last, e), IssuedAfter(d.consent, issued, e),
                      ApprovedAfter(d.consent, approved, e))
  {
  }

  lemma {:induction false} ConsentedKeptGranting(
    kind: Kind, s: StepId, d: Data, last: Option<Prepared>, issued: map<nat, int>, approved: set<nat>, e: Event)
    requires Accepts(s, e) && Counted(s, d.consent, d.auth)
    requires Consented(s, d.terms, d.consent, last, issued, approved)
    requires Confirming(s)
    ensures Consented(Route(kind, s, d, e), TermsAfter(kind, s, d.terms, e), ConsentAfter(kind, s, d.consent, e),
                      LastAfter(s, d, last, e), IssuedAfter(d.consent, issued, e),
                      ApprovedAfter(d.consent, approved, e))
  {
  }

  lemma {:induction false} ConsentedKeptOtherwise(
    kind: Kind, s: StepId, d: Data, last: Option<Prepared>, issued: map<nat, int>, approved: set<nat>, e: Event)
    requires Accepts(s, e) && Counted(s, d.consent, d.auth)
    requires Consented(s, d.terms, d.consent, last, issued, approved)
    requires !Collecting(s) && !Confirming(s)
    ensures Consented(Route(kind, s, d, e), TermsAfter(kind, s, d.terms, e), ConsentAfter(kind, s, d.consent, e),
                      LastAfter(s, d, last, e), IssuedAfter(d.consent, issued, e),
                      ApprovedAfter(d.consent, approved, e))
  {
  }

  lemma {:induction false} ConsentedKept(
    kind: Kind, s: StepId, d: Data, last: Option<Prepared>, issued: map<nat, int>, approved: set<nat>, e: Event)
    requires Accepts(s, e) && Counted(s, d.consent, d.auth)
    requires Consented(s, d.terms, d.consent, last, issued, approved)
    ensures Consented(Route(kind, s, d, e), TermsAfter(kind, s, d.terms, e), ConsentAfter(kind, s, d.consent, e),
                      LastAfter(s, d, last, e), IssuedAfter(d.consent, issued, e),
                      ApprovedAfter(d.consent, approved, e))
  {
    if Collecting(s) { ConsentedKeptCollecting(kind, s, d, last, issued, approved, e); }
    else if Confirming(s) { ConsentedKeptGranting(kind, s, d, last, issued, approved, e); }
    else { ConsentedKeptOtherwise(kind, s, d, last, issued, approved, e); }
  }

  lemma {:induction false} AuthenticatedKeptCollecting(
    kind: Kind, s: StepId, d: Data, contexts: map<nat, (nat, int)>, verified: set<nat>, e: Event)
    requires Accepts(s, e) && Counted(s, d.consent, d.auth)
    requires Authenticated(s, d.consent, d.auth, contexts, verified)
    requires Collecting(s)
    ensures Authenticated(Route(kind, s, d, e), ConsentAfter(kind, s, d.consent, e), AuthAfter(kind, s, d.auth, e),
                          ContextsAfter(d.consent, d.auth, contexts, e), VerifiedAfter(d.auth, verified, e))
  {
  }

  lemma {:induction false} AuthenticatedKeptGranting(
    kind: Kind, s: StepId, d: Data, contexts: map<nat, (nat, int)>, verified: set<nat>, e: Event)
    requires Accepts(s, e) && Counted(s, d.consent, d.auth)
    requires Authenticated(s, d.consent, d.auth, contexts, verified)
    requires Confirming(s)
    ensures Authenticated(Route(kind, s, d, e), ConsentAfter(kind, s, d.consent, e), AuthAfter(kind, s, d.auth, e),
                          ContextsAfter(d.consent, d.auth, contexts, e), VerifiedAfter(d.auth, verified, e))
  {
  }

  lemma {:induction false} AuthenticatedKeptOtherwise(
    kind: Kind, s: StepId, d: Data, contexts: map<nat, (nat, int)>, verified: set<nat>, e: Event)
    requires Accepts(s, e) && Counted(s, d.consent, d.auth)
    requires Authenticated(s, d.consent, d.auth, contexts, verified)
    requires !Collecting(s) && !Confirming(s)
    ensures Authenticated(Route(kind, s, d, e), ConsentAfter(kind, s, d.consent, e), AuthAfter(kind, s, d.auth, e),
                          ContextsAfter(d.consent, d.auth, contexts, e), VerifiedAfter(d.auth, verified, e))
  {
  }

  lemma {:induction false} AuthenticatedKept(
    kind: Kind, s: StepId, d: Data, contexts: map<nat, (nat, int)>, verified: set<nat>, e: Event)
    requires Accepts(s, e) && Counted(s, d.consent, d.auth)
    requires Authenticated(s, d.consent, d.auth, contexts, verified)
    ensures Authenticated(Route(kind, s, d, e), ConsentAfter(kind, s, d.consent, e), AuthAfter(kind, s, d.auth, e),
                          ContextsAfter(d.consent, d.auth, contexts, e), VerifiedAfter(d.auth, verified, e))
  {
    if Collecting(s) { AuthenticatedKeptCollecting(kind, s, d, contexts, verified, e); }
    else if Confirming(s) { AuthenticatedKeptGranting(kind, s, d, contexts, verified, e); }
    else { AuthenticatedKeptOtherwise(kind, s, d, contexts, verified, e); }
  }

  /** How one step moves the counters: the Prepare counter never goes back, and the auth counter goes back only
      when the confirmation it counts for is dropped. */
  predicate Advances(s: StepId, c: Consent, a: Auth, s': StepId, c': Consent, a': Auth) {
    && c.attempt <= c'.attempt
    && (s'.Prepare? ==> c.attempt < c'.attempt)
    && (c'.confirmation.Some? ==> c'.confirmation == c.confirmation && a.attempt <= a'.attempt)
    && (c'.confirmation.Some? && (s'.CreateAuth? || (Authenticating(s') && !s.CreateAuth? && !Authenticating(s))) ==>
          a.attempt < a'.attempt)
  }

  lemma {:induction false} StepAdvancesCollecting(kind: Kind, s: StepId, d: Data, e: Event)
    requires Accepts(s, e) && !e.Ready?
    requires Collecting(s)
    ensures Advances(s, d.consent, d.auth, Route(kind, s, d, e),
                     ConsentAfter(kind, s, d.consent, e), AuthAfter(kind, s, d.auth, e))
  {
  }

  lemma {:induction false} StepAdvancesLater(kind: Kind, s: StepId, d: Data, e: Event)
    requires Accepts(s, e) && !e.Ready?
    requires !Collecting(s)
    ensures Advances(s, d.consent, d.auth, Route(kind, s, d, e),
                     ConsentAfter(kind, s, d.consent, e), AuthAfter(kind, s, d.auth, e))
  {
  }

  lemma {:induction false} StepAdvances(kind: Kind, s: StepId, d: Data, e: Event)
    requires Accepts(s, e) && !e.Ready?
    ensures Advances(s, d.consent, d.auth, Route(kind, s, d, e),
                     ConsentAfter(kind, s, d.consent, e), AuthAfter(kind, s, d.auth, e))
  {
    if Collecting(s) { StepAdvancesCollecting(kind, s, d, e); }
    else { StepAdvancesLater(kind, s, d, e); }
  }

  lemma {:induction false} SpentStays(
    s: StepId, c: Consent, a: Auth, issued: map<nat, int>, k: IdempotencyKey, s': StepId, c': Consent, a': Auth)
    requires Spent(s, c, a, issued, k) && Advances(s, c, a, s', c', a')
    ensures Spent(s', c', a', issued, k)
  {
  }

  lemma {:induction false} SpentAfterReady(
    c: Consent, a: Auth, issued: map<nat, int>, k: IdempotencyKey, c': Consent, a': Auth, x: nat)
    requires Spent(Prepare, c, a, issued, k) && x !in issued
    requires c'.attempt == c.attempt && c'.confirmation == Some(x)
    ensures Spent(RequestApproval, c', a', issued[x := c.attempt], k)
  {
  }

  /** A key once sent is never formed again. */
  lemma {:induction false} SpentKept(kind: Kind, s: StepId, d: Data, issued: map<nat, int>, e: Event, k: IdempotencyKey)
    requires Accepts(s, e) && (e.Ready? ==> e.confirmation !in issued)
    requires Spent(s, d.consent, d.auth, issued, k)
    ensures Spent(Route(kind, s, d, e), ConsentAfter(kind, s, d.consent, e), AuthAfter(kind, s, d.auth, e),
                  IssuedAfter(d.consent, issued, e), k)
  {
    var c', a' := ConsentAfter(kind, s, d.consent, e), AuthAfter(kind, s, d.auth, e);
    if e.Ready? {
      SpentAfterReady(d.consent, d.auth, issued, k, c', a', e.confirmation);
    } else {
      StepAdvances(kind, s, d, e);
      SpentStays(s, d.consent, d.auth, issued, k, Route(kind, s, d, e), c', a');
    }
  }

  /** A call never repeats a spent key. */
  lemma {:induction false} SentIsNew(s: StepId, c: Consent, a: Auth, issued: map<nat, int>, k: IdempotencyKey)
    requires Counted(s, c, a) && Spent(s, c, a, issued, k)
    ensures k !in KeysSent(s, c, a)
  {
  }

  lemma {:induction false} SentIsSpent(
    kind: Kind, s: StepId, d: Data, issued: map<nat, int>, e: Event, k: IdempotencyKey)
    requires Accepts(s, e) && Counted(s, d.consent, d.auth) && k in KeysSent(s, d.consent, d.auth)
    requires Confirming(s) ==> IdOf(d.consent.confirmation) in issued
    ensures Spent(Route(kind, s, d, e), ConsentAfter(kind, s, d.consent, e), AuthAfter(kind, s, d.auth, e),
                  IssuedAfter(d.consent, issued, e), k)
  {
  }

  lemma {:induction false} SentIsUnsent(m: Machine, k: IdempotencyKey)
    requires Counted(m.step, m.data.consent, m.data.auth) && KeysFresh(m)
    requires k in KeysSent(m.step, m.data.consent, m.data.auth)
    ensures k !in m.keys
  {
    forall i | 0 <= i < |m.keys| ensures m.keys[i] != k {
      SentIsNew(m.step, m.data.consent, m.data.auth, m.issued, m.keys[i]);
    }
  }

  /** The Backend's answer to a new Prepare carries a confirmation id never seen before, so no earlier approval
      can stand for it; and likewise the auth context. */
  lemma {:induction false} AnswersAreNew(m: Machine, e: Event)
    requires Inv(m) && Enabled(m, e)
    ensures e.Ready? ==> e.confirmation !in m.issued && e.confirmation !in m.approved
    ensures e.AuthenticationRequired? ==> e.context !in m.contexts && e.context !in m.verified
  {
    var c, a := m.data.consent, m.data.auth;
    if e.Ready? { SentIsUnsent(m, PrepareKey(c.attempt)); }
    if e.AuthenticationRequired? { SentIsUnsent(m, AuthKey(IdOf(c.confirmation), a.attempt)); }
  }

  lemma {:induction false} KeysKept(m: Machine, e: Event)
    requires Accepts(m.step, e) && (e.Ready? ==> e.confirmation !in m.issued) && KeysFresh(m)
    requires Counted(m.step, m.data.consent, m.data.auth) && Trusted(m)
    ensures KeysFresh(Next(m, e))
  {
    var m', c, a := Next(m, e), m.data.consent, m.data.auth;
    forall i | 0 <= i < |m'.keys| ensures Spent(m'.step, m'.data.consent, m'.data.auth, m'.issued, m'.keys[i]) {
      if i < |m.keys| { SpentKept(m.kind, m.step, m.data, m.issued, e, m.keys[i]); }
      else { SentIsSpent(m.kind, m.step, m.data, m.issued, e, m'.keys[i]); }
    }
    forall i, j | 0 <= i < j < |m'.keys| ensures m'.keys[i] != m'.keys[j] {
      if i < |m.keys| <= j { SentIsNew(m.step, c, a, m.issued, m.keys[i]); }
    }
  }

  lemma {:induction false} RememberedKept(m: Machine, e: Event)
    requires Accepts(m.step, e) && Counted(m.step, m.data.consent, m.data.auth) && Trusted(m) && Remembered(m)
    ensures Remembered(Next(m, e))
  {
  }

  lemma {:induction false} StepKeeps(m: Machine, e: Event)
    requires Inv(m) && Enabled(m, e)
    ensures Inv(Next(m, e))
  {
    AnswersAreNew(m, e);
    AssignedKept(m.kind, m.step, m.data, e);
    ConsentedKept(m.kind, m.step, m.data, m.last, m.issued, m.approved, e);
    AuthenticatedKept(m.kind, m.step, m.data, m.contexts, m.verified, e);
    KeysKept(m, e);
    RememberedKept(m, e);
  }

  lemma {:induction false} RunKeeps(m: Machine, es: seq<Event>)
    requires Inv(m) && IsRun(m, es)
    ensures Inv(After(m, es))
    decreases |es|
  {
    if es != [] {
      StepKeeps(m, es[0]);
      RunKeeps(Next(m, es[0]), es[1..]);
    }
  }

  /** The machine a run from the start leads to. */
  function Reached(kind: Kind, es: seq<Event>): Machine
    requires IsRun(Start(kind), es)
  {
    After(Start(kind), es)
  }

  lemma {:induction false} ReachedKeeps(kind: Kind, es: seq<Event>)
    requires IsRun(Start(kind), es)
    ensures Inv(Reached(kind, es))
  {
    RunKeeps(Start(kind), es);
  }

  // ---------------------------------------------------------------- main results

  /** No two logical Prepare, auth-context or Execute calls of a run share an idempotency key, although resets put
      the auth counter back to zero. */
  lemma {:induction false} KeysNeverRepeat(kind: Kind, es: seq<Event>, i: nat, j: nat)
    requires IsRun(Start(kind), es) && i < j < |Reached(kind, es).keys|
    ensures Reached(kind, es).keys[i] != Reached(kind, es).keys[j]
  {
    ReachedKeeps(kind, es);
  }

  /** Money moves only on what the user approved and authenticated: at Execute the confirmation is the answer to the
      most recent Prepare, that Prepare was for the very terms now in the state, the user approved it, and the auth
      context was created for it in the current attempt and verified. */
  lemma {:induction false} ExecuteIsAuthorised(kind: Kind, es: seq<Event>)
    requires IsRun(Start(kind), es) && Reached(kind, es).step.Execute?
    ensures var m := Reached(kind, es); var d := m.data;
            && d.consent.confirmation.Some? && d.auth.context.Some?
            && m.last == Some(Prepared(d.consent.attempt, d.terms, d.consent.confirmation))
            && d.consent.confirmation.value in m.approved
            && d.auth.context.value in m.contexts
            && m.contexts[d.auth.context.value] == (d.consent.confirmation.value, d.auth.attempt)
            && d.auth.context.value in m.verified
  {
    ReachedKeeps(kind, es);
  }

  /** Approvals and verifications are never inherited: each Prepare answered and each auth context created starts
      unapproved and unverified. */
  lemma {:induction false} NothingIsInherited(kind: Kind, es: seq<Event>, e: Event)
    requires IsRun(Start(kind), es) && Enabled(Reached(kind, es), e)
    ensures e.Ready? ==> e.confirmation !in Reached(kind, es).approved
    ensures e.AuthenticationRequired? ==> e.context !in Reached(kind, es).verified
  {
    ReachedKeeps(kind, es);
    AnswersAreNew(Reached(kind, es), e);
  }

  lemma {:induction false} TermsInput(kind: Kind, s: StepId, t: Terms, k: Key)
    requires TermsKnown(kind, s, t) && k in RequiredInputs(kind, s)
    ensures ReadTerms(t, k) != Some(Null)
  {
  }

  lemma {:induction false} SearchInput(kind: Kind, s: StepId, t: Terms, q: Search, k: Key)
    requires LookupsKnown(kind, s, t, q) && k in RequiredInputs(kind, s)
    ensures ReadSearch(q, k) != Some(Null)
  {
  }

  lemma {:induction false} ReportInput(kind: Kind, s: StepId, r: Report, k: Key)
    requires ReportKnown(s, r) && k in RequiredInputs(kind, s)
    ensures ReadReport(r, k) != Some(Null)
  {
  }

  lemma {:induction false} ConsentInput(kind: Kind, s: StepId, c: Consent, a: Auth, k: Key)
    requires Counted(s, c, a) && k in RequiredInputs(kind, s)
    ensures ReadConsent(c, k) != Some(Null) && ReadAuth(a, k) != Some(Null)
  {
  }

  lemma {:induction false} RecordsAreNoInputs(kind: Kind, s: StepId, l: Lookups, r: Replies, k: Key)
    requires k in RequiredInputs(kind, s)
    ensures ReadLookups(l, k).None? && ReadReplies(r, k).None?
  {
  }

  lemma {:induction false} InputsAreKnown(kind: Kind, s: StepId, d: Data, k: Key)
    requires Assigned(kind, s, d) && k in RequiredInputs(kind, s)
    ensures Read(d, k) != Null
  {
    EveryKeyIsSomewhere(d, k);
    TermsInput(kind, s, d.terms, k);
    SearchInput(kind, s, d.terms, d.search, k);
    ReportInput(kind, s, d.report, k);
    ConsentInput(kind, s, d.consent, d.auth, k);
    RecordsAreNoInputs(kind, s, d.lookups, d.replies, k);
  }

  /** Every required input is set whenever its step is entered, whatever was reset before. */
  lemma {:induction false} DefinitelyAssigned(kind: Kind, es: seq<Event>, k: Key)
    requires IsRun(Start(kind), es) && k in RequiredInputs(kind, Reached(kind, es).step)
    ensures Read(Reached(kind, es).data, k) != Null
  {
    ReachedKeeps(kind, es);
    KindStays(Start(kind), es);
    InputsAreKnown(kind, Reached(kind, es).step, Reached(kind, es).data, k);
  }

  /** A Prepare has two different accounts, or exactly one reference to a recipient, and a positive amount. */
  lemma {:induction false} PrepareIsWellFormed(kind: Kind, es: seq<Event>)
    requires IsRun(Start(kind), es) && Reached(kind, es).step.Prepare?
    ensures var d := Reached(kind, es).data;
            && d.terms.from.Some? && d.terms.amount.Num? && 0 < d.terms.amount.n
            && d.consent.attempt > 0 && d.consent.confirmation.None?
            && (kind == Internal ==> d.terms.to.Some? && d.terms.to != d.terms.from)
            && (kind == External ==> d.terms.recipient.Some? != d.terms.candidate.Some?)
  {
    ReachedKeeps(kind, es);
    KindStays(Start(kind), es);
  }

  /** A run that completed a transfer has only the result to show and then ends. */
  lemma {:induction false} NothingAfterCompletion(m: Machine, es: seq<Event>, i: nat)
    requires IsRun(m, es) && i < |es| && es[i].Completed?
    ensures |es| <= i + 2 && (|es| == i + 2 ==> es[i + 1].Go?)
    decreases |es|
  {
    var m', rest := Next(m, es[0]), es[1..];
    if i > 0 {
      NothingAfterCompletion(m', rest, i - 1);
    } else if rest != [] {
      assert m'.step.EmitResult?;
      assert Next(m', rest[0]).step.End?;
      EndIsFinal(Next(m', rest[0]), rest[1..]);
    }
  }

  lemma {:induction false} NothingAtEnd(m: Machine, e: Event)
    requires m.step.End?
    ensures !Enabled(m, e)
  {
  }

  lemma {:induction false} EndIsFinal(m: Machine, es: seq<Event>)
    requires IsRun(m, es) && m.step.End?
    ensures es == []
  {
    forall e ensures !Enabled(m, e) {
      NothingAtEnd(m, e);
    }
  }

  /** A run completes at most one transfer. */
  lemma {:induction false} AtMostOneTransfer(kind: Kind, es: seq<Event>, i: nat, j: nat)
    requires IsRun(Start(kind), es) && i < |es| && j < |es| && es[i].Completed? && es[j].Completed?
    ensures i == j
  {
    NothingAfterCompletion(Start(kind), es, i);
    NothingAfterCompletion(Start(kind), es, j);
  }

  /** No step but the end leaves a run without a possible outcome. */
  lemma {:induction false} NeverStuck(kind: Kind, es: seq<Event>) returns (e: Event)
    requires IsRun(Start(kind), es) && !Reached(kind, es).step.End?
    ensures Enabled(Reached(kind, es), e)
  {
    var m := Reached(kind, es);
    if Accepts(m.step, Fault) {
      return Fault;
    } else if m.step.ExtractSlots? {
      return Slots(None, None, None, Null);
    } else {
      return Go;
    }
  }

  /** A run never leaves the steps of its own workflow. */
  lemma {:induction false} StaysInItsWorkflow(kind: Kind, es: seq<Event>)
    requires IsRun(Start(kind), es)
    ensures Reached(kind, es).kind == kind && Belongs(kind, Reached(kind, es).step)
  {
    ReachedKeeps(kind, es);
    KindStays(Start(kind), es);
  }

  lemma {:induction false} KindStays(m: Machine, es: seq<Event>)
    requires IsRun(m, es)
    ensures After(m, es).kind == m.kind
    decreases |es|
  {
    if es != [] {
      KindStays(Next(m, es[0]), es[1..]);
    }
  }

  // ---------------------------------------------------------------- a run that gets there

  ghost predicate Leads(m: Machine, m': Machine) {
    exists es :: IsRun(m, es) && After(m, es) == m'
  }

  lemma {:induction false} LeadsThen(m: Machine, e: Event, m': Machine)
    requires Enabled(m, e) && Leads(Next(m, e), m')
    ensures Leads(m, m')
  {
    var es :| IsRun(Next(m, e), es) && After(Next(m, e), es) == m';
    assert ([e] + es)[1..] == es;
    assert IsRun(m, [e] + es) && After(m, [e] + es) == m';
  }

  lemma {:induction false} LeadsNowhere(m: Machine)
    ensures Leads(m, m)
  {
    assert IsRun(m, []) && After(m, []) == m;
  }

  lemma {:induction false} LeadsTwice(m: Machine, e: Event, f: Event, m': Machine)
    requires Enabled(m, e) && Enabled(Next(m, e), f) && Leads(Next(Next(m, e), f), m')
    ensures Leads(m, m')
  {
    LeadsThen(Next(m, e), f, m');
    LeadsThen(m, e, m');
  }

  lemma {:induction false} FromAuth(m: Machine) returns (m': Machine)
    requires m.step.CreateAuth? && m.contexts == map[]
    ensures Leads(m, m') && m'.step.Execute?
  {
    m' := Next(Next(m, AuthenticationRequired(9)), Verified);
    LeadsNowhere(m');
    LeadsTwice(m, AuthenticationRequired(9), Verified, m');
  }

  lemma {:induction false} FromApproval(m: Machine) returns (m': Machine)
    requires m.step.RequestApproval? && m.contexts == map[]
    ensures Leads(m, m') && m'.step.Execute?
  {
    m' := FromAuth(Next(Next(m, Approved), Go));
    LeadsTwice(m, Approved, Go, m');
  }

  lemma {:induction false} FromAmount(m: Machine) returns (m': Machine)
    requires m.step.CheckAmount? && ValidAmount(m.data.terms.amount) && m.issued == map[] && m.contexts == map[]
    ensures Leads(m, m') && m'.step.Execute?
  {
    var m2 := Next(Next(m, Go), Go);
    m' := FromApproval(Next(m2, Ready(7)));
    LeadsThen(m2, Ready(7), m');
    LeadsTwice(m, Go, Go, m');
  }

  lemma {:induction false} FromAccounts(m: Machine) returns (m': Machine)
    requires m.step.ResolveFrom? && m.data.terms.to.None? && ValidAmount(m.data.terms.amount)
    requires m.issued == map[] && m.contexts == map[]
    ensures Leads(m, m') && m'.step.Execute?
  {
    var m1 := Next(m, Resolved(1, [1]));
    if m.kind == External {
      m' := FromAmount(m1);
    } else {
      m' := FromDestination(m1);
    }
    LeadsThen(m, Resolved(1, [1]), m');
  }

  lemma {:induction false} FromDestination(m: Machine) returns (m': Machine)
    requires m.step.ResolveTo? && m.data.terms.from == Some(1) && ValidAmount(m.data.terms.amount)
    requires m.issued == map[] && m.contexts == map[]
    ensures Leads(m, m') && m'.step.Execute?
  {
    m' := FromAmount(Next(m, Resolved(2, [2])));
    LeadsThen(m, Resolved(2, [2]), m');
  }

  /** Both workflows have runs that reach Execute, so what is proved about it is about something. */
  lemma {:induction false} ExecuteIsReachable(kind: Kind) returns (es: seq<Event>)
    ensures IsRun(Start(kind), es) && Reached(kind, es).step.Execute?
  {
    var m, slots := Start(kind), Slots(None, None, None, Num(5));
    var m1, m' := Next(m, slots), m;
    if kind == Internal {
      m' := FromAccounts(m1);
    } else {
      m' := FromAccounts(Next(m1, RecipientSelected(Some(3), None)));
      LeadsThen(m1, RecipientSelected(Some(3), None), m');
    }
    LeadsThen(m, slots, m');
    es :| IsRun(m, es) && After(m, es) == m';
  }
}
