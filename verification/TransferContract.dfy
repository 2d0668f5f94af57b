/** The published contract of the two transfer workflows: steps, routes, mappings and resets.

    The internal and the external workflow share most of their steps, so one set of names serves both;
    a step's published id is the name here with the workflow's word put back (Execute stands for
    execute_internal_transfer and execute_external_transfer). */
module TransferContract {
  import opened Wrappers

  datatype Kind = Internal | External

  datatype StepId =
    | ExtractSlots | ResolveRecipientHint | RequestRecipient
    | ResolveFrom | SelectFrom | EmitFromEmpty
    | ResolveTo | SelectTo | EmitToEmpty
    | CheckAmount | RequestAmount
    | StartPrepare | Prepare | RequestApproval
    | ResetFrom | ResetTo | ResetRecipient | ResetAmount
    | RouteCorrection | RequestCorrection
    | StartAuth | CreateAuth | RequestAuth | RequestAuthRetry
    | Execute | EmitResult | EmitBlocked | EmitError | End

  datatype Key =
    | FromAccountHint | ToAccountHint | RecipientNameHint
    | AccountResolutionOutcome | Accounts | AccountSelectionOutcome
    | FromAccountId | ToAccountId
    | RecipientResolutionOutcome | RecipientSelectionReason | RecipientSelectionOutcome
    | ToRecipientId | ToRecipientCandidateId
    | Amount | AmountInputOutcome | Currency | InputRequestId
    | ConfirmationId | ConfirmationView | ApprovalOutcome | ChangeTarget
    | CorrectionView | CorrectionSelectionOutcome | BlockedView
    | AuthContextId | AuthRequestView | AuthStatus | AuthRetryOutcome
    | PrepareAttempt | AuthAttempt | TransactionId | CompletedAt

  datatype Target = FromTarget | ToTarget | RecipientTarget | AmountTarget

  datatype Value =
    | Null
    | Word(text: string)
    | Id(id: nat)
    | Num(n: int)
    | AccountIds(ids: seq<nat>)
    | Change(target: Target)
    | Correction(targets: seq<Target>)
    | View(of: nat)

  // ---------------------------------------------------------------- the state

  /** What is to be transferred: accounts or recipient references, and the amount, which may be any value, since the
      extracted one may be malformed. */
  datatype Terms = Terms(
    from: Option<nat>, to: Option<nat>, recipient: Option<nat>, candidate: Option<nat>, amount: Value)

  /** What the questions put to the Backend and the user are about. */
  datatype Search = Search(hint: Option<string>, accounts: seq<nat>, currency: string)

  /** What a Prepare or an Execute reported.  A view is kept as the id of the record it displays. */
  datatype Report = Report(
    correction: Option<seq<Target>>, blocked: Option<nat>, transaction: Option<nat>, completedAt: Option<nat>)

  datatype Consent = Consent(confirmation: Option<nat>, view: Option<nat>, attempt: nat)

  datatype Auth = Auth(context: Option<nat>, request: Option<nat>, status: Option<string>, attempt: nat)

  /** Values that are recorded but steer nothing later on: while the terms are collected, and from then on. */
  datatype Lookups = Lookups(
    fromHint: Option<string>, toHint: Option<string>,
    accountResolution: Option<string>, accountSelection: Option<string>,
    recipientResolution: Option<string>, recipientReason: Option<string>, recipientSelection: Option<string>,
    amountInput: Option<string>)

  datatype Replies = Replies(
    inputRequest: Option<nat>, approval: Option<string>, changeTarget: Option<Target>,
    correctionSelection: Option<string>, authRetry: Option<string>)

  /** The workflow state, part by part. */
  datatype Data = Data(
    terms: Terms, search: Search, report: Report, consent: Consent, auth: Auth, lookups: Lookups, replies: Replies)

  /** The default values of the state schema. */
  function Initial(): Data {
    Data(Terms(None, None, None, None, Null), Search(None, [], "KRW"), Report(None, None, None, None),
         Consent(None, None, 0), Auth(None, None, None, 0),
         Lookups(None, None, None, None, None, None, None, None), Replies(None, None, None, None, None))
  }

  function Text(o: Option<string>): Value { if o.Some? then Word(o.value) else Null }
  function Ref(o: Option<nat>): Value { if o.Some? then Id(o.value) else Null }
  function Shown(o: Option<nat>): Value { if o.Some? then View(o.value) else Null }

  function ReadTerms(t: Terms, k: Key): Option<Value> {
    match k
    case FromAccountId => Some(Ref(t.from))
    case ToAccountId => Some(Ref(t.to))
    case ToRecipientId => Some(Ref(t.recipient))
    case ToRecipientCandidateId => Some(Ref(t.candidate))
    case Amount => Some(t.amount)
    case _ => None
  }

  function ReadSearch(s: Search, k: Key): Option<Value> {
    match k
    case RecipientNameHint => Some(Text(s.hint))
    case Accounts => Some(AccountIds(s.accounts))
    case Currency => Some(Word(s.currency))
    case _ => None
  }

  function ReadReport(r: Report, k: Key): Option<Value> {
    match k
    case CorrectionView => Some(if r.correction.Some? then Correction(r.correction.value) else Null)
    case BlockedView => Some(Shown(r.blocked))
    case TransactionId => Some(Ref(r.transaction))
    case CompletedAt => Some(Shown(r.completedAt))
    case _ => None
  }

  function ReadConsent(c: Consent, k: Key): Option<Value> {
    match k
    case ConfirmationId => Some(Ref(c.confirmation))
    case ConfirmationView => Some(Shown(c.view))
    case PrepareAttempt => Some(Num(c.attempt))
    case _ => None
  }

  function ReadAuth(a: Auth, k: Key): Option<Value> {
    match k
    case AuthContextId => Some(Ref(a.context))
    case AuthRequestView => Some(Shown(a.request))
    case AuthStatus => Some(Text(a.status))
    case AuthAttempt => Some(Num(a.attempt))
    case _ => None
  }

  function ReadLookups(l: Lookups, k: Key): Option<Value> {
    match k
    case FromAccountHint => Some(Text(l.fromHint))
    case ToAccountHint => Some(Text(l.toHint))
    case AccountResolutionOutcome => Some(Text(l.accountResolution))
    case AccountSelectionOutcome => Some(Text(l.accountSelection))
    case RecipientResolutionOutcome => Some(Text(l.recipientResolution))
    case RecipientSelectionReason => Some(Text(l.recipientReason))
    case RecipientSelectionOutcome => Some(Text(l.recipientSelection))
    case AmountInputOutcome => Some(Text(l.amountInput))
    case _ => None
  }

  function ReadReplies(r: Replies, k: Key): Option<Value> {
    match k
    case InputRequestId => Some(Ref(r.inputRequest))
    case ApprovalOutcome => Some(Text(r.approval))
    case ChangeTarget => Some(if r.changeTarget.Some? then Change(r.changeTarget.value) else Null)
    case CorrectionSelectionOutcome => Some(Text(r.correctionSelection))
    case AuthRetryOutcome => Some(Text(r.authRetry))
    case _ => None
  }

  function First(a: Option<Value>, b: Option<Value>): Option<Value> {
    if a.Some? then a else b
  }

  /** The state read by key, as the tables name it: each key is in exactly one part. */
  function Read(d: Data, k: Key): Value {
    match First(ReadTerms(d.terms, k), First(ReadSearch(d.search, k), First(ReadReport(d.report, k),
            First(ReadConsent(d.consent, k), First(ReadAuth(d.auth, k),
            First(ReadLookups(d.lookups, k), ReadReplies(d.replies, k)))))))
    case Some(v) => v
    case None => Null
  }

  // ---------------------------------------------------------------- resets

  /** The fields a reset step clears for its own target, in published order. */
  function TargetFields(kind: Kind, step: StepId): seq<Key> {
    match step
    case ResetFrom =>
      if kind == Internal
      then [FromAccountHint, FromAccountId, AccountResolutionOutcome, Accounts, AccountSelectionOutcome,
            AmountInputOutcome]
      else [FromAccountHint, AccountResolutionOutcome, Accounts, AccountSelectionOutcome, FromAccountId,
            AmountInputOutcome]
    case ResetTo =>
      [ToAccountHint, ToAccountId, AccountResolutionOutcome, Accounts, AccountSelectionOutcome, AmountInputOutcome]
    case ResetRecipient =>
      [RecipientNameHint, RecipientResolutionOutcome, RecipientSelectionReason, RecipientSelectionOutcome,
       ToRecipientId, ToRecipientCandidateId]
    case ResetAmount => [Key.Amount, AmountInputOutcome]
    case _ => []
  }

  /** All fields a reset step clears: those of its target, then the confirmation and all that was built on it. */
  function ResetFields(kind: Kind, step: StepId): seq<Key> {
    if Resets(kind, step) then TargetFields(kind, step) + Tail() else []
  }

  function Tail(): seq<Key> {
    [InputRequestId, ConfirmationId, ConfirmationView, ApprovalOutcome, ChangeTarget, CorrectionSelectionOutcome,
     BlockedView, AuthContextId, AuthRequestView, AuthStatus, AuthRetryOutcome, AuthAttempt]
  }

  function Cleared(k: Key): Value {
    match k
    case Accounts => AccountIds([])
    case AuthAttempt => Num(0)
    case _ => Null
  }

  predicate Resets(kind: Kind, step: StepId) {
    match step
    case ResetFrom => true
    case ResetTo => kind == Internal
    case ResetRecipient => kind == External
    case ResetAmount => true
    case _ => false
  }

  function ResetSteps(kind: Kind): seq<StepId> {
    match kind
    case Internal => [ResetFrom, ResetTo, ResetAmount]
    case External => [ResetFrom, ResetRecipient, ResetAmount]
  }

  /** One output row of the mapping table: the step writes the value to the key. */
  datatype Mapping = Mapping(step: StepId, key: Key, value: Value)

  function Rows(step: StepId, keys: seq<Key>): seq<Mapping> {
    seq(|keys|, i requires 0 <= i < |keys| => Mapping(step, keys[i], Cleared(keys[i])))
  }

  /** The rows of some steps, each with its list of fields. */
  function RowsFor(steps: seq<StepId>, fields: StepId -> seq<Key>): seq<Mapping> {
    if steps == [] then []
    else
      var last := steps[|steps| - 1];
      RowsFor(steps[..|steps| - 1], fields) + Rows(last, fields(last))
  }

  function FieldsOf(kind: Kind): StepId -> seq<Key> {
    step => ResetFields(kind, step)
  }

  function ResetRows(kind: Kind): seq<Mapping> {
    RowsFor(ResetSteps(kind), FieldsOf(kind))
  }

  /** Builds the reset rows of the mapping table from the field lists. */
  method ResetMappingDefinitions(kind: Kind) returns (definitions: seq<Mapping>)
    ensures definitions == ResetRows(kind)
  {
    definitions := [];
    var steps := ResetSteps(kind);
    for i := 0 to |steps|
      invariant definitions == RowsFor(steps[..i], FieldsOf(kind))
    {
      assert steps[..i + 1][..i] == steps[..i];
      definitions := AppendRows(definitions, steps[i], ResetFields(kind, steps[i]));
    }
    assert steps[..|steps|] == steps;
  }

  /** The inner loop, over the fields of one step. */
  method AppendRows(before: seq<Mapping>, step: StepId, keys: seq<Key>) returns (definitions: seq<Mapping>)
    ensures definitions == before + Rows(step, keys)
  {
    definitions := before;
    for j := 0 to |keys|
      invariant definitions == before + Rows(step, keys[..j])
    {
      definitions := definitions + [Mapping(step, keys[j], Cleared(keys[j]))];
      assert Rows(step, keys[..j + 1]) == Rows(step, keys[..j]) + [Mapping(step, keys[j], Cleared(keys[j]))];
    }
    assert keys[..|keys|] == keys;
  }

  lemma {:induction false} RowsForHave(
    steps: seq<StepId>, fields: StepId -> seq<Key>, step: StepId, k: Key, v: Value)
    ensures Mapping(step, k, v) in RowsFor(steps, fields) <==>
            step in steps && k in fields(step) && v == Cleared(k)
  {
    if steps != [] {
      var before, last := steps[..|steps| - 1], steps[|steps| - 1];
      RowsForHave(before, fields, step, k, v);
      RowsHave(last, fields(last), step, k);
      assert steps == before + [last];
    }
  }

  /** The generated rows and the reset steps agree: a row exists exactly for the fields of a reset step,
      with the value the field is cleared to. */
  lemma {:induction false} ResetRowsAgree(kind: Kind, step: StepId, k: Key, v: Value)
    ensures Mapping(step, k, v) in ResetRows(kind) <==> k in ResetFields(kind, step) && v == Cleared(k)
  {
    RowsForHave(ResetSteps(kind), FieldsOf(kind), step, k, v);
    StepsListed(kind, step);
  }

  lemma {:induction false} StepsListed(kind: Kind, step: StepId)
    ensures step in ResetSteps(kind) <==> Resets(kind, step)
  {
  }

  lemma {:induction false} RowsHave(s: StepId, keys: seq<Key>, step: StepId, k: Key)
    ensures forall v :: Mapping(step, k, v) in Rows(s, keys) <==> s == step && k in keys && v == Cleared(k)
  {
    if s == step && k in keys {
      var i :| 0 <= i < |keys| && keys[i] == k;
      assert Rows(s, keys)[i] == Mapping(step, k, Cleared(k));
    }
  }

  // ---------------------------------------------------------------- required inputs

  /** The inputs the mapping table marks as required at each step. */
  function RequiredInputs(kind: Kind, step: StepId): set<Key> {
    match step
    case ResolveRecipientHint => {RecipientNameHint}
    case SelectFrom => {Accounts}
    case EmitFromEmpty => {Accounts}
    case ResolveTo => {FromAccountId}
    case SelectTo => {Accounts}
    case EmitToEmpty => {Accounts}
    case RequestAmount => {Currency}
    case Prepare =>
      {FromAccountId, Key.Amount, Currency, PrepareAttempt} + if kind == Internal then {ToAccountId} else {}
    case RequestApproval => {ConfirmationId, ConfirmationView}
    case RouteCorrection => {CorrectionView}
    case RequestCorrection => {CorrectionView}
    case CreateAuth => {ConfirmationId, AuthAttempt}
    case RequestAuth => {AuthContextId, AuthRequestView}
    case Execute => {ConfirmationId, AuthContextId, AuthAttempt}
    case EmitResult => {TransactionId, CompletedAt, ConfirmationView}
    case EmitBlocked => {BlockedView}
    case _ => {}
  }

  // ---------------------------------------------------------------- outcomes and routes

  /** What the Backend, the user or the step itself can answer.  Fault is any error or contract violation. */
  datatype Event =
    | Slots(fromHint: Option<string>, toHint: Option<string>, recipientHint: Option<string>, amount: Value)
    | RecipientResolved(recipient: nat)
    | RecipientUnclear(reason: string)
    | RecipientSelected(known: Option<nat>, candidate: Option<nat>)
    | Resolved(account: nat, candidates: seq<nat>)
    | SelectionRequired(candidates: seq<nat>)
    | NoAccounts
    | Selected(account: nat)
    | Submitted(value: int)
    | Go
    | Ready(confirmation: nat)
    | CorrectionRequired(targets: seq<Target>)
    | Blocked
    | Approved
    | ChangeRequested(target: Target)
    | CorrectionSelected(target: Target)
    | AuthenticationRequired(context: nat)
    | Verified
    | NotVerified(status: string)
    | Retry
    | Completed(transaction: nat)
    | Reauthenticate
    | Cancelled
    | Fault

  predicate Allows(kind: Kind, t: Target) {
    match t
    case FromTarget => true
    case AmountTarget => true
    case ToTarget => kind == Internal
    case RecipientTarget => kind == External
  }

  function ResetStep(t: Target): StepId {
    match t
    case FromTarget => ResetFrom
    case ToTarget => ResetTo
    case RecipientTarget => ResetRecipient
    case AmountTarget => ResetAmount
  }

  predicate ValidAmount(v: Value) {
    v.Num? && 0 < v.n
  }

  function CorrectionTargets(r: Report): seq<Target> {
    if r.correction.Some? then r.correction.value else []
  }

  /** The documented outcomes of each step; contract violations arrive as Fault. */
  predicate Accepts(step: StepId, e: Event) {
    match step
    case ExtractSlots => e.Slots?
    case ResolveRecipientHint => e.RecipientResolved? || e.RecipientUnclear? || e.Fault?
    case RequestRecipient => e.RecipientSelected? || e.Cancelled? || e.Fault?
    case ResolveFrom => e.Resolved? || e.SelectionRequired? || e.NoAccounts? || e.Fault?
    case SelectFrom => e.Selected? || e.Cancelled? || e.Fault?
    case ResolveTo => e.Resolved? || e.SelectionRequired? || e.NoAccounts? || e.Fault?
    case SelectTo => e.Selected? || e.Cancelled? || e.Fault?
    case RequestAmount => e.Submitted? || e.Cancelled? || e.Fault?
    case Prepare => e.Ready? || e.CorrectionRequired? || e.Blocked? || e.Fault?
    case RequestApproval => e.Approved? || e.ChangeRequested? || e.Cancelled? || e.Fault?
    case RequestCorrection => e.CorrectionSelected? || e.Cancelled? || e.Fault?
    case CreateAuth => e.AuthenticationRequired? || e.Blocked? || e.Fault?
    case RequestAuth => e.Verified? || e.NotVerified? || e.Cancelled? || e.Fault?
    case RequestAuthRetry => e.Retry? || e.Cancelled? || e.Fault?
    case Execute => e.Completed? || e.CorrectionRequired? || e.Reauthenticate? || e.Blocked? || e.Fault?
    case End => false
    case _ => e.Go?
  }

  /** The route tables of both workflows. */
  function Route(kind: Kind, step: StepId, d: Data, e: Event): StepId
    requires Accepts(step, e)
  {
    if e.Fault? then EmitError
    else if e.Cancelled? then End
    else
      match step
      case ExtractSlots =>
        if kind == Internal then ResolveFrom
        else if e.recipientHint.Some? then ResolveRecipientHint else RequestRecipient
      case ResolveRecipientHint => if e.RecipientResolved? then ResolveFrom else RequestRecipient
      case RequestRecipient => if e.known.Some? != e.candidate.Some? then ResolveFrom else EmitError
      case ResolveFrom =>
        if e.SelectionRequired? then SelectFrom
        else if e.NoAccounts? then EmitFromEmpty
        else if kind == Internal then ResolveTo else CheckAmount
      case SelectFrom => if kind == Internal then ResolveTo else CheckAmount
      case EmitFromEmpty => End
      case ResolveTo =>
        if e.SelectionRequired? then SelectTo else if e.NoAccounts? then EmitToEmpty else CheckAmount
      case SelectTo => CheckAmount
      case EmitToEmpty => End
      case CheckAmount => if ValidAmount(d.terms.amount) then StartPrepare else RequestAmount
      case RequestAmount => if 0 < e.value then StartPrepare else EmitError
      case StartPrepare => Prepare
      case Prepare =>
        if e.Ready? then RequestApproval else if e.Blocked? then EmitBlocked else RouteCorrection
      case RequestApproval =>
        if e.Approved? then StartAuth else if Allows(kind, e.target) then ResetStep(e.target) else EmitError
      case ResetFrom => ResolveFrom
      case ResetTo => ResolveTo
      case ResetRecipient => RequestRecipient
      case ResetAmount => RequestAmount
      case RouteCorrection =>
        var ts := CorrectionTargets(d.report);
        if ts == [] || !(forall t :: t in ts ==> Allows(kind, t)) then EmitError
        else if |ts| == 1 then ResetStep(ts[0]) else RequestCorrection
      case RequestCorrection =>
        if e.target in CorrectionTargets(d.report) && Allows(kind, e.target) then ResetStep(e.target) else EmitError
      case StartAuth => CreateAuth
      case CreateAuth => if e.Blocked? then EmitBlocked else RequestAuth
      case RequestAuth => if e.Verified? then Execute else RequestAuthRetry
      case RequestAuthRetry => StartAuth
      case Execute =>
        if e.Completed? then EmitResult
        else if e.Blocked? then EmitBlocked
        else if e.Reauthenticate? then StartAuth else RouteCorrection
      case _ => End
  }

  // ---------------------------------------------------------------- state updates

  function Kept<T>(o: Option<T>, before: Option<T>): Option<T> {
    if o.Some? then o else before
  }

  function TermsAfter(kind: Kind, step: StepId, t: Terms, e: Event): Terms {
    match e
    case Slots(_, _, _, a) => t.(amount := a)
    case RecipientResolved(x) => t.(recipient := Some(x))
    case RecipientSelected(known, found) =>
      t.(recipient := Kept(known, t.recipient), candidate := Kept(found, t.candidate))
    case Resolved(a, _) => if step.ResolveTo? then t.(to := Some(a)) else t.(from := Some(a))
    case Selected(a) => if step.SelectTo? then t.(to := Some(a)) else t.(from := Some(a))
    case Submitted(v) => t.(amount := Num(v))
    case Go =>
      if !Resets(kind, step) then t
      else if step.ResetFrom? then t.(from := None)
      else if step.ResetTo? then t.(to := None)
      else if step.ResetRecipient? then t.(recipient := None, candidate := None)
      else t.(amount := Null)
    case _ => t
  }

  function SearchAfter(kind: Kind, step: StepId, s: Search, e: Event): Search {
    match e
    case Slots(_, _, h, _) => if kind == External then s.(hint := h) else s
    case Resolved(_, cs) => s.(accounts := cs)
    case SelectionRequired(cs) => s.(accounts := cs)
    case NoAccounts => s.(accounts := [])
    case Go =>
      if !Resets(kind, step) then s
      else if step.ResetFrom? || step.ResetTo? then s.(accounts := [])
      else if step.ResetRecipient? then s.(hint := None)
      else s
    case _ => s
  }

  function ReportAfter(kind: Kind, step: StepId, r: Report, e: Event): Report {
    match e
    case CorrectionRequired(ts) => r.(correction := Some(ts))
    case Blocked => r.(blocked := Some(0))
    case Completed(x) => r.(transaction := Some(x), completedAt := Some(x))
    case Go =>
      if step.StartPrepare? then r.(correction := None)
      else if Resets(kind, step) then r.(blocked := None)
      else r
    case _ => r
  }

  function ConsentAfter(kind: Kind, step: StepId, c: Consent, e: Event): Consent {
    match e
    case Ready(x) => c.(confirmation := Some(x), view := Some(x))
    case Go =>
      if step.StartPrepare? then c.(attempt := c.attempt + 1)
      else if Resets(kind, step) then c.(confirmation := None, view := None)
      else c
    case _ => c
  }

  function AuthAfter(kind: Kind, step: StepId, a: Auth, e: Event): Auth {
    match e
    case AuthenticationRequired(x) => a.(context := Some(x), request := Some(x))
    case Verified => a.(status := Some("verified"))
    case NotVerified(w) => a.(status := Some(w))
    case Cancelled => if step.RequestAuth? then a.(status := Some("cancelled")) else a
    case Go =>
      if step.StartAuth? then Auth(None, None, None, a.attempt + 1)
      else if Resets(kind, step) then Auth(None, None, None, 0)
      else a
    case _ => a
  }

  function LookupsReset(step: StepId, l: Lookups): Lookups {
    match step
    case ResetFrom => l.(fromHint := None, accountResolution := None, accountSelection := None, amountInput := None)
    case ResetTo => l.(toHint := None, accountResolution := None, accountSelection := None, amountInput := None)
    case ResetRecipient => l.(recipientResolution := None, recipientReason := None, recipientSelection := None)
    case _ => l.(amountInput := None)
  }

  function LookupsAfter(kind: Kind, step: StepId, l: Lookups, e: Event): Lookups {
    match e
    case Slots(f, t, _, _) => if kind == Internal then l.(fromHint := f, toHint := t) else l.(fromHint := f)
    case RecipientResolved(_) => l.(recipientResolution := Some("resolved"))
    case RecipientUnclear(reason) =>
      l.(recipientResolution := Some("selection_required"), recipientReason := Some(reason))
    case RecipientSelected(_, _) => l.(recipientSelection := Some("selected"))
    case Resolved(_, _) => l.(accountResolution := Some("resolved"))
    case SelectionRequired(_) => l.(accountResolution := Some("selection_required"))
    case NoAccounts => l.(accountResolution := Some("no_accounts"))
    case Selected(_) => l.(accountSelection := Some("selected"))
    case Submitted(_) => l.(amountInput := Some("submitted"))
    case Cancelled =>
      if step.SelectFrom? || step.SelectTo? then l.(accountSelection := Some("cancelled"))
      else if step.RequestRecipient? then l.(recipientSelection := Some("cancelled"))
      else if step.RequestAmount? then l.(amountInput := Some("cancelled"))
      else l
    case Go => if Resets(kind, step) then LookupsReset(step, l) else l
    case _ => l
  }

  function RepliesAfter(kind: Kind, step: StepId, r: Replies, e: Event): Replies {
    match e
    case Approved => r.(approval := Some("approved"))
    case ChangeRequested(t) => r.(approval := Some("change_requested"), changeTarget := Some(t))
    case CorrectionSelected(t) => r.(correctionSelection := Some("selected"), changeTarget := Some(t))
    case Retry => r.(authRetry := Some("retry"))
    case Cancelled =>
      if step.RequestApproval? then r.(approval := Some("cancelled"))
      else if step.RequestCorrection? then r.(correctionSelection := Some("cancelled"))
      else if step.RequestAuthRetry? then r.(authRetry := Some("cancelled"))
      else r
    case Go =>
      if step.StartAuth? then r.(authRetry := None)
      else if Resets(kind, step) then Replies(None, None, None, None, None)
      else r
    case _ => r
  }

  /** The output rows of the mapping tables: the state after a step, outcome by outcome.  Keys a step does not
      write stay. */
  function Updated(kind: Kind, step: StepId, d: Data, e: Event): Data {
    Data(TermsAfter(kind, step, d.terms, e), SearchAfter(kind, step, d.search, e), ReportAfter(kind, step, d.report, e),
         ConsentAfter(kind, step, d.consent, e), AuthAfter(kind, step, d.auth, e),
         LookupsAfter(kind, step, d.lookups, e), RepliesAfter(kind, step, d.replies, e))
  }

  // ---------------------------------------------------------------- declared outputs

  /** The output fields of each step in the mapping tables. */
  function OutputFields(kind: Kind, step: StepId): seq<Key> {
    match step
    case ExtractSlots =>
      if kind == Internal then [FromAccountHint, ToAccountHint, Key.Amount]
      else [FromAccountHint, RecipientNameHint, Key.Amount]
    case ResolveRecipientHint => [RecipientResolutionOutcome, RecipientSelectionReason, ToRecipientId]
    case RequestRecipient => [RecipientSelectionOutcome, ToRecipientId, ToRecipientCandidateId]
    case ResolveFrom => [AccountResolutionOutcome, Accounts, FromAccountId]
    case SelectFrom => [AccountSelectionOutcome, FromAccountId]
    case ResolveTo => [AccountResolutionOutcome, Accounts, ToAccountId]
    case SelectTo => [AccountSelectionOutcome, ToAccountId]
    case RequestAmount => [AmountInputOutcome, Key.Amount]
    case StartPrepare => [PrepareAttempt, CorrectionView]
    case Prepare => [ConfirmationId, ConfirmationView, CorrectionView, BlockedView]
    case RequestApproval => [ApprovalOutcome, ChangeTarget]
    case RequestCorrection => [CorrectionSelectionOutcome, ChangeTarget]
    case StartAuth => [AuthContextId, AuthRequestView, AuthStatus, AuthRetryOutcome, AuthAttempt]
    case CreateAuth => [AuthContextId, AuthRequestView, BlockedView]
    case RequestAuth => [AuthStatus]
    case RequestAuthRetry => [AuthRetryOutcome]
    case Execute => [TransactionId, CompletedAt, CorrectionView, BlockedView]
    case _ => ResetFields(kind, step)
  }

  /** A step other than a reset writes no field it does not declare. */
  predicate Writes(kind: Kind, step: StepId, before: Option<Value>, after: Option<Value>, k: Key) {
    (after.Some? <==> before.Some?) && (k !in OutputFields(kind, step) ==> after == before)
  }

  /** A reset clears its fields and leaves the others. */
  predicate Clears(kind: Kind, step: StepId, before: Option<Value>, after: Option<Value>, k: Key) {
    after ==
      if before.None? then None
      else if k in TargetFields(kind, step) || k in Tail() then Some(Cleared(k))
      else before
  }

  lemma {:induction false} TermsWritten(kind: Kind, step: StepId, t: Terms, e: Event, k: Key)
    requires Accepts(step, e) && !Resets(kind, step)
    ensures Writes(kind, step, ReadTerms(t, k), ReadTerms(TermsAfter(kind, step, t, e), k), k)
  {
  }

  lemma {:induction false} FromTermsCleared(kind: Kind, step: StepId, t: Terms, k: Key)
    requires Resets(kind, step)
    requires step.ResetFrom?
    ensures Clears(kind, step, ReadTerms(t, k), ReadTerms(TermsAfter(kind, step, t, Go), k), k)
  {
  }

  lemma {:induction false} ToTermsCleared(kind: Kind, step: StepId, t: Terms, k: Key)
    requires Resets(kind, step)
    requires step.ResetTo?
    ensures Clears(kind, step, ReadTerms(t, k), ReadTerms(TermsAfter(kind, step, t, Go), k), k)
  {
  }

  lemma {:induction false} RecipientTermsCleared(kind: Kind, step: StepId, t: Terms, k: Key)
    requires Resets(kind, step)
    requires step.ResetRecipient?
    ensures Clears(kind, step, ReadTerms(t, k), ReadTerms(TermsAfter(kind, step, t, Go), k), k)
  {
  }

  lemma {:induction false} AmountTermsCleared(kind: Kind, step: StepId, t: Terms, k: Key)
    requires Resets(kind, step)
    requires step.ResetAmount?
    ensures Clears(kind, step, ReadTerms(t, k), ReadTerms(TermsAfter(kind, step, t, Go), k), k)
  {
  }

  lemma {:induction false} TermsCleared(kind: Kind, step: StepId, t: Terms, k: Key)
    requires Resets(kind, step)
    ensures Clears(kind, step, ReadTerms(t, k), ReadTerms(TermsAfter(kind, step, t, Go), k), k)
  {
    if step.ResetFrom? { FromTermsCleared(kind, step, t, k); }
    else if step.ResetTo? { ToTermsCleared(kind, step, t, k); }
    else if step.ResetRecipient? { RecipientTermsCleared(kind, step, t, k); }
    else { AmountTermsCleared(kind, step, t, k); }
  }

  lemma {:induction false} SearchWritten(kind: Kind, step: StepId, s: Search, e: Event, k: Key)
    requires Accepts(step, e) && !Resets(kind, step)
    ensures Writes(kind, step, ReadSearch(s, k), ReadSearch(SearchAfter(kind, step, s, e), k), k)
  {
  }

  lemma {:induction false} SearchCleared(kind: Kind, step: StepId, s: Search, k: Key)
    requires Resets(kind, step)
    ensures Clears(kind, step, ReadSearch(s, k), ReadSearch(SearchAfter(kind, step, s, Go), k), k)
  {
  }

  lemma {:induction false} ReportWritten(kind: Kind, step: StepId, r: Report, e: Event, k: Key)
    requires Accepts(step, e) && !Resets(kind, step)
    ensures Writes(kind, step, ReadReport(r, k), ReadReport(ReportAfter(kind, step, r, e), k), k)
  {
  }

  lemma {:induction false} ReportCleared(kind: Kind, step: StepId, r: Report, k: Key)
    requires Resets(kind, step)
    ensures Clears(kind, step, ReadReport(r, k), ReadReport(ReportAfter(kind, step, r, Go), k), k)
  {
  }

  lemma {:induction false} ConsentWritten(kind: Kind, step: StepId, c: Consent, e: Event, k: Key)
    requires Accepts(step, e) && !Resets(kind, step)
    ensures Writes(kind, step, ReadConsent(c, k), ReadConsent(ConsentAfter(kind, step, c, e), k), k)
  {
  }

  lemma {:induction false} ConsentCleared(kind: Kind, step: StepId, c: Consent, k: Key)
    requires Resets(kind, step)
    ensures Clears(kind, step, ReadConsent(c, k), ReadConsent(ConsentAfter(kind, step, c, Go), k), k)
  {
  }

  lemma {:induction false} AuthWritten(kind: Kind, step: StepId, a: Auth, e: Event, k: Key)
    requires Accepts(step, e) && !Resets(kind, step)
    ensures Writes(kind, step, ReadAuth(a, k), ReadAuth(AuthAfter(kind, step, a, e), k), k)
  {
  }

  lemma {:induction false} AuthCleared(kind: Kind, step: StepId, a: Auth, k: Key)
    requires Resets(kind, step)
    ensures Clears(kind, step, ReadAuth(a, k), ReadAuth(AuthAfter(kind, step, a, Go), k), k)
  {
  }

  lemma {:induction false} HintsWritten(kind: Kind, step: StepId, l: Lookups, e: Event, k: Key)
    requires Accepts(step, e) && !Resets(kind, step)
    requires step.ExtractSlots? || step.ResolveRecipientHint? || step.RequestRecipient?
    ensures Writes(kind, step, ReadLookups(l, k), ReadLookups(LookupsAfter(kind, step, l, e), k), k)
  {
  }

  lemma {:induction false} ChoicesWritten(kind: Kind, step: StepId, l: Lookups, e: Event, k: Key)
    requires Accepts(step, e) && !Resets(kind, step)
    requires step.ResolveFrom? || step.SelectFrom? || step.ResolveTo? || step.SelectTo?
    ensures Writes(kind, step, ReadLookups(l, k), ReadLookups(LookupsAfter(kind, step, l, e), k), k)
  {
  }

  lemma {:induction false} OthersWritten(kind: Kind, step: StepId, l: Lookups, e: Event, k: Key)
    requires Accepts(step, e) && !Resets(kind, step)
    requires !step.ExtractSlots? && !step.ResolveRecipientHint? && !step.RequestRecipient?
      && !step.ResolveFrom? && !step.SelectFrom? && !step.ResolveTo? && !step.SelectTo?
    ensures Writes(kind, step, ReadLookups(l, k), ReadLookups(LookupsAfter(kind, step, l, e), k), k)
  {
  }

  lemma {:induction false} LookupsWritten(kind: Kind, step: StepId, l: Lookups, e: Event, k: Key)
    requires Accepts(step, e) && !Resets(kind, step)
    ensures Writes(kind, step, ReadLookups(l, k), ReadLookups(LookupsAfter(kind, step, l, e), k), k)
  {
    if step.ExtractSlots? || step.ResolveRecipientHint? || step.RequestRecipient? { HintsWritten(kind, step, l, e, k); }
    else if step.ResolveFrom? || step.SelectFrom? || step.ResolveTo? || step.SelectTo? {
      ChoicesWritten(kind, step, l, e, k);
    } else { OthersWritten(kind, step, l, e, k); }
  }

  lemma {:induction false} FromLookupsCleared(kind: Kind, step: StepId, l: Lookups, k: Key)
    requires Resets(kind, step)
    requires step.ResetFrom?
    ensures Clears(kind, step, ReadLookups(l, k), ReadLookups(LookupsAfter(kind, step, l, Go), k), k)
  {
  }

  lemma {:induction false} ToLookupsCleared(kind: Kind, step: StepId, l: Lookups, k: Key)
    requires Resets(kind, step)
    requires step.ResetTo?
    ensures Clears(kind, step, ReadLookups(l, k), ReadLookups(LookupsAfter(kind, step, l, Go), k), k)
  {
  }

  lemma {:induction false} RecipientLookupsCleared(kind: Kind, step: StepId, l: Lookups, k: Key)
    requires Resets(kind, step)
    requires step.ResetRecipient?
    ensures Clears(kind, step, ReadLookups(l, k), ReadLookups(LookupsAfter(kind, step, l, Go), k), k)
  {
  }

  lemma {:induction false} AmountLookupsCleared(kind: Kind, step: StepId, l: Lookups, k: Key)
    requires Resets(kind, step)
    requires step.ResetAmount?
    ensures Clears(kind, step, ReadLookups(l, k), ReadLookups(LookupsAfter(kind, step, l, Go), k), k)
  {
  }

  lemma {:induction false} LookupsCleared(kind: Kind, step: StepId, l: Lookups, k: Key)
    requires Resets(kind, step)
    ensures Clears(kind, step, ReadLookups(l, k), ReadLookups(LookupsAfter(kind, step, l, Go), k), k)
  {
    if step.ResetFrom? { FromLookupsCleared(kind, step, l, k); }
    else if step.ResetTo? { ToLookupsCleared(kind, step, l, k); }
    else if step.ResetRecipient? { RecipientLookupsCleared(kind, step, l, k); }
    else { AmountLookupsCleared(kind, step, l, k); }
  }

  lemma {:induction false} RepliesWritten(kind: Kind, step: StepId, r: Replies, e: Event, k: Key)
    requires Accepts(step, e) && !Resets(kind, step)
    ensures Writes(kind, step, ReadReplies(r, k), ReadReplies(RepliesAfter(kind, step, r, e), k), k)
  {
  }

  lemma {:induction false} RepliesCleared(kind: Kind, step: StepId, r: Replies, k: Key)
    requires Resets(kind, step)
    ensures Clears(kind, step, ReadReplies(r, k), ReadReplies(RepliesAfter(kind, step, r, Go), k), k)
  {
  }

  lemma {:induction false} StepWrites(kind: Kind, step: StepId, d: Data, e: Event, k: Key)
    requires Accepts(step, e) && !Resets(kind, step)
    ensures Writes(kind, step, Some(Read(d, k)), Some(Read(Updated(kind, step, d, e), k)), k)
  {
    TermsWritten(kind, step, d.terms, e, k);
    SearchWritten(kind, step, d.search, e, k);
    ReportWritten(kind, step, d.report, e, k);
    ConsentWritten(kind, step, d.consent, e, k);
    AuthWritten(kind, step, d.auth, e, k);
    LookupsWritten(kind, step, d.lookups, e, k);
    RepliesWritten(kind, step, d.replies, e, k);
  }

  lemma {:induction false} EveryKeyIsSomewhere(d: Data, k: Key)
    ensures || ReadTerms(d.terms, k).Some? || ReadSearch(d.search, k).Some? || ReadReport(d.report, k).Some?
            || ReadConsent(d.consent, k).Some? || ReadAuth(d.auth, k).Some?
            || ReadLookups(d.lookups, k).Some? || ReadReplies(d.replies, k).Some?
  {
  }

  lemma {:induction false} ResetClears(kind: Kind, step: StepId, d: Data, k: Key)
    requires Resets(kind, step)
    ensures Clears(kind, step, Some(Read(d, k)), Some(Read(Updated(kind, step, d, Go), k)), k)
  {
    EveryKeyIsSomewhere(d, k);
    TermsCleared(kind, step, d.terms, k);
    SearchCleared(kind, step, d.search, k);
    ReportCleared(kind, step, d.report, k);
    ConsentCleared(kind, step, d.consent, k);
    AuthCleared(kind, step, d.auth, k);
    LookupsCleared(kind, step, d.lookups, k);
    RepliesCleared(kind, step, d.replies, k);
  }

  /** A step writes nothing but the output fields its mapping rows declare. */
  lemma {:induction false} OutputsAreDeclared(kind: Kind, step: StepId, d: Data, e: Event, k: Key)
    requires Accepts(step, e) && k !in OutputFields(kind, step)
    ensures Read(Updated(kind, step, d, e), k) == Read(d, k)
  {
    if Resets(kind, step) { ResetClears(kind, step, d, k); } else { StepWrites(kind, step, d, e, k); }
  }

  // ---------------------------------------------------------------- resets follow the rows

  /** Resets do to the state just what the generated mapping rows say: a key some row names takes the row's value
      and every other key, the Prepare counter among them, stays. */
  lemma {:induction false} ResetFollowsTheRows(kind: Kind, step: StepId, d: Data, k: Key)
    requires Resets(kind, step)
    ensures var rows := ResetRows(kind); var d' := Updated(kind, step, d, Go);
            && (Mapping(step, k, Cleared(k)) in rows ==> Read(d', k) == Cleared(k))
            && (Mapping(step, k, Cleared(k)) !in rows ==> Read(d', k) == Read(d, k))
  {
    ResetRowsAgree(kind, step, k, Cleared(k));
    ResetClears(kind, step, d, k);
  }

  /** The state as the dictionary the runtime keeps. */
  function Values(d: Data): map<Key, Value> {
    map k: Key | true :: Read(d, k)
  }

  /** The reducer of the state channel: a shallow merge in which the newer side wins. */
  function MergeData(left: map<Key, Value>, right: map<Key, Value>): map<Key, Value> {
    if left == map[] then right
    else if right == map[] then left
    else left + right
  }

  /** What one step writes according to the mapping rows; a later row for the same key wins. */
  function RowUpdate(rows: seq<Mapping>, step: StepId): map<Key, Value> {
    if rows == [] then map[]
    else
      var before, last := RowUpdate(rows[..|rows| - 1], step), rows[|rows| - 1];
      if last.step == step then before[last.key := last.value] else before
  }

  lemma {:induction false} RowUpdateSays(rows: seq<Mapping>, step: StepId)
    ensures forall k :: k in RowUpdate(rows, step) ==> Mapping(step, k, RowUpdate(rows, step)[k]) in rows
    ensures forall m :: m in rows && m.step == step ==> m.key in RowUpdate(rows, step)
  {
    if rows != [] {
      RowUpdateSays(rows[..|rows| - 1], step);
      assert rows == rows[..|rows| - 1] + [rows[|rows| - 1]];
    }
  }

  lemma {:induction false} ResetReads(kind: Kind, step: StepId, d: Data, rows: seq<Mapping>, k: Key)
    requires rows == ResetRows(kind) && Resets(kind, step)
    ensures var u := RowUpdate(rows, step); Read(Updated(kind, step, d, Go), k) == if k in u then u[k] else Read(d, k)
  {
    RowUpdateSays(rows, step);
    ResetFollowsTheRows(kind, step, d, k);
    if k in RowUpdate(rows, step) {
      ResetRowsAgree(kind, step, k, RowUpdate(rows, step)[k]);
    }
  }

  lemma {:induction false} MergedReads(d: Data, u: map<Key, Value>, d': Data)
    requires forall k :: Read(d', k) == if k in u then u[k] else Read(d, k)
    ensures Values(d') == MergeData(Values(d), u)
  {
    assert PrepareAttempt in Values(d);
  }

  /** A reset step is the merge of the generated rows into the state. */
  lemma {:induction false} ResetIsAMerge(kind: Kind, step: StepId, d: Data, rows: seq<Mapping>)
    requires rows == ResetRows(kind) && Resets(kind, step)
    ensures Values(Updated(kind, step, d, Go)) == MergeData(Values(d), RowUpdate(rows, step))
  {
    var d', u := Updated(kind, step, d, Go), RowUpdate(rows, step);
    forall k | true ensures Read(d', k) == if k in u then u[k] else Read(d, k) {
      ResetReads(kind, step, d, rows, k);
    }
    MergedReads(d, u, d');
  }
}
