/** The published route tables, which a run follows, and the corrections among them, which ask again for exactly what
    the user or the Backend named. */
module TransferRoutes {
  import opened Wrappers
  import opened TransferContract
  import opened TransferWorkflow

  // ---------------------------------------------------------------- the published routes

  datatype Outcome =
    | HasExtracted | HasResolved | MustSelect | HasNone | HasSelected | HasSubmitted | IsDone
    | IsReady | MustCorrect | IsBlocked | HasApproved | WantsChange
    | MustAuthenticate | IsVerified | IsUnverified | WantsRetry | HasCompleted | MustReauthenticate
    | HasCancelled | HasFailed

  /** When a row of the route table applies. */
  datatype Condition =
    | Done                        // the step has finished
    | HintGiven | HintMissing     // the sentence named a recipient, or did not
    | Reply(outcome: Outcome)         // the Backend or the user came back with this outcome
    | OneReference                // selected, with exactly one of the two recipient references
    | UsableAmount | NoUsableAmount
    | Submission                  // submitted, with a positive amount
    | Requested(of: Target)         // change_requested for this target
    | Only(target: Target)        // exactly one target is to be corrected
    | Several                     // two or more, all of them permitted
    | Choice(among: Target)       // selected, one of the targets to be corrected
    | Violation                   // an error, or an outcome that breaks the contract

  function Said(e: Event): Outcome {
    match e
    case Slots(_, _, _, _) => HasExtracted
    case RecipientResolved(_) => HasResolved
    case RecipientUnclear(_) => MustSelect
    case RecipientSelected(_, _) => HasSelected
    case Resolved(_, _) => HasResolved
    case SelectionRequired(_) => MustSelect
    case NoAccounts => HasNone
    case Selected(_) => HasSelected
    case Submitted(_) => HasSubmitted
    case Go => IsDone
    case Ready(_) => IsReady
    case CorrectionRequired(_) => MustCorrect
    case Blocked => IsBlocked
    case Approved => HasApproved
    case ChangeRequested(_) => WantsChange
    case CorrectionSelected(_) => HasSelected
    case AuthenticationRequired(_) => MustAuthenticate
    case Verified => IsVerified
    case NotVerified(_) => IsUnverified
    case Retry => WantsRetry
    case Completed(_) => HasCompleted
    case Reauthenticate => MustReauthenticate
    case Cancelled => HasCancelled
    case Fault => HasFailed
  }

  /** The outcomes a step's contract does not allow, beside errors. */
  predicate Breaks(kind: Kind, d: Data, e: Event) {
    match e
    case RecipientSelected(known, found) => known.Some? == found.Some?
    case Submitted(v) => v <= 0
    case ChangeRequested(t) => !Allows(kind, t)
    case CorrectionSelected(t) => !Allows(kind, t) || t !in CorrectionTargets(d.report)
    case _ => e.Fault?
  }

  predicate Applies(kind: Kind, step: StepId, d: Data, e: Event, when: Condition) {
    match when
    case Done => e.Go? || e.Slots?
    case HintGiven => e.Slots? && e.recipientHint.Some?
    case HintMissing => e.Slots? && e.recipientHint.None?
    case Reply(o) => Said(e) == o
    case OneReference => e.RecipientSelected? && e.known.Some? != e.candidate.Some?
    case UsableAmount => d.terms.amount.Num? && d.terms.amount.n > 0
    case NoUsableAmount => d.terms.amount.Num? ==> d.terms.amount.n <= 0
    case Submission => e.Submitted? && e.value > 0
    case Requested(t) => e == ChangeRequested(t)
    case Only(t) => CorrectionTargets(d.report) == [t]
    case Several =>
      |CorrectionTargets(d.report)| > 1 && forall t :: t in CorrectionTargets(d.report) ==> Allows(kind, t)
    case Choice(t) => e == CorrectionSelected(t) && t in CorrectionTargets(d.report)
    case Violation =>
      if step.RouteCorrection?
      then CorrectionTargets(d.report) == [] || exists t :: t in CorrectionTargets(d.report) && !Allows(kind, t)
      else Breaks(kind, d, e)
  }

  predicate RecipientRow(kind: Kind, step: StepId, when: Condition, next: StepId) {
    match step
    case ExtractSlots =>
      if kind == Internal then when == Done && next == ResolveFrom
      else (when == HintGiven && next == ResolveRecipientHint) || (when == HintMissing && next == RequestRecipient)
    case ResolveRecipientHint =>
      || (when == Reply(HasResolved) && next == ResolveFrom)
      || (when == Reply(MustSelect) && next == RequestRecipient)
      || (when == Violation && next == EmitError)
    case RequestRecipient =>
      || (when == OneReference && next == ResolveFrom)
      || (when == Reply(HasCancelled) && next == End)
      || (when == Violation && next == EmitError)
    case _ => false
  }

  predicate AccountRow(kind: Kind, step: StepId, when: Condition, next: StepId) {
    match step
    case ResolveFrom =>
      || (when == Reply(HasResolved) && next == (if kind == Internal then ResolveTo else CheckAmount))
      || (when == Reply(MustSelect) && next == SelectFrom)
      || (when == Reply(HasNone) && next == EmitFromEmpty)
      || (when == Violation && next == EmitError)
    case SelectFrom =>
      || (when == Reply(HasSelected) && next == (if kind == Internal then ResolveTo else CheckAmount))
      || (when == Reply(HasCancelled) && next == End)
      || (when == Violation && next == EmitError)
    case ResolveTo =>
      || (when == Reply(HasResolved) && next == CheckAmount)
      || (when == Reply(MustSelect) && next == SelectTo)
      || (when == Reply(HasNone) && next == EmitToEmpty)
      || (when == Violation && next == EmitError)
    case SelectTo =>
      || (when == Reply(HasSelected) && next == CheckAmount)
      || (when == Reply(HasCancelled) && next == End)
      || (when == Violation && next == EmitError)
    case _ => false
  }

  predicate AmountRow(kind: Kind, step: StepId, when: Condition, next: StepId) {
    match step
    case CheckAmount =>
      || (when == UsableAmount && next == StartPrepare)
      || (when == NoUsableAmount && next == RequestAmount)
    case RequestAmount =>
      || (when == Submission && next == StartPrepare)
      || (when == Reply(HasCancelled) && next == End)
      || (when == Violation && next == EmitError)
    case StartPrepare => when == Done && next == Prepare
    case _ => false
  }

  predicate BackendRow(kind: Kind, step: StepId, when: Condition, next: StepId) {
    match step
    case Prepare =>
      || (when == Reply(IsReady) && next == RequestApproval)
      || (when == Reply(MustCorrect) && next == RouteCorrection)
      || (when == Reply(IsBlocked) && next == EmitBlocked)
      || (when == Violation && next == EmitError)
    case Execute =>
      || (when == Reply(HasCompleted) && next == EmitResult)
      || (when == Reply(MustCorrect) && next == RouteCorrection)
      || (when == Reply(MustReauthenticate) && next == StartAuth)
      || (when == Reply(IsBlocked) && next == EmitBlocked)
      || (when == Violation && next == EmitError)
    case _ => false
  }

  predicate AuthRow(kind: Kind, step: StepId, when: Condition, next: StepId) {
    match step
    case StartAuth => when == Done && next == CreateAuth
    case CreateAuth =>
      || (when == Reply(MustAuthenticate) && next == RequestAuth)
      || (when == Reply(IsBlocked) && next == EmitBlocked)
      || (when == Violation && next == EmitError)
    case RequestAuth =>
      || (when == Reply(IsVerified) && next == Execute)
      || (when == Reply(IsUnverified) && next == RequestAuthRetry)
      || (when == Reply(HasCancelled) && next == End)
      || (when == Violation && next == EmitError)
    case RequestAuthRetry =>
      || (when == Reply(WantsRetry) && next == StartAuth)
      || (when == Reply(HasCancelled) && next == End)
      || (when == Violation && next == EmitError)
    case _ => false
  }

  predicate CorrectionRow(kind: Kind, step: StepId, when: Condition, next: StepId) {
    match step
    case RequestApproval =>
      || (when == Reply(HasApproved) && next == StartAuth)
      || (when == Requested(FromTarget) && next == ResetFrom)
      || (kind == Internal && when == Requested(ToTarget) && next == ResetTo)
      || (kind == External && when == Requested(RecipientTarget) && next == ResetRecipient)
      || (when == Requested(AmountTarget) && next == ResetAmount)
      || (when == Reply(HasCancelled) && next == End)
      || (when == Violation && next == EmitError)
    case RouteCorrection =>
      || (when == Only(FromTarget) && next == ResetFrom)
      || (kind == Internal && when == Only(ToTarget) && next == ResetTo)
      || (kind == External && when == Only(RecipientTarget) && next == ResetRecipient)
      || (when == Only(AmountTarget) && next == ResetAmount)
      || (when == Several && next == RequestCorrection)
      || (when == Violation && next == EmitError)
    case RequestCorrection =>
      || (when == Choice(FromTarget) && next == ResetFrom)
      || (kind == Internal && when == Choice(ToTarget) && next == ResetTo)
      || (kind == External && when == Choice(RecipientTarget) && next == ResetRecipient)
      || (when == Choice(AmountTarget) && next == ResetAmount)
      || (when == Reply(HasCancelled) && next == End)
      || (when == Violation && next == EmitError)
    case _ => false
  }

  predicate ClosingRow(kind: Kind, step: StepId, when: Condition, next: StepId) {
    match step
    case ResetFrom => when == Done && next == ResolveFrom
    case ResetTo => when == Done && next == ResolveTo
    case ResetRecipient => when == Done && next == RequestRecipient
    case ResetAmount => when == Done && next == RequestAmount
    case _ =>
      && (step.EmitFromEmpty? || step.EmitToEmpty? || step.EmitResult? || step.EmitBlocked? || step.EmitError?)
      && when == Done && next == End
  }

  lemma {:induction false} RecipientRowApplies(kind: Kind, step: StepId, d: Data, e: Event) returns (when: Condition)
    requires Belongs(kind, step) && Accepts(step, e)
    requires step.ExtractSlots? || step.ResolveRecipientHint? || step.RequestRecipient?
    ensures RecipientRow(kind, step, when, Route(kind, step, d, e)) && Applies(kind, step, d, e, when)
    ensures forall w, n :: RecipientRow(kind, step, w, n) && Applies(kind, step, d, e, w) ==>
              w == when && n == Route(kind, step, d, e)
  {
    if e.Slots? { return if kind == Internal then Done else if e.recipientHint.Some? then HintGiven else HintMissing; }
    if e.RecipientSelected? { return if e.known.Some? != e.candidate.Some? then OneReference else Violation; }
    return if e.Fault? then Violation else Reply(Said(e));
  }

  lemma {:induction false} AccountRowApplies(kind: Kind, step: StepId, d: Data, e: Event) returns (when: Condition)
    requires Belongs(kind, step) && Accepts(step, e)
    requires step.ResolveFrom? || step.SelectFrom? || step.ResolveTo? || step.SelectTo?
    ensures AccountRow(kind, step, when, Route(kind, step, d, e)) && Applies(kind, step, d, e, when)
    ensures forall w, n :: AccountRow(kind, step, w, n) && Applies(kind, step, d, e, w) ==>
              w == when && n == Route(kind, step, d, e)
  {
    return if e.Fault? then Violation else Reply(Said(e));
  }

  lemma {:induction false} AmountRowApplies(kind: Kind, step: StepId, d: Data, e: Event) returns (when: Condition)
    requires Belongs(kind, step) && Accepts(step, e)
    requires step.CheckAmount? || step.RequestAmount? || step.StartPrepare?
    ensures AmountRow(kind, step, when, Route(kind, step, d, e)) && Applies(kind, step, d, e, when)
    ensures forall w, n :: AmountRow(kind, step, w, n) && Applies(kind, step, d, e, w) ==>
              w == when && n == Route(kind, step, d, e)
  {
    if step.CheckAmount? { return if ValidAmount(d.terms.amount) then UsableAmount else NoUsableAmount; }
    if e.Submitted? { return if 0 < e.value then Submission else Violation; }
    return if e.Go? then Done else if e.Fault? then Violation else Reply(Said(e));
  }

  lemma {:induction false} BackendRowApplies(kind: Kind, step: StepId, d: Data, e: Event) returns (when: Condition)
    requires Belongs(kind, step) && Accepts(step, e)
    requires step.Prepare? || step.Execute?
    ensures BackendRow(kind, step, when, Route(kind, step, d, e)) && Applies(kind, step, d, e, when)
    ensures forall w, n :: BackendRow(kind, step, w, n) && Applies(kind, step, d, e, w) ==>
              w == when && n == Route(kind, step, d, e)
  {
    return if e.Fault? then Violation else Reply(Said(e));
  }

  lemma {:induction false} AuthRowApplies(kind: Kind, step: StepId, d: Data, e: Event) returns (when: Condition)
    requires Belongs(kind, step) && Accepts(step, e)
    requires step.StartAuth? || step.CreateAuth? || step.RequestAuth? || step.RequestAuthRetry?
    ensures AuthRow(kind, step, when, Route(kind, step, d, e)) && Applies(kind, step, d, e, when)
    ensures forall w, n :: AuthRow(kind, step, w, n) && Applies(kind, step, d, e, w) ==>
              w == when && n == Route(kind, step, d, e)
  {
    return if e.Go? then Done else if e.Fault? then Violation else Reply(Said(e));
  }

  lemma {:induction false} ApprovalRowApplies(kind: Kind, step: StepId, d: Data, e: Event) returns (when: Condition)
    requires Belongs(kind, step) && Accepts(step, e)
    requires step.RequestApproval?
    ensures CorrectionRow(kind, step, when, Route(kind, step, d, e)) && Applies(kind, step, d, e, when)
    ensures forall w, n :: CorrectionRow(kind, step, w, n) && Applies(kind, step, d, e, w) ==>
              w == when && n == Route(kind, step, d, e)
  {
    if e.ChangeRequested? && Allows(kind, e.target) { return Requested(e.target); }
    return if e.ChangeRequested? || e.Fault? then Violation else Reply(Said(e));
  }

  lemma {:induction false} CorrectionRowApplies(kind: Kind, step: StepId, d: Data, e: Event) returns (when: Condition)
    requires Belongs(kind, step) && Accepts(step, e)
    requires step.RouteCorrection?
    ensures CorrectionRow(kind, step, when, Route(kind, step, d, e)) && Applies(kind, step, d, e, when)
    ensures forall w, n :: CorrectionRow(kind, step, w, n) && Applies(kind, step, d, e, w) ==>
              w == when && n == Route(kind, step, d, e)
  {
    var ts := CorrectionTargets(d.report);
    if ts == [] || exists t :: t in ts && !Allows(kind, t) { return Violation; }
    if |ts| > 1 { return Several; }
    assert ts == [ts[0]] && ts[0] in ts;
    return Only(ts[0]);
  }

  lemma {:induction false} ChoiceRowApplies(kind: Kind, step: StepId, d: Data, e: Event) returns (when: Condition)
    requires Belongs(kind, step) && Accepts(step, e)
    requires step.RequestCorrection?
    ensures CorrectionRow(kind, step, when, Route(kind, step, d, e)) && Applies(kind, step, d, e, when)
    ensures forall w, n :: CorrectionRow(kind, step, w, n) && Applies(kind, step, d, e, w) ==>
              w == when && n == Route(kind, step, d, e)
  {
    if e.CorrectionSelected? && Allows(kind, e.target) && e.target in CorrectionTargets(d.report) {
      return Choice(e.target);
    }
    return if e.CorrectionSelected? || e.Fault? then Violation else Reply(Said(e));
  }

  lemma {:induction false} ClosingRowApplies(kind: Kind, step: StepId, d: Data, e: Event) returns (when: Condition)
    requires Belongs(kind, step) && Accepts(step, e)
    requires Resets(kind, step) || step.EmitFromEmpty? || step.EmitToEmpty? || step.EmitResult? || step.EmitBlocked?
      || step.EmitError?
    ensures ClosingRow(kind, step, when, Route(kind, step, d, e)) && Applies(kind, step, d, e, when)
    ensures forall w, n :: ClosingRow(kind, step, w, n) && Applies(kind, step, d, e, w) ==>
              w == when && n == Route(kind, step, d, e)
  {
    return Done;
  }

  /** The route tables of both workflows: the step has a row with this condition, and it leads to the next step. */
  predicate RouteRow(kind: Kind, step: StepId, when: Condition, next: StepId) {
    match step
    case ExtractSlots => RecipientRow(kind, step, when, next)
    case ResolveRecipientHint => RecipientRow(kind, step, when, next)
    case RequestRecipient => RecipientRow(kind, step, when, next)
    case ResolveFrom => AccountRow(kind, step, when, next)
    case SelectFrom => AccountRow(kind, step, when, next)
    case ResolveTo => AccountRow(kind, step, when, next)
    case SelectTo => AccountRow(kind, step, when, next)
    case CheckAmount => AmountRow(kind, step, when, next)
    case RequestAmount => AmountRow(kind, step, when, next)
    case StartPrepare => AmountRow(kind, step, when, next)
    case Prepare => BackendRow(kind, step, when, next)
    case Execute => BackendRow(kind, step, when, next)
    case RequestApproval => CorrectionRow(kind, step, when, next)
    case RouteCorrection => CorrectionRow(kind, step, when, next)
    case RequestCorrection => CorrectionRow(kind, step, when, next)
    case StartAuth => AuthRow(kind, step, when, next)
    case CreateAuth => AuthRow(kind, step, when, next)
    case RequestAuth => AuthRow(kind, step, when, next)
    case RequestAuthRetry => AuthRow(kind, step, when, next)
    case _ => ClosingRow(kind, step, when, next)
  }

  /** Whatever happens at a step, exactly one of its rows applies, and the run takes it. */
  lemma {:induction false} RoutesFollowTheRows(kind: Kind, step: StepId, d: Data, e: Event) returns (when: Condition)
    requires Belongs(kind, step) && Accepts(step, e)
    ensures RouteRow(kind, step, when, Route(kind, step, d, e)) && Applies(kind, step, d, e, when)
    ensures forall w, n :: RouteRow(kind, step, w, n) && Applies(kind, step, d, e, w) ==>
              w == when && n == Route(kind, step, d, e)
  {
    if step.ExtractSlots? || step.ResolveRecipientHint? || step.RequestRecipient? {
      when := RecipientRowApplies(kind, step, d, e);
    } else if step.ResolveFrom? || step.SelectFrom? || step.ResolveTo? || step.SelectTo? {
      when := AccountRowApplies(kind, step, d, e);
    } else if step.CheckAmount? || step.RequestAmount? || step.StartPrepare? {
      when := AmountRowApplies(kind, step, d, e);
    } else if step.Prepare? || step.Execute? {
      when := BackendRowApplies(kind, step, d, e);
    } else if step.RequestApproval? {
      when := ApprovalRowApplies(kind, step, d, e);
    } else if step.RouteCorrection? {
      when := CorrectionRowApplies(kind, step, d, e);
    } else if step.RequestCorrection? {
      when := ChoiceRowApplies(kind, step, d, e);
    } else if step.StartAuth? || step.CreateAuth? || step.RequestAuth? || step.RequestAuthRetry? {
      when := AuthRowApplies(kind, step, d, e);
    } else {
      when := ClosingRowApplies(kind, step, d, e);
    }
  }

  // ---------------------------------------------------------------- corrections

  /** The ways to choose what is corrected: at the approval, as the only target of a correction, and among several. */
  predicate Chooses(step: StepId, r: Report, e: Event, t: Target) {
    || (step.RequestApproval? && e == ChangeRequested(t))
    || (step.RouteCorrection? && e == Go && r.correction == Some([t]))
    || (step.RequestCorrection? && e == CorrectionSelected(t) && r.correction.Some? && t in r.correction.value)
  }

  /** The terms with those of one target cleared. */
  function Without(t: Terms, target: Target): Terms {
    match target
    case FromTarget => Terms(None, t.to, t.recipient, t.candidate, t.amount)
    case ToTarget => Terms(t.from, None, t.recipient, t.candidate, t.amount)
    case RecipientTarget => Terms(t.from, t.to, None, None, t.amount)
    case AmountTarget => Terms(t.from, t.to, t.recipient, t.candidate, Null)
  }

  /** The step that asks for a target. */
  function Asks(target: Target): StepId {
    match target
    case FromTarget => ResolveFrom
    case ToTarget => ResolveTo
    case RecipientTarget => RequestRecipient
    case AmountTarget => RequestAmount
  }

  /** Each workflow corrects three targets. */
  predicate Corrects(kind: Kind, t: Target) {
    t.FromTarget? || t.AmountTarget? || t == if kind == Internal then ToTarget else RecipientTarget
  }

  lemma {:induction false} ChoiceIsRouted(kind: Kind, step: StepId, d: Data, e: Event, t: Target)
    requires Chooses(step, d.report, e, t)
    ensures Accepts(step, e) && Route(kind, step, d, e) == if Corrects(kind, t) then ResetStep(t) else EmitError
    ensures TermsAfter(kind, step, d.terms, e) == d.terms && ConsentAfter(kind, step, d.consent, e) == d.consent
  {
    assert t in [t];
  }

  lemma {:induction false} TargetIsCleared(kind: Kind, t: Target, d: Data)
    requires Corrects(kind, t)
    ensures forall e :: Accepts(ResetStep(t), e) <==> e == Go
    ensures Route(kind, ResetStep(t), d, Go) == Asks(t)
    ensures TermsAfter(kind, ResetStep(t), d.terms, Go) == Without(d.terms, t)
    ensures ConsentAfter(kind, ResetStep(t), d.consent, Go) == Consent(None, None, d.consent.attempt)
    ensures AuthAfter(kind, ResetStep(t), d.auth, Go) == Auth(None, None, None, 0)
  {
  }

  /** What follows the choice in m1: the reset is the only thing that can happen, and with it exactly the target's
      terms are gone, and so are the confirmation and the authentication built on them; the step asks again. */
  ghost predicate ResetNext(m: Machine, m1: Machine, t: Target) {
    && Enabled(m1, Go) && (forall f :: Enabled(m1, f) ==> f == Go)
    && var m2 := Next(m1, Go);
       && m2.step == Asks(t) && m2.data.terms == Without(m.data.terms, t)
       && m2.data.consent == Consent(None, None, m.data.consent.attempt)
       && m2.data.auth == Auth(None, None, None, 0) && m2.keys == m.keys
  }

  lemma {:induction false} ChoiceResets(m: Machine, e: Event, t: Target)
    requires Chooses(m.step, m.data.report, e, t) && Corrects(m.kind, t) && Accepts(m.step, e)
    ensures ResetNext(m, Next(m, e), t)
  {
    var m1 := Next(m, e);
    ChoiceIsRouted(m.kind, m.step, m.data, e, t);
    TargetIsCleared(m.kind, t, m1.data);
    assert m1.step == ResetStep(t);
  }

  lemma {:induction false} ChoiceIsEnabled(m: Machine, e: Event, t: Target)
    requires Chooses(m.step, m.data.report, e, t)
    ensures Enabled(m, e) && Next(m, e).step == if Corrects(m.kind, t) then ResetStep(t) else EmitError
  {
    ChoiceIsRouted(m.kind, m.step, m.data, e, t);
  }

  /** Whoever chooses a target to correct is asked for it again and keeps everything else; no key is sent
      meanwhile and the Prepare counter stays.  A target of the other workflow is a contract error. */
  lemma {:induction false} CorrectionAsksAgain(kind: Kind, es: seq<Event>, e: Event, t: Target)
    requires IsRun(Start(kind), es)
    requires Chooses(Reached(kind, es).step, Reached(kind, es).data.report, e, t)
    ensures var m := Reached(kind, es);
            && Enabled(m, e)
            && if Corrects(kind, t) then ResetNext(m, Next(m, e), t) else Next(m, e).step == EmitError
  {
    KindStays(Start(kind), es);
    ChoiceIsEnabled(Reached(kind, es), e, t);
    if Corrects(kind, t) { ChoiceResets(Reached(kind, es), e, t); }
  }
}
