/** The attack generator's retry loop and the counters its telemetry is built from.

    Model calls, the planner and the validator are the environment: what they answer is part of the call's argument,
    one round for each retry.  Everything the generator itself decides and counts is here. */
module AttackGenerator {
  import opened Wrappers
  import Text

  // ---------------------------------------------------------------- what the environment answers

  /** An exception is of a type evaluate_draft handles, or of another. */
  datatype Check = Passes | Rejects(reason: string) | CheckRaises(caught: bool, error: string)
  datatype Classifier =
    | OverBudget
    | CallRaises(caught: bool, called: bool, error: string)
    | Intent(fits: bool)  // whether the candidate record can be built from it
  datatype Judge = Accepts | Refuses(reason: string) | JudgeRaises

  /** One draft of a reply, with what the deterministic check, the classifier and the intent validator would say of
      it.  A field is None when it is absent or not text. */
  datatype Draft = Draft(
    isObject: bool, variation: Option<string>, strategy: Option<string>,
    check: Check, classifier: Classifier, judge: Judge)

  datatype Reply =
    | NoBudget
    | ReplyRaises(caught: bool, error: string)
    | Drafts(drafts: seq<Draft>)

  /** One retry: the plan, or an exception while planning or building the request, and the model's reply. */
  datatype Plan = Planned(count: nat) | PlanRaises
  datatype Round = Round(plan: Plan, reply: Reply)

  /** A constrained attack offers an enum of variations, unless its examples yield none. */
  datatype Mode = Free | Constrained(pool: Option<seq<string>>)

  datatype Call = Call(template: Option<string>, mode: Mode, history: set<string>, rounds: seq<Round>)

  datatype Verdict = Chosen(variation: string) | NotChosen(rejected: Option<string>) | BudgetError | Escape

  datatype Outcome =
    | Generated(variation: string)
    | MissingTemplate
    | PlanBroke
    | EnumMissing
    | PoolExhausted
    | BudgetExhausted
    | GenerationBroke
    | DraftEscaped
    | RetriesExhausted

  // ---------------------------------------------------------------- what becomes of a draft

  predicate Written(field: Option<string>) {
    field.Some? && Text.Strip(field.value) != ""
  }

  predicate Readable(d: Draft) {
    d.isObject && Written(d.variation) && Written(d.strategy)
  }

  predicate Checked(d: Draft) {
    Readable(d) && d.check.Passes?
  }

  predicate Classified(d: Draft) {
    Checked(d) && d.classifier.Intent? && d.classifier.fits
  }

  predicate Wins(d: Draft) {
    Classified(d) && d.judge.Accepts?
  }

  /** An exception gets past the handlers: from the check or the classifier one of an unlisted type, from the intent
      validator any, since it is called outside the try block. */
  predicate Escapes(d: Draft) {
    || (Readable(d) && d.check.CheckRaises? && !d.check.caught)
    || (Checked(d) && d.classifier.CallRaises? && !d.classifier.caught)
    || (Classified(d) && d.judge.JudgeRaises?)
  }

  predicate Exhausts(d: Draft) {
    Checked(d) && d.classifier.OverBudget?
  }

  /** The classifier is asked about the draft. */
  predicate Asks(d: Draft) {
    Checked(d) && (d.classifier.Intent? || (d.classifier.CallRaises? && d.classifier.called))
  }

  /** The draft ends the call. */
  predicate Decides(d: Draft) {
    Wins(d) || Escapes(d) || Exhausts(d)
  }

  function VariationOf(d: Draft, template: string): string
    requires d.variation.Some?
  {
    Text.Normalize(d.variation.value, template)
  }

  /** The variation that is recorded as rejected, by the check or by the intent validator. */
  function RejectedOf(d: Draft, template: string): Option<string> {
    if (Readable(d) && d.check.Rejects?) || (Classified(d) && d.judge.Refuses?) then Some(VariationOf(d, template))
    else None
  }

  // ---------------------------------------------------------------- constrained mode

  /** The variations still on offer. */
  function Remaining(pool: seq<string>, used: set<string>): (r: seq<string>)
    ensures forall v :: v in r <==> v in pool && v !in used
  {
    if pool == [] then []
    else
      var before, last := Remaining(pool[..|pool| - 1], used), pool[|pool| - 1];
      if last in used then before else before + [last]
  }

  /** The places of the pool that are not used, in order. */
  function Places(pool: seq<string>, used: set<string>): seq<nat> {
    if pool == [] then []
    else
      var before, n := Places(pool[..|pool| - 1], used), |pool| - 1;
      if pool[n] in used then before else before + [n]
  }

  lemma {:induction false} PlacesExactly(pool: seq<string>, used: set<string>, p: nat)
    ensures p in Places(pool, used) <==> p < |pool| && pool[p] !in used
  {
    if pool != [] {
      PlacesExactly(pool[..|pool| - 1], used, p);
    }
  }

  lemma {:induction false} PlacesIncrease(pool: seq<string>, used: set<string>, i: nat, j: nat)
    requires i < j < |Places(pool, used)|
    ensures Places(pool, used)[i] < Places(pool, used)[j]
  {
    var n, at := |pool| - 1, Places(pool, used);
    var before := Places(pool[..n], used);
    if j < |before| {
      PlacesIncrease(pool[..n], used, i, j);
    } else {
      assert before[i] in before;
      PlacesExactly(pool[..n], used, before[i]);
    }
  }

  /** An enum lists the pool at its unused places. */
  lemma {:induction false} RemainingInOrder(pool: seq<string>, used: set<string>, i: nat)
    ensures |Remaining(pool, used)| == |Places(pool, used)|
    ensures i < |Places(pool, used)| ==>
              Places(pool, used)[i] < |pool| && Remaining(pool, used)[i] == pool[Places(pool, used)[i]]
  {
    if pool != [] {
      RemainingInOrder(pool[..|pool| - 1], used, i);
    }
  }

  function Least(a: nat, b: nat): nat { if a < b then a else b }

  /** A plan asks for more than one candidate. */
  predicate PlansSome(round: Round) {
    round.plan.Planned? ==> round.plan.count > 1
  }

  predicate PlansWell(call: Call) {
    forall k :: 0 <= k < |call.rounds| ==> PlansSome(call.rounds[k])
  }

  function Pool(mode: Mode): Option<seq<string>> {
    if mode.Constrained? then mode.pool else None
  }

  /** How many drafts of retry k are looked at. */
  function Asked(plan: Plan, k: nat, mode: Mode, used: set<string>): nat {
    var count := if plan.PlanRaises? then 0 else if k == 0 then plan.count else 1;
    if mode.Free? then count
    else if mode.pool.None? then 0
    else Least(count, |Remaining(mode.pool.value, used)|)
  }

  function Selected(reply: Reply, count: nat): seq<Draft> {
    if reply.Drafts? then reply.drafts[..Least(count, |reply.drafts|)] else []
  }

  function Added(used: set<string>, rejected: Option<string>): set<string> {
    if rejected.Some? then used + {rejected.value} else used
  }

  /** The used variations with those rejected among drafts. */
  function UsedAfter(drafts: seq<Draft>, template: string, used: set<string>): set<string> {
    if drafts == [] then used
    else Added(UsedAfter(drafts[..|drafts| - 1], template, used), RejectedOf(drafts[|drafts| - 1], template))
  }

  function Template(call: Call): string {
    if call.template.Some? then call.template.value else ""
  }

  /** The variations used before retry k: the history and everything rejected in the retries before. */
  function UsedBefore(call: Call, k: nat): set<string>
    requires k <= |call.rounds|
  {
    if k == 0 then call.history
    else
      var round, used := call.rounds[k - 1], UsedBefore(call, k - 1);
      UsedAfter(Selected(round.reply, Asked(round.plan, k - 1, call.mode, used)), Template(call), used)
  }

  lemma {:induction false} NextUsed(call: Call, k: nat)
    requires k < |call.rounds|
    ensures UsedBefore(call, k + 1) == UsedAfter(SelectedAt(call, k), Template(call), UsedBefore(call, k))
  {
  }

  /** The drafts retry k evaluates unless one of them decides. */
  function SelectedAt(call: Call, k: nat): seq<Draft>
    requires k < |call.rounds|
  {
    Selected(call.rounds[k].reply, Asked(call.rounds[k].plan, k, call.mode, UsedBefore(call, k)))
  }

  // ---------------------------------------------------------------- what a retry looks at

  function DraftsOf(call: Call, k: nat): seq<Draft>
    requires k < |call.rounds|
  {
    if call.rounds[k].reply.Drafts? then call.rounds[k].reply.drafts else []
  }

  /** The places of the pool whose variations are not used. */
  ghost function Unused(pool: seq<string>, used: set<string>): set<nat> {
    set p: nat | p < |pool| && pool[p] !in used
  }

  /** How many drafts retry k may look at: in the first as many as the plan asks for, then one, and never more than
      there are variations left. */
  ghost function Limit(call: Call, k: nat): nat
    requires k < |call.rounds|
  {
    if call.rounds[k].plan.PlanRaises? then 0
    else
      var wanted := if k == 0 then call.rounds[k].plan.count else 1;
      match call.mode
      case Free => wanted
      case Constrained(None) => 0
      case Constrained(Some(pool)) => Least(wanted, |Unused(pool, UsedBefore(call, k))|)
  }

  /** Retry k may look at the draft at place i. */
  ghost predicate Looked(call: Call, k: nat, i: nat)
    requires k < |call.rounds|
  {
    i < |DraftsOf(call, k)| && i < Limit(call, k)
  }

  lemma {:induction false} Counted(places: seq<nat>, all: set<nat>)
    requires forall p: nat :: p in places <==> p in all
    requires forall i, j :: 0 <= i < j < |places| ==> places[i] < places[j]
    ensures |places| == |all|
  {
    if places == [] {
      assert all == {};
    } else {
      var n := |places| - 1;
      assert places == places[..n] + [places[n]];
      Counted(places[..n], all - {places[n]});
    }
  }

  lemma {:induction false} UnusedExactly(pool: seq<string>, used: set<string>)
    ensures |Unused(pool, used)| == |Remaining(pool, used)|
  {
    var places := Places(pool, used);
    forall p: nat ensures p in places <==> p in Unused(pool, used) {
      PlacesExactly(pool, used, p);
    }
    forall i, j | 0 <= i < j < |places| ensures places[i] < places[j] {
      PlacesIncrease(pool, used, i, j);
    }
    Counted(places, Unused(pool, used));
    RemainingInOrder(pool, used, 0);
  }

  lemma {:induction false} LimitIsAsked(call: Call, k: nat)
    requires k < |call.rounds|
    ensures Asked(call.rounds[k].plan, k, call.mode, UsedBefore(call, k)) == Limit(call, k)
  {
    if Pool(call.mode).Some? {
      UnusedExactly(Pool(call.mode).value, UsedBefore(call, k));
    }
  }

  /** The drafts the loop goes through are the ones the retry may look at. */
  lemma {:induction false} SelectedExactly(call: Call, k: nat)
    requires k < |call.rounds|
    ensures forall i: nat :: i < |SelectedAt(call, k)| <==> Looked(call, k, i)
    ensures SelectedAt(call, k) <= DraftsOf(call, k)
  {
    LimitIsAsked(call, k);
  }

  ghost predicate RejectedAt(call: Call, k: nat, i: nat, v: string)
    requires k < |call.rounds|
  {
    Looked(call, k, i) && RejectedOf(DraftsOf(call, k)[i], Template(call)) == Some(v)
  }

  ghost predicate RejectedBefore(call: Call, k: nat, v: string)
    requires k <= |call.rounds|
  {
    exists j, i :: 0 <= j < k && 0 <= i && RejectedAt(call, j, i, v)
  }

  lemma {:induction false} UsedAfterExactly(drafts: seq<Draft>, template: string, used: set<string>, v: string)
    ensures v in UsedAfter(drafts, template, used) <==>
            v in used || exists i :: 0 <= i < |drafts| && RejectedOf(drafts[i], template) == Some(v)
  {
    if drafts != [] {
      var n := |drafts| - 1;
      UsedAfterExactly(drafts[..n], template, used, v);
      assert forall i :: 0 <= i < n ==> drafts[..n][i] == drafts[i];
    }
  }

  lemma {:induction false} RejectedAtExactly(call: Call, k: nat, v: string)
    requires k < |call.rounds|
    ensures (exists i :: 0 <= i && RejectedAt(call, k, i, v)) <==>
            (var ds := SelectedAt(call, k); exists i :: 0 <= i < |ds| && RejectedOf(ds[i], Template(call)) == Some(v))
  {
    SelectedExactly(call, k);
    var ds := SelectedAt(call, k);
    if i :| 0 <= i < |ds| && RejectedOf(ds[i], Template(call)) == Some(v) {
      assert RejectedAt(call, k, i, v);
    }
    if i :| 0 <= i && RejectedAt(call, k, i, v) {
      assert ds[i] == DraftsOf(call, k)[i];
    }
  }

  ghost predicate RejectedIn(call: Call, k: nat, v: string)
    requires k < |call.rounds|
  {
    exists i :: 0 <= i && RejectedAt(call, k, i, v)
  }

  lemma {:induction false} RejectedOneMore(call: Call, k: nat, v: string)
    requires k < |call.rounds|
    ensures RejectedBefore(call, k + 1, v) <==> RejectedBefore(call, k, v) || RejectedIn(call, k, v)
  {
    if RejectedBefore(call, k + 1, v) {
      var j, i :| 0 <= j < k + 1 && 0 <= i && RejectedAt(call, j, i, v);
      assert j == k || RejectedBefore(call, k, v);
    }
    if RejectedBefore(call, k, v) {
      var j, i :| 0 <= j < k && 0 <= i && RejectedAt(call, j, i, v);
    }
  }

  lemma {:induction false} UsedOneMore(call: Call, k: nat, v: string)
    requires k < |call.rounds|
    ensures v in UsedBefore(call, k + 1) <==> v in UsedBefore(call, k) || RejectedIn(call, k, v)
  {
    UsedAfterExactly(SelectedAt(call, k), Template(call), UsedBefore(call, k), v);
    RejectedAtExactly(call, k, v);
  }

  /** Used is exactly what the history has and what an earlier retry rejected. */
  lemma {:induction false} UsedExactly(call: Call, k: nat, v: string)
    requires k <= |call.rounds|
    ensures v in UsedBefore(call, k) <==> v in call.history || RejectedBefore(call, k, v)
  {
    if k > 0 {
      UsedExactly(call, k - 1, v);
      UsedOneMore(call, k - 1, v);
      RejectedOneMore(call, k - 1, v);
    }
  }

  /** What retry k can offer: the variations of the pool that neither the history nor an earlier retry has used up. */
  ghost predicate Fresh(call: Call, k: nat, v: string)
    requires k <= |call.rounds|
  {
    Pool(call.mode).Some? && v in Pool(call.mode).value && v !in call.history && !RejectedBefore(call, k, v)
  }

  ghost predicate OffersFresh(call: Call, k: nat, offer: seq<string>)
    requires k <= |call.rounds|
  {
    forall v :: v in offer <==> Fresh(call, k, v)
  }

  lemma {:induction false} OfferedExactly(call: Call, k: nat)
    requires k <= |call.rounds| && Pool(call.mode).Some?
    ensures OffersFresh(call, k, Remaining(Pool(call.mode).value, UsedBefore(call, k)))
  {
    forall v ensures v in Remaining(Pool(call.mode).value, UsedBefore(call, k)) <==> Fresh(call, k, v) {
      UsedExactly(call, k, v);
    }
  }

  // ---------------------------------------------------------------- how a call ends

  /** The first draft from i on that ends the call, or the end. */
  function FirstDecision(drafts: seq<Draft>, i: nat): (k: nat)
    requires i <= |drafts|
    ensures i <= k <= |drafts|
    ensures k < |drafts| ==> Decides(drafts[k])
    ensures forall j :: i <= j < k ==> !Decides(drafts[j])
    decreases |drafts| - i
  {
    if i == |drafts| || Decides(drafts[i]) then i else FirstDecision(drafts, i + 1)
  }

  /** What a reply leads to, when it ends the call. */
  function ReplyEnds(reply: Reply, count: nat, template: string): Option<Outcome> {
    match reply
    case NoBudget => Some(BudgetExhausted)
    case ReplyRaises(caught, _) => if caught then None else Some(GenerationBroke)
    case Drafts(_) =>
      var drafts := Selected(reply, count);
      var k := FirstDecision(drafts, 0);
      if k == |drafts| then None
      else if Wins(drafts[k]) then Some(Generated(VariationOf(drafts[k], template)))
      else if Escapes(drafts[k]) then Some(DraftEscaped)
      else Some(BudgetExhausted)
  }

  /** How retry k ends the call, if it does. */
  function RoundEnds(call: Call, k: nat): Option<Outcome>
    requires k < |call.rounds|
  {
    var round, used := call.rounds[k], UsedBefore(call, k);
    if round.plan.PlanRaises? then Some(PlanBroke)
    else if call.mode.Constrained? && call.mode.pool.None? then Some(EnumMissing)
    else if call.mode.Constrained? && Remaining(call.mode.pool.value, used) == [] then Some(PoolExhausted)
    else ReplyEnds(round.reply, Asked(round.plan, k, call.mode, used), Template(call))
  }

  /** The first retry from k on that ends the call, or their number. */
  function FirstEnd(call: Call, k: nat): (n: nat)
    requires k <= |call.rounds|
    ensures k <= n <= |call.rounds|
    ensures n < |call.rounds| ==> RoundEnds(call, n).Some?
    ensures forall j :: k <= j < n ==> RoundEnds(call, j).None?
    decreases |call.rounds| - k
  {
    if k == |call.rounds| || RoundEnds(call, k).Some? then k else FirstEnd(call, k + 1)
  }

  function OutcomeOf(call: Call): Outcome {
    var n := FirstEnd(call, 0);
    if call.template.None? then MissingTemplate
    else if n == |call.rounds| then RetriesExhausted
    else RoundEnds(call, n).value
  }

  /** How many enums have been offered once retry k is over: one for each retry that gets as far as asking the
      model. */
  function OffersAfter(call: Call, k: nat): (n: nat)
    requires k < |call.rounds|
    ensures n <= k + 1 && (n > 0 ==> Pool(call.mode).Some?)
  {
    if Pool(call.mode).None? then 0
    else if RoundEnds(call, k) == Some(PlanBroke) || RoundEnds(call, k) == Some(PoolExhausted) then k
    else k + 1
  }

  function OfferCount(call: Call): (n: nat)
    ensures n <= |call.rounds| && (n > 0 ==> Pool(call.mode).Some?)
  {
    var n := FirstEnd(call, 0);
    if call.template.None? || Pool(call.mode).None? then 0
    else if n == |call.rounds| then n
    else OffersAfter(call, n)
  }

  /** The enums offered, one for each retry that gets that far. */
  function Offers(call: Call, n: nat): (r: seq<seq<string>>)
    requires n <= |call.rounds| && (n > 0 ==> Pool(call.mode).Some?)
    ensures |r| == n
  {
    if n == 0 then [] else Offers(call, n - 1) + [Remaining(Pool(call.mode).value, UsedBefore(call, n - 1))]
  }

  lemma {:induction false} OffersGrow(call: Call, m: nat, n: nat)
    requires m <= n <= |call.rounds| && Pool(call.mode).Some?
    ensures Offers(call, m) <= Offers(call, n)
  {
    if m < n {
      OffersGrow(call, m, n - 1);
    }
  }

  lemma {:induction false} LastOffer(call: Call, k: nat)
    requires k < |call.rounds| && Pool(call.mode).Some?
    ensures Offers(call, k + 1)[k] == Remaining(Pool(call.mode).value, UsedBefore(call, k))
  {
  }

  lemma {:induction false} OffersAt(call: Call, n: nat, k: nat)
    requires k < n <= |call.rounds| && Pool(call.mode).Some?
    ensures Offers(call, n)[k] == Remaining(Pool(call.mode).value, UsedBefore(call, k))
  {
    LastOffer(call, k);
    OffersGrow(call, k + 1, n);
  }

  /** Each enum offered is not empty and holds exactly the fresh variations. */
  lemma {:induction false} OffersAreFresh(call: Call, k: nat)
    requires k < OfferCount(call)
    ensures Remaining(Pool(call.mode).value, UsedBefore(call, k)) != []
    ensures OffersFresh(call, k, Remaining(Pool(call.mode).value, UsedBefore(call, k)))
  {
    OfferedExactly(call, k);
    assert k <= FirstEnd(call, 0);
    assert RoundEnds(call, k) != Some(PoolExhausted);
  }

  /** Enum k is the one of retry k: not empty, and exactly the fresh variations. */
  ghost predicate EveryOfferFresh(call: Call, offers: seq<seq<string>>) {
    |offers| <= |call.rounds| && forall k :: 0 <= k < |offers| ==> offers[k] != [] && OffersFresh(call, k, offers[k])
  }

  lemma {:induction false} EveryOfferIsFresh(call: Call)
    ensures EveryOfferFresh(call, Offers(call, OfferCount(call)))
  {
    forall k | 0 <= k < OfferCount(call)
      ensures var offer := Offers(call, OfferCount(call))[k]; offer != [] && OffersFresh(call, k, offer)
    {
      OffersAt(call, OfferCount(call), k);
      OffersAreFresh(call, k);
    }
  }

  lemma {:induction false} SelectionEnds(call: Call, k: nat)
    requires k < |call.rounds| && SelectedAt(call, k) != []
    ensures RoundEnds(call, k) ==
            ReplyEnds(call.rounds[k].reply, Asked(call.rounds[k].plan, k, call.mode, UsedBefore(call, k)),
                      Template(call))
  {
  }

  // ---------------------------------------------------------------- a model that keeps to the enum

  /** The model answers with items of the enums it is offered, verbatim. */
  ghost predicate KeepsToEnum(call: Call) {
    forall k, i :: 0 <= k < |call.rounds| && 0 <= i < |SelectedAt(call, k)| ==> DraftKeeps(call, k, i)
  }

  ghost predicate DraftKeeps(call: Call, k: nat, i: nat)
    requires k < |call.rounds| && i < |SelectedAt(call, k)|
  {
    var d := SelectedAt(call, k)[i];
    Readable(d) && Pool(call.mode).Some? ==>
      d.variation.value in Remaining(Pool(call.mode).value, UsedBefore(call, k))
  }

  /** Normalization leaves every item of the pool as it is. */
  ghost predicate Stable(pool: seq<string>, template: string) {
    forall v :: v in pool ==> Text.Normalize(v, template) == v
  }

  /** Then, from a stable pool, what a constrained call generates is from the pool, not in the history, and not among
      the variations rejected in any earlier retry. */
  lemma {:induction false} GeneratedIsFresh(call: Call)
    requires Pool(call.mode).Some? && Stable(Pool(call.mode).value, Template(call))
    requires KeepsToEnum(call) && OutcomeOf(call).Generated?
    ensures Fresh(call, FirstEnd(call, 0), OutcomeOf(call).variation)
  {
    var n := FirstEnd(call, 0);
    var k := FirstDecision(SelectedAt(call, n), 0);
    assert DraftKeeps(call, n, k);
    OfferedExactly(call, n);
  }

  /** A rejected answer is itself withdrawn exactly when normalization leaves it as it is or it was used already: what
      is recorded is the normalized variation. */
  lemma {:induction false} WithdrawnExactly(d: Draft, template: string, used: set<string>)
    requires RejectedOf(d, template).Some?
    ensures d.variation.value in Added(used, RejectedOf(d, template)) <==>
            d.variation.value in used || Text.Normalize(d.variation.value, template) == d.variation.value
  {
  }

  /** So from a stable pool no enum offers again what an earlier retry answered and had rejected. */
  lemma {:induction false} RejectedIsWithdrawn(call: Call, j: nat, i: nat, k: nat)
    requires j < k <= |call.rounds| && i < |SelectedAt(call, j)|
    requires Pool(call.mode).Some? && Stable(Pool(call.mode).value, Template(call))
    requires RejectedOf(SelectedAt(call, j)[i], Template(call)).Some?
    ensures SelectedAt(call, j)[i].variation.value !in Remaining(Pool(call.mode).value, UsedBefore(call, k))
  {
    var d := SelectedAt(call, j)[i];
    var v := d.variation.value;
    if v in Pool(call.mode).value {
      SelectedExactly(call, j);
      assert RejectedAt(call, j, i, v);
      assert RejectedBefore(call, k, v);
      UsedExactly(call, k, v);
    }
  }

  // An item that normalization changes: the model answers with it twice, is refused, then accepted.
  const PADDED_DRAFT := Draft(true, Some(" a"), Some("s"), Rejects("duplicate_candidate"), Intent(true), Accepts)
  const PADDED_CALL :=
    Call(Some("{variation}"), Constrained(Some([" a"])), {}, [
      Round(Planned(2), Drafts([PADDED_DRAFT])),
      Round(Planned(2), Drafts([PADDED_DRAFT.(check := Passes)]))])

  lemma {:induction false} PaddedNormalizes()
    ensures Text.Normalize(" a", "{variation}") == "a"
  {
    var t := Text.PLACEHOLDER;
    assert t == "" + Text.PLACEHOLDER + "";
    Text.TemplateParts("", "");
    assert Text.StripLeft("a") == "a" && " a"[1..] == "a";
    assert Text.Strip(" a") == "a";
    assert "a"[0..1] == "a";
    assert Text.Strip("a") == "a";
  }

  lemma {:induction false} PaddedRemains(used: set<string>)
    requires " a" !in used
    ensures Remaining([" a"], used) == [" a"]
  {
    assert [" a"][..0] == [];
  }

  lemma {:induction false} PaddedRejected()
    ensures Readable(PADDED_DRAFT) && RejectedOf(PADDED_DRAFT, "{variation}") == Some("a")
  {
    PaddedNormalizes();
    assert Text.Strip(" a") != "" && Text.Strip("s") == "s";
  }

  lemma {:induction false} UsedAfterOne(d: Draft, template: string, used: set<string>)
    ensures UsedAfter([d], template, used) == Added(used, RejectedOf(d, template))
  {
    assert [d][..0] == [];
  }

  lemma {:induction false} PaddedStart(call: Call)
    requires call == PADDED_CALL
    ensures UsedBefore(call, 0) == {} && SelectedAt(call, 0) == [PADDED_DRAFT]
  {
    PaddedRemains({});
    assert [PADDED_DRAFT][..1] == [PADDED_DRAFT];
  }

  lemma {:induction false} PaddedFirst(call: Call)
    requires call == PADDED_CALL
    ensures SelectedAt(call, 0) == [PADDED_DRAFT] && UsedBefore(call, 1) == {"a"}
  {
    PaddedStart(call);
    PaddedRejected();
    UsedAfterOne(PADDED_DRAFT, "{variation}", {});
  }

  lemma {:induction false} PaddedSecond(call: Call)
    requires call == PADDED_CALL
    ensures SelectedAt(call, 1) == [PADDED_DRAFT.(check := Passes)]
    ensures Remaining([" a"], UsedBefore(call, 1)) == [" a"]
  {
    PaddedFirst(call);
    assert " a"[0] != "a"[0];
    PaddedRemains({"a"});
  }

  /** A call of two retries, of which the first refuses its only draft and the second accepts its own. */
  lemma {:induction false} SecondWins(call: Call, refused: Draft, accepted: Draft)
    requires |call.rounds| == 2 && call.template.Some? && SelectedAt(call, 0) == [refused]
    requires !Decides(refused) && SelectedAt(call, 1) == [accepted] && Wins(accepted)
    ensures OutcomeOf(call) == Generated(VariationOf(accepted, call.template.value))
  {
    SelectionEnds(call, 0);
    SelectionEnds(call, 1);
    assert FirstDecision([refused], 0) == 1 && FirstDecision([accepted], 0) == 0;
    assert RoundEnds(call, 0).None? && RoundEnds(call, 1).Some?;
    assert FirstEnd(call, 1) == 1 && FirstEnd(call, 0) == 1;
  }

  lemma {:induction false} PaddedKeeps(call: Call)
    requires call == PADDED_CALL
    ensures KeepsToEnum(call)
  {
    PaddedFirst(call);
    PaddedSecond(call);
    PaddedRemains({});
    assert SelectedAt(call, 0) == [PADDED_DRAFT];
    assert UsedBefore(call, 0) == {};
    forall k, i | 0 <= k < 2 && 0 <= i < |SelectedAt(call, k)| ensures DraftKeeps(call, k, i) {
      assert k == 0 || k == 1;
      assert SelectedAt(call, k)[i].variation == Some(" a");
    }
  }

  lemma {:induction false} PaddedWins(call: Call)
    requires call == PADDED_CALL
    ensures OutcomeOf(call) == Generated("a")
  {
    var accepted := PADDED_DRAFT.(check := Passes);
    PaddedFirst(call);
    PaddedSecond(call);
    PaddedNormalizes();
    assert Text.Strip(" a") != "" && Text.Strip("s") == "s";
    SecondWins(call, PADDED_DRAFT, accepted);
  }

  /** From a pool that is not stable both can fail: the rejected item is offered again, and what is generated is not
      in the pool. */
  lemma {:induction false} PaddedIsOfferedAgain()
    ensures KeepsToEnum(PADDED_CALL)
    ensures Remaining([" a"], UsedBefore(PADDED_CALL, 1)) == [" a"]
    ensures OutcomeOf(PADDED_CALL) == Generated("a") && "a" !in [" a"]
  {
    var call := PADDED_CALL;
    PaddedKeeps(call);
    PaddedSecond(call);
    PaddedWins(call);
    assert " a"[0] != "a"[0];
  }

  // ---------------------------------------------------------------- when a call ends how

  /** The draft at place i is the first retry k looks at that ends the call. */
  ghost predicate DecidesAt(call: Call, k: nat, i: nat)
    requires k < |call.rounds|
  {
    Looked(call, k, i) && Decides(DraftsOf(call, k)[i]) && forall j :: 0 <= j < i ==> !Decides(DraftsOf(call, k)[j])
  }

  /** Retry k gets as far as asking the model. */
  ghost predicate Requests(call: Call, k: nat)
    requires k < |call.rounds|
  {
    && call.rounds[k].plan.Planned?
    && (call.mode.Constrained? ==>
          call.mode.pool.Some? && exists v :: v in call.mode.pool.value && v !in UsedBefore(call, k))
  }

  /** Retry k ends nothing. */
  ghost predicate GoesOn(call: Call, k: nat)
    requires k < |call.rounds|
  {
    && Requests(call, k)
    && (call.rounds[k].reply.Drafts? || (call.rounds[k].reply.ReplyRaises? && call.rounds[k].reply.caught))
    && forall i: nat :: Looked(call, k, i) ==> !Decides(DraftsOf(call, k)[i])
  }

  /** Retry k ends the call with this outcome. */
  ghost predicate EndsWith(call: Call, k: nat, o: Outcome)
    requires k < |call.rounds|
  {
    var round, drafts := call.rounds[k], DraftsOf(call, k);
    match o
    case PlanBroke => round.plan.PlanRaises?
    case EnumMissing => round.plan.Planned? && call.mode == Constrained(None)
    case PoolExhausted =>
      && round.plan.Planned? && Pool(call.mode).Some?
      && forall v :: v in Pool(call.mode).value ==> v in UsedBefore(call, k)
    case GenerationBroke => Requests(call, k) && round.reply.ReplyRaises? && !round.reply.caught
    case BudgetExhausted =>
      || (Requests(call, k) && round.reply.NoBudget?)
      || exists i: nat :: DecidesAt(call, k, i) && Exhausts(drafts[i])
    case DraftEscaped => exists i: nat :: DecidesAt(call, k, i) && Escapes(drafts[i])
    case Generated(v) =>
      exists i: nat :: DecidesAt(call, k, i) && Wins(drafts[i]) && VariationOf(drafts[i], Template(call)) == v
    case _ => false
  }

  ghost predicate IsReached(call: Call, k: nat)
    requires k <= |call.rounds|
  {
    call.template.Some? && forall j :: 0 <= j < k ==> GoesOn(call, j)
  }

  /** When a call has an outcome: the template is missing, or no retry ended it, or a retry did after those before it
      had gone on. */
  ghost predicate Meets(call: Call, o: Outcome) {
    match o
    case MissingTemplate => call.template.None?
    case RetriesExhausted => IsReached(call, |call.rounds|)
    case _ => exists k: nat :: k < |call.rounds| && IsReached(call, k) && EndsWith(call, k, o)
  }

  lemma {:induction false} LooksOnlyIfAsked(call: Call, k: nat, i: nat)
    requires k < |call.rounds| && Looked(call, k, i)
    ensures Requests(call, k) && call.rounds[k].reply.Drafts?
  {
    if Pool(call.mode).Some? {
      var p :| p in Unused(Pool(call.mode).value, UsedBefore(call, k));
      assert Pool(call.mode).value[p] in Pool(call.mode).value;
    }
  }

  lemma {:induction false} FirstDecisionExactly(call: Call, k: nat)
    requires k < |call.rounds|
    ensures var ds := SelectedAt(call, k); var n := FirstDecision(ds, 0);
            && (forall i: nat :: DecidesAt(call, k, i) <==> i == n < |ds|)
            && (n == |ds| <==> forall i: nat :: Looked(call, k, i) ==> !Decides(DraftsOf(call, k)[i]))
  {
    var ds := SelectedAt(call, k);
    SelectedExactly(call, k);
    assert forall i :: 0 <= i < |ds| ==> ds[i] == DraftsOf(call, k)[i];
  }

  lemma {:induction false} RequestExactly(call: Call, k: nat)
    requires k < |call.rounds|
    ensures Requests(call, k) ==>
              RoundEnds(call, k) ==
                ReplyEnds(call.rounds[k].reply, Asked(call.rounds[k].plan, k, call.mode, UsedBefore(call, k)),
                          Template(call))
    ensures !Requests(call, k) ==> RoundEnds(call, k).Some? && EndsWith(call, k, RoundEnds(call, k).value)
  {
    if Pool(call.mode).Some? {
      var left := Remaining(Pool(call.mode).value, UsedBefore(call, k));
      assert left != [] ==> left[0] in left;
    }
  }

  lemma {:induction false} ReplyEndsExactly(call: Call, k: nat)
    requires k < |call.rounds| && Requests(call, k)
    ensures RoundEnds(call, k).None? <==> GoesOn(call, k)
    ensures RoundEnds(call, k).Some? ==> EndsWith(call, k, RoundEnds(call, k).value)
  {
    RequestExactly(call, k);
    FirstDecisionExactly(call, k);
    SelectedExactly(call, k);
    var n := FirstDecision(SelectedAt(call, k), 0);
    if call.rounds[k].reply.Drafts? && n < |SelectedAt(call, k)| {
      assert DecidesAt(call, k, n) && SelectedAt(call, k)[n] == DraftsOf(call, k)[n];
    }
  }

  lemma {:induction false} RoundEndsExactly(call: Call, k: nat)
    requires k < |call.rounds|
    ensures RoundEnds(call, k).None? <==> GoesOn(call, k)
    ensures RoundEnds(call, k).Some? ==> EndsWith(call, k, RoundEnds(call, k).value)
  {
    if Requests(call, k) { ReplyEndsExactly(call, k); } else { RequestExactly(call, k); }
  }

  lemma {:induction false} DecidesOnce(call: Call, k: nat, i: nat, j: nat)
    requires k < |call.rounds| && DecidesAt(call, k, i) && DecidesAt(call, k, j)
    ensures i == j && Requests(call, k) && call.rounds[k].reply.Drafts?
  {
    LooksOnlyIfAsked(call, k, i);
  }

  /** What a deciding draft leads to. */
  function DraftEnds(d: Draft, template: string): Outcome
    requires Decides(d)
  {
    if Wins(d) then Generated(VariationOf(d, template)) else if Escapes(d) then DraftEscaped else BudgetExhausted
  }

  lemma {:induction false} EndsByDraft(call: Call, k: nat, o: Outcome, i: nat)
    requires k < |call.rounds| && EndsWith(call, k, o) && DecidesAt(call, k, i)
    ensures o == DraftEnds(DraftsOf(call, k)[i], Template(call))
  {
    LooksOnlyIfAsked(call, k, i);
    forall j: nat | DecidesAt(call, k, j) ensures j == i {
      DecidesOnce(call, k, i, j);
    }
  }

  /** A retry ends a call in one way at most. */
  lemma {:induction false} EndsOneWay(call: Call, k: nat, o: Outcome, o': Outcome)
    requires k < |call.rounds| && EndsWith(call, k, o) && EndsWith(call, k, o')
    ensures o == o'
  {
    if i: nat :| DecidesAt(call, k, i) {
      EndsByDraft(call, k, o, i);
      EndsByDraft(call, k, o', i);
    }
  }

  lemma {:induction false} EndIsNoGoingOn(call: Call, k: nat, o: Outcome)
    requires k < |call.rounds| && EndsWith(call, k, o)
    ensures !GoesOn(call, k)
  {
    if i: nat :| DecidesAt(call, k, i) {
      DecidesOnce(call, k, i, i);
    }
  }

  lemma {:induction false} ReachedOnce(call: Call, j: nat, k: nat)
    requires j <= |call.rounds| && k <= |call.rounds| && IsReached(call, j) && IsReached(call, k)
    requires j < |call.rounds| ==> !GoesOn(call, j)
    requires k < |call.rounds| ==> !GoesOn(call, k)
    ensures j == k
  {
  }

  lemma {:induction false} EndReached(call: Call)
    requires call.template.Some?
    ensures IsReached(call, FirstEnd(call, 0))
    ensures FirstEnd(call, 0) < |call.rounds| ==> !GoesOn(call, FirstEnd(call, 0))
  {
    var n := FirstEnd(call, 0);
    forall j | 0 <= j < n ensures GoesOn(call, j) { RoundEndsExactly(call, j); }
    if n < |call.rounds| { RoundEndsExactly(call, n); }
  }

  lemma {:induction false} OutcomeMeets(call: Call)
    ensures Meets(call, OutcomeOf(call))
  {
    if call.template.Some? {
      var n := FirstEnd(call, 0);
      EndReached(call);
      if n < |call.rounds| { RoundEndsExactly(call, n); }
    }
  }

  lemma {:induction false} MeetsOnce(call: Call, o: Outcome)
    requires Meets(call, o) && call.template.Some?
    ensures o == OutcomeOf(call)
  {
    var n := FirstEnd(call, 0);
    EndReached(call);
    if o.RetriesExhausted? {
      ReachedOnce(call, n, |call.rounds|);
    } else {
      var k: nat :| k < |call.rounds| && IsReached(call, k) && EndsWith(call, k, o);
      EndIsNoGoingOn(call, k, o);
      ReachedOnce(call, n, k);
      RoundEndsExactly(call, n);
      EndsOneWay(call, n, o, RoundEnds(call, n).value);
    }
  }

  /** A call has exactly the outcome whose conditions it meets.  In particular it generates v exactly when some retry
      is reached, every earlier one having gone on, in which the first draft that decides anything, among as many as
      the plan, the retry and the variations left allow, wins with v as its normalized variation. */
  lemma {:induction false} OutcomeExactly(call: Call, o: Outcome)
    ensures OutcomeOf(call) == o <==> Meets(call, o)
  {
    OutcomeMeets(call);
    if Meets(call, o) && call.template.Some? { MeetsOnce(call, o); }
  }

  /** The call meets the conditions of this outcome and of no other. */
  ghost predicate MeetsOnly(call: Call, outcome: Outcome) {
    forall o :: outcome == o <==> Meets(call, o)
  }

  lemma {:induction false} OutcomesExactly(call: Call)
    ensures MeetsOnly(call, OutcomeOf(call))
  {
    forall o ensures OutcomeOf(call) == o <==> Meets(call, o) {
      OutcomeExactly(call, o);
    }
  }

  /** A retry that is reached evaluates a draft whose exception escapes. */
  ghost predicate Leaks(call: Call) {
    Meets(call, DraftEscaped)
  }

  const FAULTY_DRAFT := Draft(true, Some("a"), Some("s"), Passes, Intent(true), JudgeRaises)
  const FAULTY_CALL :=
    Call(Some("{variation}"), Free, {}, [Round(Planned(2), Drafts([FAULTY_DRAFT]))])

  /** Such calls exist: one draft whose intent validator raises is enough. */
  lemma {:induction false} SomeCallLeaks()
    ensures Leaks(FAULTY_CALL)
  {
    var d := FAULTY_DRAFT;
    assert Text.Strip("a") == "a" && Text.Strip("s") == "s";
    assert SelectedAt(FAULTY_CALL, 0) == [d];
    SelectedExactly(FAULTY_CALL, 0);
    assert DecidesAt(FAULTY_CALL, 0, 0);
    assert EndsWith(FAULTY_CALL, 0, DraftEscaped);
  }

  // ---------------------------------------------------------------- what is counted

  datatype Counter = Sent | Tried | Won | Failed | Strayed | Doubled

  const DUPLICATE := "duplicate_candidate"

  /** The reason the check or the intent validator rejects a draft for. */
  function ReasonOf(d: Draft): Option<string> {
    if Readable(d) && d.check.Rejects? then Some(d.check.reason)
    else if Classified(d) && d.judge.Refuses? then Some(d.judge.reason)
    else None
  }

  /** The draft is malformed, an exception is handled, or the classifier yields no candidate. */
  predicate Fails(d: Draft) {
    || !Readable(d)
    || (d.check.CheckRaises? && d.check.caught)
    || Exhausts(d)
    || (Checked(d) && d.classifier.CallRaises? && d.classifier.caught)
    || (Checked(d) && d.classifier == Intent(false))
  }

  /** The counters an evaluated draft goes into: it is an attempt, perhaps a request, and one of the others unless its
      exception escapes. */
  predicate Counts(c: Counter, d: Draft) {
    match c
    case Sent => Asks(d)
    case Tried => true
    case Won => Wins(d)
    case Failed => Fails(d)
    case Strayed => ReasonOf(d).Some? && ReasonOf(d).value != DUPLICATE
    case Doubled => ReasonOf(d).Some? && ReasonOf(d).value == DUPLICATE
  }

  lemma {:induction false} CountedOnce(d: Draft)
    ensures One(Counts(Won, d)) + One(Counts(Failed, d)) + One(Counts(Strayed, d)) + One(Counts(Doubled, d))
            == One(!Escapes(d))
  {
  }

  function One(b: bool): nat { if b then 1 else 0 }

  function Number(c: Counter, ds: seq<Draft>): nat {
    if ds == [] then 0 else Number(c, ds[..|ds| - 1]) + One(Counts(c, ds[|ds| - 1]))
  }

  /** The drafts that are evaluated: up to and with the first that ends the call. */
  function Evaluated(ds: seq<Draft>): seq<Draft> {
    ds[..Least(FirstDecision(ds, 0) + 1, |ds|)]
  }

  /** A reply is one request; without usable drafts it is one failed attempt, unless its exception escapes. */
  function ReplyNumber(c: Counter, reply: Reply, count: nat): nat {
    match reply
    case NoBudget => 0
    case ReplyRaises(caught, _) => One(c.Sent? || (caught && (c.Tried? || c.Failed?)))
    case Drafts(ds) =>
      if ds == [] then One(c.Sent? || c.Tried? || c.Failed?)
      else One(c.Sent?) + Number(c, Evaluated(Selected(reply, count)))
  }

  function RoundNumber(c: Counter, call: Call, k: nat): nat
    requires k < |call.rounds|
  {
    if StopsEarly(call, k) then 0
    else ReplyNumber(c, call.rounds[k].reply, Asked(call.rounds[k].plan, k, call.mode, UsedBefore(call, k)))
  }

  /** The plan or the enum of retry k ends the call. */
  predicate StopsEarly(call: Call, k: nat)
    requires k < |call.rounds|
  {
    var o := RoundEnds(call, k);
    o == Some(PlanBroke) || o == Some(EnumMissing) || o == Some(PoolExhausted)
  }

  /** The first n retries together. */
  function RoundsNumber(c: Counter, call: Call, n: nat): nat
    requires n <= |call.rounds|
  {
    if n == 0 then 0 else RoundsNumber(c, call, n - 1) + RoundNumber(c, call, n - 1)
  }

  /** How many retries are begun. */
  function Begun(call: Call): (n: nat)
    ensures n <= |call.rounds|
  {
    if call.template.None? then 0 else Least(FirstEnd(call, 0) + 1, |call.rounds|)
  }

  /** What a call adds to a counter. */
  function CallNumber(c: Counter, call: Call): nat {
    RoundsNumber(c, call, Begun(call))
  }

  // ---------------------------------------------------------------- what the counts add up to

  /** Drafts of which none but the last may end the call. */
  lemma {:induction false} DraftsCount(ds: seq<Draft>)
    requires forall i :: 0 <= i < |ds| - 1 ==> !Decides(ds[i])
    ensures Number(Won, ds) + Number(Failed, ds) + Number(Strayed, ds) + Number(Doubled, ds)
            == |ds| - One(ds != [] && Escapes(ds[|ds| - 1]))
    ensures Number(Tried, ds) == |ds| && Number(Sent, ds) <= |ds|
    ensures Number(Won, ds) == One(ds != [] && Wins(ds[|ds| - 1]))
  {
    if ds != [] {
      var before, last := ds[..|ds| - 1], ds[|ds| - 1];
      DraftsCount(before);
      assert before != [] ==> !Decides(before[|before| - 1]);
      CountedOnce(last);
    }
  }

  predicate Generates(o: Option<Outcome>) {
    o.Some? && o.value.Generated?
  }

  lemma {:induction false} EvaluatedEnds(reply: Reply, count: nat, template: string)
    requires reply.Drafts?
    ensures var ds, o := Evaluated(Selected(reply, count)), ReplyEnds(reply, count, template);
            && |ds| <= count && (forall i :: 0 <= i < |ds| - 1 ==> !Decides(ds[i]))
            && (o == Some(DraftEscaped) <==> ds != [] && Escapes(ds[|ds| - 1]))
            && (Generates(o) <==> ds != [] && Wins(ds[|ds| - 1]))
  {
  }

  lemma {:induction false} ReplyCounts(reply: Reply, count: nat, template: string)
    requires count > 0
    ensures ReplyNumber(Tried, reply, count) ==
              ReplyNumber(Won, reply, count) + ReplyNumber(Failed, reply, count) + ReplyNumber(Strayed, reply, count)
              + ReplyNumber(Doubled, reply, count) + One(ReplyEnds(reply, count, template) == Some(DraftEscaped))
    ensures ReplyNumber(Won, reply, count) == One(Generates(ReplyEnds(reply, count, template)))
    ensures ReplyNumber(Sent, reply, count) <= 1 + count && ReplyNumber(Tried, reply, count) <= count
  {
    if reply.Drafts? {
      EvaluatedEnds(reply, count, template);
      DraftsCount(Evaluated(Selected(reply, count)));
    }
  }

  /** As many as a retry may add to the attempts. */
  function Share(call: Call, k: nat): nat {
    if k == 0 then CountOf(call) else 1
  }

  lemma {:induction false} RoundCounts(call: Call, k: nat)
    requires k < |call.rounds| && PlansSome(call.rounds[k])
    ensures RoundNumber(Tried, call, k) ==
              RoundNumber(Won, call, k) + RoundNumber(Failed, call, k) + RoundNumber(Strayed, call, k)
              + RoundNumber(Doubled, call, k) + One(RoundEnds(call, k) == Some(DraftEscaped))
    ensures RoundNumber(Won, call, k) == One(Generates(RoundEnds(call, k)))
    ensures RoundNumber(Sent, call, k) <= 1 + Share(call, k) && RoundNumber(Tried, call, k) <= Share(call, k)
  {
    if !StopsEarly(call, k) {
      ReplyCounts(call.rounds[k].reply, Asked(call.rounds[k].plan, k, call.mode, UsedBefore(call, k)), Template(call));
    }
  }

  /** None of the first m retries but the last ends the call. */
  predicate QuietBefore(call: Call, m: nat)
    requires m <= |call.rounds|
  {
    forall k :: 0 <= k < m - 1 ==> RoundEnds(call, k).None?
  }

  lemma {:induction false} RoundsBalance(call: Call, m: nat)
    requires m <= |call.rounds| && forall k :: 0 <= k < m ==> PlansSome(call.rounds[k])
    requires QuietBefore(call, m)
    ensures RoundsNumber(Tried, call, m) ==
              RoundsNumber(Won, call, m) + RoundsNumber(Failed, call, m) + RoundsNumber(Strayed, call, m)
              + RoundsNumber(Doubled, call, m) + One(m > 0 && RoundEnds(call, m - 1) == Some(DraftEscaped))
  {
    if m > 0 {
      RoundsBalance(call, m - 1);
      RoundCounts(call, m - 1);
    }
  }

  lemma {:induction false} RoundsWon(call: Call, m: nat)
    requires m <= |call.rounds| && forall k :: 0 <= k < m ==> PlansSome(call.rounds[k])
    requires QuietBefore(call, m)
    ensures RoundsNumber(Won, call, m) == One(m > 0 && Generates(RoundEnds(call, m - 1)))
  {
    if m > 0 {
      RoundsWon(call, m - 1);
      RoundCounts(call, m - 1);
    }
  }

  lemma {:induction false} RoundsBound(call: Call, m: nat)
    requires m <= |call.rounds| && forall k :: 0 <= k < m ==> PlansSome(call.rounds[k])
    ensures RoundsNumber(Sent, call, m) <= if m == 0 then 0 else CountOf(call) + 2 * m - 1
    ensures RoundsNumber(Tried, call, m) <= if m == 0 then 0 else CountOf(call) + m - 1
  {
    if m > 0 {
      RoundsBound(call, m - 1);
      RoundCounts(call, m - 1);
    }
  }

  lemma {:induction false} EndsHere(call: Call, k: nat)
    requires call.template.Some? && k < |call.rounds| && RoundEnds(call, k).Some?
    requires FirstEnd(call, 0) == FirstEnd(call, k)
    ensures OutcomeOf(call) == RoundEnds(call, k).value && Begun(call) == k + 1
    ensures OfferCount(call) == OffersAfter(call, k)
    ensures forall c :: CallNumber(c, call) == RoundsNumber(c, call, k) + RoundNumber(c, call, k)
  {
  }

  lemma {:induction false} NothingBegun(call: Call)
    requires call.template.None?
    ensures OutcomeOf(call) == MissingTemplate && Offers(call, OfferCount(call)) == []
    ensures forall c :: CallNumber(c, call) == 0
  {
  }

  lemma {:induction false} EndsNowhere(call: Call)
    requires call.template.Some? && FirstEnd(call, 0) == |call.rounds|
    ensures OutcomeOf(call) == RetriesExhausted && Begun(call) == |call.rounds|
    ensures OfferCount(call) == if Pool(call.mode).Some? then |call.rounds| else 0
  {
  }

  lemma {:induction false} LastBegun(call: Call)
    ensures QuietBefore(call, Begun(call))
    ensures var n := Begun(call);
            && (OutcomeOf(call) == DraftEscaped <==> n > 0 && RoundEnds(call, n - 1) == Some(DraftEscaped))
            && (OutcomeOf(call).Generated? <==> n > 0 && Generates(RoundEnds(call, n - 1)))
  {
  }

  lemma {:induction false} LastBegunLost(call: Call, n: nat)
    requires n == Begun(call)
    ensures QuietBefore(call, n)
    ensures One(n > 0 && RoundEnds(call, n - 1) == Some(DraftEscaped)) == One(OutcomeOf(call) == DraftEscaped)
    ensures One(n > 0 && Generates(RoundEnds(call, n - 1))) == One(OutcomeOf(call).Generated?)
  {
    LastBegun(call);
  }

  lemma {:induction false} CallBalance(call: Call)
    requires PlansWell(call)
    ensures CallNumber(Tried, call) ==
              CallNumber(Won, call) + CallNumber(Failed, call) + CallNumber(Strayed, call)
              + CallNumber(Doubled, call) + One(OutcomeOf(call) == DraftEscaped)
  {
    LastBegunLost(call, Begun(call));
    RoundsBalance(call, Begun(call));
  }

  lemma {:induction false} CallWon(call: Call)
    requires PlansWell(call)
    ensures CallNumber(Won, call) == One(OutcomeOf(call).Generated?)
  {
    LastBegunLost(call, Begun(call));
    RoundsWon(call, Begun(call));
  }

  lemma {:induction false} CallBound(call: Call)
    requires PlansWell(call)
    ensures CallNumber(Sent, call) <= RequestBound(call) && CallNumber(Tried, call) <= AttemptBound(call)
  {
    RoundsBound(call, Begun(call));
  }

  /** One call: every attempt it makes ends in exactly one counter, unless an exception escapes from a draft; it
      succeeds exactly when it generates; and it stays within its bounds. */
  lemma {:induction false} CallCounts(call: Call)
    requires PlansWell(call)
    ensures CallNumber(Tried, call) ==
              CallNumber(Won, call) + CallNumber(Failed, call) + CallNumber(Strayed, call)
              + CallNumber(Doubled, call) + One(Leaks(call))
    ensures CallNumber(Won, call) == One(OutcomeOf(call).Generated?)
    ensures CallNumber(Sent, call) <= RequestBound(call) && CallNumber(Tried, call) <= AttemptBound(call)
  {
    OutcomeExactly(call, DraftEscaped);
    CallBalance(call);
    CallWon(call);
    CallBound(call);
  }

  // ---------------------------------------------------------------- the generator

  class AttackGenerator {
    var requests: nat
    var attempts: nat
    var successes: nat
    var failures: nat
    var outOfScope: nat
    var duplicates: nat
    var reasons: multiset<string>

    function Count(c: Counter): nat
      reads this
    {
      match c
      case Sent => requests
      case Tried => attempts
      case Won => successes
      case Failed => failures
      case Strayed => outOfScope
      case Doubled => duplicates
    }

    /** Attempts that no counter accounts for. */
    function Gap(): int
      reads this
    {
      attempts - (successes + failures + outOfScope + duplicates)
    }

    /** Every attempt that failed or was rejected is explained by one recorded reason. */
    predicate Explained()
      reads this
    {
      |reasons| == failures + outOfScope + duplicates
    }

    constructor ()
      ensures Explained() && Gap() == 0 && forall c :: Count(c) == 0
    {
      requests, attempts, successes, failures, outOfScope, duplicates := 0, 0, 0, 0, 0, 0;
      reasons := multiset{};
    }

    /** The telemetry record is built exactly when its counts are consistent. */
    method Telemetry() returns (valid: bool)
      ensures valid <==> Gap() == 0
    {
      valid := attempts == successes + failures + outOfScope + duplicates;
    }

    method RecordRejection(reason: string)
      modifies this
      ensures forall c :: Count(c) == old(Count(c)) + One(c == if reason == DUPLICATE then Doubled else Strayed)
      ensures reasons == old(reasons) + multiset{reason} && (old(Explained()) ==> Explained())
    {
      if reason == DUPLICATE {
        duplicates := duplicates + 1;
      } else {
        outOfScope := outOfScope + 1;
      }
      reasons := reasons + multiset{reason};
    }

    method RecordFailure(error: string)
      modifies this
      ensures forall c :: Count(c) == old(Count(c)) + One(c.Failed?)
      ensures reasons == old(reasons) + multiset{error} && (old(Explained()) ==> Explained())
    {
      failures := failures + 1;
      reasons := reasons + multiset{error};
    }

    /** The shape checks on a draft, in the order the generator makes them. */
    method ReadDraft(draft: Draft) returns (error: Option<string>)
      ensures error.None? <==> Readable(draft)
    {
      if !draft.isObject {
        return Some("invalid_candidate:TypeError");
      }
      if draft.variation.None? || Text.Strip(draft.variation.value) == "" {
        return Some("invalid_candidate:ValueError");
      }
      if draft.strategy.None? || Text.Strip(draft.strategy.value) == "" {
        return Some("invalid_candidate:ValueError");
      }
      return None;
    }

    /** One attempt.  It ends in exactly one counter, unless an exception escapes. */
    method EvaluateDraft(draft: Draft, template: string) returns (verdict: Verdict)
      modifies this
      ensures forall c :: Count(c) == old(Count(c)) + One(Counts(c, draft))
      ensures ReasonOf(draft).Some? ==> reasons == old(reasons) + multiset{ReasonOf(draft).value}
      ensures old(Explained()) ==> Explained()
      ensures Wins(draft) ==> verdict == Chosen(VariationOf(draft, template))
      ensures Escapes(draft) ==> verdict == Escape
      ensures Exhausts(draft) ==> verdict == BudgetError
      ensures !Decides(draft) ==> verdict == NotChosen(RejectedOf(draft, template))
    {
      attempts := attempts + 1;
      var error := ReadDraft(draft);
      if error.Some? {
        RecordFailure(error.value);
        return NotChosen(None);
      }
      verdict := EvaluateVariation(draft, Text.Normalize(draft.variation.value, template));
    }

    /** The checks on a draft that has the right shape. */
    method EvaluateVariation(draft: Draft, variation: string) returns (verdict: Verdict)
      requires Readable(draft)
      modifies this
      ensures forall c :: Count(c) == old(Count(c)) + One(!c.Tried? && Counts(c, draft))
      ensures ReasonOf(draft).Some? ==> reasons == old(reasons) + multiset{ReasonOf(draft).value}
      ensures old(Explained()) ==> Explained()
      ensures Wins(draft) ==> verdict == Chosen(variation)
      ensures Escapes(draft) ==> verdict == Escape
      ensures Exhausts(draft) ==> verdict == BudgetError
      ensures !Decides(draft) ==> verdict == NotChosen(if ReasonOf(draft).Some? then Some(variation) else None)
    {
      if draft.check.CheckRaises? {
        if !draft.check.caught {
          return Escape;
        }
        RecordFailure(draft.check.error);
        return NotChosen(None);
      }
      if draft.check.Rejects? {
        RecordRejection(draft.check.reason);
        return NotChosen(Some(variation));
      }
      verdict := Classify(draft.classifier);
      if verdict != NotChosen(None) || !draft.classifier.Intent? || !draft.classifier.fits {
        return;
      }
      verdict := Settle(draft.judge, variation);
    }

    /** The end of an attempt whose candidate could be built. */
    method Settle(judge: Judge, variation: string) returns (verdict: Verdict)
      modifies this
      ensures forall c :: Count(c) == old(Count(c)) +
                match judge
                case Accepts => One(c.Won?)
                case Refuses(reason) => One(c == if reason == DUPLICATE then Doubled else Strayed)
                case JudgeRaises => 0
      ensures judge.Refuses? ==> reasons == old(reasons) + multiset{judge.reason}
      ensures old(Explained()) ==> Explained()
      ensures verdict == match judge
                         case JudgeRaises => Escape
                         case Refuses(_) => NotChosen(Some(variation))
                         case Accepts => Chosen(variation)
    {
      match judge
      case JudgeRaises => return Escape;
      case Refuses(reason) =>
        RecordRejection(reason);
        return NotChosen(Some(variation));
      case Accepts =>
        successes := successes + 1;
        return Chosen(variation);
    }

    /** The classifier's part of an attempt: the request, and the failure if it yields no candidate. */
    method Classify(classifier: Classifier) returns (verdict: Verdict)
      modifies this
      ensures forall c :: Count(c) == old(Count(c)) +
                match classifier
                case OverBudget => One(c.Failed?)
                case CallRaises(caught, called, _) => One((called && c.Sent?) || (caught && c.Failed?))
                case Intent(fits) => One(c.Sent? || (!fits && c.Failed?))
      ensures classifier == Intent(true) ==> reasons == old(reasons)
      ensures old(Explained()) ==> Explained()
      ensures verdict == match classifier
                         case OverBudget => BudgetError
                         case CallRaises(caught, _, _) => if caught then NotChosen(None) else Escape
                         case Intent(_) => NotChosen(None)
    {
      verdict := NotChosen(None);
      match classifier
      case OverBudget =>
        RecordFailure("invalid_candidate:RequestBudgetError");
        verdict := BudgetError;
      case CallRaises(caught, called, error) =>
        if called {
          requests := requests + 1;
        }
        if caught {
          RecordFailure(error);
        } else {
          verdict := Escape;
        }
      case Intent(fits) =>
        requests := requests + 1;
        if !fits {
          RecordFailure("invalid_candidate:ValidationError");
        }
    }

    /** The loop over the drafts of one reply: it stops at the first decision. */
    method EvaluateDrafts(drafts: seq<Draft>, template: string, used: set<string>)
      returns (verdict: Verdict, usedNow: set<string>)
      modifies this
      ensures forall c :: Count(c) == old(Count(c)) + Number(c, Evaluated(drafts))
      ensures old(Explained()) ==> Explained()
      ensures var k := FirstDecision(drafts, 0);
              && (k == |drafts| ==> verdict.NotChosen? && usedNow == UsedAfter(drafts, template, used))
              && (k < |drafts| && Wins(drafts[k]) ==> verdict == Chosen(VariationOf(drafts[k], template)))
              && (k < |drafts| && Escapes(drafts[k]) ==> verdict == Escape)
              && (k < |drafts| && Exhausts(drafts[k]) ==> verdict == BudgetError)
    {
      usedNow := used;
      for i := 0 to |drafts|
        invariant forall c :: Count(c) == old(Count(c)) + Number(c, drafts[..i])
        invariant old(Explained()) ==> Explained()
        invariant FirstDecision(drafts, 0) == FirstDecision(drafts, i)
        invariant usedNow == UsedAfter(drafts[..i], template, used)
      {
        assert drafts[..i + 1][..i] == drafts[..i];
        verdict := EvaluateDraft(drafts[i], template);
        if !verdict.NotChosen? {
          return;
        }
        usedNow := Added(usedNow, verdict.rejected);
      }
      assert drafts[..|drafts|] == drafts;
      return NotChosen(None), usedNow;
    }

    /** The body of the retry loop once the request is built. */
    method PlayRound(reply: Reply, count: nat, template: string, used: set<string>)
      returns (ended: Option<Outcome>, usedNow: set<string>)
      requires count > 0
      modifies this
      ensures ended == ReplyEnds(reply, count, template)
      ensures ended.None? ==> usedNow == UsedAfter(Selected(reply, count), template, used)
      ensures forall c :: Count(c) == old(Count(c)) + ReplyNumber(c, reply, count)
      ensures old(Explained()) ==> Explained()
    {
      usedNow := used;
      if reply.NoBudget? {
        return Some(BudgetExhausted), used;
      }
      requests := requests + 1;
      if reply.ReplyRaises? && !reply.caught {
        return Some(GenerationBroke), used;
      }
      if reply.ReplyRaises? || reply.drafts == [] {
        attempts := attempts + 1;
        RecordFailure(if reply.ReplyRaises? then reply.error else "invalid_generator_response:ValueError");
        return None, used;
      }
      var verdict;
      verdict, usedNow := EvaluateDrafts(Selected(reply, count), template, used);
      match verdict
      case Chosen(variation) => return Some(Generated(variation)), usedNow;
      case BudgetError => return Some(BudgetExhausted), usedNow;
      case Escape => return Some(DraftEscaped), usedNow;
      case NotChosen(_) => return None, usedNow;
    }

    /** What comes before the request: the plan, and in constrained mode the enum to offer. */
    method BuildRequest(call: Call, k: nat, used: set<string>, offers: seq<seq<string>>)
      returns (ended: Option<Outcome>, count: nat, offersNow: seq<seq<string>>)
      requires k < |call.rounds| && used == UsedBefore(call, k)
      requires PlansSome(call.rounds[k]) && offers == Offers(call, if Pool(call.mode).Some? then k else 0)
      ensures ended.Some? ==> RoundEnds(call, k) == ended
      ensures ended.None? ==>
                && RoundEnds(call, k) == ReplyEnds(call.rounds[k].reply, count, Template(call))
                && count == Limit(call, k) == Asked(call.rounds[k].plan, k, call.mode, used) > 0
      ensures offersNow == Offers(call, OffersAfter(call, k))
      ensures ended.None? && Pool(call.mode).Some? ==> offersNow[k] == Remaining(Pool(call.mode).value, used) != []
      ensures ended.Some? ==> ended == Some(PlanBroke) || ended == Some(EnumMissing) || ended == Some(PoolExhausted)
    {
      LimitIsAsked(call, k);
      ended, count, offersNow := None, 0, offers;
      var plan := call.rounds[k].plan;
      if plan.PlanRaises? {
        ended := Some(PlanBroke);
        return;
      }
      count := if k == 0 then plan.count else 1;
      if call.mode.Constrained? {
        if call.mode.pool.None? {
          ended := Some(EnumMissing);
          return;
        }
        var remaining := Remaining(call.mode.pool.value, used);
        if remaining == [] {
          ended := Some(PoolExhausted);
          return;
        }
        count := Least(count, |remaining|);
        offersNow := offers + [remaining];
      }
    }

    /** One turn of the retry loop. */
    method PlayRetry(call: Call, k: nat, used: set<string>, offers: seq<seq<string>>)
      returns (ended: Option<Outcome>, usedNow: set<string>, offersNow: seq<seq<string>>)
      requires k < |call.rounds| && call.template.Some? && used == UsedBefore(call, k)
      requires PlansSome(call.rounds[k]) && offers == Offers(call, if Pool(call.mode).Some? then k else 0)
      modifies this
      ensures ended == RoundEnds(call, k)
      ensures offersNow == Offers(call, OffersAfter(call, k))
      ensures ended.None? ==> usedNow == UsedAfter(SelectedAt(call, k), Template(call), used)
      ensures forall c :: Count(c) == old(Count(c)) + RoundNumber(c, call, k)
      ensures old(Explained()) ==> Explained()
    {
      var count;
      ended, count, offersNow := BuildRequest(call, k, used, offers);
      usedNow := used;
      if ended.None? {
        ended, usedNow := PlayRound(call.rounds[k].reply, count, call.template.value, used);
      }
    }

    /** The retry loop. */
    method PlayRetries(call: Call) returns (outcome: Outcome, offers: seq<seq<string>>)
      requires call.template.Some? && PlansWell(call)
      modifies this
      ensures outcome == OutcomeOf(call)
      ensures forall c :: Count(c) == old(Count(c)) + CallNumber(c, call)
      ensures old(Explained()) ==> Explained()
      ensures offers == Offers(call, OfferCount(call))
    {
      offers := [];
      var used := call.history;
      for k := 0 to |call.rounds|
        invariant used == UsedBefore(call, k) && FirstEnd(call, 0) == FirstEnd(call, k)
        invariant forall c :: Count(c) == old(Count(c)) + RoundsNumber(c, call, k)
        invariant old(Explained()) ==> Explained()
        invariant offers == Offers(call, if Pool(call.mode).Some? then k else 0)
      {
        assert PlansSome(call.rounds[k]);
        var ended;
        ended, used, offers := PlayRetry(call, k, used, offers);
        NextUsed(call, k);
        if ended.Some? {
          EndsHere(call, k);
          return ended.value, offers;
        }
      }
      EndsNowhere(call);
      return RetriesExhausted, offers;
    }

    /** One call.  The enums offered in constrained mode are returned for what is proved about them: they are not
        empty, keep the pool's order, and hold exactly the variations that neither the history nor an earlier retry
        has used up. */
    method Generate(call: Call) returns (outcome: Outcome, offers: seq<seq<string>>)
      requires PlansWell(call)
      modifies this
      ensures outcome == OutcomeOf(call) && MeetsOnly(call, outcome)
      ensures forall c :: Count(c) == old(Count(c)) + CallNumber(c, call)
      ensures Gap() == old(Gap()) + One(Leaks(call)) && (old(Explained()) ==> Explained())
      ensures successes == old(successes) + One(outcome.Generated?)
      ensures requests - old(requests) <= RequestBound(call) && attempts - old(attempts) <= AttemptBound(call)
      ensures offers == Offers(call, OfferCount(call))
      ensures EveryOfferFresh(call, offers)
    {
      OutcomesExactly(call);
      EveryOfferIsFresh(call);
      CallCounts(call);
      if call.template.None? {
        NothingBegun(call);
        return MissingTemplate, [];
      }
      outcome, offers := PlayRetries(call);
    }
  }

  /** The number of candidates the first plan asks for. */
  function CountOf(call: Call): nat {
    if call.rounds != [] && call.rounds[0].plan.Planned? then call.rounds[0].plan.count else 1
  }

  /** One request and one classification for each candidate first, then one of each for each retry. */
  function RequestBound(call: Call): nat {
    if call.rounds == [] then 0 else 1 + CountOf(call) + 2 * (|call.rounds| - 1)
  }

  function AttemptBound(call: Call): nat {
    if call.rounds == [] then 0 else CountOf(call) + |call.rounds| - 1
  }

  ghost function LeakCount(calls: seq<Call>): nat {
    if calls == [] then 0 else LeakCount(calls[..|calls| - 1]) + One(Leaks(calls[|calls| - 1]))
  }

  lemma {:induction false} NoLeaks(calls: seq<Call>)
    ensures LeakCount(calls) == 0 <==> forall i :: 0 <= i < |calls| ==> !Leaks(calls[i])
  {
    if calls != [] {
      var n := |calls| - 1;
      NoLeaks(calls[..n]);
      assert forall i :: 0 <= i < n ==> calls[..n][i] == calls[i];
    }
  }

  lemma {:induction false} OneMoreCall(calls: seq<Call>, n: nat)
    requires n < |calls|
    ensures LeakCount(calls[..n + 1]) == LeakCount(calls[..n]) + One(Leaks(calls[n]))
  {
    assert calls[..n + 1][..n] == calls[..n];
  }

  /** From a fresh generator, whatever calls are made, the telemetry is valid at the end exactly when no call reached
      a draft whose exception escaped. */
  method Campaign(calls: seq<Call>) returns (valid: bool)
    requires forall i :: 0 <= i < |calls| ==> PlansWell(calls[i])
    ensures valid <==> forall i :: 0 <= i < |calls| ==> !Leaks(calls[i])
  {
    var generator := new AttackGenerator();
    for n := 0 to |calls|
      invariant generator.Gap() == LeakCount(calls[..n])
    {
      OneMoreCall(calls, n);
      var _, _ := generator.Generate(calls[n]);
    }
    assert calls[..|calls|] == calls;
    NoLeaks(calls);
    valid := generator.Telemetry();
  }
}
