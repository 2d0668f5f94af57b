/** The deterministic policy that combines the classifier's and the verifier's answers into a routing decision. */
module Routing {
  import opened Wrappers

  datatype Status = Resolved | Ambiguous | NoMatch | Failed
  datatype Verdict = Accept | Reject | Unsure
  datatype Risk = Execution | Setting | Query

  datatype Classification = Classification(primary: Option<string>, alternatives: seq<string>, status: Status)
  datatype Verification = Verification(verdict: Verdict, corrected: Option<string>, reason: string)

  datatype Source =
    | ClassifierVerified | VerifierCorrected | Conflict | ClassifierNoMatch | ClassifierAmbiguous
    | InvalidClassifierOutput | InvalidVerifierOutput | ClassifierFailed | VerifierFailed

  datatype Resolution = Resolution(
    status: Status, workflow: Option<string>, candidates: seq<string>, source: Source, reason: string)

  /** The environment switches. */
  datatype Settings = Settings(verifierEnabled: bool, fallback: bool, autoCorrection: bool)

  /** The workflow types of the manifest; global workflows are no valid choice. */
  type Catalog = map<string, string>

  predicate Valid(c: Catalog, id: string) {
    id in c && c[id] != "global"
  }

  function RiskClass(c: Catalog, id: string): Option<Risk> {
    if id == "" || id !in c then None
    else if c[id] == "transfer" then Some(Execution)
    else if c[id] == "setting_change" then Some(Setting)
    else if c[id] == "inquiry" then Some(Query)
    else None
  }

  // ---------------------------------------------------------------- merging candidates

  function AsList(o: Option<string>): seq<string> {
    if o.Some? then [o.value] else []
  }

  /** The valid ids of a list, each at its first occurrence. */
  function Merged(c: Catalog, items: seq<string>): seq<string> {
    if items == [] then []
    else
      var before, last := Merged(c, items[..|items| - 1]), items[|items| - 1];
      if Valid(c, last) && last !in before then before + [last] else before
  }

  lemma {:induction false} MergedStep(c: Catalog, items: seq<string>, w: string)
    ensures Merged(c, items + [w]) ==
            if Valid(c, w) && w !in Merged(c, items) then Merged(c, items) + [w] else Merged(c, items)
  {
    assert (items + [w])[..|items|] == items;
  }

  method MergeValidCandidates(c: Catalog, values: seq<seq<string>>) returns (candidates: seq<string>)
    ensures candidates == Merged(c, Flatten(values))
  {
    candidates := [];
    for i := 0 to |values|
      invariant candidates == Merged(c, Flatten(values[..i]))
    {
      candidates := MergeList(c, candidates, values[i], Flatten(values[..i]));
      assert values[..i + 1][..i] == values[..i];
    }
    assert values[..|values|] == values;
  }

  /** The inner loop, over the ids of one value. */
  method MergeList(c: Catalog, before: seq<string>, items: seq<string>, ghost seen: seq<string>)
    returns (candidates: seq<string>)
    requires before == Merged(c, seen)
    ensures candidates == Merged(c, seen + items)
  {
    candidates := before;
    assert seen + items[..0] == seen;
    for j := 0 to |items|
      invariant candidates == Merged(c, seen + items[..j])
    {
      MergedStep(c, seen + items[..j], items[j]);
      assert seen + items[..j + 1] == seen + items[..j] + [items[j]];
      if Valid(c, items[j]) && items[j] !in candidates {
        candidates := candidates + [items[j]];
      }
    }
    assert items[..|items|] == items;
  }

  function Flatten(values: seq<seq<string>>): seq<string> {
    if values == [] then [] else Flatten(values[..|values| - 1]) + values[|values| - 1]
  }

  /** Merging keeps exactly the valid ids, each once. */
  lemma {:induction false} MergedExactly(c: Catalog, items: seq<string>)
    ensures forall w :: w in Merged(c, items) <==> w in items && Valid(c, w)
    ensures forall i, j :: 0 <= i < j < |Merged(c, items)| ==> Merged(c, items)[i] != Merged(c, items)[j]
  {
    if items != [] {
      var n := |items| - 1;
      MergedExactly(c, items[..n]);
      assert items == items[..n] + [items[n]];
    }
  }

  /** And in the order of first occurrence: an id merged from a prefix stands before every id that is not. */
  lemma {:induction false} MergedInOrder(c: Catalog, items: seq<string>, k: nat)
    requires k <= |items|
    ensures Merged(c, items[..k]) <= Merged(c, items)
    decreases |items| - k
  {
    if k < |items| {
      MergedInOrder(c, items, k + 1);
      assert items[..k + 1][..k] == items[..k];
    } else {
      assert items[..k] == items;
    }
  }

  // ---------------------------------------------------------------- the policy

  function AskUser(c: Catalog, cl: Classification, v: Verification, source: Source): Resolution {
    Resolution(Ambiguous, None, Merged(c, AsList(cl.primary) + cl.alternatives + AsList(v.corrected)), source, v.reason)
  }

  predicate Insufficient(reason: string) {
    reason == "INSUFFICIENT_EVIDENCE" || reason == "MULTIPLE_ACTIONS"
  }

  function Resolve(c: Catalog, s: Settings, cl: Classification, v: Verification): Resolution {
    var corrected := if v.corrected.Some? && !Valid(c, v.corrected.value) then None else v.corrected;
    if cl.primary.Some? && !Valid(c, cl.primary.value) then
      Resolution(Failed, None, [], InvalidClassifierOutput, "INVALID_CLASSIFIER_OUTPUT")
    else if cl.status == NoMatch then
      if v.verdict == Reject && corrected.Some? then
        Resolution(Ambiguous, None, [corrected.value], Conflict, v.reason)
      else Resolution(NoMatch, None, [], ClassifierNoMatch, "NO_MATCH")
    else if cl.status == Ambiguous then AskUser(c, cl, v, ClassifierAmbiguous)
    else if v.verdict == Accept then Resolution(Resolved, cl.primary, [], ClassifierVerified, "VALID")
    else if v.verdict == Unsure then AskUser(c, cl, v, Conflict)
    else if corrected.None? then AskUser(c, cl, v, Conflict)
    else if corrected == cl.primary then
      Resolution(Failed, None, [], InvalidVerifierOutput, "INVALID_VERIFIER_OUTPUT")
    else if s.autoCorrection && cl.primary.Some? && RiskClass(c, cl.primary.value) == Some(Query)
            && RiskClass(c, corrected.value) == Some(Query) && !Insufficient(v.reason) then
      Resolution(Resolved, corrected, [], VerifierCorrected, v.reason)
    else AskUser(c, cl, v, Conflict)
  }

  // ---------------------------------------------------------------- what the policy guarantees

  /** The statuses a classifier can answer. */
  predicate Answered(cl: Classification) {
    cl.status != Failed
  }

  /** Both agree on w: the classifier resolved to it and the verifier accepted. */
  predicate Agreed(cl: Classification, v: Verification, w: string) {
    cl.status == Resolved && cl.primary == Some(w) && v.verdict == Accept
  }

  /** The verifier replaced one query by another, with enough evidence. */
  predicate QuerySwap(c: Catalog, s: Settings, cl: Classification, v: Verification, w: string) {
    && s.autoCorrection && cl.status == Resolved && cl.primary.Some? && v.verdict == Reject
    && v.corrected == Some(w) && v.corrected != cl.primary && !Insufficient(v.reason)
    && RiskClass(c, cl.primary.value) == Some(Query) && RiskClass(c, w) == Some(Query)
  }

  predicate Settled(c: Catalog, s: Settings, cl: Classification, v: Verification, w: string) {
    Valid(c, w) && (Agreed(cl, v, w) || QuerySwap(c, s, cl, v, w))
  }

  predicate ResolvedTo(r: Resolution, w: string) {
    r.status == Resolved && r.workflow == Some(w)
  }

  predicate Names(c: Catalog, o: Option<string>) {
    o.Some? && Valid(c, o.value)
  }

  /** The classifier named a workflow the manifest does not have, or the verifier rejected a workflow only to name
      it again. */
  predicate Contradictory(c: Catalog, cl: Classification, v: Verification) {
    || (cl.primary.Some? && !Valid(c, cl.primary.value))
    || (cl.status == Resolved && v.verdict == Reject && cl.primary.Some? && v.corrected == cl.primary)
  }

  /** The ids a user may be asked about, in the order they were named: all of them, or the correction alone when the
      classifier found no match. */
  function Named(cl: Classification, v: Verification): seq<string> {
    if cl.status == NoMatch then AsList(v.corrected)
    else AsList(cl.primary) + cl.alternatives + AsList(v.corrected)
  }

  /** Where an id is named first. */
  function FirstAt(items: seq<string>, w: string): nat
    requires w in items
  {
    if w in items[..|items| - 1] then FirstAt(items[..|items| - 1], w) else |items| - 1
  }

  lemma {:induction false} FirstAtIsFirst(items: seq<string>, w: string)
    requires w in items
    ensures FirstAt(items, w) < |items| && items[FirstAt(items, w)] == w
    ensures forall i :: 0 <= i < FirstAt(items, w) ==> items[i] != w
  {
    var n := |items| - 1;
    if w in items[..n] {
      FirstAtIsFirst(items[..n], w);
    } else {
      assert items == items[..n] + [items[n]];
      assert forall i :: 0 <= i < n ==> items[..n][i] == items[i];
    }
  }

  /** Candidates stand in the order of their first occurrence. */
  predicate InOrder(items: seq<string>, cs: seq<string>) {
    && (forall i :: 0 <= i < |cs| ==> cs[i] in items)
    && (forall i, j :: 0 <= i < j < |cs| ==> FirstAt(items, cs[i]) < FirstAt(items, cs[j]))
  }

  lemma {:induction false} MergedByFirst(c: Catalog, items: seq<string>)
    ensures InOrder(items, Merged(c, items))
  {
    if items != [] {
      var n := |items| - 1;
      var before, cs := items[..n], Merged(c, items[..n]);
      MergedByFirst(c, before);
      MergedExactly(c, before);
      assert items == before + [items[n]];
      forall i | 0 <= i < |cs| ensures FirstAt(items, cs[i]) == FirstAt(before, cs[i]) < n {
        FirstAtIsFirst(before, cs[i]);
      }
    }
  }

  predicate Choices(c: Catalog, cs: seq<string>) {
    (forall w :: w in cs ==> Valid(c, w)) && (forall i, j :: 0 <= i < j < |cs| ==> cs[i] != cs[j])
  }

  /** The policy resolves to w exactly when the two agree on it or the verifier swapped one query for another. */
  lemma {:induction false} ResolvedExactly(c: Catalog, s: Settings, cl: Classification, v: Verification, w: string)
    requires Answered(cl)
    ensures ResolvedTo(Resolve(c, s, cl, v), w) <==> Settled(c, s, cl, v, w)
  {
  }

  lemma {:induction false} MergedOne(c: Catalog, w: string)
    requires Valid(c, w)
    ensures Merged(c, [w]) == [w]
  {
    assert [w][..0] == [];
  }

  lemma {:induction false} CandidatesAreMerged(c: Catalog, s: Settings, cl: Classification, v: Verification)
    requires Resolve(c, s, cl, v).status == Ambiguous
    ensures Resolve(c, s, cl, v).candidates == Merged(c, Named(cl, v))
  {
    if cl.status == NoMatch {
      MergedOne(c, v.corrected.value);
    }
  }

  ghost predicate AreChoices(c: Catalog, items: seq<string>, cs: seq<string>) {
    && Choices(c, cs) && InOrder(items, cs)
    && forall w :: w in cs <==> Valid(c, w) && w in items
  }

  lemma {:induction false} MergedAreChoices(c: Catalog, items: seq<string>)
    ensures AreChoices(c, items, Merged(c, items))
  {
    MergedExactly(c, items);
    MergedByFirst(c, items);
  }

  /** What the user is asked to choose from is everything valid that was named, free of repetitions, in the order in
      which it was first named. */
  lemma {:induction false} ChoicesExactly(c: Catalog, s: Settings, cl: Classification, v: Verification)
    requires Resolve(c, s, cl, v).status == Ambiguous
    ensures AreChoices(c, Named(cl, v), Resolve(c, s, cl, v).candidates)
  {
    CandidatesAreMerged(c, s, cl, v);
    MergedAreChoices(c, Named(cl, v));
  }

  /** The verifier objects to a classification that found no match and names a workflow. */
  predicate Proposed(c: Catalog, cl: Classification, v: Verification) {
    cl.status == NoMatch && v.verdict == Reject && Names(c, v.corrected)
  }

  predicate Swaps(c: Catalog, s: Settings, cl: Classification, v: Verification) {
    v.corrected.Some? && QuerySwap(c, s, cl, v, v.corrected.value)
  }

  /** The user has to choose: the classifier was unsure, the verifier does not go along with its choice, or the
      verifier proposes a workflow where the classifier found none. */
  predicate Undecided(c: Catalog, s: Settings, cl: Classification, v: Verification) {
    && !Contradictory(c, cl, v)
    && match cl.status
       case Ambiguous => true
       case Resolved => v.verdict != Accept && !Swaps(c, s, cl, v)
       case _ => Proposed(c, cl, v)
  }

  /** What two answers lead to: each status exactly, and what comes with it. */
  ghost predicate Decision(c: Catalog, s: Settings, cl: Classification, v: Verification, r: Resolution) {
    && (r.status == Failed <==> Contradictory(c, cl, v))
    && (r.status == NoMatch <==> cl.status == NoMatch && !Contradictory(c, cl, v) && !Proposed(c, cl, v))
    && (r.status == Ambiguous <==> Undecided(c, s, cl, v))
    && (forall w :: ResolvedTo(r, w) <==> Settled(c, s, cl, v, w))
    && (r.status == Ambiguous ==> r.workflow.None? && AreChoices(c, Named(cl, v), r.candidates))
    && (r.status != Ambiguous ==> r.candidates == [])
    && (r.status == Failed || r.status == NoMatch ==> r.workflow.None?)
    && r.source == SourceOf(c, cl, v, r.status)
    && r.reason == match r.source
                   case ClassifierVerified => "VALID"
                   case ClassifierNoMatch => "NO_MATCH"
                   case InvalidClassifierOutput => "INVALID_CLASSIFIER_OUTPUT"
                   case InvalidVerifierOutput => "INVALID_VERIFIER_OUTPUT"
                   case _ => v.reason
  }

  /** Who is named as the source of a decision. */
  function SourceOf(c: Catalog, cl: Classification, v: Verification, status: Status): Source {
    match status
    case Resolved => if v.verdict == Accept then ClassifierVerified else VerifierCorrected
    case NoMatch => ClassifierNoMatch
    case Ambiguous => if cl.status == Ambiguous then ClassifierAmbiguous else Conflict
    case Failed =>
      if cl.primary.Some? && !Valid(c, cl.primary.value) then InvalidClassifierOutput else InvalidVerifierOutput
  }

  /** The policy decides exactly so. */
  lemma {:induction false} DecidedExactly(c: Catalog, s: Settings, cl: Classification, v: Verification)
    requires Answered(cl)
    ensures Decision(c, s, cl, v, Resolve(c, s, cl, v))
  {
    var r := Resolve(c, s, cl, v);
    forall w ensures ResolvedTo(r, w) <==> Settled(c, s, cl, v, w) {
      ResolvedExactly(c, s, cl, v, w);
    }
    if r.status == Ambiguous {
      ChoicesExactly(c, s, cl, v);
    }
  }

  /** A transfer or a setting is resolved only when both agree on it. */
  lemma {:induction false} MoneyMovesOnlyByAgreement(
    c: Catalog, s: Settings, cl: Classification, v: Verification, w: string)
    requires Answered(cl) && ResolvedTo(Resolve(c, s, cl, v), w) && RiskClass(c, w) != Some(Query)
    ensures Agreed(cl, v, w)
  {
    ResolvedExactly(c, s, cl, v, w);
  }

  /** Without a primary id a resolved decision names nothing. */
  lemma {:induction false} ResolvedToNothing(c: Catalog, s: Settings)
    ensures var r := Resolve(c, s, Classification(None, [], Resolved), Verification(Accept, None, "VALID"));
            r.status == Resolved && r.workflow.None?
  {
  }

  // ---------------------------------------------------------------- the orchestrator

  /** What stands for the verifier's answer when it is switched off. */
  const UNVERIFIED := Verification(Accept, None, "VALID")

  /** The classifier settled on w. */
  predicate Claims(classified: Option<Classification>, w: string) {
    classified.Some? && classified.value.status == Resolved && classified.value.primary == Some(w)
  }

  /** The policy has two answers to combine. */
  predicate Heard(classified: Option<Classification>, verified: Option<Verification>) {
    classified.Some? && verified.Some?
  }

  /** The verifier's answer, or what stands for it. */
  function Answer(s: Settings, verified: Option<Verification>): Option<Verification> {
    if s.verifierEnabled then verified else Some(UNVERIFIED)
  }

  /** The classifier settled on a workflow, and that is trusted although the verifier call raised. */
  predicate Trusted(s: Settings, cl: Classification) {
    s.fallback && cl.status == Resolved && cl.primary.Some?
  }

  /** Classification, verification and resolution; None stands for a classifier or verifier call that raised.

      With the verifier on and failing closed, a workflow is resolved exactly when both agreed on it or one query
      replaced another.  Whatever the switches, a resolved decision names a valid workflow except in exactly two
      cases: the classifier resolved without a primary id, or the verifier failed open on an invalid one. */
  method RouteWorkflow(c: Catalog, s: Settings, classified: Option<Classification>, verified: Option<Verification>)
    returns (r: Resolution)
    requires classified.Some? ==> Answered(classified.value)
    // Both answers, or what stands for the verifier's: each status exactly, whatever the switches.
    ensures classified.Some? && Answer(s, verified).Some? ==>
              Decision(c, s, classified.value, Answer(s, verified).value, r)
    // A call that raised.
    ensures classified.None? ==> r == Resolution(Failed, None, [], ClassifierFailed, "CLASSIFIER_UNAVAILABLE")
    ensures classified.Some? && Answer(s, verified).None? ==>
              var primary := classified.value.primary;
              r == if Trusted(s, classified.value)
                   then Resolution(Resolved, primary, [], ClassifierVerified, "VERIFIER_UNAVAILABLE")
                   else Resolution(Failed, None, AsList(primary), VerifierFailed, "VERIFIER_UNAVAILABLE")
    // What is resolved, with the verifier on and failing closed or having answered; failing open; switched off.
    ensures s.verifierEnabled && (!s.fallback || verified.Some?) ==> forall w :: ResolvedTo(r, w) <==>
              Heard(classified, verified) && Settled(c, s, classified.value, verified.value, w)
    ensures s.verifierEnabled && s.fallback && verified.None? ==>
              forall w :: ResolvedTo(r, w) <==> Claims(classified, w)
    ensures !s.verifierEnabled ==> forall w :: ResolvedTo(r, w) <==> Claims(classified, w) && Valid(c, w)
    ensures r.status == Resolved ==> classified.Some?
    ensures r.status == Resolved ==>
              var primary := classified.value.primary;
              Names(c, r.workflow) <==> primary.Some? && (s.verifierEnabled && verified.None? ==> Names(c, primary))
  {
    if classified.None? {
      return Resolution(Failed, None, [], ClassifierFailed, "CLASSIFIER_UNAVAILABLE");
    }
    var cl := classified.value;
    if s.verifierEnabled && verified.None? {
      if s.fallback && cl.status == Resolved && cl.primary.Some? {
        assert Claims(classified, cl.primary.value);
        return Resolution(Resolved, cl.primary, [], ClassifierVerified, "VERIFIER_UNAVAILABLE");
      }
      return Resolution(Failed, None, AsList(cl.primary), VerifierFailed, "VERIFIER_UNAVAILABLE");
    }
    var v := if s.verifierEnabled then verified.value else UNVERIFIED;
    DecidedExactly(c, s, cl, v);
    r := Resolve(c, s, cl, v);
  }
}
