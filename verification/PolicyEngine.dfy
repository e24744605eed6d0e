/** The policy data of models.rs, the condition evaluator and the two-track
    fold of engine.rs. */
module PolicyEngine {
  import opened Options

  datatype PolicyValue =
    | Float(number: real)
    | Str(text: string)
    | Bool(flag: bool)
    | List(items: seq<PolicyValue>)

  datatype Atom = Atom(attrKey: string, operator: string, value: PolicyValue)

  /** All four fields are optional; `CheckCondition` fixes their precedence. */
  datatype Condition = Condition(and: Conditions, or: Conditions, not: Option<Condition>, atom: Option<Atom>)

  datatype Conditions = Absent | Given(items: seq<Condition>)

  datatype Mode = Enforce | Shadow

  datatype Decision = Allow | Deny | Abstain

  datatype Policy = Policy(id: string, toolName: string, mode: Mode, condition: Condition)

  datatype Trace = Trace(policyId: string, matched: bool, mode: Mode)

  datatype EvaluationResult = EvaluationResult(
    decision: Decision, policyId: string,
    shadowDecision: Decision, shadowPolicyId: string,
    reason: string, version: string, traces: seq<Trace>)

  type Context = map<string, PolicyValue>

  predicate Contains(s: string, part: string) {
    exists i | 0 <= i <= |s| :: OccursAt(s, part, i)
  }

  predicate OccursAt(s: string, part: string, i: int) {
    0 <= i <= |s| - |part| && s[i..i + |part|] == part
  }

  predicate CheckAtom(atom: Atom, context: Context) {
    if atom.attrKey !in context then false
    else
      var actual := context[atom.attrKey];
      match atom.value
      case Float(b) =>
        actual.Float? && ((atom.operator == "gt" && actual.number > b) || (atom.operator == "lt" && actual.number < b))
      case Str(b) =>
        actual.Str? && ((atom.operator == "eq" && actual.text == b) ||
          (atom.operator == "contains" && Contains(actual.text, b)))
      case List(list) =>
        (atom.operator == "in" && actual in list) || (atom.operator == "not_in" && actual !in list)
      case Bool(_) => false
  }

  predicate CheckCondition(c: Condition, context: Context) {
    if c.atom.Some? then CheckAtom(c.atom.value, context)
    else if c.and.Given? then forall i :: 0 <= i < |c.and.items| ==> CheckCondition(c.and.items[i], context)
    else if c.or.Given? then exists i :: 0 <= i < |c.or.items| && CheckCondition(c.or.items[i], context)
    else if c.not.Some? then !CheckCondition(c.not.value, context)
    else false
  }

  predicate Matches(p: Policy, context: Context) {
    CheckCondition(p.condition, context)
  }

  // -------------------------------------------------------- what a track means

  function OfMode(policies: seq<Policy>, mode: Mode): seq<Policy> {
    if policies == [] then []
    else
      var rest, last := OfMode(policies[..|policies| - 1], mode), policies[|policies| - 1];
      if last.mode == mode then rest + [last] else rest
  }

  lemma OfModeSnoc(policies: seq<Policy>, p: Policy, mode: Mode)
    ensures OfMode(policies + [p], mode) ==
            if p.mode == mode then OfMode(policies, mode) + [p] else OfMode(policies, mode)
  {
  }

  predicate SomeMatch(policies: seq<Policy>, context: Context) {
    exists i :: 0 <= i < |policies| && Matches(policies[i], context)
  }

  function FirstMatch(policies: seq<Policy>, context: Context): (i: nat)
    requires SomeMatch(policies, context)
    ensures i < |policies| && Matches(policies[i], context)
    ensures forall j :: 0 <= j < i ==> !Matches(policies[j], context)
  {
    if Matches(policies[0], context) then 0
    else
      assert exists k :: 0 <= k < |policies[1..]| && Matches(policies[1..][k], context) by {
        var i :| 0 <= i < |policies| && Matches(policies[i], context);
        assert policies[1..][i - 1] == policies[i];
      }
      1 + FirstMatch(policies[1..], context)
  }

  /** The verdict of the policies of one mode: none, the first that matches, or
      else the last. */
  function Verdict(policies: seq<Policy>, context: Context): (Decision, string) {
    if policies == [] then (Abstain, "default")
    else if SomeMatch(policies, context) then (Deny, policies[FirstMatch(policies, context)].id)
    else (Allow, policies[|policies| - 1].id)
  }

  function TracesOf(policies: seq<Policy>, context: Context): seq<Trace> {
    if policies == [] then []
    else
      var last := policies[|policies| - 1];
      TracesOf(policies[..|policies| - 1], context) + [Trace(last.id, Matches(last, context), last.mode)]
  }

  lemma TracesSnoc(policies: seq<Policy>, p: Policy, context: Context)
    ensures TracesOf(policies + [p], context) ==
      TracesOf(policies, context) + [Trace(p.id, Matches(p, context), p.mode)]
  {
  }

  lemma FirstMatchUnique(policies: seq<Policy>, context: Context, i: nat)
    requires i < |policies| && Matches(policies[i], context)
    requires forall j :: 0 <= j < i ==> !Matches(policies[j], context)
    ensures SomeMatch(policies, context) && FirstMatch(policies, context) == i
  {
  }

  /** One more policy: a Deny stands, anything else is replaced. */
  lemma VerdictSnoc(policies: seq<Policy>, p: Policy, context: Context)
    ensures Verdict(policies + [p], context) ==
            if Verdict(policies, context).0 == Deny then Verdict(policies, context)
            else (if Matches(p, context) then Deny else Allow, p.id)
  {
    var all := policies + [p];
    assert forall i :: 0 <= i < |policies| ==> all[i] == policies[i];
    assert all[|policies|] == p;
    if SomeMatch(policies, context) {
      FirstMatchUnique(all, context, FirstMatch(policies, context));
    } else if Matches(p, context) {
      FirstMatchUnique(all, context, |policies|);
    }
  }

  /** One round of the loop: the policy's own track moves, the other stays. */
  lemma TrackSnoc(policies: seq<Policy>, p: Policy, mode: Mode, context: Context)
    ensures var before := Verdict(OfMode(policies, mode), context);
            Verdict(OfMode(policies + [p], mode), context) ==
            if p.mode != mode || before.0 == Deny then before
            else (if Matches(p, context) then Deny else Allow, p.id)
  {
    OfModeSnoc(policies, p, mode);
    if p.mode == mode {
      VerdictSnoc(OfMode(policies, mode), p, context);
    }
  }

  /** Deny if and only if some policy of the mode matches, Abstain if and only
      if there is none of that mode. */
  lemma {:induction false} TrackDecides(policies: seq<Policy>, mode: Mode, context: Context)
    ensures var decision := Verdict(OfMode(policies, mode), context).0;
            && (decision == Deny <==>
                  exists i :: 0 <= i < |policies| && policies[i].mode == mode && Matches(policies[i], context))
            && (decision == Abstain <==> forall i :: 0 <= i < |policies| ==> policies[i].mode != mode)
  {
    if policies != [] {
      var n := |policies| - 1;
      TrackDecides(policies[..n], mode, context);
      assert policies == policies[..n] + [policies[n]];
      TrackSnoc(policies[..n], policies[n], mode, context);
    }
  }

  // ------------------------------------------------------------------ evaluator

  /** Evaluation of the policies found for a tool, if any were. */
  function Decide(version: string, found: Option<seq<Policy>>, context: Context): EvaluationResult {
    match found
    case None => EvaluationResult(Deny, "system", Deny, "system", "No policies found", version, [])
    case Some(policies) =>
      var enforce := Verdict(OfMode(policies, Enforce), context);
      var shadow := Verdict(OfMode(policies, Shadow), context);
      EvaluationResult(enforce.0, enforce.1, shadow.0, shadow.1, "Tree evaluation complete", version,
                       TracesOf(policies, context))
  }

  function Lookup(byTool: map<string, seq<Policy>>, tool: string): Option<seq<Policy>> {
    if tool in byTool then Some(byTool[tool]) else None
  }

  /** One trace per policy, in order. */
  lemma {:induction false} TraceAt(policies: seq<Policy>, context: Context)
    ensures |TracesOf(policies, context)| == |policies|
    ensures var traces := TracesOf(policies, context);
            forall i :: 0 <= i < |policies| ==>
              traces[i] == Trace(policies[i].id, CheckCondition(policies[i].condition, context), policies[i].mode)
  {
    if policies != [] {
      TraceAt(policies[..|policies| - 1], context);
    }
  }

  predicate DeniedBy(policies: seq<Policy>, traces: seq<Trace>, mode: Mode) {
    exists i :: 0 <= i < |policies| && i < |traces| && policies[i].mode == mode && traces[i].matched
  }

  predicate NoneOfMode(policies: seq<Policy>, mode: Mode) {
    forall i :: 0 <= i < |policies| ==> policies[i].mode != mode
  }

  lemma DecideByTraces(version: string, policies: seq<Policy>, context: Context)
    ensures var result := Decide(version, Some(policies), context);
            && |result.traces| == |policies|
            && (forall i :: 0 <= i < |policies| ==>
                  && result.traces[i].policyId == policies[i].id && result.traces[i].mode == policies[i].mode
                  && result.traces[i].matched == CheckCondition(policies[i].condition, context))
            && (result.decision == Deny <==> DeniedBy(policies, result.traces, Enforce))
            && (result.shadowDecision == Deny <==> DeniedBy(policies, result.traces, Shadow))
            && (result.decision == Abstain <==> NoneOfMode(policies, Enforce))
            && (result.shadowDecision == Abstain <==> NoneOfMode(policies, Shadow))
            && (result.decision == Abstain ==> result.policyId == "default")
            && (result.shadowDecision == Abstain ==> result.shadowPolicyId == "default")
  {
    TraceAt(policies, context);
    TrackDecides(policies, Enforce, context);
    TrackDecides(policies, Shadow, context);
  }

  /** The loop of `evaluate`: one pass, two independent states.  A tool without
      policies is denied by "system"; otherwise there is one trace per policy. */
  method Evaluate(byTool: map<string, seq<Policy>>, version: string, toolName: string, context: Context)
    returns (result: EvaluationResult)
    ensures result == Decide(version, Lookup(byTool, toolName), context)
    ensures result.version == version
    ensures toolName !in byTool ==>
      && result.decision == Deny && result.policyId == "system" && result.traces == []
      && result.shadowDecision == Deny && result.shadowPolicyId == "system" && result.reason == "No policies found"
    ensures toolName in byTool ==>
      var policies := byTool[toolName];
      && result.reason == "Tree evaluation complete" && |result.traces| == |policies|
      && (forall i :: 0 <= i < |policies| ==>
            result.traces[i] == Trace(policies[i].id, CheckCondition(policies[i].condition, context), policies[i].mode))
      && (result.decision == Deny <==> DeniedBy(policies, result.traces, Enforce))
      && (result.shadowDecision == Deny <==> DeniedBy(policies, result.traces, Shadow))
      && (result.decision == Abstain <==> NoneOfMode(policies, Enforce))
      && (result.shadowDecision == Abstain <==> NoneOfMode(policies, Shadow))
      && (result.decision == Abstain ==> result.policyId == "default")
      && (result.shadowDecision == Abstain ==> result.shadowPolicyId == "default")
  {
    if toolName !in byTool {
      return EvaluationResult(Deny, "system", Deny, "system", "No policies found", version, []);
    }
    var enforceState, shadowState, traces := Fold(byTool[toolName], context);
    DecideByTraces(version, byTool[toolName], context);
    return EvaluationResult(enforceState.0, enforceState.1, shadowState.0, shadowState.1,
                            "Tree evaluation complete", version, traces);
  }

  method Fold(policies: seq<Policy>, context: Context)
    returns (enforceState: (Decision, string), shadowState: (Decision, string), traces: seq<Trace>)
    ensures enforceState == Verdict(OfMode(policies, Enforce), context)
    ensures shadowState == Verdict(OfMode(policies, Shadow), context)
    ensures traces == TracesOf(policies, context)
  {
    enforceState, shadowState, traces := (Abstain, "default"), (Abstain, "default"), [];
    var i := 0;
    while i < |policies|
      invariant 0 <= i <= |policies|
      invariant enforceState == Verdict(OfMode(policies[..i], Enforce), context)
      invariant shadowState == Verdict(OfMode(policies[..i], Shadow), context)
      invariant traces == TracesOf(policies[..i], context)
    {
      var policy := policies[i];
      var isMatch := Matches(policy, context);
      traces := traces + [Trace(policy.id, isMatch, policy.mode)];
      TracesSnoc(policies[..i], policy, context);
      TrackSnoc(policies[..i], policy, Enforce, context);
      TrackSnoc(policies[..i], policy, Shadow, context);
      assert policies[..i + 1] == policies[..i] + [policy];
      var current := if isMatch then Deny else Allow;
      match policy.mode {
        case Enforce =>
          if enforceState.0 != Deny { enforceState := (current, policy.id); }
        case Shadow =>
          if shadowState.0 != Deny { shadowState := (current, policy.id); }
      }
      i := i + 1;
    }
    assert policies[..|policies|] == policies;
  }
}
