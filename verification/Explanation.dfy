/** The two pipeline stages of core/app/stages.py that consume an evaluation:
    `RustEvaluationStage` and `ExplainStage`. */
module Explanation {
  import opened PolicyEngine
  import opened PolicyStore

  function Reason(policyId: string): string {
    "Block by policy: " + policyId
  }

  /** Reasons read off the traces. */
  function Reasons(traces: seq<Trace>): seq<string> {
    if traces == [] then []
    else
      var rest, last := Reasons(traces[..|traces| - 1]), traces[|traces| - 1];
      if last.matched && last.mode == Enforce then rest + [Reason(last.policyId)] else rest
  }

  class PipelineContext {
    var decision: string
    var policyId: string
    var traces: seq<Trace>
    var reasons: seq<string>

    constructor ()
      ensures reasons == [] && traces == []
    {
      decision, policyId, traces, reasons := "", "", [], [];
    }

    /** Anything but Allow counts as DENIED, Abstain included. */
    method RustEvaluation(result: EvaluationResult)
      modifies this`decision, this`policyId, this`traces
      ensures decision == if result.decision == Allow then "SUCCESS" else "DENIED"
      ensures policyId == result.policyId && traces == result.traces
    {
      decision := if result.decision == Allow then "SUCCESS" else "DENIED";
      policyId, traces := result.policyId, result.traces;
    }

    method Explain()
      modifies this`reasons
      ensures reasons == if decision == "DENIED" then old(reasons) + Reasons(traces) else old(reasons)
    {
      if decision == "DENIED" {
        var i := 0;
        while i < |traces|
          invariant 0 <= i <= |traces|
          invariant reasons == old(reasons) + Reasons(traces[..i])
        {
          assert traces[..i + 1][..i] == traces[..i];
          if traces[i].matched && traces[i].mode == Enforce {
            reasons := reasons + [Reason(traces[i].policyId)];
          }
          i := i + 1;
        }
        assert traces[..|traces|] == traces;
      }
    }

    /** The pipeline's evaluation and explanation, through the index of a policy
        file: SUCCESS exactly if the tool has an Enforce policy and none of them
        matches, and otherwise one reason for each that does, in file order. */
    method Execute(version: string, byTool: map<string, seq<Policy>>, ghost policies: seq<Policy>, tool: string,
                   context: Context)
      requires Indexes(byTool, policies)
      modifies this
      ensures decision == "SUCCESS" || decision == "DENIED"
      ensures var enforce := Track(policies, tool, Enforce);
              && (decision == "SUCCESS" <==> enforce != [] && !SomeMatch(enforce, context))
              && reasons == old(reasons) + MatchReasons(enforce, context)
              && (SomeMatch(enforce, context) ==>
                    && policyId == enforce[FirstMatch(enforce, context)].id
                    && |reasons| > |old(reasons)| && reasons[|old(reasons)|] == "Block by policy: " + policyId)
    {
      var result := Evaluate(byTool, version, tool, context);
      RustEvaluation(result);
      Explain();
      IndexRefinesScan(byTool, policies, version, tool, context);
      ExplanationsAgree(version, policies, tool, context);
      FirstReason(Track(policies, tool, Enforce), context);
    }
  }

  /** Reasons read off the policies: one for each that matches, in order. */
  function MatchReasons(policies: seq<Policy>, context: Context): seq<string> {
    if policies == [] then []
    else
      var rest, last := MatchReasons(policies[..|policies| - 1], context), policies[|policies| - 1];
      if Matches(last, context) then rest + [Reason(last.id)] else rest
  }

  lemma MatchReasonsSnoc(policies: seq<Policy>, p: Policy, context: Context)
    ensures MatchReasons(policies + [p], context) ==
            MatchReasons(policies, context) + if Matches(p, context) then [Reason(p.id)] else []
  {
  }

  lemma {:induction false} ReasonsAreMatches(policies: seq<Policy>, context: Context)
    ensures Reasons(TracesOf(policies, context)) == MatchReasons(OfMode(policies, Enforce), context)
  {
    if policies != [] {
      var initial, last := policies[..|policies| - 1], policies[|policies| - 1];
      ReasonsAreMatches(initial, context);
      assert policies == initial + [last];
      assert TracesOf(policies, context)[..|TracesOf(policies, context)| - 1] == TracesOf(initial, context);
      MatchReasonsSnoc(OfMode(initial, Enforce), last, context);
    }
  }

  lemma {:induction false} FirstReason(policies: seq<Policy>, context: Context)
    ensures MatchReasons(policies, context) != [] <==> SomeMatch(policies, context)
    ensures SomeMatch(policies, context) ==>
      MatchReasons(policies, context)[0] == Reason(policies[FirstMatch(policies, context)].id)
  {
    if policies != [] {
      var initial, last := policies[..|policies| - 1], policies[|policies| - 1];
      FirstReason(initial, context);
      assert policies == initial + [last];
      if SomeMatch(initial, context) {
        FirstMatchUnique(policies, context, FirstMatch(initial, context));
      } else if Matches(last, context) {
        FirstMatchUnique(policies, context, |initial|);
      }
    }
  }

  /** Explanations agree with decisions: the reasons are the matching Enforce
      policies of the tool in file order; when a request is DENIED and the tool
      has an Enforce policy, the first reason names the deciding policy; and a
      request is DENIED without any reason exactly when the tool has no Enforce
      policy. */
  lemma ExplanationsAgree(version: string, policies: seq<Policy>, tool: string, context: Context)
    ensures var result := Scan(version, policies, tool, context);
            var enforce := Track(policies, tool, Enforce);
            var denied, reasons := result.decision != Allow, Reasons(result.traces);
            && reasons == MatchReasons(enforce, context)
            && (denied && enforce != [] ==> reasons != [] && reasons[0] == "Block by policy: " + result.policyId)
            && (denied && reasons == [] <==> enforce == [])
  {
    ReasonsAreMatches(ForTool(policies, tool), context);
    FirstReason(Track(policies, tool, Enforce), context);
  }
}
