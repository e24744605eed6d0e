/** The policy index of store.rs, and what the indexed evaluation means for the
    policy file as a flat list. */
module PolicyStore {
  import opened Options
  import opened PolicyEngine

  /** A parsed file, or the read or parse error. */
  datatype Loaded = Config(version: string, policies: seq<Policy>) | LoadError(message: string)

  /** The policies of one tool, in file order. */
  function ForTool(policies: seq<Policy>, tool: string): seq<Policy> {
    if policies == [] then []
    else
      var rest, last := ForTool(policies[..|policies| - 1], tool), policies[|policies| - 1];
      if last.toolName == tool then rest + [last] else rest
  }

  /** The index holds exactly the tools that occur, each with its own policies. */
  ghost predicate Indexes(byTool: map<string, seq<Policy>>, policies: seq<Policy>) {
    && (forall tool :: tool in byTool ==> byTool[tool] == ForTool(policies, tool) && byTool[tool] != [])
    && (forall tool :: tool !in byTool ==> ForTool(policies, tool) == [])
  }

  class Store {
    var policies: map<string, seq<Policy>>

    constructor ()
      ensures policies == map[]
    {
      policies := map[];
    }

    /** Groups the file by tool and swaps the index; a bad file changes nothing. */
    method LoadFromFile(file: Loaded) returns (count: Option<nat>)
      modifies this
      ensures file.LoadError? ==> count == None && policies == old(policies)
      ensures file.Config? ==> count == Some(|file.policies|) && Indexes(policies, file.policies)
    {
      if file.LoadError? {
        return None;
      }
      var byTool: map<string, seq<Policy>> := map[];
      var i := 0;
      while i < |file.policies|
        invariant 0 <= i <= |file.policies|
        invariant Indexes(byTool, file.policies[..i])
      {
        var policy := file.policies[i];
        var bucket := if policy.toolName in byTool then byTool[policy.toolName] else [];
        IndexSnoc(byTool, file.policies[..i], policy);
        assert file.policies[..i + 1] == file.policies[..i] + [policy];
        byTool := byTool[policy.toolName := bucket + [policy]];
        i := i + 1;
      }
      assert file.policies[..|file.policies|] == file.policies;
      policies := byTool;
      return Some(i);
    }

    method GetSnapshot() returns (byTool: map<string, seq<Policy>>)
      ensures byTool == policies
    {
      byTool := policies;
    }
  }

  lemma IndexSnoc(byTool: map<string, seq<Policy>>, policies: seq<Policy>, p: Policy)
    requires Indexes(byTool, policies)
    ensures var bucket := if p.toolName in byTool then byTool[p.toolName] else [];
            Indexes(byTool[p.toolName := bucket + [p]], policies + [p])
  {
  }

  /** The result for a flat list of policies, without an index. */
  function Scan(version: string, policies: seq<Policy>, tool: string, context: Context): EvaluationResult {
    var own := ForTool(policies, tool);
    Decide(version, if own == [] then None else Some(own), context)
  }

  /** Evaluating through the index is the plain scan of the file. */
  lemma IndexRefinesScan(byTool: map<string, seq<Policy>>, policies: seq<Policy>, version: string, tool: string,
                         context: Context)
    requires Indexes(byTool, policies)
    ensures Decide(version, Lookup(byTool, tool), context) == Scan(version, policies, tool, context)
  {
  }

  /** Load, snapshot, evaluate. */
  method LoadAndEvaluate(store: Store, file: Loaded, tool: string, context: Context) returns (result: EvaluationResult)
    requires file.Config?
    modifies store
    ensures result == Scan(file.version, file.policies, tool, context)
  {
    var _ := store.LoadFromFile(file);
    var byTool := store.GetSnapshot();
    result := Evaluate(byTool, file.version, tool, context);
    IndexRefinesScan(byTool, file.policies, file.version, tool, context);
  }

  // ------------------------------------------------------- what the result means

  predicate Governs(p: Policy, tool: string, mode: Mode) {
    p.toolName == tool && p.mode == mode
  }

  /** The policies of one tool and mode, in file order. */
  function Track(policies: seq<Policy>, tool: string, mode: Mode): seq<Policy> {
    OfMode(ForTool(policies, tool), mode)
  }

  lemma {:induction false} OfModeMembers(policies: seq<Policy>, mode: Mode, p: Policy)
    ensures p in OfMode(policies, mode) <==> p in policies && p.mode == mode
  {
    if policies != [] {
      var n := |policies| - 1;
      OfModeMembers(policies[..n], mode, p);
      assert policies == policies[..n] + [policies[n]];
    }
  }

  lemma {:induction false} ForToolMembers(policies: seq<Policy>, tool: string, p: Policy)
    ensures p in ForTool(policies, tool) <==> p in policies && p.toolName == tool
  {
    if policies != [] {
      var n := |policies| - 1;
      ForToolMembers(policies[..n], tool, p);
      assert policies == policies[..n] + [policies[n]];
    }
  }

  lemma TrackMembers(policies: seq<Policy>, tool: string, mode: Mode, p: Policy)
    ensures p in Track(policies, tool, mode) <==> p in policies && Governs(p, tool, mode)
  {
    ForToolMembers(policies, tool, p);
    OfModeMembers(ForTool(policies, tool), mode, p);
  }

  lemma {:induction false} OfModeAppend(a: seq<Policy>, b: seq<Policy>, mode: Mode)
    ensures OfMode(a + b, mode) == OfMode(a, mode) + OfMode(b, mode)
    decreases |b|
  {
    if b == [] {
      assert a + b == a;
    } else {
      var n := |b| - 1;
      OfModeAppend(a, b[..n], mode);
      assert (a + b)[..|a + b| - 1] == a + b[..n];
    }
  }

  lemma {:induction false} ForToolAppend(a: seq<Policy>, b: seq<Policy>, tool: string)
    ensures ForTool(a + b, tool) == ForTool(a, tool) + ForTool(b, tool)
    decreases |b|
  {
    if b == [] {
      assert a + b == a;
    } else {
      var n := |b| - 1;
      ForToolAppend(a, b[..n], tool);
      assert (a + b)[..|a + b| - 1] == a + b[..n];
    }
  }

  ghost predicate SomePolicy(policies: seq<Policy>, tool: string, mode: Mode, context: Option<Context>) {
    exists p :: p in policies && Governs(p, tool, mode) && (context.Some? ==> Matches(p, context.value))
  }

  lemma TrackMeaning(policies: seq<Policy>, tool: string, mode: Mode, context: Context)
    ensures Track(policies, tool, mode) != [] <==> SomePolicy(policies, tool, mode, None)
    ensures SomeMatch(Track(policies, tool, mode), context) <==> SomePolicy(policies, tool, mode, Some(context))
  {
    var track := Track(policies, tool, mode);
    if track != [] { TrackMembers(policies, tool, mode, track[0]); }
    if SomeMatch(track, context) {
      var i :| 0 <= i < |track| && Matches(track[i], context);
      TrackMembers(policies, tool, mode, track[i]);
    }
    if p :| p in policies && Governs(p, tool, mode) {
      TrackMembers(policies, tool, mode, p);
    }
    if p :| p in policies && Governs(p, tool, mode) && Matches(p, context) {
      TrackMembers(policies, tool, mode, p);
      var i :| 0 <= i < |track| && track[i] == p;
    }
  }

  /** Deny exactly when the file has no policy for the tool or some Enforce
      policy of the tool matches; Abstain exactly when the tool has policies
      but only Shadow ones; and the policy named is the first matching Enforce
      policy in file order, else the last Enforce policy. */
  lemma DecisionMeaning(version: string, policies: seq<Policy>, tool: string, context: Context)
    ensures var result := Scan(version, policies, tool, context);
            var known := exists p :: p in policies && p.toolName == tool;
            var enforce := Track(policies, tool, Enforce);
            && (result.decision == Deny <==> !known || SomePolicy(policies, tool, Enforce, Some(context)))
            && (result.decision == Abstain <==> known && !SomePolicy(policies, tool, Enforce, None))
            && (known && result.decision == Deny ==>
                  exists i :: 0 <= i < |enforce| && enforce[i].id == result.policyId && Matches(enforce[i], context)
                    && forall j :: 0 <= j < i ==> !Matches(enforce[j], context))
            && (result.decision == Allow ==> enforce != [] && result.policyId == enforce[|enforce| - 1].id)
            && (!known ==> result.policyId == "system" && result.traces == [])
  {
    TrackMeaning(policies, tool, Enforce, context);
    ToolKnown(policies, tool);
  }

  lemma ToolKnown(policies: seq<Policy>, tool: string)
    ensures ForTool(policies, tool) != [] <==> exists p :: p in policies && p.toolName == tool
  {
  }

  // ------------------------------------------------------------ non-interference

  function Opposite(mode: Mode): Mode {
    if mode == Enforce then Shadow else Enforce
  }

  function Swap(p: Policy): Policy {
    p.(mode := Opposite(p.mode))
  }

  function Swapped(policies: seq<Policy>): seq<Policy> {
    if policies == [] then []
    else Swapped(policies[..|policies| - 1]) + [Swap(policies[|policies| - 1])]
  }

  lemma SwappedSnoc(policies: seq<Policy>, p: Policy)
    ensures Swapped(policies + [p]) == Swapped(policies) + [Swap(p)]
  {
  }

  lemma ForToolSnoc(policies: seq<Policy>, p: Policy, tool: string)
    ensures ForTool(policies + [p], tool) ==
            if p.toolName == tool then ForTool(policies, tool) + [p] else ForTool(policies, tool)
  {
  }

  lemma {:induction false} SwappedTool(policies: seq<Policy>, tool: string)
    ensures ForTool(Swapped(policies), tool) == Swapped(ForTool(policies, tool))
  {
    if policies != [] {
      var initial, last := policies[..|policies| - 1], policies[|policies| - 1];
      SwappedTool(initial, tool);
      ForToolSnoc(Swapped(initial), Swap(last), tool);
      SwappedSnoc(ForTool(initial, tool), last);
    }
  }

  lemma {:induction false} SwappedMode(policies: seq<Policy>, mode: Mode)
    ensures OfMode(Swapped(policies), mode) == Swapped(OfMode(policies, Opposite(mode)))
  {
    if policies != [] {
      var initial, last := policies[..|policies| - 1], policies[|policies| - 1];
      SwappedMode(initial, mode);
      OfModeSnoc(Swapped(initial), Swap(last), mode);
      SwappedSnoc(OfMode(initial, Opposite(mode)), last);
    }
  }

  lemma {:induction false} SwappedVerdict(policies: seq<Policy>, context: Context)
    ensures Verdict(Swapped(policies), context) == Verdict(policies, context)
  {
    if policies != [] {
      var initial, last := policies[..|policies| - 1], policies[|policies| - 1];
      SwappedVerdict(initial, context);
      assert policies == initial + [last];
      VerdictSnoc(initial, last, context);
      VerdictSnoc(Swapped(initial), Swap(last), context);
    }
  }

  /** Swapping every policy's mode swaps the two tracks. */
  lemma SwapModesSwapsTracks(version: string, policies: seq<Policy>, tool: string, context: Context)
    ensures var a, b := Scan(version, policies, tool, context), Scan(version, Swapped(policies), tool, context);
            && b.decision == a.shadowDecision && b.policyId == a.shadowPolicyId
            && b.shadowDecision == a.decision && b.shadowPolicyId == a.policyId
  {
    SwappedTool(policies, tool);
    var own := ForTool(policies, tool);
    SwappedMode(own, Enforce);
    SwappedMode(own, Shadow);
    SwappedVerdict(OfMode(own, Enforce), context);
    SwappedVerdict(OfMode(own, Shadow), context);
  }

  /** Inserting policies of one mode anywhere in the file (equivalently,
      deleting them) leaves the other track of every tool that keeps a policy
      unchanged. */
  lemma InsertionLeavesOtherTrack(version: string, before: seq<Policy>, inserted: seq<Policy>, after: seq<Policy>,
                                  mode: Mode, tool: string, context: Context)
    requires forall i :: 0 <= i < |inserted| ==> inserted[i].mode == mode
    requires ForTool(before + after, tool) != []
    ensures var a := Scan(version, before + after, tool, context);
            var b := Scan(version, before + (inserted + after), tool, context);
            if mode == Shadow then b.decision == a.decision && b.policyId == a.policyId
            else b.shadowDecision == a.shadowDecision && b.shadowPolicyId == a.shadowPolicyId
  {
    InsertionKeepsTrack(before, inserted, after, mode, tool);
    ForToolAppend(before, after, tool);
    ForToolAppend(before, inserted + after, tool);
    ForToolAppend(inserted, after, tool);
  }

  lemma InsertionKeepsTrack(before: seq<Policy>, inserted: seq<Policy>, after: seq<Policy>, mode: Mode, tool: string)
    requires forall i :: 0 <= i < |inserted| ==> inserted[i].mode == mode
    ensures Track(before + (inserted + after), tool, Opposite(mode)) == Track(before + after, tool, Opposite(mode))
  {
    var other := Opposite(mode);
    TrackAppend(before, after, tool, other);
    TrackAppend(before, inserted + after, tool, other);
    TrackAppend(inserted, after, tool, other);
    if Track(inserted, tool, other) != [] {
      TrackMembers(inserted, tool, other, Track(inserted, tool, other)[0]);
    }
    assert Track(before, tool, other) + ([] + Track(after, tool, other)) ==
      Track(before, tool, other) + Track(after, tool, other);
  }

  lemma TrackAppend(a: seq<Policy>, b: seq<Policy>, tool: string, mode: Mode)
    ensures Track(a + b, tool, mode) == Track(a, tool, mode) + Track(b, tool, mode)
  {
    ForToolAppend(a, b, tool);
    OfModeAppend(ForTool(a, tool), ForTool(b, tool), mode);
  }

  /** Reordering the file never changes either decision (only the policy named). */
  lemma PermutationKeepsDecisions(version: string, a: seq<Policy>, b: seq<Policy>, tool: string, context: Context)
    requires multiset(a) == multiset(b)
    ensures var x, y := Scan(version, a, tool, context), Scan(version, b, tool, context);
            x.decision == y.decision && x.shadowDecision == y.shadowDecision
  {
    assert forall p :: p in a <==> p in multiset(a);
    assert forall p :: p in b <==> p in multiset(b);
    SameMembersSameTrack(a, b, tool, Enforce, context);
    SameMembersSameTrack(a, b, tool, Shadow, context);
    ToolKnown(a, tool);
    ToolKnown(b, tool);
  }

  lemma SameMembersSameTrack(a: seq<Policy>, b: seq<Policy>, tool: string, mode: Mode, context: Context)
    requires forall p :: p in a <==> p in b
    ensures Verdict(Track(a, tool, mode), context).0 == Verdict(Track(b, tool, mode), context).0
  {
    TrackMeaning(a, tool, mode, context);
    TrackMeaning(b, tool, mode, context);
  }
}
