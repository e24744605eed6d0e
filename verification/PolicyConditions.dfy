/** Laws of whole condition trees of engine.rs: their negation normal form,
    the attributes they depend on, and what the string operators mean. */
module PolicyConditions {
  import opened Options
  import opened PolicyEngine

  function AtomOf(atom: Atom): Condition {
    Condition(Absent, Absent, None, Some(atom))
  }

  function AllOf(items: seq<Condition>): Condition {
    Condition(Given(items), Absent, None, None)
  }

  function AnyOf(items: seq<Condition>): Condition {
    Condition(Absent, Given(items), None, None)
  }

  function Not(c: Condition): Condition {
    Condition(Absent, Absent, Some(c), None)
  }

  // ------------------------------------------------------- negation normal form

  /** The same condition, or its negation, with negations only on atoms, and
      with exactly one field in every node. */
  function Nnf(c: Condition, positive: bool): Condition
    decreases c
  {
    if c.atom.Some? then
      if positive then AtomOf(c.atom.value) else Not(AtomOf(c.atom.value))
    else if c.and.Given? then
      var items := c.and.items;
      var parts := seq(|items|, i requires 0 <= i < |items| => Nnf(items[i], positive));
      if positive then AllOf(parts) else AnyOf(parts)
    else if c.or.Given? then
      var items := c.or.items;
      var parts := seq(|items|, i requires 0 <= i < |items| => Nnf(items[i], positive));
      if positive then AnyOf(parts) else AllOf(parts)
    else if c.not.Some? then
      Nnf(c.not.value, !positive)
    else if positive then AnyOf([]) else AllOf([])
  }

  predicate IsNormal(c: Condition) {
    if c.atom.Some? then c == AtomOf(c.atom.value)
    else if c.and.Given? then
      c == AllOf(c.and.items) && forall i :: 0 <= i < |c.and.items| ==> IsNormal(c.and.items[i])
    else if c.or.Given? then
      c == AnyOf(c.or.items) && forall i :: 0 <= i < |c.or.items| ==> IsNormal(c.or.items[i])
    else
      c.not.Some? && c.not.value.atom.Some? && c == Not(AtomOf(c.not.value.atom.value))
  }

  lemma ListMeaning(items: seq<Condition>, context: Context)
    ensures CheckCondition(AllOf(items), context) <==>
            forall i :: 0 <= i < |items| ==> CheckCondition(items[i], context)
    ensures CheckCondition(AnyOf(items), context) <==> exists i :: 0 <= i < |items| && CheckCondition(items[i], context)
  {
    assert AllOf(items).and.items == items && AnyOf(items).or.items == items;
  }

  lemma NotMeaning(c: Condition, context: Context)
    ensures CheckCondition(Not(c), context) <==> !CheckCondition(c, context)
  {
  }

  /** Every condition tree, whatever fields its nodes carry, evaluates like its
      negation normal form, and the form of the opposite sign to the opposite. */
  lemma {:induction false} NnfKeepsMeaning(c: Condition, positive: bool, context: Context)
    ensures CheckCondition(Nnf(c, positive), context) <==> CheckCondition(c, context) == positive
    ensures IsNormal(Nnf(c, positive))
    decreases c
  {
    if c.atom.Some? {
      NotMeaning(AtomOf(c.atom.value), context);
    } else if c.and.Given? {
      NnfOfList(c.and.items, positive, context);
    } else if c.or.Given? {
      NnfOfList(c.or.items, positive, context);
    } else if c.not.Some? {
      NnfKeepsMeaning(c.not.value, !positive, context);
    } else {
      ListMeaning([], context);
    }
  }

  lemma {:induction false} NnfOfList(items: seq<Condition>, positive: bool, context: Context)
    ensures var parts := seq(|items|, i requires 0 <= i < |items| => Nnf(items[i], positive));
            && (CheckCondition(AllOf(parts), context) <==>
                  forall i :: 0 <= i < |items| ==> CheckCondition(items[i], context) == positive)
            && (CheckCondition(AnyOf(parts), context) <==>
                  exists i :: 0 <= i < |items| && CheckCondition(items[i], context) == positive)
            && IsNormal(AllOf(parts)) && IsNormal(AnyOf(parts))
    decreases items
  {
    var parts := seq(|items|, i requires 0 <= i < |items| => Nnf(items[i], positive));
    ListMeaning(parts, context);
    forall i | 0 <= i < |items|
      ensures CheckCondition(parts[i], context) <==> CheckCondition(items[i], context) == positive
      ensures IsNormal(parts[i])
    {
      NnfKeepsMeaning(items[i], positive, context);
    }
    assert AllOf(parts).and.items == parts && AnyOf(parts).or.items == parts;
  }

  /** Normal forms are fixed points. */
  lemma {:induction false} NormalIsFixed(c: Condition)
    requires IsNormal(c)
    ensures Nnf(c, true) == c
    decreases c
  {
    if c.atom.Some? {
    } else if c.and.Given? {
      forall i | 0 <= i < |c.and.items| ensures Nnf(c.and.items[i], true) == c.and.items[i] {
        NormalIsFixed(c.and.items[i]);
      }
      assert Nnf(c, true).and.items == c.and.items;
    } else if c.or.Given? {
      forall i | 0 <= i < |c.or.items| ensures Nnf(c.or.items[i], true) == c.or.items[i] {
        NormalIsFixed(c.or.items[i]);
      }
      assert Nnf(c, true).or.items == c.or.items;
    }
  }

  // ------------------------------------------------- what a condition depends on

  /** The attributes named in the fields that decide. */
  predicate Mentions(c: Condition, key: string) {
    if c.atom.Some? then c.atom.value.attrKey == key
    else if c.and.Given? then exists i :: 0 <= i < |c.and.items| && Mentions(c.and.items[i], key)
    else if c.or.Given? then exists i :: 0 <= i < |c.or.items| && Mentions(c.or.items[i], key)
    else c.not.Some? && Mentions(c.not.value, key)
  }

  predicate SameAttribute(a: Context, b: Context, key: string) {
    (key in a <==> key in b) && (key in a ==> a[key] == b[key])
  }

  /** Attributes that a tree does not mention, and fields that a decisive field
      hides, have no influence. */
  lemma {:induction false} OnlyMentionedMatter(c: Condition, a: Context, b: Context)
    requires forall key :: Mentions(c, key) ==> SameAttribute(a, b, key)
    ensures CheckCondition(c, a) <==> CheckCondition(c, b)
    decreases c
  {
    if c.atom.Some? {
      assert SameAttribute(a, b, c.atom.value.attrKey);
    } else if c.and.Given? {
      forall i | 0 <= i < |c.and.items|
        ensures CheckCondition(c.and.items[i], a) <==> CheckCondition(c.and.items[i], b)
      {
        OnlyMentionedMatter(c.and.items[i], a, b);
      }
    } else if c.or.Given? {
      forall i | 0 <= i < |c.or.items| ensures CheckCondition(c.or.items[i], a) <==> CheckCondition(c.or.items[i], b) {
        OnlyMentionedMatter(c.or.items[i], a, b);
      }
    } else if c.not.Some? {
      OnlyMentionedMatter(c.not.value, a, b);
    }
  }

  lemma {:induction false} TracksDependOnMentioned(policies: seq<Policy>, mode: Mode, a: Context, b: Context)
    requires forall i, key :: 0 <= i < |policies| && Mentions(policies[i].condition, key) ==> SameAttribute(a, b, key)
    ensures TracesOf(policies, a) == TracesOf(policies, b)
    ensures Verdict(OfMode(policies, mode), a) == Verdict(OfMode(policies, mode), b)
  {
    if policies != [] {
      var n := |policies| - 1;
      assert forall i :: 0 <= i < n ==> policies[..n][i] == policies[i];
      assert policies == policies[..n] + [policies[n]];
      TracksDependOnMentioned(policies[..n], mode, a, b);
      OnlyMentionedMatter(policies[n].condition, a, b);
      TrackSnoc(policies[..n], policies[n], mode, a);
      TrackSnoc(policies[..n], policies[n], mode, b);
    }
  }

  /** And so a whole evaluation, both tracks and all traces, depends only on the
      attributes that its policies mention. */
  lemma EvaluationDependsOnMentioned(version: string, policies: seq<Policy>, a: Context, b: Context)
    requires forall i, key :: 0 <= i < |policies| && Mentions(policies[i].condition, key) ==> SameAttribute(a, b, key)
    ensures Decide(version, Some(policies), a) == Decide(version, Some(policies), b)
  {
    TracksDependOnMentioned(policies, Enforce, a, b);
    TracksDependOnMentioned(policies, Shadow, a, b);
  }

  // ------------------------------------------------------------------- operators

  /** One comparison of an attribute. */
  predicate Holds(key: string, operator: string, value: PolicyValue, context: Context) {
    CheckCondition(AtomOf(Atom(key, operator, value)), context)
  }

  /** `gt` and `lt` compare the attribute with the policy's number, in this
      order, and strictly. */
  lemma NumberOperators(key: string, a: real, b: real, context: Context)
    ensures var bound := context[key := Float(a)];
            && (Holds(key, "gt", Float(b), bound) <==> a > b)
            && (Holds(key, "lt", Float(b), bound) <==> a < b)
  {
  }

  /** `eq` is equality of texts; `contains` looks for the policy's text in the
      attribute. */
  lemma TextOperators(key: string, a: string, b: string, context: Context)
    ensures var bound := context[key := Str(a)];
            && (Holds(key, "eq", Str(b), bound) <==> a == b)
            && (Holds(key, "contains", Str(b), bound) <==> exists before, after :: a == before + b + after)
  {
    if Contains(a, b) {
      var i :| 0 <= i <= |a| && OccursAt(a, b, i);
      assert a == a[..i] + b + a[i + |b|..];
    }
    if before, after :| a == before + b + after {
      assert OccursAt(a, b, |before|);
    }
  }

  /** `in` holds for the members of the list, of whatever type, and `not_in` for
      all other values. */
  lemma ListOperators(key: string, a: PolicyValue, list: seq<PolicyValue>, context: Context)
    ensures var bound := context[key := a];
            && (Holds(key, "in", List(list), bound) <==> exists i :: 0 <= i < |list| && list[i] == a)
            && (Holds(key, "not_in", List(list), bound) <==> !Holds(key, "in", List(list), bound))
  {
  }

  /** Nothing else holds: an attribute that is missing or of another type than
      the operator compares, and an operator that is unknown, give false. */
  lemma OtherComparisonsFail(key: string, operator: string, value: PolicyValue, context: Context)
    requires key !in context || match operator
             case "gt" => !value.Float? || !context[key].Float?
             case "lt" => !value.Float? || !context[key].Float?
             case "eq" => !value.Str? || !context[key].Str?
             case "contains" => !value.Str? || !context[key].Str?
             case "in" => !value.List?
             case "not_in" => !value.List?
             case _ => true
    ensures !Holds(key, operator, value, context)
  {
  }

  /** Of several fields the first of atom, and, or, not decides; none is false. */
  lemma FirstFieldDecides(c: Condition, context: Context)
    ensures CheckCondition(c, context) <==>
            if c.atom.Some? then CheckCondition(AtomOf(c.atom.value), context)
            else if c.and.Given? then CheckCondition(AllOf(c.and.items), context)
            else if c.or.Given? then CheckCondition(AnyOf(c.or.items), context)
            else c.not.Some? && !CheckCondition(c.not.value, context)
  {
    if c.atom.None? && c.and.Given? {
      ListMeaning(c.and.items, context);
    } else if c.atom.None? && c.or.Given? {
      ListMeaning(c.or.items, context);
    }
  }

  /** `eq` is `contains` both ways. */
  lemma EqIsContainsBothWays(key: string, a: string, b: string, context: Context)
    ensures var holdsA, holdsB := context[key := Str(a)], context[key := Str(b)];
            CheckCondition(AtomOf(Atom(key, "eq", Str(b))), holdsA) <==>
            && CheckCondition(AtomOf(Atom(key, "contains", Str(b))), holdsA)
            && CheckCondition(AtomOf(Atom(key, "contains", Str(a))), holdsB)
  {
    ContainsBothWays(a, b);
  }

  lemma ContainsBothWays(a: string, b: string)
    ensures Contains(a, b) && Contains(b, a) <==> a == b
  {
    ContainedIsShorter(a, b);
    ContainedIsShorter(b, a);
    if a == b { assert OccursAt(a, b, 0); }
  }

  lemma ContainedIsShorter(a: string, b: string)
    ensures Contains(a, b) ==> |b| <= |a| && (|a| == |b| ==> a == b)
  {
    if Contains(a, b) {
      var i :| 0 <= i <= |a| && OccursAt(a, b, i);
      assert |a| == |b| ==> i == 0 && a[0..|b|] == a;
    }
  }
}
