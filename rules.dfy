/** A rule: a named, prioritised set of conditions bound to a replacement footstep set. */
module Rules {
  import opened Wrappers
  import opened Game
  import opened Predicates

  /** Rule::EvalMode: ANY matches on some true condition, ALL on every condition true. */
  datatype EvalMode = ANY | ALL

  /** A C++ int. */
  type Int32 = x: int | -0x8000_0000 <= x < 0x8000_0000

  /** Rule: every field is fixed when the rule is built; the conditions keep their order. */
  datatype Rule = Rule(name: string, priority: Int32, replacement: FootstepSet, shortCircuit: bool,
                       evalMode: EvalMode, conditions: seq<Predicate>)

  /** Rule::operator<: rules compare by priority alone. */
  predicate Less(a: Rule, b: Rule) {
    a.priority < b.priority
  }

  /**
   * The loop of Rule::Apply: conditions in order, stopping at the first true one under ANY and
   * at the first false one under ALL; whether the rule matched.
   */
  function ConditionsMatch(mode: EvalMode, conditions: seq<Predicate>,
                           actor: Option<Actor>, origFss: Option<FootstepSet>): (r: bool)
    ensures mode == ALL ==>
              (r <==> forall i :: 0 <= i < |conditions| ==> Evaluate(conditions[i], actor, origFss))
    ensures mode == ANY ==>
              (r <==> exists i :: 0 <= i < |conditions| && Evaluate(conditions[i], actor, origFss))
    decreases conditions
  {
    if conditions == [] then mode == ALL
    else
      var result := Evaluate(conditions[0], actor, origFss);
      if mode == ANY && result then true
      else if mode == ALL && !result then false
      else ConditionsMatch(mode, conditions[1..], actor, origFss)
  }

  /**
   * Rule::Apply: the replacement when the conditions match under the rule's mode, nothing
   * otherwise. An ALL rule without conditions always matches; an ANY rule without them never does.
   */
  function Apply(rule: Rule, actor: Option<Actor>, origFss: Option<FootstepSet>): (r: Option<FootstepSet>)
    ensures r.Some? ==> r.value == rule.replacement
    ensures rule.evalMode == ALL ==>
              (r.Some? <==> forall i :: 0 <= i < |rule.conditions| ==> Evaluate(rule.conditions[i], actor, origFss))
    ensures rule.evalMode == ANY ==>
              (r.Some? <==> exists i :: 0 <= i < |rule.conditions| && Evaluate(rule.conditions[i], actor, origFss))
  {
    if ConditionsMatch(rule.evalMode, rule.conditions, actor, origFss) then Some(rule.replacement) else None
  }

  /** The conjunction a rule's mode amounts to. */
  function ModeConjunction(mode: EvalMode): Conjunction {
    if mode == ALL then AND else OR
  }

  /**
   * A rule matches exactly when the un-inverted compound of its conditions under the matching
   * conjunction holds, and it consults the same conditions that compound would.
   */
  lemma {:induction false} ConditionsAsCompound(mode: EvalMode, conditions: seq<Predicate>,
                                                actor: Option<Actor>, origFss: Option<FootstepSet>)
    ensures ConditionsMatch(mode, conditions, actor, origFss)
              == Evaluate(Compound(false, ModeConjunction(mode), conditions), actor, origFss)
  {
    var c := ModeConjunction(mode);
    if mode == ALL {
      assert EvaluateChildren(c, conditions, actor, origFss)
          == forall i :: 0 <= i < |conditions| ==> Evaluate(conditions[i], actor, origFss);
    } else {
      assert EvaluateChildren(c, conditions, actor, origFss)
          == exists i :: 0 <= i < |conditions| && Evaluate(conditions[i], actor, origFss);
    }
  }

  /** Vacuous truth: with no conditions an ALL rule matches and an ANY rule does not. */
  lemma EmptyConditions(rule: Rule, actor: Option<Actor>, origFss: Option<FootstepSet>)
    requires rule.conditions == []
    ensures Apply(rule, actor, origFss) == if rule.evalMode == ALL then Some(rule.replacement) else None
  {
  }

  /**
   * operator< is a strict weak order, the ordering std::sort needs: irreflexive, transitive, and
   * with "neither is less" transitive as well.
   */
  lemma LessIsStrictWeakOrder(a: Rule, b: Rule, c: Rule)
    ensures !Less(a, a)
    ensures Less(a, b) && Less(b, c) ==> Less(a, c)
    ensures !Less(a, b) && !Less(b, a) && !Less(b, c) && !Less(c, b) ==> !Less(a, c) && !Less(c, a)
  {
  }

  /** Only the priorities take part in the comparison. */
  lemma LessByPriorityOnly(a: Rule, b: Rule, a': Rule, b': Rule)
    requires a'.priority == a.priority && b'.priority == b.priority
    ensures Less(a', b') == Less(a, b)
  {
  }
}
