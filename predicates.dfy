/**
 * The predicate tree of the rules engine and its evaluator: the leaf tests on the actor and
 * the original footstep set, compound AND/OR nodes, and the invert flag each node XORs in.
 */
module Predicates {
  import opened Wrappers
  import opened Game

  /** CompoundPredicate::Conjunction */
  datatype Conjunction = AND | OR

  /**
   * BasePredicate and its subclasses. Every variant carries the `invert` flag fixed when it is
   * built; a compound owns its children in the order it was given them.
   */
  datatype Predicate =
    | Base(invert: bool)
    | ActorIsFemale(invert: bool)
    | ActorHasKeyword(invert: bool, keyword: string)
    | ArmorHasKeyword(invert: bool, slot: Slot, keyword: string)
    | FootstepSetFormID(invert: bool, fss: FootstepSet)
    | Compound(invert: bool, conjunction: Conjunction, predicates: seq<Predicate>)

  /** A child result that settles a compound: a true child of an OR, a false child of an AND. */
  predicate Decisive(conjunction: Conjunction, result: bool) {
    (conjunction == OR && result) || (conjunction == AND && !result)
  }

  /**
   * Evaluate(actor, orig_fss), with a null actor or footstep set as None. The leaf tests need
   * both an actor and a footstep set; the armor test gives false without an actor whatever
   * its invert flag; the base class always gives false.
   */
  function Evaluate(p: Predicate, actor: Option<Actor>, origFss: Option<FootstepSet>): (r: bool)
    ensures p.Base? ==> !r
    ensures (p.ActorIsFemale? || p.ActorHasKeyword? || p.FootstepSetFormID?) && (actor.None? || origFss.None?) ==>
              r == p.invert
    ensures p.ArmorHasKeyword? && actor.None? ==> !r
    ensures p.ArmorHasKeyword? && actor.Some? && origFss.None? ==> r == p.invert
    decreases p
  {
    match p
    case Base(_) => false
    case ActorIsFemale(invert) =>
      (actor.Some? && origFss.Some? && IsFemale(actor.value)) != invert
    case ActorHasKeyword(invert, keyword) =>
      (actor.Some? && origFss.Some? && Game.ActorHasKeyword(actor.value, keyword)) != invert
    case ArmorHasKeyword(invert, slot, keyword) =>
      if actor.None? then false
      else
        var armor := GetWornArmor(actor.value, slot);
        (origFss.Some? && armor.Some? && Game.ArmorHasKeyword(armor.value, keyword)) != invert
    case FootstepSetFormID(invert, fss) =>
      (actor.Some? && origFss.Some? && origFss.value.formID == fss.formID) != invert
    case Compound(invert, conjunction, predicates) =>
      EvaluateChildren(conjunction, predicates, actor, origFss) != invert
  }

  /**
   * The loop of CompoundPredicate::Evaluate before its own invert is applied: the children in
   * order, stopping at the first decisive one; an AND of them all, or an OR of them all.
   */
  function EvaluateChildren(conjunction: Conjunction, children: seq<Predicate>,
                            actor: Option<Actor>, origFss: Option<FootstepSet>): (r: bool)
    ensures conjunction == OR ==>
              (r <==> exists i :: 0 <= i < |children| && Evaluate(children[i], actor, origFss))
    ensures conjunction == AND ==>
              (r <==> forall i :: 0 <= i < |children| ==> Evaluate(children[i], actor, origFss))
    decreases children
  {
    if children == [] then conjunction == AND
    else
      var result := Evaluate(children[0], actor, origFss);
      if Decisive(conjunction, result) then result
      else EvaluateChildren(conjunction, children[1..], actor, origFss)
  }

  /**
   * How many children the loop of CompoundPredicate::Evaluate calls Evaluate on: up to and
   * including the first decisive child, or all of them when none is decisive.
   */
  function ChildrenEvaluated(conjunction: Conjunction, children: seq<Predicate>,
                             actor: Option<Actor>, origFss: Option<FootstepSet>): (n: nat)
    ensures n <= |children|
    ensures forall j :: 0 <= j < n - 1 ==> !Decisive(conjunction, Evaluate(children[j], actor, origFss))
    ensures n < |children| ==> 0 < n && Decisive(conjunction, Evaluate(children[n - 1], actor, origFss))
    ensures EvaluateChildren(conjunction, children[..n], actor, origFss)
              == EvaluateChildren(conjunction, children, actor, origFss)
    decreases children
  {
    if children == [] then 0
    else if Decisive(conjunction, Evaluate(children[0], actor, origFss)) then 1
    else
      var m := ChildrenEvaluated(conjunction, children[1..], actor, origFss);
      var prefix := [children[0]] + children[1..][..m];
      assert children[..m + 1] == prefix;
      assert prefix[0] == children[0] && prefix[1..] == children[1..][..m];
      assert forall j :: 1 <= j < |children| ==> children[1..][j - 1] == children[j];
      m + 1
  }

  /** OR: some child true, XOR invert. AND: every child true, XOR invert. */
  lemma CompoundSemantics(p: Predicate, actor: Option<Actor>, origFss: Option<FootstepSet>)
    requires p.Compound?
    ensures p.conjunction == OR ==>
              Evaluate(p, actor, origFss) == ((exists i :: 0 <= i < |p.predicates| && Evaluate(p.predicates[i], actor, origFss)) != p.invert)
    ensures p.conjunction == AND ==>
              Evaluate(p, actor, origFss) == ((forall i :: 0 <= i < |p.predicates| ==> Evaluate(p.predicates[i], actor, origFss)) != p.invert)
  {
  }

  /** An empty AND is true and an empty OR is false, before the node's own invert. */
  lemma EmptyCompound(invert: bool, actor: Option<Actor>, origFss: Option<FootstepSet>)
    ensures Evaluate(Compound(invert, AND, []), actor, origFss) == !invert
    ensures Evaluate(Compound(invert, OR, []), actor, origFss) == invert
  {
  }

  /**
   * Once a decisive child is met, the children after it cannot change the outcome: the
   * compound evaluates the same whatever follows.
   */
  lemma {:induction false} LaterChildrenIgnored(invert: bool, conjunction: Conjunction, children: seq<Predicate>,
                                                k: nat, rest: seq<Predicate>,
                                                actor: Option<Actor>, origFss: Option<FootstepSet>)
    requires k < |children|
    requires Decisive(conjunction, Evaluate(children[k], actor, origFss))
    ensures ChildrenEvaluated(conjunction, children[..k + 1] + rest, actor, origFss) <= k + 1
    ensures Evaluate(Compound(invert, conjunction, children[..k + 1] + rest), actor, origFss)
              == ((conjunction == OR) != invert)
  {
    var cs := children[..k + 1] + rest;
    assert cs[k] == children[k];
  }

  /**
   * Flipping a node's invert flag negates its result, except for the base class and for an
   * armor test without an actor, which stay false.
   */
  lemma InvertNegates(p: Predicate, actor: Option<Actor>, origFss: Option<FootstepSet>)
    requires !p.Base? && !(p.ArmorHasKeyword? && actor.None?)
    ensures Evaluate(p.(invert := !p.invert), actor, origFss) == !Evaluate(p, actor, origFss)
  {
  }

  /** A one-child AND is its child, and inverting that AND negates the child. */
  lemma SingleChildAnd(child: Predicate, actor: Option<Actor>, origFss: Option<FootstepSet>)
    ensures Evaluate(Compound(false, AND, [child]), actor, origFss) == Evaluate(child, actor, origFss)
    ensures Evaluate(Compound(true, AND, [child]), actor, origFss) == !Evaluate(child, actor, origFss)
  {
  }
}
