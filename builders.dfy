/**
 * BasePredicate::FromToml and Rule::FromToml: the configuration grammar from a parsed TOML
 * table to predicates and rules, with every load-time exception as an error value.
 */
module Builders {
  import opened Wrappers
  import opened TomlTree
  import opened Game
  import opened PathTokens
  import opened Predicates
  import opened Rules

  /** The exceptions the builders throw. */
  datatype ConfigError =
    | BadOptionalAccess(key: string)         // .value() on a field that is absent or of another kind
    | InvalidActorPath                       // "Invalid path for actor subject"
    | UnknownSlot(name: string)              // slot_map.at on a name it lacks (std::out_of_range)
    | InvalidArmorPath                       // "Invalid path for armor subject"
    | FootstepSetNotFound(mod: string, formID: FormID)
    | InvalidCondition                       // an element of a predicate array that is not a table
    | InvalidSubject                         // "Invalid pred subject"
    | ReplacementNotFound                    // "Could not find replacement"

  /** slot_map: the armor slot names a path may use. */
  const SlotMap: map<string, Slot> := map["feet" := Feet]

  /** The only slot name a path may use is `feet`, and it names the feet slot. */
  lemma SlotMapFeetOnly(name: string)
    ensures name in SlotMap <==> name == "feet"
    ensures name in SlotMap ==> SlotMap[name] == Feet
  {
  }

  /** `view.value<T>().value()`: the value, or the bad-optional-access exception. */
  function Required<T>(v: Option<T>, key: string): (r: Result<T, ConfigError>)
    ensures r.Ok? <==> v.Some?
  {
    match v
    case Some(x) => Ok(x)
    case None => Err(BadOptionalAccess(key))
  }

  /** value<FormID>(): a 32-bit unsigned integer. */
  function FormIDValue(view: Option<Node>): (r: Option<FormID>)
    ensures forall id: FormID :: r == Some(id) <==> view == Some(Integer(id))
  {
    match IntegerValue(view, 0, 0xFFFF_FFFF)
    case Some(i) => Some(i)
    case None => None
  }

  /** `view.value_or(0)` read as a C++ int. */
  function Int32ValueOr(view: Option<Node>, default: Int32): (r: Int32)
    ensures r == default || view == Some(Integer(r))
    ensures forall i: Int32 :: view == Some(Integer(i)) ==> r == i
  {
    match IntegerValue(view, -0x8000_0000, 0x7FFF_FFFF)
    case Some(i) => i
    case None => default
  }

  /** The result of a predicate array with some leading predicates put in front. */
  function Prepend(ps: seq<Predicate>, r: Result<seq<Predicate>, ConfigError>): Result<seq<Predicate>, ConfigError> {
    match r
    case Ok(qs) => Ok(ps + qs)
    case Err(e) => Err(e)
  }

  /** BasePredicate::FromToml on a table. */
  function PredicateOf(t: Node, registry: Registry): (r: Result<Predicate, ConfigError>)
    requires t.Table?
    ensures r.Ok? ==> !r.value.Base?
    decreases t, 1
  {
    var path :- Required(StringValue(Get(Some(t), "pred")), "pred");
    PredicateOfTokens(t, Split(path, Dot), registry)
  }

  /** The rest of BasePredicate::FromToml: the branch on the tokens of the table's path. */
  function PredicateOfTokens(t: Node, tokens: seq<string>, registry: Registry): (r: Result<Predicate, ConfigError>)
    requires t.Table? && |tokens| >= 1
    ensures r.Ok? ==> !r.value.Base?
    decreases t, 0
  {
    var table := Some(t);
    var invert := BoolValue(Get(table, "not")).GetOr(false);
    if tokens[0] == "actor" && |tokens| >= 2 then
      if tokens[1] == "isFemale" then
        Ok(ActorIsFemale(invert))
      else if tokens[1] == "hasKeyword" then
        var keyword :- Required(StringValue(Get(table, "keyword")), "keyword");
        Ok(ActorHasKeyword(invert, keyword))
      else
        Err(InvalidActorPath)
    else if tokens[0] == "armor" && |tokens| >= 3 then
      if tokens[1] !in SlotMap then
        Err(UnknownSlot(tokens[1]))
      else if tokens[2] == "hasKeyword" then
        var keyword :- Required(StringValue(Get(table, "keyword")), "keyword");
        Ok(ArmorHasKeyword(invert, SlotMap[tokens[1]], keyword))
      else
        Err(InvalidArmorPath)
    else if tokens[0] == "footstepSet" then
      var mod :- Required(StringValue(Get(table, "mod")), "mod");
      var formID :- Required(FormIDValue(Get(table, "formID")), "formID");
      match LookupForm(registry, formID, mod)
      case None => Err(FootstepSetNotFound(mod, formID))
      case Some(fss) => Ok(FootstepSetFormID(invert, fss))
    else if tokens[0] == "AND" || tokens[0] == "OR" then
      var conjunction := if tokens[0] == "AND" then AND else OR;
      var preds := Get(table, "preds");
      if preds.Some? && preds.value.Array? then
        var children :- PredicatesOf(preds.value.elems, registry);
        Ok(Compound(invert, conjunction, children))
      else
        Ok(Compound(invert, conjunction, []))
    else
      Err(InvalidSubject)
  }

  /**
   * The for_each over a predicate array: every element built in order, or the first failure
   * (a non-table element, or the error of the element's own build).
   */
  function PredicatesOf(elems: seq<Node>, registry: Registry): (r: Result<seq<Predicate>, ConfigError>)
    ensures r.Ok? ==> |r.value| == |elems|
    ensures r.Ok? ==> forall i :: 0 <= i < |elems| ==>
                        elems[i].Table? && PredicateOf(elems[i], registry) == Ok(r.value[i])
    decreases elems
  {
    if elems == [] then Ok([])
    else if !elems[0].Table? then Err(InvalidCondition)
    else
      var p :- PredicateOf(elems[0], registry);
      var ps :- PredicatesOf(elems[1..], registry);
      Ok([p] + ps)
  }

  /** Rule::FromToml on a table. */
  function RuleOf(t: Node, registry: Registry): (r: Result<Rule, ConfigError>)
    requires t.Table?
    ensures r.Ok? ==> r.value.evalMode == ALL
    ensures r.Ok? ==> StringValue(Get(Some(t), "name")) == Some(r.value.name)
    ensures r.Ok? ==> exists mod, formID ::
                        StringValue(Get(Get(Some(t), "replacement"), "mod")) == Some(mod) &&
                        FormIDValue(Get(Get(Some(t), "replacement"), "formID")) == Some(formID) &&
                        LookupForm(registry, formID, mod) == Some(r.value.replacement)
  {
    var table := Some(t);
    var name :- Required(StringValue(Get(table, "name")), "name");
    // Both arms of the source's choice give ALL: no configuration selects ANY.
    var evalMode := if StringValue(Get(table, "evaluate")).GetOr("all") == "all" then ALL else ALL;
    var replacementMod :- Required(StringValue(Get(Get(table, "replacement"), "mod")), "mod");
    var replacementFormID :- Required(FormIDValue(Get(Get(table, "replacement"), "formID")), "formID");
    var replacement :- match LookupForm(registry, replacementFormID, replacementMod)
                       case None => Err(ReplacementNotFound)
                       case Some(fss) => Ok(fss);
    var conds := Get(table, "conditions");
    var conditions :- if conds.Some? && conds.value.Array? then PredicatesOf(conds.value.elems, registry) else Ok([]);
    Ok(Rule(name, Int32ValueOr(Get(table, "priority"), 0), replacement,
            BoolValue(Get(table, "short_circuit")).GetOr(false), evalMode, conditions))
  }

  /** BasePredicate::FromToml. */
  method PredicateFromToml(t: Node, registry: Registry) returns (r: Result<Predicate, ConfigError>)
    requires t.Table?
    ensures r == PredicateOf(t, registry)
    decreases t
  {
    var table := Some(t);
    var path := StringValue(Get(table, "pred"));
    if path.None? {
      return Err(BadOptionalAccess("pred"));
    }
    var tokens := TokenizePath(path.value, [], Dot);
    // The source's "Pred path length < 1" check: a split always has a token.
    assert |tokens| >= 1;
    var invert := BoolValue(Get(table, "not")).GetOr(false);
    if tokens[0] == "actor" && |tokens| >= 2 {
      if tokens[1] == "isFemale" {
        return Ok(ActorIsFemale(invert));
      } else if tokens[1] == "hasKeyword" {
        var keyword := StringValue(Get(table, "keyword"));
        if keyword.None? {
          return Err(BadOptionalAccess("keyword"));
        }
        return Ok(ActorHasKeyword(invert, keyword.value));
      } else {
        return Err(InvalidActorPath);
      }
    } else if tokens[0] == "armor" && |tokens| >= 3 {
      if tokens[1] !in SlotMap {
        return Err(UnknownSlot(tokens[1]));
      }
      var slot := SlotMap[tokens[1]];
      if tokens[2] == "hasKeyword" {
        var keyword := StringValue(Get(table, "keyword"));
        if keyword.None? {
          return Err(BadOptionalAccess("keyword"));
        }
        return Ok(ArmorHasKeyword(invert, slot, keyword.value));
      } else {
        return Err(InvalidArmorPath);
      }
    } else if tokens[0] == "footstepSet" {
      var mod := StringValue(Get(table, "mod"));
      if mod.None? {
        return Err(BadOptionalAccess("mod"));
      }
      var formID := FormIDValue(Get(table, "formID"));
      if formID.None? {
        return Err(BadOptionalAccess("formID"));
      }
      var fss := LookupForm(registry, formID.value, mod.value);
      if fss.None? {
        return Err(FootstepSetNotFound(mod.value, formID.value));
      }
      return Ok(FootstepSetFormID(invert, fss.value));
    } else if tokens[0] == "AND" || tokens[0] == "OR" {
      var conjunction := if tokens[0] == "AND" then AND else OR;
      var predicates: seq<Predicate> := [];
      var preds := Get(table, "preds");
      if preds.Some? && preds.value.Array? {
        var children := PredicatesFromArray(preds.value.elems, registry);
        if children.Err? {
          return Err(children.error);
        }
        predicates := children.value;
      }
      return Ok(Compound(invert, conjunction, predicates));
    } else {
      return Err(InvalidSubject);
    }
  }

  /** The for_each that builds each table of a predicate array and push_backs the result. */
  method PredicatesFromArray(elems: seq<Node>, registry: Registry) returns (r: Result<seq<Predicate>, ConfigError>)
    ensures r == PredicatesOf(elems, registry)
    decreases elems, 0
  {
    var predicates: seq<Predicate> := [];
    var i := 0;
    PrependNothing(PredicatesOf(elems, registry));
    while i < |elems|
      invariant 0 <= i <= |elems|
      invariant Prepend(predicates, PredicatesOf(elems[i..], registry)) == PredicatesOf(elems, registry)
    {
      PredicatesOfStep(elems[i..], registry);
      assert elems[i..][0] == elems[i] && elems[i..][1..] == elems[i + 1..];
      if !elems[i].Table? {
        return Err(InvalidCondition);
      }
      var p := PredicateFromToml(elems[i], registry);
      if p.Err? {
        return Err(p.error);
      }
      PrependTwice(predicates, [p.value], PredicatesOf(elems[i + 1..], registry));
      predicates := predicates + [p.value];
      i := i + 1;
    }
    assert elems[i..] == [];
    assert predicates + [] == predicates;
    return Ok(predicates);
  }

  /** One step of the predicate array's for_each. */
  lemma PredicatesOfStep(elems: seq<Node>, registry: Registry)
    requires elems != []
    ensures PredicatesOf(elems, registry)
              == if !elems[0].Table? then Err(InvalidCondition)
                 else match PredicateOf(elems[0], registry)
                      case Err(e) => Err(e)
                      case Ok(p) => Prepend([p], PredicatesOf(elems[1..], registry))
  {
  }

  lemma PrependNothing(r: Result<seq<Predicate>, ConfigError>)
    ensures Prepend([], r) == r
  {
    if r.Ok? {
      assert [] + r.value == r.value;
    }
  }

  lemma PrependTwice(ps: seq<Predicate>, qs: seq<Predicate>, r: Result<seq<Predicate>, ConfigError>)
    ensures Prepend(ps, Prepend(qs, r)) == Prepend(ps + qs, r)
  {
    if r.Ok? {
      assert ps + (qs + r.value) == (ps + qs) + r.value;
    }
  }

  /** Rule::FromToml. */
  method RuleFromToml(t: Node, registry: Registry) returns (r: Result<Rule, ConfigError>)
    requires t.Table?
    ensures r == RuleOf(t, registry)
  {
    var table := Some(t);
    var name := StringValue(Get(table, "name"));
    if name.None? {
      return Err(BadOptionalAccess("name"));
    }
    var evalMode := if StringValue(Get(table, "evaluate")).GetOr("all") == "all" then ALL else ALL;
    var replacementMod := StringValue(Get(Get(table, "replacement"), "mod"));
    if replacementMod.None? {
      return Err(BadOptionalAccess("mod"));
    }
    var replacementFormID := FormIDValue(Get(Get(table, "replacement"), "formID"));
    if replacementFormID.None? {
      return Err(BadOptionalAccess("formID"));
    }
    var replacement := LookupForm(registry, replacementFormID.value, replacementMod.value);
    if replacement.None? {
      return Err(ReplacementNotFound);
    }
    var conditions: seq<Predicate> := [];
    var conds := Get(table, "conditions");
    if conds.Some? && conds.value.Array? {
      var built := PredicatesFromArray(conds.value.elems, registry);
      if built.Err? {
        return Err(built.error);
      }
      conditions := built.value;
    }
    return Ok(Rule(name.value, Int32ValueOr(Get(table, "priority"), 0), replacement.value,
                   BoolValue(Get(table, "short_circuit")).GetOr(false), evalMode, conditions));
  }
}
