/** Laws of the configuration grammar: what each table builds, which tables fail and why, round trips. */
module BuilderLaws {
  import opened Wrappers
  import opened TomlTree
  import opened Game
  import opened PathTokens
  import opened Predicates
  import opened Rules
  import opened Builders

  /** The subject path of a predicate table, when it has one. */
  function PathOf(t: Node): Option<string> {
    StringValue(Get(Some(t), "pred"))
  }

  /** How many path tokens the branch chosen by a first token inspects. */
  function TokensNeeded(first: string): nat {
    if first == "actor" then 2 else if first == "armor" then 3 else 1
  }

  /** The `not` flag of a predicate table, false when absent. */
  function InvertOf(t: Node): bool {
    BoolValue(Get(Some(t), "not")).GetOr(false)
  }

  /** A predicate table is read by splitting its path and branching on the tokens; no path is an error. */
  lemma PredicateOfPath(t: Node, registry: Registry)
    requires t.Table?
    ensures PathOf(t).None? ==> PredicateOf(t, registry) == Err(BadOptionalAccess("pred"))
    ensures PathOf(t).Some? ==>
              PredicateOf(t, registry) == PredicateOfTokens(t, Split(PathOf(t).value, Dot), registry)
  {
  }

  /** An unknown first token, or "actor"/"armor" followed by too few tokens, is an invalid subject. */
  lemma SubjectErrors(t: Node, tokens: seq<string>, registry: Registry)
    requires t.Table? && |tokens| >= 1
    ensures tokens[0] !in {"actor", "armor", "footstepSet", "AND", "OR"} ==>
              PredicateOfTokens(t, tokens, registry) == Err(InvalidSubject)
    ensures tokens[0] in {"actor", "armor"} && |tokens| < TokensNeeded(tokens[0]) ==>
              PredicateOfTokens(t, tokens, registry) == Err(InvalidSubject)
  {
  }

  /** The actor subject: isFemale, hasKeyword with its keyword, or an invalid actor path. */
  lemma ActorBuild(t: Node, tokens: seq<string>, registry: Registry)
    requires t.Table? && |tokens| >= 2 && tokens[0] == "actor"
    ensures tokens[1] == "isFemale" ==> PredicateOfTokens(t, tokens, registry) == Ok(ActorIsFemale(InvertOf(t)))
    ensures tokens[1] == "hasKeyword" ==>
              PredicateOfTokens(t, tokens, registry) ==
                match StringValue(Get(Some(t), "keyword"))
                case None => Err(BadOptionalAccess("keyword"))
                case Some(k) => Ok(ActorHasKeyword(InvertOf(t), k))
    ensures tokens[1] !in {"isFemale", "hasKeyword"} ==> PredicateOfTokens(t, tokens, registry) == Err(InvalidActorPath)
  {
  }

  /** The armor subject: the slot name is looked up first, then the test; only the feet slot is known. */
  lemma ArmorBuild(t: Node, tokens: seq<string>, registry: Registry)
    requires t.Table? && |tokens| >= 3 && tokens[0] == "armor"
    ensures tokens[1] != "feet" ==> PredicateOfTokens(t, tokens, registry) == Err(UnknownSlot(tokens[1]))
    ensures tokens[1] == "feet" && tokens[2] != "hasKeyword" ==>
              PredicateOfTokens(t, tokens, registry) == Err(InvalidArmorPath)
    ensures tokens[1] == "feet" && tokens[2] == "hasKeyword" ==>
              PredicateOfTokens(t, tokens, registry) ==
                match StringValue(Get(Some(t), "keyword"))
                case None => Err(BadOptionalAccess("keyword"))
                case Some(k) => Ok(ArmorHasKeyword(InvertOf(t), Feet, k))
  {
  }

  /** The footstep-set subject: a missing mod or form ID, a form the registry lacks, or the form found. */
  lemma FootstepSetBuild(t: Node, tokens: seq<string>, registry: Registry)
    requires t.Table? && |tokens| >= 1 && tokens[0] == "footstepSet"
    ensures StringValue(Get(Some(t), "mod")).None? ==>
              PredicateOfTokens(t, tokens, registry) == Err(BadOptionalAccess("mod"))
    ensures StringValue(Get(Some(t), "mod")).Some? && FormIDValue(Get(Some(t), "formID")).None? ==>
              PredicateOfTokens(t, tokens, registry) == Err(BadOptionalAccess("formID"))
    ensures forall mod, formID ::
              StringValue(Get(Some(t), "mod")) == Some(mod) && FormIDValue(Get(Some(t), "formID")) == Some(formID) ==>
                PredicateOfTokens(t, tokens, registry) ==
                  if (mod, formID) in registry then Ok(FootstepSetFormID(InvertOf(t), registry[(mod, formID)]))
                  else Err(FootstepSetNotFound(mod, formID))
  {
  }

  /**
   * A compound subject: its children are the built elements of `preds`, none when `preds` is
   * absent or not an array; the first failing element's error is the compound's error.
   */
  lemma CompoundBuild(t: Node, tokens: seq<string>, registry: Registry)
    requires t.Table? && |tokens| >= 1 && tokens[0] in {"AND", "OR"}
    ensures var conjunction := if tokens[0] == "AND" then AND else OR;
            var preds := Get(Some(t), "preds");
            PredicateOfTokens(t, tokens, registry) ==
              if !(preds.Some? && preds.value.Array?) then Ok(Compound(InvertOf(t), conjunction, []))
              else match PredicatesOf(preds.value.elems, registry)
                   case Err(e) => Err(e)
                   case Ok(children) => Ok(Compound(InvertOf(t), conjunction, children))
  {
  }

  /** A predicate array with an element that is not a table fails. */
  lemma {:induction false} NonTableElementFails(elems: seq<Node>, i: nat, registry: Registry)
    requires i < |elems| && !elems[i].Table?
    ensures PredicatesOf(elems, registry).Err?
    decreases i
  {
    if i > 0 && elems[0].Table? && PredicateOf(elems[0], registry).Ok? {
      assert elems[1..][i - 1] == elems[i];
      NonTableElementFails(elems[1..], i - 1, registry);
    }
  }

  /** The table with its path replaced. */
  function WithPath(t: Node, path: string): (r: Node)
    requires t.Table?
    ensures r.Table? && PathOf(r) == Some(path)
  {
    Table(t.entries["pred" := String(path)])
  }

  /** The branch on the tokens never reads the table's path. */
  lemma TokensIgnorePath(t: Node, path: string, tokens: seq<string>, registry: Registry)
    requires t.Table? && |tokens| >= 1
    ensures PredicateOfTokens(WithPath(t, path), tokens, registry) == PredicateOfTokens(t, tokens, registry)
  {
    var t' := WithPath(t, path);
    assert Get(Some(t'), "not") == Get(Some(t), "not");
    assert Get(Some(t'), "keyword") == Get(Some(t), "keyword");
    assert Get(Some(t'), "mod") == Get(Some(t), "mod");
    assert Get(Some(t'), "formID") == Get(Some(t), "formID");
    assert Get(Some(t'), "preds") == Get(Some(t), "preds");
  }

  /** The branch on the tokens looks no further than the tokens its first token calls for. */
  lemma TokensPastNeededIgnored(t: Node, tokens: seq<string>, more: seq<string>, registry: Registry)
    requires t.Table? && |tokens| >= 1 && |tokens| >= TokensNeeded(tokens[0])
    ensures PredicateOfTokens(t, tokens + more, registry) == PredicateOfTokens(t, tokens, registry)
  {
    var tokens' := tokens + more;
    assert tokens'[0] == tokens[0];
    assert |tokens| >= 2 ==> tokens'[1] == tokens[1];
    assert |tokens| >= 3 ==> tokens'[2] == tokens[2];
  }

  /**
   * Tokens past the ones the chosen branch inspects make no difference:
   * "actor.isFemale.x" builds what "actor.isFemale" builds.
   */
  lemma TrailingTokensIgnored(t: Node, extra: string, registry: Registry)
    requires t.Table? && PathOf(t).Some?
    requires |Split(PathOf(t).value, Dot)| >= TokensNeeded(Split(PathOf(t).value, Dot)[0])
    ensures PredicateOf(WithPath(t, PathOf(t).value + [Dot] + extra), registry) == PredicateOf(t, registry)
  {
    var path := PathOf(t).value;
    var longer := path + [Dot] + extra;
    SplitConcat(path, extra, Dot);
    var t' := WithPath(t, longer);
    PredicateOfPath(t, registry);
    PredicateOfPath(t', registry);
    TokensIgnorePath(t, longer, Split(longer, Dot), registry);
    TokensPastNeededIgnored(t, Split(path, Dot), Split(extra, Dot), registry);
  }

  /** Names under which the registry holds footstep sets, as a configuration writes them. */
  ghost predicate NamesResolve(names: map<FootstepSet, (string, FormID)>, registry: Registry) {
    forall f :: f in names ==> names[f] in registry && registry[names[f]] == f
  }

  /** A predicate the grammar can express: no base class, no slot but the feet, only named footstep sets. */
  ghost predicate Encodable(p: Predicate, names: map<FootstepSet, (string, FormID)>)
    decreases p
  {
    match p
    case Base(_) => false
    case ActorIsFemale(_) => true
    case ActorHasKeyword(_, _) => true
    case ArmorHasKeyword(_, slot, _) => slot == Feet
    case FootstepSetFormID(_, fss) => fss in names
    case Compound(_, _, children) => forall i :: 0 <= i < |children| ==> Encodable(children[i], names)
  }

  /** The tables a configuration writes for each kind of predicate. */
  function FlagTable(path: string, invert: bool): Node {
    Table(map["pred" := String(path), "not" := Boolean(invert)])
  }

  function KeywordTable(path: string, invert: bool, keyword: string): Node {
    Table(map["pred" := String(path), "not" := Boolean(invert), "keyword" := String(keyword)])
  }

  function FormTable(path: string, invert: bool, mod: string, formID: FormID): Node {
    Table(map["pred" := String(path), "not" := Boolean(invert), "mod" := String(mod), "formID" := Integer(formID)])
  }

  function ConjunctionName(conjunction: Conjunction): string {
    if conjunction == AND then "AND" else "OR"
  }

  function CompoundTable(invert: bool, conjunction: Conjunction, elems: seq<Node>): Node {
    Table(map["pred" := String(ConjunctionName(conjunction)), "not" := Boolean(invert), "preds" := Array(elems)])
  }

  /** The configuration table that describes a predicate. */
  ghost function Encode(p: Predicate, names: map<FootstepSet, (string, FormID)>): Node
    requires Encodable(p, names)
    decreases p
  {
    match p
    case Base(_) => assert false; Other
    case ActorIsFemale(invert) => FlagTable("actor.isFemale", invert)
    case ActorHasKeyword(invert, keyword) => KeywordTable("actor.hasKeyword", invert, keyword)
    case ArmorHasKeyword(invert, _, keyword) => KeywordTable("armor.feet.hasKeyword", invert, keyword)
    case FootstepSetFormID(invert, fss) => FormTable("footstepSet", invert, names[fss].0, names[fss].1)
    case Compound(invert, conjunction, children) => CompoundTable(invert, conjunction, EncodeAll(children, names))
  }

  /** The configuration array that describes a sequence of predicates. */
  ghost function EncodeAll(ps: seq<Predicate>, names: map<FootstepSet, (string, FormID)>): (r: seq<Node>)
    requires forall i :: 0 <= i < |ps| ==> Encodable(ps[i], names)
    ensures |r| == |ps|
    decreases ps
  {
    if ps == [] then [] else [Encode(ps[0], names)] + EncodeAll(ps[1..], names)
  }

  /** The paths the builder recognises, split into their tokens. */
  lemma IsFemalePath()
    ensures Split("actor.isFemale", Dot) == ["actor", "isFemale"]
  {
    assert "actor" + [Dot] + "isFemale" == "actor.isFemale";
    SplitPair("actor", "isFemale", Dot);
  }

  lemma HasKeywordPath()
    ensures Split("actor.hasKeyword", Dot) == ["actor", "hasKeyword"]
  {
    assert "actor" + [Dot] + "hasKeyword" == "actor.hasKeyword";
    SplitPair("actor", "hasKeyword", Dot);
  }

  lemma ArmorPath()
    ensures Split("armor.feet.hasKeyword", Dot) == ["armor", "feet", "hasKeyword"]
  {
    assert "armor" + [Dot] + "feet" + [Dot] + "hasKeyword" == "armor.feet.hasKeyword";
    SplitTriple("armor", "feet", "hasKeyword", Dot);
  }

  lemma FootstepSetPath()
    ensures Split("footstepSet", Dot) == ["footstepSet"]
  {
    SplitSingle("footstepSet", Dot);
  }

  /** What the builder reads from each kind of table. */
  lemma FlagTableReads(path: string, invert: bool)
    ensures PathOf(FlagTable(path, invert)) == Some(path) && InvertOf(FlagTable(path, invert)) == invert
  {
    var t := FlagTable(path, invert);
    assert Get(Some(t), "pred") == Some(String(path));
    assert Get(Some(t), "not") == Some(Boolean(invert));
  }

  lemma KeywordTableReads(path: string, invert: bool, keyword: string)
    ensures var t := KeywordTable(path, invert, keyword);
            PathOf(t) == Some(path) && InvertOf(t) == invert && StringValue(Get(Some(t), "keyword")) == Some(keyword)
  {
    var t := KeywordTable(path, invert, keyword);
    assert Get(Some(t), "pred") == Some(String(path));
    assert Get(Some(t), "not") == Some(Boolean(invert));
    assert Get(Some(t), "keyword") == Some(String(keyword));
  }

  lemma FormTableReads(path: string, invert: bool, mod: string, formID: FormID)
    ensures var t := FormTable(path, invert, mod, formID);
            && PathOf(t) == Some(path) && InvertOf(t) == invert
            && StringValue(Get(Some(t), "mod")) == Some(mod) && FormIDValue(Get(Some(t), "formID")) == Some(formID)
  {
    var t := FormTable(path, invert, mod, formID);
    assert Get(Some(t), "pred") == Some(String(path));
    assert Get(Some(t), "not") == Some(Boolean(invert));
    assert Get(Some(t), "mod") == Some(String(mod));
    assert Get(Some(t), "formID") == Some(Integer(formID));
  }

  lemma CompoundTableReads(invert: bool, conjunction: Conjunction, elems: seq<Node>)
    ensures var t := CompoundTable(invert, conjunction, elems);
            PathOf(t) == Some(ConjunctionName(conjunction)) && InvertOf(t) == invert && Get(Some(t), "preds") == Some(Array(elems))
  {
    var t := CompoundTable(invert, conjunction, elems);
    assert Get(Some(t), "pred") == Some(String(ConjunctionName(conjunction)));
    assert Get(Some(t), "not") == Some(Boolean(invert));
    assert Get(Some(t), "preds") == Some(Array(elems));
  }

  /** Each table a configuration writes for a leaf predicate builds that predicate. */
  lemma IsFemaleTableBuild(invert: bool, registry: Registry)
    ensures PredicateOf(FlagTable("actor.isFemale", invert), registry) == Ok(ActorIsFemale(invert))
  {
    var t := FlagTable("actor.isFemale", invert);
    FlagTableReads("actor.isFemale", invert);
    PredicateOfPath(t, registry);
    IsFemalePath();
    ActorBuild(t, ["actor", "isFemale"], registry);
  }

  lemma ActorKeywordTableBuild(invert: bool, keyword: string, registry: Registry)
    ensures PredicateOf(KeywordTable("actor.hasKeyword", invert, keyword), registry) == Ok(ActorHasKeyword(invert, keyword))
  {
    var t := KeywordTable("actor.hasKeyword", invert, keyword);
    KeywordTableReads("actor.hasKeyword", invert, keyword);
    PredicateOfPath(t, registry);
    HasKeywordPath();
    ActorBuild(t, ["actor", "hasKeyword"], registry);
  }

  lemma FeetKeywordTableBuild(invert: bool, keyword: string, registry: Registry)
    ensures PredicateOf(KeywordTable("armor.feet.hasKeyword", invert, keyword), registry) ==
              Ok(ArmorHasKeyword(invert, Feet, keyword))
  {
    ArmorPath();
    ArmorKeywordBuild("armor.feet.hasKeyword", invert, keyword, registry);
  }

  lemma ArmorKeywordBuild(path: string, invert: bool, keyword: string, registry: Registry)
    requires Split(path, Dot) == ["armor", "feet", "hasKeyword"]
    ensures PredicateOf(KeywordTable(path, invert, keyword), registry) == Ok(ArmorHasKeyword(invert, Feet, keyword))
  {
    var t := KeywordTable(path, invert, keyword);
    KeywordTableReads(path, invert, keyword);
    PredicateOfPath(t, registry);
    ArmorBuild(t, ["armor", "feet", "hasKeyword"], registry);
  }

  lemma FootstepSetTableBuild(invert: bool, mod: string, formID: FormID, registry: Registry)
    requires (mod, formID) in registry
    ensures PredicateOf(FormTable("footstepSet", invert, mod, formID), registry) ==
              Ok(FootstepSetFormID(invert, registry[(mod, formID)]))
  {
    var t := FormTable("footstepSet", invert, mod, formID);
    FormTableReads("footstepSet", invert, mod, formID);
    PredicateOfPath(t, registry);
    FootstepSetPath();
    FootstepSetBuild(t, ["footstepSet"], registry);
  }

  lemma CompoundTableBuild(invert: bool, conjunction: Conjunction, elems: seq<Node>, registry: Registry)
    ensures PredicateOf(CompoundTable(invert, conjunction, elems), registry) ==
              match PredicatesOf(elems, registry)
              case Err(e) => Err(e)
              case Ok(children) => Ok(Compound(invert, conjunction, children))
  {
    var t := CompoundTable(invert, conjunction, elems);
    var name := ConjunctionName(conjunction);
    CompoundTableReads(invert, conjunction, elems);
    PredicateOfPath(t, registry);
    assert Dot !in name;
    SplitSingle(name, Dot);
    CompoundBuild(t, [name], registry);
  }

  /** Every expressible predicate is built back from the table that describes it. */
  lemma {:induction false} PredicateRoundTrip(p: Predicate, names: map<FootstepSet, (string, FormID)>, registry: Registry)
    requires Encodable(p, names) && NamesResolve(names, registry)
    ensures Encode(p, names).Table? && PredicateOf(Encode(p, names), registry) == Ok(p)
    decreases p, 1
  {
    match p
    case Base(_) =>
    case ActorIsFemale(invert) =>
      IsFemaleTableBuild(invert, registry);
    case ActorHasKeyword(invert, keyword) =>
      ActorKeywordTableBuild(invert, keyword, registry);
    case ArmorHasKeyword(invert, _, keyword) =>
      FeetKeywordTableBuild(invert, keyword, registry);
    case FootstepSetFormID(invert, fss) =>
      FootstepSetTableBuild(invert, names[fss].0, names[fss].1, registry);
    case Compound(invert, conjunction, children) =>
      PredicatesRoundTrip(children, names, registry);
      CompoundTableBuild(invert, conjunction, EncodeAll(children, names), registry);
  }

  /** Every sequence of expressible predicates is built back from the array that describes it. */
  lemma {:induction false} PredicatesRoundTrip(ps: seq<Predicate>, names: map<FootstepSet, (string, FormID)>, registry: Registry)
    requires (forall i :: 0 <= i < |ps| ==> Encodable(ps[i], names)) && NamesResolve(names, registry)
    ensures PredicatesOf(EncodeAll(ps, names), registry) == Ok(ps)
    decreases ps
  {
    if ps != [] {
      PredicateRoundTrip(ps[0], names, registry);
      PredicatesRoundTrip(ps[1..], names, registry);
      var es := EncodeAll(ps, names);
      assert es[0] == Encode(ps[0], names) && es[1..] == EncodeAll(ps[1..], names);
      assert [ps[0]] + ps[1..] == ps;
    }
  }

  /**
   * The build errors of a rule table, in the order the builder reads it: no name, no replacement
   * mod, no replacement form ID, a replacement the registry lacks.
   */
  lemma RuleErrors(t: Node, registry: Registry)
    requires t.Table?
    ensures var replacement := Get(Some(t), "replacement");
            && (StringValue(Get(Some(t), "name")).None? ==> RuleOf(t, registry) == Err(BadOptionalAccess("name")))
            && (StringValue(Get(Some(t), "name")).Some? && StringValue(Get(replacement, "mod")).None? ==>
                  RuleOf(t, registry) == Err(BadOptionalAccess("mod")))
            && (StringValue(Get(Some(t), "name")).Some? && StringValue(Get(replacement, "mod")).Some? &&
                FormIDValue(Get(replacement, "formID")).None? ==>
                  RuleOf(t, registry) == Err(BadOptionalAccess("formID")))
            && (forall mod, formID ::
                  StringValue(Get(Some(t), "name")).Some? &&
                  StringValue(Get(replacement, "mod")) == Some(mod) &&
                  FormIDValue(Get(replacement, "formID")) == Some(formID) && (mod, formID) !in registry ==>
                    RuleOf(t, registry) == Err(ReplacementNotFound))
  {
  }

  /**
   * The optional fields of a built rule: priority 0, no short circuit and no conditions when they
   * are absent; an in-range integer priority as written; the conditions built from their array.
   */
  lemma RuleDefaults(t: Node, registry: Registry)
    requires t.Table? && RuleOf(t, registry).Ok?
    ensures var r := RuleOf(t, registry).value;
            && (Get(Some(t), "priority").None? ==> r.priority == 0)
            && (forall i :: Get(Some(t), "priority") == Some(Integer(i)) && -0x8000_0000 <= i < 0x8000_0000 ==>
                  r.priority == i)
            && (Get(Some(t), "short_circuit").None? ==> !r.shortCircuit)
            && (forall b :: Get(Some(t), "short_circuit") == Some(Boolean(b)) ==> r.shortCircuit == b)
            && (Get(Some(t), "conditions").None? ==> r.conditions == [])
            && (forall elems :: Get(Some(t), "conditions") == Some(Array(elems)) ==>
                  PredicatesOf(elems, registry) == Ok(r.conditions))
  {
  }

  /** The table a configuration writes for a rule. */
  function RuleTable(name: string, priority: Int32, mod: string, formID: FormID, shortCircuit: bool,
                     conditions: seq<Node>): Node {
    Table(map["name" := String(name), "priority" := Integer(priority),
              "replacement" := Table(map["mod" := String(mod), "formID" := Integer(formID)]),
              "short_circuit" := Boolean(shortCircuit), "conditions" := Array(conditions)])
  }

  lemma RuleTableReads(name: string, priority: Int32, mod: string, formID: FormID, shortCircuit: bool,
                       conditions: seq<Node>)
    ensures var t := RuleTable(name, priority, mod, formID, shortCircuit, conditions);
            && StringValue(Get(Some(t), "name")) == Some(name)
            && StringValue(Get(Get(Some(t), "replacement"), "mod")) == Some(mod)
            && FormIDValue(Get(Get(Some(t), "replacement"), "formID")) == Some(formID)
            && Get(Some(t), "priority") == Some(Integer(priority))
            && Get(Some(t), "short_circuit") == Some(Boolean(shortCircuit))
            && Get(Some(t), "conditions") == Some(Array(conditions))
  {
    var t := RuleTable(name, priority, mod, formID, shortCircuit, conditions);
    var replacement := Table(map["mod" := String(mod), "formID" := Integer(formID)]);
    assert Get(Some(t), "name") == Some(String(name));
    assert Get(Some(t), "replacement") == Some(replacement);
    assert Get(Some(replacement), "mod") == Some(String(mod));
    assert Get(Some(replacement), "formID") == Some(Integer(formID));
    assert Get(Some(t), "priority") == Some(Integer(priority));
    assert Get(Some(t), "short_circuit") == Some(Boolean(shortCircuit));
    assert Get(Some(t), "conditions") == Some(Array(conditions));
  }

  /** A rule the grammar can express: evaluated under ALL, with a named replacement and expressible conditions. */
  ghost predicate RuleEncodable(rule: Rule, names: map<FootstepSet, (string, FormID)>) {
    && rule.evalMode == ALL
    && rule.replacement in names
    && forall i :: 0 <= i < |rule.conditions| ==> Encodable(rule.conditions[i], names)
  }

  /** The configuration table that describes a rule. */
  ghost function EncodeRule(rule: Rule, names: map<FootstepSet, (string, FormID)>): Node
    requires RuleEncodable(rule, names)
  {
    RuleTable(rule.name, rule.priority, names[rule.replacement].0, names[rule.replacement].1,
              rule.shortCircuit, EncodeAll(rule.conditions, names))
  }

  /** Every expressible rule is built back from the table that describes it. */
  lemma RuleRoundTrip(rule: Rule, names: map<FootstepSet, (string, FormID)>, registry: Registry)
    requires RuleEncodable(rule, names) && NamesResolve(names, registry)
    ensures EncodeRule(rule, names).Table? && RuleOf(EncodeRule(rule, names), registry) == Ok(rule)
  {
    var (mod, formID) := names[rule.replacement];
    var conditions := EncodeAll(rule.conditions, names);
    RuleTableReads(rule.name, rule.priority, mod, formID, rule.shortCircuit, conditions);
    PredicatesRoundTrip(rule.conditions, names, registry);
    assert (mod, formID) in registry;
  }
}
