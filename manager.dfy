/**
 * RulesManager: the rules loaded once from the configuration directory and sorted, and the
 * resolution of an actor's footstep set through them.
 */
module Manager {
  import opened Wrappers
  import opened TomlTree
  import opened Game
  import opened Rules
  import opened Builders
  import opened Sorting
  import opened FileNames
  import opened Seqs

  /**
   * The loop of RulesManager::Apply from the footstep set chosen so far: every rule is applied to
   * the ORIGINAL set; a match replaces the choice, and a short-circuiting match ends the loop.
   */
  function Fold(rules: seq<Rule>, actor: Option<Actor>, origFss: Option<FootstepSet>,
                cur: Option<FootstepSet>): (r: Option<FootstepSet>)
    ensures (forall i :: 0 <= i < |rules| ==> Apply(rules[i], actor, origFss).None?) ==> r == cur
    ensures (exists i :: 0 <= i < |rules| && Apply(rules[i], actor, origFss).Some?) ==>
              exists i :: 0 <= i < |rules| && Apply(rules[i], actor, origFss).Some? && r == Some(rules[i].replacement)
    decreases rules
  {
    if rules == [] then cur
    else
      var next := Fold(rules[1..], actor, origFss, cur);
      assert forall i :: 1 <= i < |rules| ==> rules[1..][i - 1] == rules[i];
      match Apply(rules[0], actor, origFss)
      case None => next
      case Some(fss) =>
        if rules[0].shortCircuit then Some(fss) else Fold(rules[1..], actor, origFss, Some(fss))
  }

  /** RulesManager::Apply: the footstep set the rules choose, starting from the original one. */
  function Resolve(rules: seq<Rule>, actor: Option<Actor>, origFss: Option<FootstepSet>): (r: Option<FootstepSet>)
    ensures r == origFss ||
            exists i :: 0 <= i < |rules| && Apply(rules[i], actor, origFss).Some? && r == Some(rules[i].replacement)
  {
    Fold(rules, actor, origFss, origFss)
  }

  /** A rule that matches. */
  predicate Matches(rule: Rule, actor: Option<Actor>, origFss: Option<FootstepSet>) {
    Apply(rule, actor, origFss).Some?
  }

  /**
   * The first matching short-circuit rule decides, whatever comes after it and whatever the
   * earlier matches chose.
   */
  lemma {:induction false} ShortCircuitWins(rules: seq<Rule>, k: nat, actor: Option<Actor>,
                                            origFss: Option<FootstepSet>, cur: Option<FootstepSet>)
    requires k < |rules| && Matches(rules[k], actor, origFss) && rules[k].shortCircuit
    requires forall j :: 0 <= j < k ==> !(Matches(rules[j], actor, origFss) && rules[j].shortCircuit)
    ensures Fold(rules, actor, origFss, cur) == Some(rules[k].replacement)
    decreases k
  {
    if k > 0 {
      var next := match Apply(rules[0], actor, origFss) case None => cur case Some(fss) => Some(fss);
      assert rules[1..][k - 1] == rules[k];
      assert forall j :: 0 <= j < k - 1 ==> rules[1..][j] == rules[j + 1];
      ShortCircuitWins(rules[1..], k - 1, actor, origFss, next);
    }
  }

  /** Without a matching short-circuit rule, the last matching rule decides. */
  lemma {:induction false} LastMatchWins(rules: seq<Rule>, k: nat, actor: Option<Actor>,
                                         origFss: Option<FootstepSet>, cur: Option<FootstepSet>)
    requires k < |rules| && Matches(rules[k], actor, origFss)
    requires forall j :: k < j < |rules| ==> !Matches(rules[j], actor, origFss)
    requires forall j :: 0 <= j < |rules| ==> !(Matches(rules[j], actor, origFss) && rules[j].shortCircuit)
    ensures Fold(rules, actor, origFss, cur) == Some(rules[k].replacement)
    decreases k
  {
    assert !rules[0].shortCircuit || !Matches(rules[0], actor, origFss);
    var next := match Apply(rules[0], actor, origFss) case None => cur case Some(fss) => Some(fss);
    if k > 0 {
      assert rules[1..][k - 1] == rules[k];
      assert forall j :: 0 <= j < |rules| - 1 ==> rules[1..][j] == rules[j + 1];
      LastMatchWins(rules[1..], k - 1, actor, origFss, next);
    } else {
      assert forall j :: 0 <= j < |rules| - 1 ==> rules[1..][j] == rules[j + 1];
      assert Fold(rules[1..], actor, origFss, next) == next;
    }
  }

  /** Once a rule matches, the starting choice is forgotten: the result depends on the rules alone. */
  lemma {:induction false} MatchForgetsStart(rules: seq<Rule>, actor: Option<Actor>, origFss: Option<FootstepSet>,
                                             cur1: Option<FootstepSet>, cur2: Option<FootstepSet>)
    requires exists i :: 0 <= i < |rules| && Matches(rules[i], actor, origFss)
    ensures Fold(rules, actor, origFss, cur1) == Fold(rules, actor, origFss, cur2)
    decreases rules
  {
    if !Matches(rules[0], actor, origFss) {
      var i :| 0 <= i < |rules| && Matches(rules[i], actor, origFss);
      assert rules[1..][i - 1] == rules[i];
      MatchForgetsStart(rules[1..], actor, origFss, cur1, cur2);
    }
  }

  /** With no matching rule the original footstep set is kept. */
  lemma NoMatchKeepsOriginal(rules: seq<Rule>, actor: Option<Actor>, origFss: Option<FootstepSet>)
    requires forall i :: 0 <= i < |rules| ==> !Matches(rules[i], actor, origFss)
    ensures Resolve(rules, actor, origFss) == origFss
  {
  }

  /** Rule::operator<'s key. */
  function Priority(rule: Rule): int {
    rule.priority
  }

  /** The sort of the rule vector by ascending priority, the order Rule::operator< defines. */
  function SortByPriority(rules: seq<Rule>): (r: seq<Rule>)
    ensures forall i, j :: 0 <= i < j < |r| ==> !Less(r[j], r[i])
    ensures multiset(r) == multiset(rules)
  {
    var r := SortBy(rules, Priority);
    assert forall i, j :: 0 <= i < j < |r| ==> Priority(r[i]) <= Priority(r[j]);
    r
  }

  /**
   * A rule as the manager's vector holds it: a shared_ptr, whose comparison is the comparison of
   * the addresses it holds.
   */
  datatype RulePtr = RulePtr(address: nat, rule: Rule)

  function Address(p: RulePtr): int {
    p.address
  }

  /** std::sort over the vector of shared_ptr as written: ordered by address, not by priority. */
  function SortByAddress(ptrs: seq<RulePtr>): (r: seq<RulePtr>)
    ensures forall i, j :: 0 <= i < j < |r| ==> r[i].address <= r[j].address
    ensures multiset(r) == multiset(ptrs)
  {
    var r := SortBy(ptrs, Address);
    assert forall i, j :: 0 <= i < j < |r| ==> Address(r[i]) <= Address(r[j]);
    r
  }

  /**
   * Two rules allocated high priority first: the address sort keeps them so, and the rule of
   * priority 10 precedes the rule of priority 0.
   */
  lemma AddressSortIgnoresPriority(high: Rule, low: Rule)
    requires high.priority == 10 && low.priority == 0
    ensures var sorted := SortByAddress([RulePtr(16, high), RulePtr(48, low)]);
            |sorted| == 2 && Less(sorted[1].rule, sorted[0].rule)
  {
    var ptrs := [RulePtr(16, high), RulePtr(48, low)];
    assert SortBy(ptrs[1..], Address) == [RulePtr(48, low)];
    assert SortBy(ptrs, Address) == [RulePtr(16, high), RulePtr(48, low)];
  }

  /** A directory entry: its file name, whether it is a regular file, and its parse (None on a parse error). */
  datatype DirEntry = DirEntry(filename: string, isRegularFile: bool, document: Option<Node>)

  /**
   * The for_each over a document's `rules` array: the rules built until the first element that is
   * not a table or fails to build; those already built stay loaded.
   */
  function RulesOfArray(elems: seq<Node>, registry: Registry): (r: seq<Rule>)
    ensures |r| <= |elems|
    decreases elems
  {
    if elems == [] || !elems[0].Table? then []
    else match RuleOf(elems[0], registry)
      case Err(_) => []
      case Ok(rule) => [rule] + RulesOfArray(elems[1..], registry)
  }

  /**
   * The rules loaded from an array are the built elements before the first element that is not
   * a table or does not build.
   */
  lemma {:induction false} RulesOfArrayPrefix(elems: seq<Node>, registry: Registry)
    ensures var r := RulesOfArray(elems, registry);
            && (forall i :: 0 <= i < |r| ==> elems[i].Table? && RuleOf(elems[i], registry) == Ok(r[i]))
            && (|r| < |elems| ==> !(elems[|r|].Table? && RuleOf(elems[|r|], registry).Ok?))
    decreases elems
  {
    if elems != [] && elems[0].Table? && RuleOf(elems[0], registry).Ok? {
      var rest := RulesOfArray(elems[1..], registry);
      RulesOfArrayPrefix(elems[1..], registry);
      var r := [RuleOf(elems[0], registry).value] + rest;
      assert RulesOfArray(elems, registry) == r;
      forall i | 1 <= i < |r|
        ensures elems[i].Table? && RuleOf(elems[i], registry) == Ok(r[i])
      {
        assert r[i] == rest[i - 1] && elems[i] == elems[1..][i - 1];
      }
      assert |r| < |elems| ==> elems[|r|] == elems[1..][|rest|];
    }
  }

  /** Whether the loader reads an entry: a regular file with the extension ".toml". */
  predicate Selected(entry: DirEntry)
    ensures Selected(entry) <==> entry.isRegularFile && EndsInToml(entry.filename)
  {
    TomlExtension(entry.filename);
    entry.isRegularFile && Extension(entry.filename) == TomlSuffix
  }

  /** The rules one directory entry contributes. */
  function DocumentRules(entry: DirEntry, registry: Registry): (r: seq<Rule>)
    ensures r != [] ==> Selected(entry) && entry.document.Some?
    ensures Selected(entry) && entry.document.Some? ==>
              var rs := Get(entry.document, "rules");
              r == if rs.Some? && rs.value.Array? then RulesOfArray(rs.value.elems, registry) else []
  {
    if !Selected(entry) then []
    else match entry.document
      case None => []
      case Some(doc) =>
        var rs := Get(Some(doc), "rules");
        if rs.Some? && rs.value.Array? then RulesOfArray(rs.value.elems, registry) else []
  }

  /** The rules of the entries in directory order, before sorting. */
  function LoadedRules(entries: seq<DirEntry>, registry: Registry): seq<Rule> {
    FlatMap((e: DirEntry) => DocumentRules(e, registry), entries)
  }

  /** The first entry's rules come first, ahead of the rules of the entries after it. */
  lemma LoadedRulesFirst(entries: seq<DirEntry>, registry: Registry)
    requires entries != []
    ensures LoadedRules(entries, registry) ==
              DocumentRules(entries[0], registry) + LoadedRules(entries[1..], registry)
  {
    FlatMapFirst((e: DirEntry) => DocumentRules(e, registry), entries);
  }

  /** Loading a directory loads each part of it, in order. */
  lemma LoadedRulesAppend(a: seq<DirEntry>, b: seq<DirEntry>, registry: Registry)
    ensures LoadedRules(a + b, registry) == LoadedRules(a, registry) + LoadedRules(b, registry)
  {
    FlatMapAppend((e: DirEntry) => DocumentRules(e, registry), a, b);
  }

  /** Every loaded rule was built from a rule table of a selected entry that parsed. */
  lemma LoadedRulesOrigin(entries: seq<DirEntry>, registry: Registry, k: nat)
    requires k < |LoadedRules(entries, registry)|
    ensures exists i :: 0 <= i < |entries| && Selected(entries[i]) && entries[i].document.Some? &&
              LoadedRules(entries, registry)[k] in DocumentRules(entries[i], registry)
  {
    FlatMapOrigin((e: DirEntry) => DocumentRules(e, registry), entries, k);
  }

  /** The manager: its rule vector and whether the one-time load has run. */
  class RulesManager {
    var rules: seq<Rule>
    var initialized: bool

    /** Before the load there are no rules; after it, the rules are in priority order. */
    ghost predicate Valid()
      reads this
    {
      && (!initialized ==> rules == [])
      && (initialized ==> forall i, j :: 0 <= i < j < |rules| ==> !Less(rules[j], rules[i]))
    }

    /** The static instance before its first use. */
    constructor()
      ensures Valid() && !initialized && rules == []
    {
      rules := [];
      initialized := false;
    }

    /**
     * RulesManager::GetSingleton: the first call loads every rule of every selected entry, in
     * directory order, and sorts them; any later call leaves the manager as it is.
     */
    method GetSingleton(entries: seq<DirEntry>, registry: Registry)
      requires Valid()
      modifies this
      ensures Valid() && initialized
      ensures old(initialized) ==> rules == old(rules)
      ensures !old(initialized) ==> rules == SortByPriority(LoadedRules(entries, registry))
    {
      if initialized {
        return;
      }
      initialized := true;
      var loaded := LoadEntries(entries, registry);
      rules := SortByPriority(loaded);
    }

    /** The loop over the directory entries: each entry's rules appended in turn. */
    static method LoadEntries(entries: seq<DirEntry>, registry: Registry) returns (loaded: seq<Rule>)
      ensures loaded == LoadedRules(entries, registry)
    {
      loaded := [];
      var n := 0;
      while n < |entries|
        invariant 0 <= n <= |entries|
        invariant loaded == LoadedRules(entries[..n], registry)
      {
        var built := LoadEntry(entries[n], registry);
        LoadedRulesAppend(entries[..n], [entries[n]], registry);
        assert entries[..n + 1] == entries[..n] + [entries[n]];
        loaded := loaded + built;
        n := n + 1;
      }
      assert entries[..n] == entries;
    }

    /**
     * One directory entry: skipped unless a regular ".toml" file; a parse error is caught and
     * logged; otherwise the rules of its `rules` array, when it has one.
     */
    static method LoadEntry(entry: DirEntry, registry: Registry) returns (built: seq<Rule>)
      ensures built == DocumentRules(entry, registry)
    {
      built := [];
      if !entry.isRegularFile || Extension(entry.filename) != TomlSuffix {
        return;
      }
      if entry.document.None? {
        return;
      }
      var rs := Get(entry.document, "rules");
      if rs.Some? && rs.value.Array? {
        built := RulesFromArray(rs.value.elems, registry);
      }
    }

    /**
     * The for_each over a `rules` array: each table built and pushed back in turn; a non-table
     * element or a failed build throws, ending the document with the rules already pushed kept.
     */
    static method RulesFromArray(elems: seq<Node>, registry: Registry) returns (built: seq<Rule>)
      ensures built == RulesOfArray(elems, registry)
    {
      built := [];
      var j := 0;
      while j < |elems|
        invariant 0 <= j <= |elems|
        invariant built + RulesOfArray(elems[j..], registry) == RulesOfArray(elems, registry)
      {
        RulesOfArrayStep(elems, j, registry);
        if !elems[j].Table? {
          return;
        }
        var rule := RuleFromToml(elems[j], registry);
        if rule.Err? {
          return;
        }
        built := built + [rule.value];
        j := j + 1;
      }
      assert elems[j..] == [];
    }

    /** RulesManager::Apply. */
    method Apply(actor: Option<Actor>, origFss: Option<FootstepSet>) returns (r: Option<FootstepSet>)
      ensures r == Resolve(rules, actor, origFss)
    {
      var cur := origFss;
      var i := 0;
      while i < |rules|
        invariant 0 <= i <= |rules|
        invariant Fold(rules[i..], actor, origFss, cur) == Resolve(rules, actor, origFss)
      {
        assert rules[i..][1..] == rules[i + 1..];
        var result := Rules.Apply(rules[i], actor, origFss);
        if result.Some? && rules[i].shortCircuit {
          return result;
        }
        if result.Some? {
          cur := result;
        }
        i := i + 1;
      }
      assert rules[i..] == [];
      return cur;
    }
  }

  /** One step of the for_each over a `rules` array, from position j. */
  lemma RulesOfArrayStep(elems: seq<Node>, j: nat, registry: Registry)
    requires j < |elems|
    ensures forall built: seq<Rule> ::
              built + RulesOfArray(elems[j..], registry) ==
                if !elems[j].Table? || RuleOf(elems[j], registry).Err? then built
                else (built + [RuleOf(elems[j], registry).value]) + RulesOfArray(elems[j + 1..], registry)
  {
    assert elems[j..][0] == elems[j] && elems[j..][1..] == elems[j + 1..];
  }
}
