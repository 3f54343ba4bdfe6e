# Footstep sound replacement rules, modelled in Dafny

This project models the rules engine of a Skyrim plugin that swaps an actor's footstep set at run
time. Rules are loaded once from the `.toml` files of a configuration directory. Each rule has a
name, a priority, a replacement footstep set, a short-circuit flag, an evaluation mode and a list of
conditions. A condition is a predicate tree:

- leaf tests on the actor: female, has a keyword;
- a leaf test on the armor worn in a slot: has a keyword;
- a leaf test on the original footstep set: its form ID;
- AND/OR compounds of other predicates.

Every node carries an `invert` flag. When the game asks for a footstep set, the manager walks the
sorted rules. Each rule that matches replaces the choice. A matching short-circuit rule ends the walk.

The model follows the source's own structure:

- `PathTokens`: `TokenizePath`, a loop, as a method proved equal to a `Split` function; laws about `Split`.
- `Predicates`: the predicate tree as a datatype and `Evaluate` as a recursive function.
- `Rules`: `Rule`, its ordering and `Rule::Apply`.
- `TomlTree`: the part of the parsed TOML tree and of toml++'s node-view accessors that the builders use.
- `Builders`: `BasePredicate::FromToml` and `Rule::FromToml`.
  - They are imperative code that throws, so they become methods returning a `Result`.
  - Each method is proved equal to a specification function that has the same branches in the same order.
- `BuilderLaws`: what each kind of table builds, every error the grammar reports, and round trips from
  predicates and rules to the tables that describe them and back.
- `Manager`:
  - the `RulesManager` object as a class with a rule vector and a load-once flag;
  - its loading loops and `Apply` loop as methods proved against the functions `LoadedRules` and `Resolve`;
  - the laws of resolution: the first matching short-circuit rule wins; otherwise the last match wins;
    with no match the original set is kept.
- `Sorting`, `Seqs`, `FileNames`: generic helpers.
  - A key-ordered insertion sort, standing for `std::sort`.
  - A concatenating map.
  - `std::filesystem::path::extension`.

Parameters stand in for the game and the file system:

- an actor is a value that answers the engine's queries;
- the data handler's form table is a map, `Registry`;
- a directory listing is a sequence of entries, each already parsed, or marked as a parse error.

Where the code does something other than its own data model suggests, the model follows the code, with one exception (the sort, below):

- **`evaluate` cannot select ANY.** Both arms of the choice at `src/RulesParser.cpp:116` give ALL. `RuleOf` does the same and proves that every built rule has mode ALL. `Rule::Apply` still models ANY, since the rule data model has it.
- **A failing document keeps what it already loaded.** Suppose a rule table in a document fails to build, or an element of the `rules` array is not a table. The rules pushed from earlier elements of that document stay loaded (`RulesOfArrayPrefix`). Only the remaining elements are dropped.
- **Ties are not ordered by load order.** `std::sort` is not stable, so the model's contract promises only "sorted and a permutation" (see `SortByPriority` below).
- **The rule vector is not sorted by priority.** The code sorts it by pointer value (see Findings). This is the one place where the model departs from the code: `RulesManager.GetSingleton` installs the corrected priority order, and `SortByAddress` models the order as written.

## Model

| member | source | states |
|---|---|---|
| TomlTree.Get | src/RulesParser.cpp:118-119 | `node_view::operator[]` as a definition: the child under a key of a table, an empty view otherwise. What callers rely on is stated by `EmptyViewReadsNothing` and `MissingTableLookup`. |
| TomlTree.EmptyViewReadsNothing | src/RulesParser.cpp:118-119 | Indexing an empty view gives an empty view, and reading a string, integer or boolean from it gives nothing. |
| TomlTree.MissingTableLookup | src/RulesParser.cpp:118-119 | `t[outer][inner]` is empty when `outer` is missing or is not a table, and is the nested child when both keys are present. So `rule_config["replacement"]["mod"]` is empty rather than failing when `replacement` is absent or not a table. |
| TomlTree.StringValue | src/RulesParser.cpp:23 | `value<std::string>()` as a definition: the string of a string node, absent otherwise. What the builder reads through it is stated by `FlagTableReads`, `KeywordTableReads`, `FormTableReads` and `RuleTableReads`. |
| TomlTree.BoolValue | src/RulesParser.cpp:27 | `value<bool>()`, which `value_or(false)` falls back from, as a definition: the boolean of a boolean node, absent otherwise. What the builder reads through it is stated by `FlagTableReads` and `RuleTableReads`. |
| TomlTree.IntegerValue | src/RulesParser.cpp:50 | An integer read into a narrower C++ type gives the node's own integer, and only inside that type's range. The two reads the builders make are stated in full by `FormIDValue` and `Int32ValueOr`. |
| Builders.FormIDValue | src/RulesParser.cpp:50 | `value<FormID>()` gives `id` exactly when the node is the integer `id`. A negative or too-large integer reads as absent. |
| Builders.Int32ValueOr | src/RulesParser.cpp:135 | `value_or(0)` for an `int` gives the stored integer when the node is one in range, and otherwise the default. |
| PathTokens.Find | src/RulesParser.cpp:10 | `find(delimiter, start)` gives the first delimiter position at or after `start`, or none when the rest holds no delimiter. |
| PathTokens.IndexOf | src/RulesParser.cpp:10 | The first occurrence of the delimiter, or none exactly when it does not occur. |
| PathTokens.Split | src/RulesParser.cpp:5-15 | The token list always has at least one token. |
| PathTokens.TokenizePath | src/RulesParser.cpp:5-15 | The loop appends to the given vector exactly the pieces of the path between delimiters, in order. |
| PathTokens.SplitAtFind | src/RulesParser.cpp:10-12 | One loop step: the token up to the delimiter found, then the tokens after it. |
| PathTokens.SplitAtEnd | src/RulesParser.cpp:14 | After the last delimiter, the rest of the path is the last token. |
| PathTokens.SplitCount | src/RulesParser.cpp:24-26 | There is one more token than delimiters, so the "length < 1" throw can never fire. |
| PathTokens.SplitJoin | src/RulesParser.cpp:5-15 | Joining the tokens with the delimiter gives back the path: nothing is lost or added. |
| PathTokens.SplitDelimiterFree | src/RulesParser.cpp:5-15 | No token contains the delimiter. |
| PathTokens.SplitUnique | src/RulesParser.cpp:5-15 | Any non-empty delimiter-free token list is the split of its join: the tokenization is unique. |
| PathTokens.JoinConcat | src/RulesParser.cpp:5-15 | Joining two token lists is joining their joins with one delimiter between. |
| PathTokens.SplitConcat | src/RulesParser.cpp:5-15 | A path with a delimiter inserted splits into the tokens of its two sides. |
| PathTokens.SplitSingle | src/RulesParser.cpp:5-15 | A path without a delimiter is one token. |
| PathTokens.SplitPair | src/RulesParser.cpp:5-15 | Two delimiter-free tokens joined by a delimiter split back into those two. |
| PathTokens.SplitTriple | src/RulesParser.cpp:5-15 | Three delimiter-free tokens joined by delimiters split back into those three. |
| Predicates.Evaluate | src/RulesParser.cpp:79-112 | The base class gives false. The actor, keyword and form-ID leaves give only their `invert` flag without an actor or a footstep set. The armor leaf gives false without an actor, whatever its flag, and gives its flag without a footstep set. |
| Predicates.EvaluateChildren | src/RulesParser.cpp:102-112 | The loop over a compound's children is an OR of all of them for OR and an AND of all of them for AND. |
| Predicates.ChildrenEvaluated | src/RulesParser.cpp:103-110 | The loop stops right after the first decisive child (a true child of an OR, a false child of an AND), or after the last child. Its result depends only on the children it consulted. |
| Predicates.CompoundSemantics | src/RulesParser.cpp:102-112 | A compound is (some child true) or (every child true), XOR its invert flag. |
| Predicates.EmptyCompound | src/RulesParser.cpp:111 | An empty AND is true and an empty OR is false, before the node's own invert flag. |
| Predicates.LaterChildrenIgnored | src/RulesParser.cpp:103-109 | Children after a decisive one are not evaluated and cannot change the outcome. |
| Predicates.InvertNegates | src/RulesParser.cpp:79-112 | Flipping `invert` negates the result, except for the base class and for the armor test with no actor. |
| Predicates.SingleChildAnd | src/RulesParser.cpp:102-112 | A one-child AND is its child, and an inverted one is the child's negation. |
| Rules.ConditionsMatch | src/RulesParser.cpp:142-154 | The per-rule loop matches under ALL exactly when every condition holds, and under ANY exactly when some condition holds. |
| Rules.Apply | src/RulesParser.cpp:139-155 | A rule gives its own replacement or nothing. It gives the replacement exactly when its conditions match under its mode. |
| Rules.ConditionsAsCompound | src/RulesParser.cpp:142-154 | Matching a rule's conditions is evaluating an un-inverted compound of them, AND for ALL and OR for ANY. |
| Rules.EmptyConditions | src/RulesParser.cpp:154 | With no conditions, an ALL rule always matches and an ANY rule never does. |
| Rules.LessIsStrictWeakOrder | include/Sample/RulesParser.h:82 | `Rule::operator<` is irreflexive and transitive, with transitive incomparability: the ordering `std::sort` requires. |
| Rules.LessByPriorityOnly | include/Sample/RulesParser.h:82 | Only the priorities take part in the comparison. |
| Rules.Less | include/Sample/RulesParser.h:82 | `Rule::operator<` as a definition: compare by priority. Its ordering laws are `LessIsStrictWeakOrder` and `LessByPriorityOnly`. |
| Builders.SlotMapFeetOnly | src/RulesParser.cpp:17-18 | `slot_map` holds one name: `feet`, mapped to the feet slot. Any other slot name is unknown, and `ArmorBuild` shows it raising `UnknownSlot`. |
| Builders.Required | src/RulesParser.cpp:23 | `.value()` succeeds exactly when the field is present with the requested kind. |
| Builders.PredicateOf | src/RulesParser.cpp:20-77 | A built predicate is never the base class. |
| Builders.PredicateOfTokens | src/RulesParser.cpp:27-76 | The branch on the tokens never builds the base class. |
| Builders.PredicatesOf | src/RulesParser.cpp:63-71 | A built predicate array has one predicate per element. Each element is a table that builds that predicate. |
| Builders.RuleOf | src/RulesParser.cpp:114-137 | A built rule has mode ALL. Its name is the table's `name` string. Its replacement is the registry's form at the table's `replacement.mod` and `replacement.formID`. |
| Builders.PredicateFromToml | src/RulesParser.cpp:20-77 | The builder method computes `PredicateOf`, every thrown error as an `Err`. |
| Builders.PredicatesFromArray | src/RulesParser.cpp:63-71 | The `for_each` over `preds` computes `PredicatesOf`, stopping at the first failing element. |
| Builders.PredicatesOfStep | src/RulesParser.cpp:64-70 | One step of that `for_each`: a non-table element is an error; otherwise the element's build comes first, then the rest. |
| Builders.PrependNothing | src/RulesParser.cpp:62 | Proof helper for `PredicatesFromArray`: prepending nothing leaves a result unchanged, which starts the loop invariant from the empty vector. |
| Builders.PrependTwice | src/RulesParser.cpp:66 | Proof helper for `PredicatesFromArray`: prepending two prefixes in turn is prepending their concatenation, which carries the loop invariant across one `push_back`. |
| Builders.RuleFromToml | src/RulesParser.cpp:114-137 | The builder method computes `RuleOf`, every thrown error as an `Err`. |
| BuilderLaws.WithPath | src/RulesParser.cpp:23 | Proof helper for `TrailingTokensIgnored`: replacing a table's `pred` entry gives that table the new path. |
| BuilderLaws.PredicateOfPath | src/RulesParser.cpp:22-23 | A table without a string `pred` fails with a bad optional access. Otherwise its path is split and the tokens decide. |
| BuilderLaws.SubjectErrors | src/RulesParser.cpp:28-76 | An unknown first token, or `actor`/`armor` with fewer than 2/3 tokens, is an invalid subject. |
| BuilderLaws.ActorBuild | src/RulesParser.cpp:28-37 | `actor.isFemale` builds the female test and `actor.hasKeyword` builds the keyword test, or fails without a keyword. Any other actor test is an invalid actor path. |
| BuilderLaws.ArmorBuild | src/RulesParser.cpp:38-46 | The slot is looked up before the test is checked, so a slot other than `feet` fails first. Then `hasKeyword` builds the feet test, or fails without a keyword. Any other test is an invalid armor path. |
| BuilderLaws.FootstepSetBuild | src/RulesParser.cpp:47-56 | A missing mod fails first, then a missing form ID. A form the registry lacks fails with its mod and form ID. Otherwise the form found is used. |
| BuilderLaws.CompoundBuild | src/RulesParser.cpp:57-73 | `AND`/`OR` build a compound. Its children are the built elements of `preds`, or none when `preds` is absent or not an array. A failing element fails the compound with its error. |
| BuilderLaws.NonTableElementFails | src/RulesParser.cpp:64-69 | A predicate array with a non-table element anywhere fails. |
| BuilderLaws.TokensIgnorePath | src/RulesParser.cpp:27-76 | After splitting, the builder never reads the path again. |
| BuilderLaws.TokensPastNeededIgnored | src/RulesParser.cpp:28-57 | The branch chosen looks at no token beyond the first two (actor) or three (armor). |
| BuilderLaws.TrailingTokensIgnored | src/RulesParser.cpp:28-57 | A path with extra trailing tokens builds the same predicate: `actor.isFemale.x` is `actor.isFemale`. |
| BuilderLaws.IsFemalePath | src/RulesParser.cpp:23-31 | `actor.isFemale` splits into `actor`, `isFemale`. |
| BuilderLaws.HasKeywordPath | src/RulesParser.cpp:23-32 | `actor.hasKeyword` splits into `actor`, `hasKeyword`. |
| BuilderLaws.ArmorPath | src/RulesParser.cpp:23-41 | `armor.feet.hasKeyword` splits into its three tokens. |
| BuilderLaws.FootstepSetPath | src/RulesParser.cpp:23-47 | `footstepSet` is one token. |
| BuilderLaws.FlagTableReads | src/RulesParser.cpp:23-27 | The builder reads back the path and `not` flag that a table was written with. |
| BuilderLaws.KeywordTableReads | src/RulesParser.cpp:23-33 | The builder reads back the path, `not` flag and keyword that a table was written with. |
| BuilderLaws.FormTableReads | src/RulesParser.cpp:23-50 | The builder reads back the path, `not` flag, mod and form ID that a table was written with. |
| BuilderLaws.CompoundTableReads | src/RulesParser.cpp:23-63 | The builder reads back the conjunction, `not` flag and `preds` array that a table was written with. |
| BuilderLaws.IsFemaleTableBuild | src/RulesParser.cpp:28-31 | The table for the female test builds that test with its flag. |
| BuilderLaws.ActorKeywordTableBuild | src/RulesParser.cpp:32-34 | The table for the actor keyword test builds that test. |
| BuilderLaws.ArmorKeywordBuild | src/RulesParser.cpp:38-43 | A table whose path splits into `armor`, `feet`, `hasKeyword` builds the feet keyword test. |
| BuilderLaws.FeetKeywordTableBuild | src/RulesParser.cpp:38-43 | The table for the feet keyword test builds that test. |
| BuilderLaws.FootstepSetTableBuild | src/RulesParser.cpp:47-56 | The table for a registered footstep set builds the test of that set. |
| BuilderLaws.CompoundTableBuild | src/RulesParser.cpp:57-73 | A compound table builds the compound of its built `preds`, or fails with their error. |
| BuilderLaws.EncodeAll | src/RulesParser.cpp:63-71 | Proof helper for `PredicatesRoundTrip`: the `preds` array written for a list of predicates has one table per predicate. |
| BuilderLaws.PredicateRoundTrip | src/RulesParser.cpp:20-77 | Every predicate the grammar can express is built back, unchanged, from the table that describes it. |
| BuilderLaws.PredicatesRoundTrip | src/RulesParser.cpp:63-71 | Every list of such predicates is built back, in order, from its array. |
| BuilderLaws.RuleErrors | src/RulesParser.cpp:115-123 | A rule table fails in the builder's reading order: first a missing name, then a missing mod, then a missing form ID, then a replacement the registry lacks. |
| BuilderLaws.RuleDefaults | src/RulesParser.cpp:124-136 | A built rule has priority 0 when none is given, and an in-range integer priority as written. Short circuit is off unless given. With no `conditions` it has none; otherwise its conditions are those built from the array. |
| BuilderLaws.RuleTableReads | src/RulesParser.cpp:115-136 | The builder reads back every field that a rule table was written with. |
| BuilderLaws.RuleRoundTrip | src/RulesParser.cpp:114-137 | Every rule the grammar can express (mode ALL, a registered replacement, expressible conditions) is built back from its table. |
| Sorting.InsertBy | src/RulesManager.cpp:40 | Inserting into a key-sorted sequence keeps it sorted and adds exactly that element. |
| Sorting.SortBy | src/RulesManager.cpp:40 | The sort result is ordered by key and is a permutation of its input. |
| Sorting.SortByMembers | src/RulesManager.cpp:40 | Sorting keeps exactly the elements it was given. |
| Seqs.FlatMapAppend | src/RulesManager.cpp:18-39 | Loading two directory parts in turn is loading them together. |
| Seqs.FlatMapFirst | src/RulesManager.cpp:18-39 | The first entry's elements come first, ahead of those of the later entries. |
| Seqs.FlatMapOrigin | src/RulesManager.cpp:18-39 | Every loaded element comes from one of the entries. |
| FileNames.LastIndexOf | src/RulesManager.cpp:19 | The last dot of a file name, or none exactly when it has no dot. |
| FileNames.Extension | src/RulesManager.cpp:19 | `path::extension`: empty for a name without a dot. A name with a dot after its first character (other than `..`) has a non-empty extension. A non-empty extension is a suffix of the name that starts with its last dot, holds no other dot and is shorter than the name, so `.toml` alone has none. |
| FileNames.TomlExtension | src/RulesManager.cpp:19 | A file name passes the extension filter exactly when it ends in `.toml` after at least one other character, so `.toml` alone is skipped. |
| Manager.Fold | src/RulesManager.cpp:48-59 | With no matching rule the choice so far is kept. Otherwise the result is the replacement of some matching rule. Every rule is applied to the original set. |
| Manager.Resolve | src/RulesManager.cpp:48-59 | The loop starting from `cur_fss_ptr = orig_fss` returns either the original footstep set or the replacement of some matching rule. |
| Manager.ShortCircuitWins | src/RulesManager.cpp:51-55 | The first matching short-circuit rule decides, whatever the earlier matches chose and whatever follows. |
| Manager.LastMatchWins | src/RulesManager.cpp:51-58 | With no matching short-circuit rule, the last matching rule decides. |
| Manager.MatchForgetsStart | src/RulesManager.cpp:50-56 | Once any rule matches, the starting choice does not matter. |
| Manager.NoMatchKeepsOriginal | src/RulesManager.cpp:50-58 | With no matching rule the original footstep set is returned. |
| Manager.SortByPriority | include/Sample/RulesParser.h:82 | The rules sorted by `Rule::operator<`: no rule is less than one before it, and the result is a permutation of the input. |
| Manager.SortByAddress | src/RulesManager.cpp:40 | The sort as written: ordered by the shared pointers' addresses, as a permutation of the input. |
| Manager.AddressSortIgnoresPriority | src/RulesManager.cpp:40 | Two rules allocated in the order priority 10, then priority 0, stay in that order: a rule comes before a rule of lower priority. |
| Manager.RulesOfArray | src/RulesManager.cpp:25-32 | A document contributes at most one rule per element of its `rules` array. |
| Manager.RulesOfArrayPrefix | src/RulesManager.cpp:25-37 | A document's rules are the built elements up to the first element that is not a table or does not build. The rules before that element stay loaded. |
| Manager.RulesOfArrayStep | src/RulesManager.cpp:26-31 | One step of the `for_each` over `rules`: stop at a failing element, otherwise push its rule. |
| Manager.Selected | src/RulesManager.cpp:19 | An entry is loaded exactly when it is a regular file whose name ends in `.toml` after at least one other character. |
| Manager.DocumentRules | src/RulesManager.cpp:19-38 | Only a regular `.toml` file that parses contributes. It contributes the rules of its `rules` array, and none without one. |
| Manager.LoadedRules | src/RulesManager.cpp:18-39 | The directory loop as a definition: each entry's `DocumentRules`, concatenated in iteration order. Its laws are `LoadedRulesFirst`, `LoadedRulesAppend` and `LoadedRulesOrigin`. |
| Manager.LoadedRulesFirst | src/RulesManager.cpp:18-39 | The first entry's rules come ahead of the rules of every later entry. |
| Manager.LoadedRulesAppend | src/RulesManager.cpp:18-39 | The rules of a directory are the rules of its entries, in iteration order. |
| Manager.LoadedRulesOrigin | src/RulesManager.cpp:18-39 | Every loaded rule was built by a selected entry that parsed. |
| Manager.RulesManager.constructor | src/RulesManager.cpp:13 | The static instance starts empty and not loaded. |
| Manager.RulesManager.GetSingleton | src/RulesManager.cpp:12-46 | The first call loads every rule of every selected entry and installs them in the corrected priority order of the finding, not the address order of line 40. Later calls change nothing. Afterwards the manager is loaded and its rules are in priority order. |
| Manager.RulesManager.LoadEntries | src/RulesManager.cpp:18-39 | The loop over the directory entries computes `LoadedRules`. |
| Manager.RulesManager.LoadEntry | src/RulesManager.cpp:19-38 | One entry computes `DocumentRules`: skipped unless selected, and nothing on a parse error. |
| Manager.RulesManager.RulesFromArray | src/RulesManager.cpp:25-33 | The `for_each` over `rules` computes `RulesOfArray`. |
| Manager.RulesManager.Apply | src/RulesManager.cpp:48-59 | The loop computes `Resolve` over the manager's rules. |

## Left out

- Logging (`log::info`, `log::error` and the rest) is not modelled; the error values carry what the messages report.
- `toml::parse_file` and TOML syntax are not modelled. An entry holds its parsed document, or nothing when parsing threw `toml::parse_error`.
- toml++'s permissive conversions in `value<T>()` and `value_or` between node kinds are not modelled: a boolean read as an integer, an integer read as a boolean, and floating point read as an integer or the reverse. A field is read only when its node has exactly the kind asked for. So `not = 1` and `short_circuit = 1` read as absent and take the default `false`. `priority = true` takes the default 0, and `formID = true` is a missing value. Integers are range-checked for narrowing.
- `TokenizePath` is modelled for one-character delimiters only. The only caller passes the default `"."`, and the loop's `start = pos + 1` assumes one character.
- The "Invalid conjunction" throw at `src/RulesParser.cpp:61` is not modelled: it is unreachable once the first token is `AND` or `OR`. The "Pred path length < 1" throw is modelled as an assertion proved in `PredicateFromToml`.
- The engine queries (`IsFemale`, `HasKeywordString`, `GetWornArmor`) and the data handler's `LookupForm` are data on `Actor` and a `Registry` map. Their internals are game code.
- Predicates and rules are values. Sharing through `shared_ptr` is not modelled; a rule's address appears only in the `RulePtr` entries of the finding below.
- Directory iteration is a sequence of entries in iteration order. Errors from `std::filesystem`, such as a missing directory throwing out of a `noexcept` function, are not modelled.
- Two pieces of concurrency are not modelled: the `std::atomic_bool` exchange and the `std::latch` that makes concurrent callers wait. The load-once behaviour is the `initialized` flag of `RulesManager.GetSingleton`.
- `Hooking.cpp`, which installs the engine hook that calls `RulesManager::Apply`, is not part of this model.
- Manager.RulesManager.GetSingleton: installs the rules in the corrected priority order (`SortByPriority`), not the shared-pointer address order that `src/RulesManager.cpp:40` produces (`SortByAddress`, see Findings). The model of `Apply` then resolves over the rules in the order the authors intended.
- SortByPriority: `std::sort` leaves the order of equal-priority rules unspecified. The contract promises only that the result is sorted and a permutation. The insertion sort that defines it happens to keep load order, but nothing proved depends on that.

## Findings

| source | as written | input that shows it | evidently intended | confidence | as-written member | corrected member |
|---|---|---|---|---|---|---|
| src/RulesManager.cpp:40 | `std::sort` runs over `std::vector<std::shared_ptr<Rule>>`. `shared_ptr`'s `operator<` compares the stored pointers, so the rules end up ordered by heap address, and `Rule::operator<` (`include/Sample/RulesParser.h:82`) is never used. | Allocate a rule of priority 10 at a lower address than a rule of priority 0. The sort leaves priority 10 first, so the priority-0 rule is applied after it. | Ascending priority: `std::sort` with a comparator that dereferences the pointers and uses `Rule::operator<`. | high; not executed | Manager.AddressSortIgnoresPriority | Manager.SortByPriority |
