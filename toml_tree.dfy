/**
 * The part of the toml++ document model the rule builders rely on: an already-parsed
 * tree of tables, arrays and scalars, and the node-view accessors used to read it.
 */
module TomlTree {
  import opened Wrappers

  /** A TOML node. Floating-point numbers, dates and times are all `Other`: no builder reads them. */
  datatype Node =
    | String(s: string)
    | Integer(i: int)
    | Boolean(b: bool)
    | Other
    | Array(elems: seq<Node>)
    | Table(entries: map<string, Node>)

  /**
   * node_view::operator[]: the child under `key` when the viewed node is a table that has it,
   * and an empty view otherwise (indexing an empty view again stays empty).
   */
  function Get(view: Option<Node>, key: string): Option<Node> {
    if view.Some? && view.value.Table? && key in view.value.entries
    then Some(view.value.entries[key])
    else None
  }

  /** node_view::value<std::string>() (and std::string_view): present only for a string node. */
  function StringValue(view: Option<Node>): Option<string> {
    if view.Some? && view.value.String? then Some(view.value.s) else None
  }

  /** node_view::value<T>() for an integer type T whose range is lo..hi: out-of-range values read as absent. */
  function IntegerValue(view: Option<Node>, lo: int, hi: int): (r: Option<int>)
    ensures r.Some? ==> lo <= r.value <= hi && view == Some(Integer(r.value))
  {
    if view.Some? && view.value.Integer? && lo <= view.value.i <= hi then Some(view.value.i) else None
  }

  /** node_view::value<bool>() */
  function BoolValue(view: Option<Node>): Option<bool> {
    if view.Some? && view.value.Boolean? then Some(view.value.b) else None
  }

  /** An empty view stays empty when indexed, and every value read of it is absent. */
  lemma EmptyViewReadsNothing(key: string, lo: int, hi: int)
    ensures Get(None, key) == None
    ensures StringValue(None) == None && BoolValue(None) == None && IntegerValue(None, lo, hi) == None
  {
  }

  /**
   * A chained lookup `t[outer][inner]` is empty when `outer` is missing or is not a table, so
   * reading a field of an absent sub-table reads nothing rather than failing at the first step.
   */
  lemma MissingTableLookup(t: Node, outer: string, inner: string)
    requires t.Table?
    ensures outer !in t.entries ==> Get(Get(Some(t), outer), inner) == None
    ensures outer in t.entries && !t.entries[outer].Table? ==> Get(Get(Some(t), outer), inner) == None
    ensures outer in t.entries && t.entries[outer].Table? && inner in t.entries[outer].entries ==>
              Get(Get(Some(t), outer), inner) == Some(t.entries[outer].entries[inner])
  {
  }
}
