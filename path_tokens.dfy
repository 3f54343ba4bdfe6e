/**
 * TokenizePath: the dotted subject path of a predicate ("armor.feet.hasKeyword") split
 * into its tokens, with the laws that make the split exact.
 */
module PathTokens {
  import opened Wrappers

  /** The delimiter the predicate builder splits subject paths on. */
  const Dot: char := '.'

  /** The first position of `c` in `s`. */
  function IndexOf(s: string, c: char): (r: Option<nat>)
    ensures r.Some? ==> r.value < |s| && s[r.value] == c && c !in s[..r.value]
    ensures r.None? ==> c !in s
  {
    if s == [] then None
    else if s[0] == c then Some(0)
    else
      match IndexOf(s[1..], c)
      case None => None
      case Some(i) =>
        assert s[..i + 1] == [s[0]] + s[1..][..i];
        Some(i + 1)
  }

  /** std::string_view::find for a one-character delimiter: the first position at or after `from` holding `c`. */
  function Find(s: string, c: char, from: nat): (r: Option<nat>)
    ensures r.Some? ==> from <= r.value < |s| && s[r.value] == c && c !in s[from..r.value]
    ensures r.None? ==> from >= |s| || c !in s[from..]
  {
    if from >= |s| then None
    else
      match IndexOf(s[from..], c)
      case None => None
      case Some(i) =>
        assert s[from..from + i] == s[from..][..i];
        Some(from + i)
  }

  /** The pieces of `s` between the occurrences of `c`, in order. */
  function Split(s: string, c: char): (r: seq<string>)
    ensures |r| >= 1
    decreases |s|
  {
    match IndexOf(s, c)
    case None => [s]
    case Some(i) => [s[..i]] + Split(s[i + 1..], c)
  }

  /** The tokens glued back together with `c` between neighbours. */
  function Join(ts: seq<string>, c: char): string {
    if |ts| == 0 then []
    else if |ts| == 1 then ts[0]
    else ts[0] + [c] + Join(ts[1..], c)
  }

  /** How many times `c` occurs in `s`. */
  function Count(s: string, c: char): nat {
    multiset(s)[c]
  }

  /** No token holds a delimiter. */
  ghost predicate DelimiterFree(ts: seq<string>, c: char) {
    forall i :: 0 <= i < |ts| ==> c !in ts[i]
  }

  /** TokenizePath, with `tokens0` the vector it appends to. */
  method TokenizePath(configStr: string, tokens0: seq<string>, delimiter: char) returns (tokens: seq<string>)
    ensures tokens == tokens0 + Split(configStr, delimiter)
  {
    tokens := tokens0;
    var start: nat := 0;
    var pos := Find(configStr, delimiter, start);
    while pos.Some?
      invariant start <= |configStr|
      invariant pos == Find(configStr, delimiter, start)
      invariant tokens + Split(configStr[start..], delimiter) == tokens0 + Split(configStr, delimiter)
      decreases |configStr| - start
    {
      var p := pos.value;
      TokenizeStep(configStr, delimiter, start, p, tokens);
      tokens := tokens + [configStr[start..p]];
      start := p + 1;
      pos := Find(configStr, delimiter, start);
    }
    SplitAtEnd(configStr, delimiter, start);
    tokens := tokens + [configStr[start..]];
  }

  /** The token ending at the delimiter `find` reports, followed by the tokens after it. */
  lemma SplitAtFind(s: string, c: char, start: nat, p: nat)
    requires Find(s, c, start) == Some(p)
    ensures Split(s[start..], c) == [s[start..p]] + Split(s[p + 1..], c)
  {
    var rest := s[start..];
    assert IndexOf(rest, c) == Some(p - start);
    assert rest[..p - start] == s[start..p];
    assert rest[p - start + 1..] == s[p + 1..];
  }

  /** One iteration of TokenizePath's loop keeps the tokens still to come the same. */
  lemma TokenizeStep(s: string, c: char, start: nat, p: nat, tokens: seq<string>)
    requires Find(s, c, start) == Some(p)
    ensures p + 1 <= |s|
    ensures (tokens + [s[start..p]]) + Split(s[p + 1..], c) == tokens + Split(s[start..], c)
  {
    SplitAtFind(s, c, start, p);
    assert (tokens + [s[start..p]]) + Split(s[p + 1..], c) == tokens + ([s[start..p]] + Split(s[p + 1..], c));
  }

  /** When `find` reports no further delimiter, the rest of the path is the last token. */
  lemma SplitAtEnd(s: string, c: char, start: nat)
    requires start <= |s| && Find(s, c, start).None?
    ensures Split(s[start..], c) == [s[start..]]
  {
    assert IndexOf(s[start..], c).None?;
  }

  /** There is one more token than there are delimiters: the builder's "length < 1" check never fires. */
  lemma {:induction false} SplitCount(s: string, c: char)
    ensures |Split(s, c)| == Count(s, c) + 1
    decreases |s|
  {
    match IndexOf(s, c)
    case None =>
    case Some(i) =>
      assert s == s[..i] + [c] + s[i + 1..];
      SplitCount(s[i + 1..], c);
  }

  /** Joining the tokens with the delimiter gives back the path. */
  lemma {:induction false} SplitJoin(s: string, c: char)
    ensures Join(Split(s, c), c) == s
    decreases |s|
  {
    match IndexOf(s, c)
    case None =>
    case Some(i) =>
      var rest := Split(s[i + 1..], c);
      SplitJoin(s[i + 1..], c);
      assert Split(s, c) == [s[..i]] + rest;
      assert ([s[..i]] + rest)[1..] == rest;
      assert s == s[..i] + [c] + s[i + 1..];
  }

  /** No token contains the delimiter. */
  lemma {:induction false} SplitDelimiterFree(s: string, c: char)
    ensures DelimiterFree(Split(s, c), c)
    decreases |s|
  {
    match IndexOf(s, c)
    case None =>
    case Some(i) =>
      SplitDelimiterFree(s[i + 1..], c);
  }

  /** Any delimiter-free token sequence is the split of its join: Split is the only tokenization. */
  lemma {:induction false} SplitUnique(ts: seq<string>, c: char)
    requires |ts| >= 1 && DelimiterFree(ts, c)
    ensures Split(Join(ts, c), c) == ts
  {
    if |ts| == 1 {
      assert IndexOf(ts[0], c).None?;
    } else {
      var s := Join(ts, c);
      var k := |ts[0]|;
      assert s == ts[0] + [c] + Join(ts[1..], c);
      assert s[..k] == ts[0];
      assert s[k] == c;
      assert IndexOf(s, c) == Some(k);
      assert s[k + 1..] == Join(ts[1..], c);
      assert DelimiterFree(ts[1..], c);
      SplitUnique(ts[1..], c);
    }
  }

  /** Joining two non-empty token sequences joins their joins. */
  lemma {:induction false} JoinConcat(xs: seq<string>, ys: seq<string>, c: char)
    requires |xs| >= 1 && |ys| >= 1
    ensures Join(xs + ys, c) == Join(xs, c) + [c] + Join(ys, c)
  {
    if |xs| > 1 {
      assert (xs + ys)[1..] == xs[1..] + ys;
      JoinConcat(xs[1..], ys, c);
    }
  }

  /** A path with a delimiter inserted splits into the tokens of its two sides. */
  lemma SplitConcat(a: string, b: string, c: char)
    ensures Split(a + [c] + b, c) == Split(a, c) + Split(b, c)
  {
    SplitJoin(a, c);
    SplitJoin(b, c);
    SplitDelimiterFree(a, c);
    SplitDelimiterFree(b, c);
    JoinConcat(Split(a, c), Split(b, c), c);
    SplitUnique(Split(a, c) + Split(b, c), c);
  }

  /** A path without delimiters is a single token. */
  lemma SplitSingle(a: string, c: char)
    requires c !in a
    ensures Split(a, c) == [a]
  {
  }

  /** Two delimiter-free tokens joined by the delimiter split back into the two. */
  lemma SplitPair(a: string, b: string, c: char)
    requires c !in a && c !in b
    ensures Split(a + [c] + b, c) == [a, b]
  {
    var ts := [a, b];
    assert ts[1..] == [b];
    assert Join(ts, c) == a + [c] + b;
    SplitUnique(ts, c);
  }

  /** Three delimiter-free tokens joined by the delimiter split back into the three. */
  lemma SplitTriple(a: string, b: string, d: string, c: char)
    requires c !in a && c !in b && c !in d
    ensures Split(a + [c] + b + [c] + d, c) == [a, b, d]
  {
    var ts := [a, b, d];
    assert ts[1..] == [b, d] && ts[1..][1..] == [d];
    assert Join([b, d], c) == b + [c] + d;
    assert Join(ts, c) == a + [c] + (b + [c] + d);
    assert a + [c] + b + [c] + d == a + [c] + (b + [c] + d);
    SplitUnique(ts, c);
  }
}
