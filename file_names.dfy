/**
 * std::filesystem::path::extension on a directory entry's file name: the part from the last dot,
 * except that "." and ".." and a name whose only dot leads it have no extension.
 */
module FileNames {
  import opened Wrappers

  /** The position of the last `c` in `s`. */
  function LastIndexOf(s: string, c: char): (r: Option<nat>)
    ensures r.None? <==> c !in s
    ensures r.Some? ==> r.value < |s| && s[r.value] == c && c !in s[r.value + 1..]
    decreases |s|
  {
    if s == [] then None
    else if s[|s| - 1] == c then Some(|s| - 1)
    else
      var r := LastIndexOf(s[..|s| - 1], c);
      assert s == s[..|s| - 1] + [s[|s| - 1]];
      match r
      case None => None
      case Some(i) =>
        assert s[i + 1..] == s[..|s| - 1][i + 1..] + [s[|s| - 1]];
        Some(i)
  }

  /** path::extension of a file name. */
  function Extension(filename: string): (r: string)
    ensures '.' !in filename ==> r == ""
    ensures r != [] ==> r[0] == '.' && '.' !in r[1..] && |r| < |filename| &&
                        filename[|filename| - |r|..] == r
    ensures forall i :: 0 < i < |filename| && filename[i] == '.' && filename != ".." ==> r != []
  {
    if filename == "." || filename == ".." then ""
    else match LastIndexOf(filename, '.')
      case None => ""
      case Some(j) =>
        assert forall i :: j < i < |filename| ==> filename[i] == filename[j + 1..][i - j - 1];
        if j == 0 then "" else filename[j..]
  }

  /** The ".toml" suffix that the loader filters on. */
  const TomlSuffix: string := ".toml"

  /** The name ends in ".toml" after at least one other character. */
  predicate EndsInToml(filename: string) {
    |filename| > |TomlSuffix| && filename[|filename| - |TomlSuffix|..] == TomlSuffix
  }

  /**
   * A file name has the extension ".toml" exactly when it ends in ".toml" after at least one
   * other character: ".toml" alone is a hidden file with no extension.
   */
  lemma TomlExtension(filename: string)
    ensures Extension(filename) == TomlSuffix <==> EndsInToml(filename)
  {
    var n := |filename|;
    if n > 5 && filename[n - 5..] == TomlSuffix {
      var k := n - 5;
      assert filename[k] == '.';
      assert filename[k + 1..] == "toml";
      assert '.' !in filename[k + 1..];
      assert filename != "." && filename != "..";
    }
    if Extension(filename) == TomlSuffix {
      var i := LastIndexOf(filename, '.').value;
      assert filename[i..] == TomlSuffix;
      assert i >= 1;
    }
  }
}
