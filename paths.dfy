/** Path helpers (join, base name, split and join on a character) and the
    path formatter that chooses what a node is displayed as. */
module Paths {
  import opened Types

  /** Appends `name` to the directory path `dir`, inserting `sep` unless `dir`
      is empty or already ends with it. */
  function Join(dir: string, name: string, sep: char): string {
    if dir == [] then name
    else if dir[|dir| - 1] == sep then dir + name
    else dir + [sep] + name
  }

  /** A joined path ends with the name, right after a separator or at the
      start. */
  lemma JoinEndsWithName(dir: string, name: string, sep: char)
    ensures var r := Join(dir, name, sep);
            |r| >= |name| && r[|r| - |name|..] == name &&
            (r[..|r| - |name|] == [] || r[|r| - |name| - 1] == sep)
  {
    var r := Join(dir, name, sep);
    if dir != [] && dir[|dir| - 1] != sep {
      assert r == (dir + [sep]) + name;
    }
  }

  /** `p` without its trailing separators. */
  function TrimTrailing(p: string, sep: char): string
    decreases |p|
  {
    if p != [] && p[|p| - 1] == sep then TrimTrailing(p[..|p| - 1], sep) else p
  }

  /** Trimming keeps a prefix of `p` that does not end with a separator and
      drops only separators. */
  lemma {:induction false} TrimTrailingKeepsPrefix(p: string, sep: char)
    ensures var r := TrimTrailing(p, sep);
            |r| <= |p| && r == p[..|r|] && (r == [] || r[|r| - 1] != sep) &&
            forall i :: |r| <= i < |p| ==> p[i] == sep
    decreases |p|
  {
    if p != [] && p[|p| - 1] == sep {
      TrimTrailingKeepsPrefix(p[..|p| - 1], sep);
    }
  }

  /** The characters of `p` after its last separator. */
  function LastComponent(p: string, sep: char): string
    decreases |p|
  {
    if p == [] || p[|p| - 1] == sep then []
    else LastComponent(p[..|p| - 1], sep) + [p[|p| - 1]]
  }

  /** The last component is a separator-free suffix of `p`, preceded by a
      separator unless it is all of `p`. */
  lemma {:induction false} LastComponentIsSuffix(p: string, sep: char)
    ensures var r := LastComponent(p, sep);
            sep !in r && |r| <= |p| && r == p[|p| - |r|..] &&
            (|r| < |p| ==> p[|p| - |r| - 1] == sep)
    decreases |p|
  {
    if p != [] && p[|p| - 1] != sep {
      var init := p[..|p| - 1];
      LastComponentIsSuffix(init, sep);
      var r0 := LastComponent(init, sep);
      assert init[|init| - |r0|..] + [p[|p| - 1]] == p[|p| - |r0| - 1..];
    }
  }

  /** The last component of `p`, trailing separators ignored. */
  function Basename(p: string, sep: char): string {
    LastComponent(TrimTrailing(p, sep), sep)
  }

  /** A base name holds no separator and is no longer than its path. */
  lemma BasenameIsComponent(p: string, sep: char)
    ensures sep !in Basename(p, sep) && |Basename(p, sep)| <= |p|
  {
    TrimTrailingKeepsPrefix(p, sep);
    LastComponentIsSuffix(TrimTrailing(p, sep), sep);
  }

  lemma {:induction false} LastComponentAfterSep(prefix: string, name: string, sep: char)
    requires prefix == [] || prefix[|prefix| - 1] == sep
    requires sep !in name
    ensures LastComponent(prefix + name, sep) == name
    decreases |name|
  {
    if name != [] {
      var init := name[..|name| - 1];
      assert (prefix + name)[..|prefix + name| - 1] == prefix + init;
      LastComponentAfterSep(prefix, init, sep);
    } else {
      assert prefix + name == prefix;
    }
  }

  /** Joining a valid entry name onto a directory and taking the base name
      gives the entry name back. */
  lemma BasenameOfJoin(dir: string, name: string, sep: char)
    requires ValidName(name, sep)
    ensures Basename(Join(dir, name, sep), sep) == name
  {
    var j := Join(dir, name, sep);
    JoinEndsWithName(dir, name, sep);
    assert j[|j| - 1] == name[|name| - 1];
    assert TrimTrailing(j, sep) == j;
    var prefix := j[..|j| - |name|];
    assert j == prefix + name;
    LastComponentAfterSep(prefix, name, sep);
  }

  /** `s` cut at every occurrence of `sep`, as String.prototype.split with a
      one-character separator: there is always at least one part, and the
      parts never contain `sep`. */
  function Split(s: string, sep: char): (parts: seq<string>)
    ensures |parts| >= 1
    ensures forall i :: 0 <= i < |parts| ==> sep !in parts[i]
    decreases |s|
  {
    if s == [] then [""]
    else
      var init := Split(s[..|s| - 1], sep);
      var c := s[|s| - 1];
      if c == sep then init + [""]
      else init[..|init| - 1] + [init[|init| - 1] + [c]]
  }

  /** The parts joined with `glue` between neighbours, as Array.prototype.join. */
  function JoinWith(parts: seq<string>, glue: char): string
    decreases |parts|
  {
    if |parts| == 0 then ""
    else if |parts| == 1 then parts[0]
    else JoinWith(parts[..|parts| - 1], glue) + [glue] + parts[|parts| - 1]
  }

  /** Every character of `s`, with `sep` replaced by `glue`. */
  predicate ReplacedEverywhere(s: string, r: string, sep: char, glue: char) {
    |r| == |s| && forall i :: 0 <= i < |s| ==> r[i] == if s[i] == sep then glue else s[i]
  }

  /** Splitting at `sep` and joining with `glue` replaces each `sep` by `glue`
      and keeps every other character in place. */
  lemma {:induction false} SplitJoinReplaces(s: string, sep: char, glue: char)
    ensures ReplacedEverywhere(s, JoinWith(Split(s, sep), glue), sep, glue)
    decreases |s|
  {
    if s != [] {
      var s' := s[..|s| - 1];
      var c := s[|s| - 1];
      var init := Split(s', sep);
      SplitJoinReplaces(s', sep, glue);
      if c == sep {
        var parts := init + [""];
        assert parts[..|parts| - 1] == init;
        assert JoinWith(parts, glue) == JoinWith(init, glue) + [glue];
      } else {
        var n := |init|;
        var parts := init[..n - 1] + [init[n - 1] + [c]];
        if n == 1 {
          assert JoinWith(init, glue) == init[0];
          assert JoinWith(parts, glue) == JoinWith(init, glue) + [c];
        } else {
          assert parts[..n - 1] == init[..n - 1];
          assert JoinWith(parts, glue) == JoinWith(init[..n - 1], glue) + [glue] + init[n - 1] + [c];
          assert JoinWith(init, glue) == JoinWith(init[..n - 1], glue) + [glue] + init[n - 1];
        }
      }
    }
  }

  /** Splitting at a character and joining the parts with the same character
      gives the original string back. */
  lemma SplitJoinRoundTrip(s: string, sep: char)
    ensures JoinWith(Split(s, sep), sep) == s
  {
    SplitJoinReplaces(s, sep, sep);
  }

  lemma {:induction false} SplitOfPart(y: string, c: char)
    requires c !in y
    ensures Split(y, c) == [y]
    decreases |y|
  {
    if y != [] {
      SplitOfPart(y[..|y| - 1], c);
      assert y[..|y| - 1] + [y[|y| - 1]] == y;
    }
  }

  lemma {:induction false} SplitAfterGlue(x: string, y: string, c: char)
    requires c !in y
    ensures Split(x + [c] + y, c) == Split(x, c) + [y]
    decreases |y|
  {
    var s := x + [c] + y;
    if y == [] {
      assert s[..|s| - 1] == x;
    } else {
      var y' := y[..|y| - 1];
      assert s[..|s| - 1] == x + [c] + y';
      SplitAfterGlue(x, y', c);
      assert y' + [y[|y| - 1]] == y;
    }
  }

  /** Joining parts that do not contain `glue` and splitting at `glue` gives
      the parts back. */
  lemma {:induction false} JoinSplitRoundTrip(parts: seq<string>, glue: char)
    requires |parts| >= 1
    requires forall i :: 0 <= i < |parts| ==> glue !in parts[i]
    ensures Split(JoinWith(parts, glue), glue) == parts
    decreases |parts|
  {
    if |parts| == 1 {
      SplitOfPart(parts[0], glue);
    } else {
      var init := parts[..|parts| - 1];
      JoinSplitRoundTrip(init, glue);
      SplitAfterGlue(JoinWith(init, glue), parts[|parts| - 1], glue);
      assert init + [parts[|parts| - 1]] == parts;
    }
  }

  /** What a node is displayed as: its bare name for relative paths; for full
      paths its absolute path with every separator turned into '/'. */
  function FormatNodePath(node: TreeNode, options: ExportOptions, sep: char): (r: string)
    ensures options.pathFormat == Relative ==> r == node.name
    ensures options.pathFormat == Full ==> ReplacedEverywhere(node.absolutePath, r, sep, '/')
    ensures options.pathFormat == Full ==> '/' != sep ==> sep !in r
  {
    if options.pathFormat == Full then
      SplitJoinReplaces(node.absolutePath, sep, '/');
      JoinWith(Split(node.absolutePath, sep), '/')
    else
      node.name
  }

  /** On a host whose separator is already '/', full paths are shown unchanged. */
  lemma FullPathOnSlashHost(node: TreeNode, options: ExportOptions)
    requires options.pathFormat == Full
    ensures FormatNodePath(node, options, '/') == node.absolutePath
  {
    var r := FormatNodePath(node, options, '/');
    assert ReplacedEverywhere(node.absolutePath, r, '/', '/');
  }
}
