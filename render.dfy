/** The two renderers. Each walks a sequence of sibling nodes in order,
    appends one line per node to a shared line buffer and bumps one of two
    shared counters per node, recursing into directories. */
module Render {
  import opened Types
  import opened Paths

  /** The state a render pass shares across its recursive calls: the output
      lines and the file and directory counters. */
  class Sink {
    var lines: seq<string>
    var fileCount: nat
    var dirCount: nat

    constructor ()
      ensures lines == [] && fileCount == 0 && dirCount == 0
    {
      lines, fileCount, dirCount := [], 0, 0;
    }

    method Push(line: string)
      modifies this
      ensures lines == old(lines) + [line]
      ensures fileCount == old(fileCount) && dirCount == old(dirCount)
    {
      lines := lines + [line];
    }

    /** The file counter callback. */
    method CountFile()
      modifies this
      ensures fileCount == old(fileCount) + 1
      ensures lines == old(lines) && dirCount == old(dirCount)
    {
      fileCount := fileCount + 1;
    }

    /** The directory counter callback. */
    method CountDir()
      modifies this
      ensures dirCount == old(dirCount) + 1
      ensures lines == old(lines) && fileCount == old(fileCount)
    {
      dirCount := dirCount + 1;
    }
  }

  // ---------------------------------------------------------------------------
  // Counts
  // ---------------------------------------------------------------------------

  /** Files a render pass over `nodes` visits. */
  function FileCount(nodes: seq<TreeNode>): nat
    decreases nodes
  {
    if nodes == [] then 0
    else
      var node := nodes[|nodes| - 1];
      FileCount(nodes[..|nodes| - 1]) + if node.isDirectory then FileCount(node.children) else 1
  }

  /** Directories a render pass over `nodes` visits. */
  function DirCount(nodes: seq<TreeNode>): nat
    decreases nodes
  {
    if nodes == [] then 0
    else
      var node := nodes[|nodes| - 1];
      DirCount(nodes[..|nodes| - 1]) + if node.isDirectory then 1 + DirCount(node.children) else 0
  }

  /** One visited node and how many directories deep below the start it lies. */
  datatype Visit = Visit(node: TreeNode, level: nat)

  /** The nodes a render pass visits, in visiting order: each node, then (for
      a directory) its subtree one level deeper, then its next sibling. */
  function Preorder(nodes: seq<TreeNode>, level: nat): seq<Visit>
    decreases nodes
  {
    if nodes == [] then []
    else
      var node := nodes[|nodes| - 1];
      Preorder(nodes[..|nodes| - 1], level) + [Visit(node, level)]
      + if node.isDirectory then Preorder(node.children, level + 1) else []
  }

  function CountVisits(visits: seq<Visit>, directories: bool): nat {
    if visits == [] then 0
    else CountVisits(visits[..|visits| - 1], directories)
         + if visits[|visits| - 1].node.isDirectory == directories then 1 else 0
  }

  lemma {:induction false} CountVisitsAppend(a: seq<Visit>, b: seq<Visit>, directories: bool)
    ensures CountVisits(a + b, directories) == CountVisits(a, directories) + CountVisits(b, directories)
    decreases |b|
  {
    if b != [] {
      var b' := b[..|b| - 1];
      assert (a + b)[..|a + b| - 1] == a + b';
      CountVisitsAppend(a, b', directories);
    } else {
      assert a + b == a;
    }
  }

  lemma {:induction false} CountVisitsTotal(visits: seq<Visit>)
    ensures CountVisits(visits, false) + CountVisits(visits, true) == |visits|
  {
    if visits != [] {
      CountVisitsTotal(visits[..|visits| - 1]);
    }
  }

  /** The counters count exactly the visited files and the visited
      directories, so together they count every visited node. */
  lemma {:induction false} CountsMatchVisits(nodes: seq<TreeNode>, level: nat)
    ensures FileCount(nodes) == CountVisits(Preorder(nodes, level), false)
    ensures DirCount(nodes) == CountVisits(Preorder(nodes, level), true)
    ensures FileCount(nodes) + DirCount(nodes) == |Preorder(nodes, level)|
    decreases nodes
  {
    if nodes != [] {
      var init, node := nodes[..|nodes| - 1], nodes[|nodes| - 1];
      var sub := if node.isDirectory then Preorder(node.children, level + 1) else [];
      CountsMatchVisits(init, level);
      if node.isDirectory {
        CountsMatchVisits(node.children, level + 1);
      }
      var pre := Preorder(init, level);
      assert Preorder(nodes, level) == pre + [Visit(node, level)] + sub;
      forall directories: bool
        ensures CountVisits(Preorder(nodes, level), directories)
                == CountVisits(pre, directories) + (if node.isDirectory == directories then 1 else 0)
                   + CountVisits(sub, directories)
      {
        CountVisitsAppend(pre + [Visit(node, level)], sub, directories);
        CountVisitsAppend(pre, [Visit(node, level)], directories);
        assert CountVisits([Visit(node, level)], directories) == if node.isDirectory == directories then 1 else 0;
      }
    }
    CountVisitsTotal(Preorder(nodes, level));
  }

  // ---------------------------------------------------------------------------
  // Plain text
  // ---------------------------------------------------------------------------

  /** The plain-text line of one node: indentation, display path, and a
      trailing '/' for a directory. */
  function PlainLine(node: TreeNode, indent: string, options: ExportOptions, sep: char): string {
    var displayPath := FormatNodePath(node, options, sep);
    if node.isDirectory then indent + displayPath + "/" else indent + displayPath
  }

  /** The lines the plain-text renderer appends for `nodes`. */
  function PlainLines(nodes: seq<TreeNode>, indent: string, options: ExportOptions, sep: char): seq<string>
    decreases nodes
  {
    if nodes == [] then []
    else
      var node := nodes[|nodes| - 1];
      PlainLines(nodes[..|nodes| - 1], indent, options, sep) + [PlainLine(node, indent, options, sep)]
      + if node.isDirectory then PlainLines(node.children, indent + "  ", options, sep) else []
  }

  /** Appends the plain-text lines for `nodes` to the sink and counts them. */
  method RenderPlainText(nodes: seq<TreeNode>, sink: Sink, indent: string, options: ExportOptions, sep: char)
    modifies sink
    ensures sink.lines == old(sink.lines) + PlainLines(nodes, indent, options, sep)
    ensures sink.fileCount == old(sink.fileCount) + FileCount(nodes)
    ensures sink.dirCount == old(sink.dirCount) + DirCount(nodes)
    decreases nodes
  {
    ghost var start, files, dirs := sink.lines, sink.fileCount, sink.dirCount;
    for i := 0 to |nodes|
      invariant sink.lines == start + PlainLines(nodes[..i], indent, options, sep)
      invariant sink.fileCount == files + FileCount(nodes[..i])
      invariant sink.dirCount == dirs + DirCount(nodes[..i])
    {
      var node := nodes[i];
      ghost var done := PlainLines(nodes[..i], indent, options, sep);
      ghost var added := [PlainLine(node, indent, options, sep)]
                         + if node.isDirectory then PlainLines(node.children, indent + "  ", options, sep) else [];
      RenderPlainNode(node, sink, indent, options, sep);
      PlainStep(nodes, i, indent, options, sep);
      CountStep(nodes, i);
      AppendAssoc(start, done, added);
    }
    assert nodes[..|nodes|] == nodes;
  }

  /** One pass of the plain-text loop: the line of `node`, then, for a
      folder, the lines of its children one level deeper. */
  method RenderPlainNode(node: TreeNode, sink: Sink, indent: string, options: ExportOptions, sep: char)
    modifies sink
    ensures sink.lines == old(sink.lines) + ([PlainLine(node, indent, options, sep)]
                          + if node.isDirectory then PlainLines(node.children, indent + "  ", options, sep) else [])
    ensures sink.fileCount == old(sink.fileCount) + (if node.isDirectory then FileCount(node.children) else 1)
    ensures sink.dirCount == old(sink.dirCount) + (if node.isDirectory then 1 + DirCount(node.children) else 0)
    decreases node
  {
    var line := PlainLine(node, indent, options, sep);
    if node.isDirectory {
      sink.CountDir();
      ghost var start := sink.lines;
      sink.Push(line);
      RenderPlainText(node.children, sink, indent + "  ", options, sep);
      AppendAssoc(start, [line], PlainLines(node.children, indent + "  ", options, sep));
    } else {
      sink.CountFile();
      sink.Push(line);
    }
  }

  /** What sibling `i` adds to the plain-text lines of the siblings before it. */
  lemma PlainStep(nodes: seq<TreeNode>, i: nat, indent: string, options: ExportOptions, sep: char)
    requires i < |nodes|
    ensures var node := nodes[i];
            PlainLines(nodes[..i + 1], indent, options, sep)
            == PlainLines(nodes[..i], indent, options, sep)
               + ([PlainLine(node, indent, options, sep)]
                  + if node.isDirectory then PlainLines(node.children, indent + "  ", options, sep) else [])
  {
    assert nodes[..i + 1][..i] == nodes[..i] && nodes[..i + 1][i] == nodes[i];
  }

  /** What sibling `i` adds to the counts of the siblings before it. */
  lemma CountStep(nodes: seq<TreeNode>, i: nat)
    requires i < |nodes|
    ensures var node := nodes[i];
            FileCount(nodes[..i + 1]) == FileCount(nodes[..i]) + (if node.isDirectory then FileCount(node.children) else 1) &&
            DirCount(nodes[..i + 1]) == DirCount(nodes[..i]) + (if node.isDirectory then 1 + DirCount(node.children) else 0)
  {
    assert nodes[..i + 1][..i] == nodes[..i] && nodes[..i + 1][i] == nodes[i];
  }

  /** Two spaces per level. */
  function Pad(level: nat): string {
    if level == 0 then "" else Pad(level - 1) + "  "
  }

  /** Each line is the plain-text line of the matching visit, indented by
      `base` plus two spaces per level. */
  predicate LinesOfVisits(lines: seq<string>, visits: seq<Visit>, base: string, options: ExportOptions, sep: char) {
    |lines| == |visits| &&
    forall i :: 0 <= i < |lines| ==>
      lines[i] == PlainLine(visits[i].node, base + Pad(visits[i].level), options, sep)
  }

  lemma LinesOfVisitsAppend(l1: seq<string>, v1: seq<Visit>, l2: seq<string>, v2: seq<Visit>,
                            base: string, options: ExportOptions, sep: char)
    requires LinesOfVisits(l1, v1, base, options, sep) && LinesOfVisits(l2, v2, base, options, sep)
    ensures LinesOfVisits(l1 + l2, v1 + v2, base, options, sep)
  {
    var ls, vs := l1 + l2, v1 + v2;
    forall i | 0 <= i < |ls| ensures ls[i] == PlainLine(vs[i].node, base + Pad(vs[i].level), options, sep) {
      if i >= |l1| {
        assert ls[i] == l2[i - |l1|] && vs[i] == v2[i - |l1|];
      }
    }
  }

  /** The plain-text output lists the visited nodes one per line, in visiting
      order, each indented two spaces per level below the start. */
  lemma {:induction false} PlainLinesFollowVisits(nodes: seq<TreeNode>, base: string, level: nat,
                                                   options: ExportOptions, sep: char)
    ensures LinesOfVisits(PlainLines(nodes, base + Pad(level), options, sep), Preorder(nodes, level), base, options, sep)
    decreases nodes
  {
    if nodes != [] {
      var init, node := nodes[..|nodes| - 1], nodes[|nodes| - 1];
      var indent := base + Pad(level);
      PlainLinesFollowVisits(init, base, level, options, sep);
      var l1 := PlainLines(init, indent, options, sep);
      var v1 := Preorder(init, level);
      LinesOfVisitsAppend(l1, v1, [PlainLine(node, indent, options, sep)], [Visit(node, level)], base, options, sep);
      if node.isDirectory {
        assert indent + "  " == base + Pad(level + 1);
        PlainLinesFollowVisits(node.children, base, level + 1, options, sep);
        LinesOfVisitsAppend(l1 + [PlainLine(node, indent, options, sep)], v1 + [Visit(node, level)],
                            PlainLines(node.children, indent + "  ", options, sep), Preorder(node.children, level + 1),
                            base, options, sep);
      } else {
        LinesOfVisitsAppend(l1 + [PlainLine(node, indent, options, sep)], v1 + [Visit(node, level)],
                            [], [], base, options, sep);
      }
    }
  }

  /** The plain-text renderer appends exactly one line per counted node. */
  lemma PlainLineCount(nodes: seq<TreeNode>, indent: string, options: ExportOptions, sep: char)
    ensures |PlainLines(nodes, indent, options, sep)| == FileCount(nodes) + DirCount(nodes)
  {
    assert indent + Pad(0) == indent;
    PlainLinesFollowVisits(nodes, indent, 0, options, sep);
    CountsMatchVisits(nodes, 0);
  }

  // ---------------------------------------------------------------------------
  // Markdown
  // ---------------------------------------------------------------------------

  /** Connector before a node: the last sibling closes the branch. */
  function Connector(isLast: bool): string {
    if isLast then "└── " else "├── "
  }

  /** What the indentation grows by below a node: blank after the last
      sibling, a vertical bar while more siblings follow. */
  function ChildIndent(isLast: bool): string {
    if isLast then "    " else "│   "
  }

  /** The Markdown line of one node. */
  function MarkdownLine(node: TreeNode, isLast: bool, indent: string, options: ExportOptions, sep: char): string {
    var displayPath := FormatNodePath(node, options, sep);
    if node.isDirectory then indent + Connector(isLast) + "\U{1F4C1} " + displayPath + "/"
    else indent + Connector(isLast) + "\U{1F4C4} " + displayPath
  }

  /** The lines the Markdown renderer appends for `nodes`. */
  function MarkdownLines(nodes: seq<TreeNode>, indent: string, options: ExportOptions, sep: char): seq<string>
    decreases nodes, 1, 0
  {
    MarkdownPrefix(nodes, |nodes|, indent, options, sep)
  }

  /** The lines for the first `k` of the siblings `nodes`; whether a node is
      the last sibling depends on all of `nodes`. */
  function MarkdownPrefix(nodes: seq<TreeNode>, k: nat, indent: string, options: ExportOptions, sep: char): seq<string>
    requires k <= |nodes|
    decreases nodes, 0, k
  {
    if k == 0 then []
    else MarkdownPrefix(nodes, k - 1, indent, options, sep) + MarkdownBlock(nodes[k - 1], k == |nodes|, indent, options, sep)
  }

  /** The lines of one sibling: its connector line, then, for a folder, the
      lines of its children with the indentation grown below it. */
  function MarkdownBlock(node: TreeNode, isLast: bool, indent: string, options: ExportOptions, sep: char): seq<string>
    decreases node
  {
    [MarkdownLine(node, isLast, indent, options, sep)]
    + if node.isDirectory then MarkdownLines(node.children, indent + ChildIndent(isLast), options, sep) else []
  }

  /** Appends the Markdown lines for `nodes` to the sink and counts them. */
  method RenderMarkdown(nodes: seq<TreeNode>, sink: Sink, indent: string, options: ExportOptions, sep: char)
    modifies sink
    ensures sink.lines == old(sink.lines) + MarkdownLines(nodes, indent, options, sep)
    ensures sink.fileCount == old(sink.fileCount) + FileCount(nodes)
    ensures sink.dirCount == old(sink.dirCount) + DirCount(nodes)
    decreases nodes
  {
    ghost var start, files, dirs := sink.lines, sink.fileCount, sink.dirCount;
    for i := 0 to |nodes|
      invariant sink.lines == start + MarkdownPrefix(nodes, i, indent, options, sep)
      invariant sink.fileCount == files + FileCount(nodes[..i])
      invariant sink.dirCount == dirs + DirCount(nodes[..i])
    {
      var node, isLast := nodes[i], i == |nodes| - 1;
      ghost var done := MarkdownPrefix(nodes, i, indent, options, sep);
      RenderMarkdownNode(node, isLast, sink, indent, options, sep);
      CountStep(nodes, i);
      AppendAssoc(start, done, MarkdownBlock(node, isLast, indent, options, sep));
    }
    assert nodes[..|nodes|] == nodes;
  }

  /** One pass of the Markdown loop: the connector line of `node`, then, for
      a folder, the lines of its children with the indentation grown by the
      connector column. */
  method RenderMarkdownNode(node: TreeNode, isLast: bool, sink: Sink, indent: string, options: ExportOptions, sep: char)
    modifies sink
    ensures sink.lines == old(sink.lines) + MarkdownBlock(node, isLast, indent, options, sep)
    ensures sink.fileCount == old(sink.fileCount) + (if node.isDirectory then FileCount(node.children) else 1)
    ensures sink.dirCount == old(sink.dirCount) + (if node.isDirectory then 1 + DirCount(node.children) else 0)
    decreases node
  {
    var line := MarkdownLine(node, isLast, indent, options, sep);
    if node.isDirectory {
      ghost var start := sink.lines;
      sink.CountDir();
      sink.Push(line);
      var childIndent := indent + ChildIndent(isLast);
      RenderMarkdown(node.children, sink, childIndent, options, sep);
      AppendAssoc(start, [line], MarkdownLines(node.children, childIndent, options, sep));
    } else {
      sink.CountFile();
      sink.Push(line);
    }
  }

  /** The Markdown lines of the first `k` siblings are one per counted node
      of those siblings. */
  lemma {:induction false} MarkdownPrefixCount(nodes: seq<TreeNode>, k: nat, indent: string, options: ExportOptions, sep: char)
    requires k <= |nodes|
    ensures |MarkdownPrefix(nodes, k, indent, options, sep)| == FileCount(nodes[..k]) + DirCount(nodes[..k])
    decreases nodes, 0, k
  {
    if k > 0 {
      var node := nodes[k - 1];
      MarkdownPrefixCount(nodes, k - 1, indent, options, sep);
      CountStep(nodes, k - 1);
      if node.isDirectory {
        MarkdownLineCount(node.children, indent + ChildIndent(k == |nodes|), options, sep);
      }
    }
  }

  /** The Markdown renderer appends exactly one line per counted node. */
  lemma {:induction false} MarkdownLineCount(nodes: seq<TreeNode>, indent: string, options: ExportOptions, sep: char)
    ensures |MarkdownLines(nodes, indent, options, sep)| == FileCount(nodes) + DirCount(nodes)
    decreases nodes, 1, 0
  {
    MarkdownPrefixCount(nodes, |nodes|, indent, options, sep);
    assert nodes[..|nodes|] == nodes;
  }

  lemma {:induction false} MarkdownPrefixGrows(nodes: seq<TreeNode>, j: nat, k: nat, indent: string, options: ExportOptions, sep: char)
    requires j <= k <= |nodes|
    ensures var pj := MarkdownPrefix(nodes, j, indent, options, sep);
            var pk := MarkdownPrefix(nodes, k, indent, options, sep);
            |pj| <= |pk| && pk[..|pj|] == pj
    decreases k - j
  {
    if j < k {
      MarkdownPrefixGrows(nodes, j, k - 1, indent, options, sep);
    }
  }

  /** The lines of the first `j` siblings open the lines of all of them. */
  lemma PrefixOfLines(nodes: seq<TreeNode>, j: nat, indent: string, options: ExportOptions, sep: char)
    requires j <= |nodes|
    ensures var pj := MarkdownPrefix(nodes, j, indent, options, sep);
            var lines := MarkdownLines(nodes, indent, options, sep);
            |pj| <= |lines| && lines[..|pj|] == pj
  {
    MarkdownPrefixGrows(nodes, j, |nodes|, indent, options, sep);
  }

  /** Every line of `lines` starts with `indent`. */
  predicate Indented(lines: seq<string>, indent: string) {
    forall i :: 0 <= i < |lines| ==> indent <= lines[i]
  }

  /** Every line drawn for `nodes` starts with their indentation: subtrees
      are drawn inside the column of their parent. */
  lemma {:induction false} MarkdownLinesIndented(nodes: seq<TreeNode>, indent: string, options: ExportOptions, sep: char)
    ensures Indented(MarkdownLines(nodes, indent, options, sep), indent)
    decreases nodes, 1, 0
  {
    MarkdownPrefixIndented(nodes, |nodes|, indent, options, sep);
  }

  lemma {:induction false} MarkdownPrefixIndented(nodes: seq<TreeNode>, k: nat, indent: string, options: ExportOptions, sep: char)
    requires k <= |nodes|
    ensures Indented(MarkdownPrefix(nodes, k, indent, options, sep), indent)
    decreases nodes, 0, k
  {
    if k > 0 {
      var node, isLast := nodes[k - 1], k == |nodes|;
      MarkdownPrefixIndented(nodes, k - 1, indent, options, sep);
      var line := MarkdownLine(node, isLast, indent, options, sep);
      assert indent <= line;
      var sub := if node.isDirectory then MarkdownLines(node.children, indent + ChildIndent(isLast), options, sep) else [];
      if node.isDirectory {
        MarkdownLinesIndented(node.children, indent + ChildIndent(isLast), options, sep);
        IndentedWithin(sub, indent, ChildIndent(isLast));
      }
      IndentedAppend([line], sub, indent);
      IndentedAppend(MarkdownPrefix(nodes, k - 1, indent, options, sep), [line] + sub, indent);
    }
  }

  lemma IndentedWithin(lines: seq<string>, indent: string, more: string)
    requires Indented(lines, indent + more)
    ensures Indented(lines, indent)
  {
    forall i | 0 <= i < |lines|
      ensures indent <= lines[i]
    {
      assert indent + more <= lines[i];
      assert lines[i][..|indent|] == (indent + more)[..|indent|];
    }
  }

  lemma IndentedAppend(a: seq<string>, b: seq<string>, indent: string)
    requires Indented(a, indent) && Indented(b, indent)
    ensures Indented(a + b, indent)
  {
    forall i | 0 <= i < |a + b|
      ensures indent <= (a + b)[i]
    {
      if i >= |a| {
        assert (a + b)[i] == b[i - |a|];
      }
    }
  }

  /** Where each sibling's block sits: the block of sibling `k` (its
      connector line, then its subtree) starts right after one line for
      every node counted in the siblings before it. */
  lemma MarkdownSiblingBlock(nodes: seq<TreeNode>, k: nat, indent: string, options: ExportOptions, sep: char)
    requires k < |nodes|
    ensures var lines := MarkdownLines(nodes, indent, options, sep);
            var at := FileCount(nodes[..k]) + DirCount(nodes[..k]);
            var block := MarkdownBlock(nodes[k], k == |nodes| - 1, indent, options, sep);
            at + |block| <= |lines| && lines[at..at + |block|] == block
  {
    SiblingLines(nodes, k, indent, options, sep);
    MarkdownPrefixCount(nodes, k, indent, options, sep);
  }

  /** The block of sibling `k` follows the blocks of the siblings before it. */
  lemma SiblingLines(nodes: seq<TreeNode>, k: nat, indent: string, options: ExportOptions, sep: char)
    requires k < |nodes|
    ensures var lines := MarkdownLines(nodes, indent, options, sep);
            var at := |MarkdownPrefix(nodes, k, indent, options, sep)|;
            var block := MarkdownBlock(nodes[k], k == |nodes| - 1, indent, options, sep);
            at + |block| <= |lines| && lines[at..at + |block|] == block
  {
    PrefixOfLines(nodes, k + 1, indent, options, sep);
    var lines := MarkdownLines(nodes, indent, options, sep);
    var before := MarkdownPrefix(nodes, k, indent, options, sep);
    var block := MarkdownBlock(nodes[k], k == |nodes| - 1, indent, options, sep);
    assert lines[..|before| + |block|] == before + block;
    assert lines[|before|..|before| + |block|] == (before + block)[|before|..];
  }
}
