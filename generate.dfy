/** Tree generation: choose the exclusion list, build the tree from the root
    folder, render its children in the chosen format under a header line
    for the root, and report the text together with the two counters. */
module Generate {
  import opened Types
  import opened Paths
  import opened TreeBuilder
  import opened Render

  function DigitChar(d: nat): char
    requires d < 10
  {
    ('0' as int + d) as char
  }

  /** The decimal numeral of `n`, as template-literal interpolation writes it:
      digits only, and a leading zero only for zero itself. */
  function NatToString(n: nat): (s: string)
    ensures s != []
    ensures forall i :: 0 <= i < |s| ==> '0' <= s[i] <= '9'
    ensures s[0] == '0' <==> n == 0
    decreases n
  {
    if n < 10 then [DigitChar(n)] else NatToString(n / 10) + [DigitChar(n % 10)]
  }

  /** The value of a string of decimal digits. */
  function DigitsValue(s: string): int
    decreases |s|
  {
    if s == [] then 0 else DigitsValue(s[..|s| - 1]) * 10 + (s[|s| - 1] as int - '0' as int)
  }

  /** The numeral reads back as the number it was written from. */
  lemma {:induction false} NatToStringRoundTrip(n: nat)
    ensures DigitsValue(NatToString(n)) == n
    decreases n
  {
    if n >= 10 {
      NatToStringRoundTrip(n / 10);
      var s := NatToString(n);
      assert s[..|s| - 1] == NatToString(n / 10);
    }
  }

  /** The configured exclusion list, or the built-in one when none is configured. */
  function ExcludeList(configured: Option<seq<string>>): (patterns: seq<string>)
    ensures configured.Some? ==> patterns == configured.value
    ensures configured.None? ==>
              patterns == ["node_modules", ".git", "dist", "out", ".next", "__pycache__", ".DS_Store"]
  {
    match configured
    case Some(patterns) => patterns
    case None => DefaultExcludePatterns
  }

  /** The closing line of a Markdown export. */
  function Footer(files: nat, dirs: nat): string {
    "> Generated by **WorkspaceTree** — " + NatToString(files) + " files, " + NatToString(dirs) + " folders"
  }

  /** The lines of the exported text for a root folder named `rootName`
      whose built children are `children`. */
  function DocumentLines(rootName: string, children: seq<TreeNode>, options: ExportOptions, sep: char): seq<string> {
    match options.exportType
    case Markdown =>
      ["```", "\U{1F4C1} " + rootName + "/"] + MarkdownLines(children, "   ", options, sep)
      + ["```", "", Footer(FileCount(children), DirCount(children))]
    case PlainText =>
      [rootName + "/"] + PlainLines(children, "  ", options, sep)
  }

  /** Renders the built children of the root folder named `rootName` in the
      chosen format, counting files and folders as it goes. */
  method RenderDocument(rootName: string, children: seq<TreeNode>, options: ExportOptions, sep: char)
    returns (lines: seq<string>, fileCount: nat, dirCount: nat)
    ensures lines == DocumentLines(rootName, children, options, sep)
    ensures fileCount == FileCount(children) && dirCount == DirCount(children)
  {
    var sink := new Sink();
    if options.exportType == Markdown {
      sink.Push("```");
      sink.Push("\U{1F4C1} " + rootName + "/");
      RenderMarkdown(children, sink, "   ", options, sep);
      sink.Push("```");
      sink.Push("");
      sink.Push(Footer(sink.fileCount, sink.dirCount));
    } else {
      sink.Push(rootName + "/");
      RenderPlainText(children, sink, "  ", options, sep);
    }
    lines, fileCount, dirCount := sink.lines, sink.fileCount, sink.dirCount;
  }

  /** Generates the export for the folder at `rootPath`. `configured` is the
      exclusion list from the workspace settings, if any. */
  method GenerateTree(host: Host, rootPath: string, options: ExportOptions, configured: Option<seq<string>>)
    returns (result: GenerationResult, warnings: seq<Warning>)
    ensures var tree := Build(host, rootPath, options, ExcludeList(configured), 0);
            result.fileCount == FileCount(tree.children) &&
            result.dirCount == DirCount(tree.children) &&
            result.text == JoinWith(DocumentLines(Basename(rootPath, host.sep), tree.children, options, host.sep), '\n')
    ensures warnings == BuildLog(host, rootPath, options, ExcludeList(configured), 0)
  {
    var excludePatterns := ExcludeList(configured);
    var rootNode;
    rootNode, warnings := BuildTreeNode(host, rootPath, options, excludePatterns, 0);
    var rootName := Basename(rootPath, host.sep);
    var lines, fileCount, dirCount := RenderDocument(rootName, rootNode.children, options, host.sep);
    result := GenerationResult(JoinWith(lines, '\n'), fileCount, dirCount);
  }

  /** The export has one line per counted node plus its frame: the root line
      alone in plain text; in Markdown, the opening fence and root line
      before, and the closing fence, a blank line and the footer with both
      counts after. */
  lemma DocumentLayout(rootName: string, children: seq<TreeNode>, options: ExportOptions, sep: char)
    ensures var lines := DocumentLines(rootName, children, options, sep);
            var files, dirs := FileCount(children), DirCount(children);
            match options.exportType
            case Markdown =>
              |lines| == 5 + files + dirs &&
              lines[0] == "```" && lines[1] == "\U{1F4C1} " + rootName + "/" &&
              lines[|lines| - 3] == "```" && lines[|lines| - 2] == "" &&
              lines[|lines| - 1] == "> Generated by **WorkspaceTree** — " + NatToString(files)
                                    + " files, " + NatToString(dirs) + " folders"
            case PlainText =>
              |lines| == 1 + files + dirs && lines[0] == rootName + "/"
  {
    MarkdownLineCount(children, "   ", options, sep);
    PlainLineCount(children, "  ", options, sep);
  }

  /** Cutting the exported text at line breaks gives its lines back, as long
      as no displayed name or path contains a line break itself. */
  lemma TextSplitsIntoLines(rootName: string, children: seq<TreeNode>, options: ExportOptions, sep: char)
    requires var lines := DocumentLines(rootName, children, options, sep);
             forall i :: 0 <= i < |lines| ==> '\n' !in lines[i]
    ensures Split(JoinWith(DocumentLines(rootName, children, options, sep), '\n'), '\n')
            == DocumentLines(rootName, children, options, sep)
  {
    JoinSplitRoundTrip(DocumentLines(rootName, children, options, sep), '\n');
  }
}
