/** A worked example: the root folder `/w` holds `a.txt`, `.env` and a folder
    `sub` holding `b.txt`; no names are configured for exclusion and hidden
    files are off. */
module Scenario {
  import opened Types
  import opened Exclusion
  import opened Paths
  import opened Ordering
  import opened TreeBuilder
  import opened Render
  import opened Generate

  function SampleListing(p: string): Listing {
    if p == "/w" then Listed([Entry("a.txt", File), Entry(".env", File), Entry("sub", Directory)])
    else if p == "/w/sub" then Listed([Entry("b.txt", File)])
    else ListFailed("ENOENT")
  }

  function SampleHost(): Host {
    Host('/', SampleListing)
  }

  function SampleOptions(): ExportOptions {
    ExportOptions(false, Relative, PlainText)
  }

  function MarkdownOptions(): ExportOptions {
    ExportOptions(false, Relative, Markdown)
  }

  /** `.env` sorts before `a.txt`: the dot comes before every letter. */
  lemma SampleInsertEnv(a: Entry, env: Entry)
    requires a == Entry("a.txt", File) && env == Entry(".env", File)
    ensures Insert(env, [a]) == [env, a]
  {
    assert Fold(".env") == ".env" && Fold("a.txt") == "a.txt";
    assert Compare(env, a) < 0;
    assert [a][..0] == [];
  }

  /** The folder sorts before both files. */
  lemma SampleInsertSub(a: Entry, env: Entry, sub: Entry)
    requires a == Entry("a.txt", File) && env == Entry(".env", File) && sub == Entry("sub", Directory)
    ensures Insert(sub, [env, a]) == [sub, env, a]
  {
    assert Compare(sub, a) < 0 && Compare(sub, env) < 0;
    assert [env, a][..1] == [env] && [env][..0] == [];
    assert Insert(sub, [env]) == [sub, env];
  }

  /** The folder sorts before both files, and `.env` before `a.txt`. */
  lemma SampleOrder()
    ensures SortEntries([Entry("a.txt", File), Entry(".env", File), Entry("sub", Directory)])
            == [Entry("sub", Directory), Entry(".env", File), Entry("a.txt", File)]
  {
    var a, env, sub := Entry("a.txt", File), Entry(".env", File), Entry("sub", Directory);
    assert [a, env][..1] == [a] && [a, env, sub][..2] == [a, env];
    assert SortEntries([a]) == [a];
    SampleInsertEnv(a, env);
    SampleInsertSub(a, env, sub);
  }

  lemma SampleJoinSub()
    ensures Join("/w", "sub", '/') == "/w/sub"
  {
  }

  lemma SampleJoinA()
    ensures Join("/w", "a.txt", '/') == "/w/a.txt"
  {
  }

  lemma SampleJoinB()
    ensures Join("/w/sub", "b.txt", '/') == "/w/sub/b.txt"
  {
  }

  lemma SampleRootName()
    ensures Basename("/w", '/') == "w"
  {
    BasenameOfJoin("/", "w", '/');
  }

  lemma SampleSubName()
    ensures Basename("/w/sub", '/') == "sub"
  {
    SampleJoinSub();
    BasenameOfJoin("/w", "sub", '/');
  }

  lemma SamplePaths()
    ensures Join("/w", "sub", '/') == "/w/sub" && Join("/w", "a.txt", '/') == "/w/a.txt"
    ensures Join("/w/sub", "b.txt", '/') == "/w/sub/b.txt"
    ensures Basename("/w", '/') == "w" && Basename("/w/sub", '/') == "sub"
  {
    SampleJoinSub();
    SampleJoinA();
    SampleJoinB();
    SampleRootName();
    SampleSubName();
  }

  lemma SampleExclusion()
    ensures ShouldExclude(".env", SampleOptions(), [])
    ensures !ShouldExclude("sub", SampleOptions(), []) && !ShouldExclude("a.txt", SampleOptions(), [])
    ensures !ShouldExclude("b.txt", SampleOptions(), [])
  {
  }

  lemma SampleSubChildren()
    ensures BuildChildren(SampleHost(), "/w/sub", SampleOptions(), [], 1, [Entry("b.txt", File)])
            == [TreeNode("b.txt", "/w/sub/b.txt", false, [])]
  {
    SamplePaths();
    SampleExclusion();
    var b := Entry("b.txt", File);
    assert [b][1..] == [];
  }

  lemma SampleSubtree()
    ensures Build(SampleHost(), "/w/sub", SampleOptions(), [], 1)
            == TreeNode("sub", "/w/sub", true, [TreeNode("b.txt", "/w/sub/b.txt", false, [])])
  {
    var b := Entry("b.txt", File);
    assert SampleListing("/w/sub") == Listed([b]);
    assert SortEntries([b]) == [b];
    SamplePaths();
    SampleSubChildren();
  }

  lemma SampleChildren()
    ensures var host, options := SampleHost(), SampleOptions();
            ChildOf(host, "/w", options, [], 0, Entry("sub", Directory))
              == [TreeNode("sub", "/w/sub", true, [TreeNode("b.txt", "/w/sub/b.txt", false, [])])]
            && ChildOf(host, "/w", options, [], 0, Entry(".env", File)) == []
            && ChildOf(host, "/w", options, [], 0, Entry("a.txt", File)) == [TreeNode("a.txt", "/w/a.txt", false, [])]
  {
    SamplePaths();
    SampleExclusion();
    SampleSubtree();
  }

  lemma SampleTail()
    ensures BuildChildren(SampleHost(), "/w", SampleOptions(), [], 0, [Entry(".env", File), Entry("a.txt", File)])
            == [TreeNode("a.txt", "/w/a.txt", false, [])]
  {
    var host, options := SampleHost(), SampleOptions();
    var a, env := Entry("a.txt", File), Entry(".env", File);
    SampleChildren();
    assert [env, a][1..] == [a] && [a][1..] == [];
    assert BuildChildren(host, "/w", options, [], 0, [a]) == [TreeNode("a.txt", "/w/a.txt", false, [])];
  }

  lemma SampleRoot()
    ensures Build(SampleHost(), "/w", SampleOptions(), [], 0).children
            == BuildChildren(SampleHost(), "/w", SampleOptions(), [], 0,
                             [Entry("sub", Directory), Entry(".env", File), Entry("a.txt", File)])
  {
    assert SampleListing("/w") == Listed([Entry("a.txt", File), Entry(".env", File), Entry("sub", Directory)]);
    SampleOrder();
  }

  lemma SampleTree()
    ensures Build(SampleHost(), "/w", SampleOptions(), [], 0).children
            == [TreeNode("sub", "/w/sub", true, [TreeNode("b.txt", "/w/sub/b.txt", false, [])]),
                TreeNode("a.txt", "/w/a.txt", false, [])]
  {
    SampleRoot();
    SampleSortedChildren([Entry("sub", Directory), Entry(".env", File), Entry("a.txt", File)]);
  }

  lemma SampleSortedChildren(sorted: seq<Entry>)
    requires sorted == [Entry("sub", Directory), Entry(".env", File), Entry("a.txt", File)]
    ensures BuildChildren(SampleHost(), "/w", SampleOptions(), [], 0, sorted)
            == [TreeNode("sub", "/w/sub", true, [TreeNode("b.txt", "/w/sub/b.txt", false, [])]),
                TreeNode("a.txt", "/w/a.txt", false, [])]
  {
    SampleChildren();
    SampleTail();
    assert sorted[1..] == [Entry(".env", File), Entry("a.txt", File)];
  }

  lemma SampleLines()
    ensures var bNode := TreeNode("b.txt", "/w/sub/b.txt", false, []);
            var subNode := TreeNode("sub", "/w/sub", true, [bNode]);
            var aNode := TreeNode("a.txt", "/w/a.txt", false, []);
            PlainLines([subNode, aNode], "  ", SampleOptions(), '/') == ["  sub/", "    b.txt", "  a.txt"]
  {
    var options := SampleOptions();
    var bNode := TreeNode("b.txt", "/w/sub/b.txt", false, []);
    var subNode := TreeNode("sub", "/w/sub", true, [bNode]);
    var aNode := TreeNode("a.txt", "/w/a.txt", false, []);
    assert [subNode, aNode][..1] == [subNode] && [subNode][..0] == [] && [bNode][..0] == [];
    assert "  " + "  " == "    ";
    assert PlainLine(bNode, "    ", options, '/') == "    b.txt";
    assert PlainLine(subNode, "  ", options, '/') == "  sub/";
    assert PlainLine(aNode, "  ", options, '/') == "  a.txt";
    assert PlainLines([bNode], "    ", options, '/') == ["    b.txt"];
    assert PlainLines([subNode], "  ", options, '/') == ["  sub/"] + PlainLines([bNode], "    ", options, '/');
    assert PlainLines([subNode, aNode], "  ", options, '/') == PlainLines([subNode], "  ", options, '/') + ["  a.txt"];
  }

  /** The folder exported as plain text: `sub/` before `a.txt`, `.env`
      left out, `b.txt` one level under `sub/`; two files and one folder. */
  lemma SamplePlainText()
    ensures var tree := Build(SampleHost(), "/w", SampleOptions(), [], 0);
            DocumentLines(Basename("/w", '/'), tree.children, SampleOptions(), '/')
              == ["w/", "  sub/", "    b.txt", "  a.txt"]
            && FileCount(tree.children) == 2 && DirCount(tree.children) == 1
  {
    SampleTree();
    SampleRootName();
    var children := Build(SampleHost(), "/w", SampleOptions(), [], 0).children;
    SamplePlainDocument(Basename("/w", '/'), children);
    SampleCounts(children);
  }

  lemma SampleCounts(children: seq<TreeNode>)
    requires children == [TreeNode("sub", "/w/sub", true, [TreeNode("b.txt", "/w/sub/b.txt", false, [])]),
                          TreeNode("a.txt", "/w/a.txt", false, [])]
    ensures FileCount(children) == 2 && DirCount(children) == 1
  {
    var bNode := TreeNode("b.txt", "/w/sub/b.txt", false, []);
    var subNode := TreeNode("sub", "/w/sub", true, [bNode]);
    assert children[..1] == [subNode] && [subNode][..0] == [] && [bNode][..0] == [];
    assert FileCount([bNode]) == 1 && DirCount([bNode]) == 0;
    assert FileCount([subNode]) == 1 && DirCount([subNode]) == 1;
  }

  lemma SamplePlainDocument(rootName: string, children: seq<TreeNode>)
    requires rootName == "w"
    requires children == [TreeNode("sub", "/w/sub", true, [TreeNode("b.txt", "/w/sub/b.txt", false, [])]),
                          TreeNode("a.txt", "/w/a.txt", false, [])]
    ensures DocumentLines(rootName, children, SampleOptions(), '/') == ["w/", "  sub/", "    b.txt", "  a.txt"]
  {
    SampleLines();
    assert rootName + "/" == "w/";
  }

  lemma SampleInnerLines()
    ensures MarkdownLines([TreeNode("b.txt", "/w/sub/b.txt", false, [])], "   │   ", MarkdownOptions(), '/')
            == ["   │   └── \U{1F4C4} b.txt"]
  {
    var bNode := TreeNode("b.txt", "/w/sub/b.txt", false, []);
    var options, inner := MarkdownOptions(), "   │   ";
    assert MarkdownLine(bNode, true, inner, options, '/') == "   │   └── \U{1F4C4} b.txt";
    assert MarkdownBlock(bNode, true, inner, options, '/') == [MarkdownLine(bNode, true, inner, options, '/')];
    assert MarkdownPrefix([bNode], 1, inner, options, '/') == MarkdownBlock(bNode, true, inner, options, '/');
  }

  lemma SampleMarkdownLines()
    ensures var bNode := TreeNode("b.txt", "/w/sub/b.txt", false, []);
            var subNode := TreeNode("sub", "/w/sub", true, [bNode]);
            var aNode := TreeNode("a.txt", "/w/a.txt", false, []);
            MarkdownLines([subNode, aNode], "   ", MarkdownOptions(), '/')
              == ["   ├── \U{1F4C1} sub/", "   │   └── \U{1F4C4} b.txt", "   └── \U{1F4C4} a.txt"]
  {
    var options := MarkdownOptions();
    var bNode := TreeNode("b.txt", "/w/sub/b.txt", false, []);
    var subNode := TreeNode("sub", "/w/sub", true, [bNode]);
    var aNode := TreeNode("a.txt", "/w/a.txt", false, []);
    assert "   " + ChildIndent(false) == "   │   ";
    SampleInnerLines();
    assert MarkdownLine(subNode, false, "   ", options, '/') == "   ├── \U{1F4C1} sub/";
    assert MarkdownLine(aNode, true, "   ", options, '/') == "   └── \U{1F4C4} a.txt";
    assert MarkdownBlock(subNode, false, "   ", options, '/')
           == ["   ├── \U{1F4C1} sub/", "   │   └── \U{1F4C4} b.txt"];
    assert MarkdownBlock(aNode, true, "   ", options, '/') == ["   └── \U{1F4C4} a.txt"];
    assert MarkdownPrefix([subNode, aNode], 1, "   ", options, '/') == MarkdownBlock(subNode, false, "   ", options, '/');
  }

  lemma SampleMarkdownTree()
    ensures Build(SampleHost(), "/w", MarkdownOptions(), [], 0).children
            == Build(SampleHost(), "/w", SampleOptions(), [], 0).children
  {
    BuildIgnoresFormat(SampleHost(), "/w", MarkdownOptions(), SampleOptions(), [], 0);
  }

  lemma SampleFooter()
    ensures Footer(2, 1) == "> Generated by **WorkspaceTree** — 2 files, 1 folders"
  {
    assert NatToString(2) == "2" && NatToString(1) == "1";
  }

  /** The same folder exported as Markdown: a fenced block with the root
      line, one connector line per node and the footer with both counts. */
  lemma SampleMarkdown()
    ensures var tree := Build(SampleHost(), "/w", MarkdownOptions(), [], 0);
            DocumentLines(Basename("/w", '/'), tree.children, MarkdownOptions(), '/')
              == ["```", "\U{1F4C1} w/",
                  "   ├── \U{1F4C1} sub/", "   │   └── \U{1F4C4} b.txt", "   └── \U{1F4C4} a.txt",
                  "```", "", "> Generated by **WorkspaceTree** — 2 files, 1 folders"]
  {
    SampleMarkdownTree();
    SampleTree();
    SampleRootName();
    SampleMarkdownDocument(Basename("/w", '/'), Build(SampleHost(), "/w", MarkdownOptions(), [], 0).children);
  }

  lemma SampleMarkdownDocument(rootName: string, children: seq<TreeNode>)
    requires rootName == "w"
    requires children == [TreeNode("sub", "/w/sub", true, [TreeNode("b.txt", "/w/sub/b.txt", false, [])]),
                          TreeNode("a.txt", "/w/a.txt", false, [])]
    ensures DocumentLines(rootName, children, MarkdownOptions(), '/')
            == ["```", "\U{1F4C1} w/",
                "   ├── \U{1F4C1} sub/", "   │   └── \U{1F4C4} b.txt", "   └── \U{1F4C4} a.txt",
                "```", "", "> Generated by **WorkspaceTree** — 2 files, 1 folders"]
  {
    SampleCounts(children);
    SampleMarkdownLines();
    SampleFooter();
    assert "\U{1F4C1} " + rootName + "/" == "\U{1F4C1} w/";
  }
}
