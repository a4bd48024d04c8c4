/** The tree builder: lists a directory, sorts and filters its entries, and
    recurses into subdirectories up to the depth guard. `Build` and
    `BuildLog` say what one call produces; `BuildTreeNode` is the loop that
    produces it. */
module TreeBuilder {
  import opened Types
  import opened Exclusion
  import opened Paths
  import opened Ordering

  /** A warning the builder sends to the log: a directory that cannot be
      listed, or a subdirectory skipped at the depth guard. */
  datatype Warning = CannotRead(path: string, message: string) | MaxDepthReached(path: string)

  /** The text of a warning as the log receives it (the log adds a timestamp). */
  function WarningText(w: Warning): (text: string)
    ensures var opening := if w.CannotRead? then "WARN: Cannot read directory \"" else "WARN: Max depth (50) reached at \"";
            |opening| + |w.path| < |text| && text[..|opening|] == opening &&
            text[|opening|..|opening| + |w.path|] == w.path && text[|opening| + |w.path|] == '"'
    ensures w.CannotRead? ==> |w.message| <= |text| && text[|text| - |w.message|..] == w.message
  {
    match w
    case CannotRead(path, message) => "WARN: Cannot read directory \"" + path + "\": " + message
    case MaxDepthReached(path) => "WARN: Max depth (50) reached at \"" + path + "\". Skipping subtree."
  }

  /** The node built for the directory `nodePath` at recursion depth `depth`. */
  function Build(host: Host, nodePath: string, options: ExportOptions,
                 excludePatterns: seq<string>, depth: nat): TreeNode
    decreases MaxDepth - depth, 2, 0
  {
    var name := Basename(nodePath, host.sep);
    match host.readDir(nodePath)
    case ListFailed(_) => TreeNode(name, nodePath, true, [])
    case Listed(entries) =>
      TreeNode(name, nodePath, true,
               BuildChildren(host, nodePath, options, excludePatterns, depth, SortEntries(entries)))
  }

  /** The children contributed by the (already sorted) `entries` of `nodePath`. */
  function BuildChildren(host: Host, nodePath: string, options: ExportOptions,
                         excludePatterns: seq<string>, depth: nat, entries: seq<Entry>): seq<TreeNode>
    decreases MaxDepth - depth, 1, |entries|
  {
    if entries == [] then []
    else ChildOf(host, nodePath, options, excludePatterns, depth, entries[0])
         + BuildChildren(host, nodePath, options, excludePatterns, depth, entries[1..])
  }

  /** The child (none or one) that a single entry of `nodePath` contributes. */
  function ChildOf(host: Host, nodePath: string, options: ExportOptions,
                   excludePatterns: seq<string>, depth: nat, entry: Entry): seq<TreeNode>
    decreases MaxDepth - depth, 0, 0
  {
    var childPath := Join(nodePath, entry.name, host.sep);
    if ShouldExclude(entry.name, options, excludePatterns) then []
    else if entry.kind == Directory then
      if depth < MaxDepth then [Build(host, childPath, options, excludePatterns, depth + 1)] else []
    else if entry.kind == File then [TreeNode(entry.name, childPath, false, [])]
    else []
  }

  /** The warnings one call at `nodePath` emits, in the order it emits them. */
  function BuildLog(host: Host, nodePath: string, options: ExportOptions,
                    excludePatterns: seq<string>, depth: nat): seq<Warning>
    decreases MaxDepth - depth, 2, 0
  {
    match host.readDir(nodePath)
    case ListFailed(message) => [CannotRead(nodePath, message)]
    case Listed(entries) =>
      BuildChildrenLog(host, nodePath, options, excludePatterns, depth, SortEntries(entries))
  }

  function BuildChildrenLog(host: Host, nodePath: string, options: ExportOptions,
                            excludePatterns: seq<string>, depth: nat, entries: seq<Entry>): seq<Warning>
    decreases MaxDepth - depth, 1, |entries|
  {
    if entries == [] then []
    else ChildLogOf(host, nodePath, options, excludePatterns, depth, entries[0])
         + BuildChildrenLog(host, nodePath, options, excludePatterns, depth, entries[1..])
  }

  /** The warnings that a single entry of `nodePath` gives rise to. */
  function ChildLogOf(host: Host, nodePath: string, options: ExportOptions,
                      excludePatterns: seq<string>, depth: nat, entry: Entry): seq<Warning>
    decreases MaxDepth - depth, 0, 0
  {
    var childPath := Join(nodePath, entry.name, host.sep);
    if ShouldExclude(entry.name, options, excludePatterns) || entry.kind != Directory then []
    else if depth < MaxDepth then BuildLog(host, childPath, options, excludePatterns, depth + 1)
    else [MaxDepthReached(childPath)]
  }

  /** What one entry contributes, case by case, as the loop body decides it. */
  lemma ChildOfCases(host: Host, nodePath: string, options: ExportOptions,
                     excludePatterns: seq<string>, depth: nat, entry: Entry)
    ensures var childPath := Join(nodePath, entry.name, host.sep);
            var child := ChildOf(host, nodePath, options, excludePatterns, depth, entry);
            var logged := ChildLogOf(host, nodePath, options, excludePatterns, depth, entry);
            if ShouldExclude(entry.name, options, excludePatterns) then child == [] && logged == []
            else if entry.kind == Directory then
              if depth < MaxDepth then
                child == [Build(host, childPath, options, excludePatterns, depth + 1)] &&
                logged == BuildLog(host, childPath, options, excludePatterns, depth + 1)
              else child == [] && logged == [MaxDepthReached(childPath)]
            else if entry.kind == File then
              child == [TreeNode(entry.name, childPath, false, [])] && logged == []
            else child == [] && logged == []
  {
  }

  /** The unfolding of the children (and their warnings) at position `i`. */
  lemma ChildrenUnfold(host: Host, nodePath: string, options: ExportOptions,
                       excludePatterns: seq<string>, depth: nat, entries: seq<Entry>, i: nat)
    requires i < |entries|
    ensures BuildChildren(host, nodePath, options, excludePatterns, depth, entries[i..])
            == ChildOf(host, nodePath, options, excludePatterns, depth, entries[i])
               + BuildChildren(host, nodePath, options, excludePatterns, depth, entries[i + 1..])
    ensures BuildChildrenLog(host, nodePath, options, excludePatterns, depth, entries[i..])
            == ChildLogOf(host, nodePath, options, excludePatterns, depth, entries[i])
               + BuildChildrenLog(host, nodePath, options, excludePatterns, depth, entries[i + 1..])
  {
    assert entries[i..][1..] == entries[i + 1..];
  }

  /** Before the children loop, everything is still to come. */
  lemma ChildrenStart(host: Host, nodePath: string, options: ExportOptions,
                      excludePatterns: seq<string>, depth: nat, entries: seq<Entry>)
    ensures [] + BuildChildren(host, nodePath, options, excludePatterns, depth, entries[0..])
            == BuildChildren(host, nodePath, options, excludePatterns, depth, entries)
    ensures [] + BuildChildrenLog(host, nodePath, options, excludePatterns, depth, entries[0..])
            == BuildChildrenLog(host, nodePath, options, excludePatterns, depth, entries)
  {
    assert entries[0..] == entries;
  }

  /** After the children loop, nothing is left to come. */
  lemma ChildrenDone(host: Host, nodePath: string, options: ExportOptions,
                     excludePatterns: seq<string>, depth: nat, entries: seq<Entry>,
                     children: seq<TreeNode>, warnings: seq<Warning>)
    requires children + BuildChildren(host, nodePath, options, excludePatterns, depth, entries[|entries|..])
             == BuildChildren(host, nodePath, options, excludePatterns, depth, entries)
    requires warnings + BuildChildrenLog(host, nodePath, options, excludePatterns, depth, entries[|entries|..])
             == BuildChildrenLog(host, nodePath, options, excludePatterns, depth, entries)
    ensures children == BuildChildren(host, nodePath, options, excludePatterns, depth, entries)
    ensures warnings == BuildChildrenLog(host, nodePath, options, excludePatterns, depth, entries)
  {
    assert entries[|entries|..] == [];
    assert children + [] == children && warnings + [] == warnings;
  }

  /** One step of the children loop: appending what entry `i` contributes
      keeps the loop invariant of `BuildTreeNode`. */
  lemma ChildrenStep(host: Host, nodePath: string, options: ExportOptions,
                     excludePatterns: seq<string>, depth: nat, entries: seq<Entry>, i: nat,
                     children: seq<TreeNode>, warnings: seq<Warning>,
                     added: seq<TreeNode>, logged: seq<Warning>)
    requires i < |entries|
    requires children + BuildChildren(host, nodePath, options, excludePatterns, depth, entries[i..])
             == BuildChildren(host, nodePath, options, excludePatterns, depth, entries)
    requires warnings + BuildChildrenLog(host, nodePath, options, excludePatterns, depth, entries[i..])
             == BuildChildrenLog(host, nodePath, options, excludePatterns, depth, entries)
    requires added == ChildOf(host, nodePath, options, excludePatterns, depth, entries[i])
    requires logged == ChildLogOf(host, nodePath, options, excludePatterns, depth, entries[i])
    ensures (children + added) + BuildChildren(host, nodePath, options, excludePatterns, depth, entries[i + 1..])
            == BuildChildren(host, nodePath, options, excludePatterns, depth, entries)
    ensures (warnings + logged) + BuildChildrenLog(host, nodePath, options, excludePatterns, depth, entries[i + 1..])
            == BuildChildrenLog(host, nodePath, options, excludePatterns, depth, entries)
  {
    ChildrenUnfold(host, nodePath, options, excludePatterns, depth, entries, i);
    AppendAssoc(children, added, BuildChildren(host, nodePath, options, excludePatterns, depth, entries[i + 1..]));
    AppendAssoc(warnings, logged, BuildChildrenLog(host, nodePath, options, excludePatterns, depth, entries[i + 1..]));
  }

  /** Builds the node for the directory `nodePath`, returning it together with
      the warnings logged while building it. */
  method BuildTreeNode(host: Host, nodePath: string, options: ExportOptions,
                       excludePatterns: seq<string>, depth: nat)
    returns (node: TreeNode, warnings: seq<Warning>)
    ensures node == Build(host, nodePath, options, excludePatterns, depth)
    ensures warnings == BuildLog(host, nodePath, options, excludePatterns, depth)
    decreases MaxDepth - depth, 1
  {
    var name := Basename(nodePath, host.sep);
    var listing := host.readDir(nodePath);
    if listing.ListFailed? {
      warnings := [CannotRead(nodePath, listing.message)];
      node := TreeNode(name, nodePath, true, []);
      UnreadableDirectory(host, nodePath, options, excludePatterns, depth);
      return;
    }
    var entries := listing.entries;
    entries := SortEntries(entries);

    var children: seq<TreeNode> := [];
    warnings := [];
    ChildrenStart(host, nodePath, options, excludePatterns, depth, entries);
    for i := 0 to |entries|
      invariant children + BuildChildren(host, nodePath, options, excludePatterns, depth, entries[i..])
                == BuildChildren(host, nodePath, options, excludePatterns, depth, entries)
      invariant warnings + BuildChildrenLog(host, nodePath, options, excludePatterns, depth, entries[i..])
                == BuildChildrenLog(host, nodePath, options, excludePatterns, depth, entries)
    {
      var added, logged := VisitEntry(host, nodePath, options, excludePatterns, depth, entries[i]);
      ChildrenStep(host, nodePath, options, excludePatterns, depth, entries, i, children, warnings, added, logged);
      children := children + added;
      warnings := warnings + logged;
    }
    ChildrenDone(host, nodePath, options, excludePatterns, depth, entries, children, warnings);
    node := TreeNode(name, nodePath, true, children);
    ListedDirectory(host, nodePath, options, excludePatterns, depth);
  }

  /** The body of the builder's loop for one entry of `nodePath`: the
      children (none or one) and the warnings it contributes. */
  method VisitEntry(host: Host, nodePath: string, options: ExportOptions,
                    excludePatterns: seq<string>, depth: nat, entry: Entry)
    returns (added: seq<TreeNode>, logged: seq<Warning>)
    ensures added == ChildOf(host, nodePath, options, excludePatterns, depth, entry)
    ensures logged == ChildLogOf(host, nodePath, options, excludePatterns, depth, entry)
    decreases MaxDepth - depth, 0
  {
    var childPath := Join(nodePath, entry.name, host.sep);
    if ShouldExclude(entry.name, options, excludePatterns) {
      added, logged := [], [];
      assert added == ChildOf(host, nodePath, options, excludePatterns, depth, entry);
    } else if entry.kind == Directory {
      if depth < MaxDepth {
        var childNode, childWarnings := BuildTreeNode(host, childPath, options, excludePatterns, depth + 1);
        added, logged := [childNode], childWarnings;
      } else {
        added, logged := [], [MaxDepthReached(childPath)];
      }
      assert added == ChildOf(host, nodePath, options, excludePatterns, depth, entry);
    } else if entry.kind == File {
      added, logged := [TreeNode(entry.name, childPath, false, [])], [];
      assert added == ChildOf(host, nodePath, options, excludePatterns, depth, entry);
    } else {
      // every other kind of entry is skipped without a warning
      added, logged := [], [];
      assert added == ChildOf(host, nodePath, options, excludePatterns, depth, entry);
    }
  }

  // ---------------------------------------------------------------------------
  // What a built node looks like
  // ---------------------------------------------------------------------------

  /** Whether an entry of a directory at `depth` becomes a child: it passes
      the exclusion filter and is a file, or a directory below the guard. */
  predicate Keep(entry: Entry, options: ExportOptions, excludePatterns: seq<string>, depth: nat) {
    !ShouldExclude(entry.name, options, excludePatterns) &&
    (entry.kind == File || (entry.kind == Directory && depth < MaxDepth))
  }

  /** The entries that become children, in their order. */
  function Kept(entries: seq<Entry>, options: ExportOptions, excludePatterns: seq<string>, depth: nat): seq<Entry>
    decreases |entries|
  {
    if entries == [] then []
    else (if Keep(entries[0], options, excludePatterns, depth) then [entries[0]] else [])
         + Kept(entries[1..], options, excludePatterns, depth)
  }

  /** Siblings are ordered: no directory follows a non-directory, and within
      each group the case-folded names never decrease. */
  predicate SiblingsOrdered(nodes: seq<TreeNode>) {
    forall i, j :: 0 <= i < j < |nodes| ==>
      (nodes[j].isDirectory ==> nodes[i].isDirectory) &&
      (nodes[i].isDirectory == nodes[j].isDirectory ==> !LexLess(Fold(nodes[j].name), Fold(nodes[i].name)))
  }

  /** Everything the builder promises about a node and, recursively, its
      subdirectories: it is a directory, its children are ordered, none of
      them is excluded, files are leaves, and directories nest at most
      `levels` deep below it. */
  predicate WellBuilt(node: TreeNode, options: ExportOptions, excludePatterns: seq<string>, levels: int)
    decreases node
  {
    node.isDirectory &&
    SiblingsOrdered(node.children) &&
    forall c :: c in node.children ==>
      !ShouldExclude(c.name, options, excludePatterns) &&
      if c.isDirectory then 0 < levels && WellBuilt(c, options, excludePatterns, levels - 1)
      else c.children == []
  }

  /** Each kept entry is one of the listed entries and passes `Keep`. */
  lemma {:induction false} KeptEntries(entries: seq<Entry>, options: ExportOptions, excludePatterns: seq<string>, depth: nat)
    ensures forall e :: e in Kept(entries, options, excludePatterns, depth) ==>
              e in entries && Keep(e, options, excludePatterns, depth)
    decreases |entries|
  {
    if entries != [] {
      KeptEntries(entries[1..], options, excludePatterns, depth);
    }
  }

  /** Filtering keeps sorted order. */
  lemma {:induction false} KeptSorted(entries: seq<Entry>, options: ExportOptions, excludePatterns: seq<string>, depth: nat)
    requires Sorted(entries)
    ensures Sorted(Kept(entries, options, excludePatterns, depth))
    decreases |entries|
  {
    if entries != [] {
      var rest := entries[1..];
      SortedTail(entries);
      KeptSorted(rest, options, excludePatterns, depth);
      if Keep(entries[0], options, excludePatterns, depth) {
        var kr := Kept(rest, options, excludePatterns, depth);
        KeptEntries(rest, options, excludePatterns, depth);
        forall e | e in kr ensures Compare(entries[0], e) <= 0 {
          var m :| 0 <= m < |rest| && rest[m] == e;
          assert entries[m + 1] == e;
        }
        SortedPrepend(entries[0], kr);
      }
    }
  }

  /** A built node is the directory `nodePath`, named by its base name. */
  lemma BuildRoot(host: Host, nodePath: string, options: ExportOptions,
                  excludePatterns: seq<string>, depth: nat)
    ensures var node := Build(host, nodePath, options, excludePatterns, depth);
            node.name == Basename(nodePath, host.sep) && node.absolutePath == nodePath && node.isDirectory
  {
  }

  /** The child `c` is the node for the kept entry `k` of `nodePath`. */
  predicate ChildMatches(c: TreeNode, k: Entry, nodePath: string, sep: char) {
    c.name == k.name &&
    c.isDirectory == (k.kind == Directory) &&
    c.absolutePath == Join(nodePath, k.name, sep) &&
    (!c.isDirectory ==> c.children == [])
  }

  lemma ChildOfMatches(host: Host, nodePath: string, options: ExportOptions,
                       excludePatterns: seq<string>, depth: nat, entry: Entry)
    requires ValidName(entry.name, host.sep)
    ensures var child := ChildOf(host, nodePath, options, excludePatterns, depth, entry);
            if Keep(entry, options, excludePatterns, depth)
            then |child| == 1 && ChildMatches(child[0], entry, nodePath, host.sep)
            else child == []
  {
    ChildOfCases(host, nodePath, options, excludePatterns, depth, entry);
    var childPath := Join(nodePath, entry.name, host.sep);
    if Keep(entry, options, excludePatterns, depth) && entry.kind == Directory {
      BuildRoot(host, childPath, options, excludePatterns, depth + 1);
      BasenameOfJoin(nodePath, entry.name, host.sep);
    }
  }

  lemma AllMatchAppend(cs1: seq<TreeNode>, cs2: seq<TreeNode>, ks1: seq<Entry>, ks2: seq<Entry>,
                       nodePath: string, sep: char)
    requires |cs1| == |ks1| && forall i :: 0 <= i < |cs1| ==> ChildMatches(cs1[i], ks1[i], nodePath, sep)
    requires |cs2| == |ks2| && forall i :: 0 <= i < |cs2| ==> ChildMatches(cs2[i], ks2[i], nodePath, sep)
    ensures var cs, ks := cs1 + cs2, ks1 + ks2;
            |cs| == |ks| && forall i :: 0 <= i < |cs| ==> ChildMatches(cs[i], ks[i], nodePath, sep)
  {
    var cs, ks := cs1 + cs2, ks1 + ks2;
    forall i | 0 <= i < |cs| ensures ChildMatches(cs[i], ks[i], nodePath, sep) {
      if i >= |cs1| {
        assert cs[i] == cs2[i - |cs1|] && ks[i] == ks2[i - |cs1|];
      }
    }
  }

  /** The children built from `entries` are exactly the kept entries, in
      order: same names, directory exactly where the entry is a directory,
      the path is the entry joined onto `nodePath`, and files are leaves. */
  lemma {:induction false} ChildrenMatchKept(host: Host, nodePath: string, options: ExportOptions,
                                              excludePatterns: seq<string>, depth: nat, entries: seq<Entry>)
    requires forall e :: e in entries ==> ValidName(e.name, host.sep)
    ensures var cs := BuildChildren(host, nodePath, options, excludePatterns, depth, entries);
            var ks := Kept(entries, options, excludePatterns, depth);
            |cs| == |ks| && forall i :: 0 <= i < |cs| ==> ChildMatches(cs[i], ks[i], nodePath, host.sep)
    decreases |entries|
  {
    if entries != [] {
      var entry := entries[0];
      var cs := BuildChildren(host, nodePath, options, excludePatterns, depth, entries);
      var ks := Kept(entries, options, excludePatterns, depth);
      var child := ChildOf(host, nodePath, options, excludePatterns, depth, entry);
      var cr := BuildChildren(host, nodePath, options, excludePatterns, depth, entries[1..]);
      var kr := Kept(entries[1..], options, excludePatterns, depth);
      assert cs == child + cr;
      assert ks == (if Keep(entry, options, excludePatterns, depth) then [entry] else []) + kr;
      ChildOfMatches(host, nodePath, options, excludePatterns, depth, entry);
      ChildrenMatchKept(host, nodePath, options, excludePatterns, depth, entries[1..]);
      AllMatchAppend(child, cr, if Keep(entry, options, excludePatterns, depth) then [entry] else [], kr, nodePath, host.sep);
    }
  }

  /** Children that correspond to sorted entries are ordered siblings. */
  lemma OrderedFromSorted(cs: seq<TreeNode>, ks: seq<Entry>, nodePath: string, sep: char)
    requires Sorted(ks) && |cs| == |ks|
    requires forall i :: 0 <= i < |cs| ==> ChildMatches(cs[i], ks[i], nodePath, sep)
    ensures SiblingsOrdered(cs)
  {
    forall i, j | 0 <= i < j < |cs|
      ensures (cs[j].isDirectory ==> cs[i].isDirectory) &&
              (cs[i].isDirectory == cs[j].isDirectory ==> !LexLess(Fold(cs[j].name), Fold(cs[i].name)))
    {
      assert Compare(ks[i], ks[j]) <= 0;
      var fi, fj := Fold(ks[i].name), Fold(ks[j].name);
      LexLessIrreflexive(fi);
      if IsDir(ks[i]) == IsDir(ks[j]) && fi != fj && LexLess(fi, fj) {
        LexLessAsymmetric(fi, fj);
      }
    }
  }

  /** The facts `WellBuilt` demands of each child of a node built at `depth`. */
  predicate ChildFacts(c: TreeNode, options: ExportOptions, excludePatterns: seq<string>, depth: nat) {
    !ShouldExclude(c.name, options, excludePatterns) &&
    if c.isDirectory then 0 < MaxDepth - depth && WellBuilt(c, options, excludePatterns, MaxDepth - depth - 1)
    else c.children == []
  }

  lemma ChildOfWellBuilt(host: Host, nodePath: string, options: ExportOptions,
                         excludePatterns: seq<string>, depth: nat, entry: Entry)
    requires WellFormedHost(host)
    requires ValidName(entry.name, host.sep)
    ensures var child := ChildOf(host, nodePath, options, excludePatterns, depth, entry);
            |child| <= 1 && (|child| == 1 ==> ChildFacts(child[0], options, excludePatterns, depth))
    decreases MaxDepth - depth, 0, 0
  {
    var childPath := Join(nodePath, entry.name, host.sep);
    var child := ChildOf(host, nodePath, options, excludePatterns, depth, entry);
    if ShouldExclude(entry.name, options, excludePatterns) {
      assert child == [];
    } else if entry.kind == Directory && depth < MaxDepth {
      var c := Build(host, childPath, options, excludePatterns, depth + 1);
      assert child == [c];
      assert ChildFacts(c, options, excludePatterns, depth) by {
        BuildRoot(host, childPath, options, excludePatterns, depth + 1);
        BasenameOfJoin(nodePath, entry.name, host.sep);
        BuildWellBuilt(host, childPath, options, excludePatterns, depth + 1);
      }
    } else if entry.kind == File {
      assert child == [TreeNode(entry.name, childPath, false, [])];
    } else {
      assert child == [];
    }
  }

  /** Every child built from `entries` passes the filter; a file child is a
      leaf; a directory child only occurs below the guard and is well built
      with one level fewer. */
  lemma {:induction false} ChildrenWellBuilt(host: Host, nodePath: string, options: ExportOptions,
                                              excludePatterns: seq<string>, depth: nat, entries: seq<Entry>)
    requires WellFormedHost(host)
    requires forall e :: e in entries ==> ValidName(e.name, host.sep)
    ensures forall c :: c in BuildChildren(host, nodePath, options, excludePatterns, depth, entries) ==>
              ChildFacts(c, options, excludePatterns, depth)
    decreases MaxDepth - depth, 1, |entries|
  {
    if entries != [] {
      ChildOfWellBuilt(host, nodePath, options, excludePatterns, depth, entries[0]);
      ChildrenWellBuilt(host, nodePath, options, excludePatterns, depth, entries[1..]);
    }
  }

  /** A node built at `depth` on a well-formed host is well built, with
      directories nesting at most `MaxDepth - depth` levels below it. */
  lemma {:induction false} BuildWellBuilt(host: Host, nodePath: string, options: ExportOptions,
                                           excludePatterns: seq<string>, depth: nat)
    requires WellFormedHost(host)
    ensures WellBuilt(Build(host, nodePath, options, excludePatterns, depth), options, excludePatterns, MaxDepth - depth)
    decreases MaxDepth - depth, 2, 0
  {
    var listing := host.readDir(nodePath);
    assert ValidListing(listing, host.sep);
    match listing
    case ListFailed(_) =>
    case Listed(entries) =>
      var sorted := SortEntries(entries);
      SortEntriesPermutes(entries);
      SortEntriesSorted(entries);
      assert forall e :: e in sorted ==> ValidName(e.name, host.sep) by {
        forall e | e in sorted ensures ValidName(e.name, host.sep) {
          assert e in multiset(sorted);
        }
      }
      var cs := BuildChildren(host, nodePath, options, excludePatterns, depth, sorted);
      ChildrenMatchKept(host, nodePath, options, excludePatterns, depth, sorted);
      KeptEntries(sorted, options, excludePatterns, depth);
      KeptSorted(sorted, options, excludePatterns, depth);
      OrderedFromSorted(cs, Kept(sorted, options, excludePatterns, depth), nodePath, host.sep);
      ChildrenWellBuilt(host, nodePath, options, excludePatterns, depth, sorted);
  }

  /** A directory that cannot be listed becomes an empty directory node for
      the same path, and the failure is logged with its message. */
  lemma UnreadableDirectory(host: Host, nodePath: string, options: ExportOptions,
                            excludePatterns: seq<string>, depth: nat)
    requires host.readDir(nodePath).ListFailed?
    ensures Build(host, nodePath, options, excludePatterns, depth)
            == TreeNode(Basename(nodePath, host.sep), nodePath, true, [])
    ensures BuildLog(host, nodePath, options, excludePatterns, depth)
            == [CannotRead(nodePath, host.readDir(nodePath).message)]
  {
  }

  /** A listed directory becomes a directory node for the same path whose
      children and warnings come from its sorted entries. */
  lemma ListedDirectory(host: Host, nodePath: string, options: ExportOptions,
                        excludePatterns: seq<string>, depth: nat)
    requires host.readDir(nodePath).Listed?
    ensures var sorted := SortEntries(host.readDir(nodePath).entries);
            Build(host, nodePath, options, excludePatterns, depth)
              == TreeNode(Basename(nodePath, host.sep), nodePath, true,
                          BuildChildren(host, nodePath, options, excludePatterns, depth, sorted)) &&
            BuildLog(host, nodePath, options, excludePatterns, depth)
              == BuildChildrenLog(host, nodePath, options, excludePatterns, depth, sorted)
  {
  }

  // ---------------------------------------------------------------------------
  // The depth guard
  // ---------------------------------------------------------------------------

  function Max(a: nat, b: nat): nat {
    if a < b then b else a
  }

  /** How many levels of directories nest among `nodes` and below them. */
  function Nesting(nodes: seq<TreeNode>): nat
    decreases nodes
  {
    if nodes == [] then 0
    else
      var last := nodes[|nodes| - 1];
      Max(Nesting(nodes[..|nodes| - 1]), if last.isDirectory then 1 + Nesting(last.children) else 0)
  }

  /** Nesting stays within `levels` once every directory among `nodes` has
      its own subtree nested less than `levels` deep. */
  lemma {:induction false} NestingAtMost(nodes: seq<TreeNode>, levels: nat)
    requires forall c :: c in nodes && c.isDirectory ==> 1 + Nesting(c.children) <= levels
    ensures Nesting(nodes) <= levels
    decreases |nodes|
  {
    if nodes != [] {
      assert nodes[|nodes| - 1] in nodes;
      forall c | c in nodes[..|nodes| - 1] ensures c in nodes {
      }
      NestingAtMost(nodes[..|nodes| - 1], levels);
    }
  }

  /** The depth guard bounds the tree: directories nest at most
      `MaxDepth - depth` levels below a node built at `depth`, so at most
      50 levels below the root, whatever the host lists. */
  lemma {:induction false} BuildNestingBound(host: Host, nodePath: string, options: ExportOptions,
                                             excludePatterns: seq<string>, depth: nat)
    ensures Nesting(Build(host, nodePath, options, excludePatterns, depth).children)
            <= if depth <= MaxDepth then MaxDepth - depth else 0
    decreases MaxDepth - depth, 1
  {
    match host.readDir(nodePath)
    case ListFailed(_) =>
    case Listed(entries) =>
      var sorted := SortEntries(entries);
      ChildrenNestingBound(host, nodePath, options, excludePatterns, depth, sorted);
      NestingAtMost(BuildChildren(host, nodePath, options, excludePatterns, depth, sorted),
                    if depth <= MaxDepth then MaxDepth - depth else 0);
  }

  /** A directory child exists only below the guard, one level deeper. */
  lemma {:induction false} ChildrenNestingBound(host: Host, nodePath: string, options: ExportOptions,
                                                excludePatterns: seq<string>, depth: nat, entries: seq<Entry>)
    ensures forall c :: c in BuildChildren(host, nodePath, options, excludePatterns, depth, entries) && c.isDirectory ==>
              depth < MaxDepth && 1 + Nesting(c.children) <= MaxDepth - depth
    decreases MaxDepth - depth, 0, |entries|
  {
    if entries != [] {
      var e := entries[0];
      ChildrenNestingBound(host, nodePath, options, excludePatterns, depth, entries[1..]);
      if !ShouldExclude(e.name, options, excludePatterns) && e.kind == Directory && depth < MaxDepth {
        BuildNestingBound(host, Join(nodePath, e.name, host.sep), options, excludePatterns, depth + 1);
      }
    }
  }

  lemma {:induction false} ChildrenAtLimit(host: Host, nodePath: string, options: ExportOptions,
                                            excludePatterns: seq<string>, entries: seq<Entry>)
    ensures forall c :: c in BuildChildren(host, nodePath, options, excludePatterns, MaxDepth, entries) ==>
              !c.isDirectory
    ensures forall w :: w in BuildChildrenLog(host, nodePath, options, excludePatterns, MaxDepth, entries) ==>
              w.MaxDepthReached?
    decreases |entries|
  {
    if entries != [] {
      ChildOfCases(host, nodePath, options, excludePatterns, MaxDepth, entries[0]);
      ChildrenAtLimit(host, nodePath, options, excludePatterns, entries[1..]);
    }
  }

  /** At the depth guard a listed directory gets no subdirectories: each one
      that passes the filter is skipped with a warning instead. */
  lemma AtDepthLimit(host: Host, nodePath: string, options: ExportOptions, excludePatterns: seq<string>)
    ensures forall c :: c in Build(host, nodePath, options, excludePatterns, MaxDepth).children ==>
              !c.isDirectory
    ensures host.readDir(nodePath).Listed? ==>
              forall w :: w in BuildLog(host, nodePath, options, excludePatterns, MaxDepth) ==> w.MaxDepthReached?
  {
    match host.readDir(nodePath)
    case ListFailed(_) =>
    case Listed(entries) =>
      ChildrenAtLimit(host, nodePath, options, excludePatterns, SortEntries(entries));
  }

  // ---------------------------------------------------------------------------
  // What the options decide
  // ---------------------------------------------------------------------------

  lemma ChildIgnoresFormat(host: Host, nodePath: string, o1: ExportOptions, o2: ExportOptions,
                           excludePatterns: seq<string>, depth: nat, entry: Entry)
    requires o1.includeHidden == o2.includeHidden
    ensures ChildOf(host, nodePath, o1, excludePatterns, depth, entry)
            == ChildOf(host, nodePath, o2, excludePatterns, depth, entry)
    ensures ChildLogOf(host, nodePath, o1, excludePatterns, depth, entry)
            == ChildLogOf(host, nodePath, o2, excludePatterns, depth, entry)
    decreases MaxDepth - depth, 0, 0
  {
    var childPath := Join(nodePath, entry.name, host.sep);
    assert ShouldExclude(entry.name, o1, excludePatterns) == ShouldExclude(entry.name, o2, excludePatterns);
    if entry.kind == Directory && depth < MaxDepth {
      BuildIgnoresFormat(host, childPath, o1, o2, excludePatterns, depth + 1);
    }
  }

  lemma {:induction false} ChildrenIgnoreFormat(host: Host, nodePath: string, o1: ExportOptions, o2: ExportOptions,
                                                 excludePatterns: seq<string>, depth: nat, entries: seq<Entry>)
    requires o1.includeHidden == o2.includeHidden
    ensures BuildChildren(host, nodePath, o1, excludePatterns, depth, entries)
            == BuildChildren(host, nodePath, o2, excludePatterns, depth, entries)
    ensures BuildChildrenLog(host, nodePath, o1, excludePatterns, depth, entries)
            == BuildChildrenLog(host, nodePath, o2, excludePatterns, depth, entries)
    decreases MaxDepth - depth, 1, |entries|
  {
    if entries != [] {
      ChildIgnoresFormat(host, nodePath, o1, o2, excludePatterns, depth, entries[0]);
      ChildrenIgnoreFormat(host, nodePath, o1, o2, excludePatterns, depth, entries[1..]);
    }
  }

  /** Of the options, only `includeHidden` affects the tree and the
      warnings; the path format and the export type matter only when
      rendering. */
  lemma {:induction false} BuildIgnoresFormat(host: Host, nodePath: string, o1: ExportOptions, o2: ExportOptions,
                                               excludePatterns: seq<string>, depth: nat)
    requires o1.includeHidden == o2.includeHidden
    ensures Build(host, nodePath, o1, excludePatterns, depth) == Build(host, nodePath, o2, excludePatterns, depth)
    ensures BuildLog(host, nodePath, o1, excludePatterns, depth) == BuildLog(host, nodePath, o2, excludePatterns, depth)
    decreases MaxDepth - depth, 2, 0
  {
    match host.readDir(nodePath)
    case ListFailed(_) =>
    case Listed(entries) =>
      ChildrenIgnoreFormat(host, nodePath, o1, o2, excludePatterns, depth, SortEntries(entries));
  }
}
