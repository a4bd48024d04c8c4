# WorkspaceTree tree pipeline, modelled in Dafny

WorkspaceTree is a VS Code extension that exports the folder structure of a
workspace as Markdown or plain text. This project models the part of it that
does the actual work, all in `src/extension.ts`:

- the **exclusion filter** `shouldExclude`;
- the **tree builder** `buildTreeNode`, which lists a directory, sorts its
  entries (directories first, then case-insensitively by name), drops
  excluded entries, recurses into subdirectories up to a depth guard of 50,
  adds files as leaves and skips every other entry kind;
- the **path formatter** `formatNodePath`;
- the two **renderers** `renderMarkdown` and `renderPlainText`, which append
  one line per node to a shared line list and bump a file or folder counter;
- the **wrapper** `generateTree`, which frames the rendered lines with header
  and footer lines and returns the text with both counts.

Layout:

| file | module | contents |
|---|---|---|
| `types.dfy` | `Types` | `ExportOptions`, `TreeNode`, `GenerationResult`, the depth guard, the built-in exclusion list, and the host: a path separator and a directory-listing function |
| `exclusion.dfy` | `Exclusion` | `ShouldExclude` and its properties |
| `paths.dfy` | `Paths` | join, base name, split and join on a character, `FormatNodePath` |
| `ordering.dfy` | `Ordering` | the entry comparator and a stable sort, proved sorted, a permutation and stable |
| `builder.dfy` | `TreeBuilder` | `Build`/`BuildLog` (what one call produces) and the loop `BuildTreeNode` proved to produce it; the shape, ordering, filter, depth and failure properties of built trees |
| `render.dfy` | `Render` | the `Sink` class (shared lines and counters), the spec functions of both renderers, the methods `RenderPlainText`/`RenderMarkdown` proved against them, and the count, indentation and connector properties |
| `generate.dfy` | `Generate` | `GenerateTree`, the document layout and the line-split round trip |
| `scenario.dfy` | `Scenario` | a worked example folder, exported both ways |

The filesystem is a parameter: `Host(sep, readDir)`, where `readDir` maps a
path to a listing failure with its message, or to a sequence of entries (a
name and a kind: directory, file, or other). The builder's warnings are
returned as a sequence of `Warning` values instead of being written to the
log; `WarningText` gives the exact message text of each. Configuration
reading is a parameter too: the configured exclusion list is an `Option`.

## Model

| member | source | states |
|---|---|---|
| `Exclusion.ShouldExclude` | src/extension.ts:391-407 | a name in the exclusion list is excluded; a name that is kept is not in the list and is either not hidden or hidden entries are on |
| `Exclusion.ListedAlwaysExcluded` | src/extension.ts:397-399 | a listed name is excluded under both hidden-file settings |
| `Exclusion.HiddenSettingDecides` | src/extension.ts:402-406 | for a name outside the list: excluded exactly when hidden entries are off and the name starts with a dot |
| `Exclusion.IncludeHiddenOnlyKeepsMore` | src/extension.ts:391-407 | turning hidden entries on never excludes more; path format and export type do not matter |
| `Paths.JoinEndsWithName` | src/extension.ts:359 | a joined path ends with the entry name, right after a separator or at the start |
| `Paths.TrimTrailingKeepsPrefix` | src/extension.ts:327 | trimming keeps a prefix of the path that does not end with a separator and drops only separators |
| `Paths.LastComponentIsSuffix` | src/extension.ts:327 | the last component is a separator-free suffix of the path, preceded by a separator unless it is the whole path |
| `Paths.BasenameIsComponent` | src/extension.ts:327 | a base name holds no separator and is no longer than its path |
| `Paths.BasenameOfJoin` | src/extension.ts:359 | the base name of a directory path joined with a valid entry name is that entry name |
| `Paths.SplitJoinReplaces` | src/extension.ts:513 | splitting at the separator and joining with '/' keeps the length and every character, with each separator replaced by '/' |
| `Paths.SplitJoinRoundTrip` | src/extension.ts:513 | splitting at a character and joining with the same character is the identity |
| `Paths.FormatNodePath` | src/extension.ts:507-518 | relative format shows the bare name; full format shows the absolute path with every separator replaced by '/', so no separator remains |
| `Paths.FullPathOnSlashHost` | src/extension.ts:511-514 | on a '/'-separated host the full format shows the absolute path unchanged |
| `Paths.JoinSplitRoundTrip` | src/extension.ts:309 | joining lines with '\n' and splitting at '\n' gives the lines back when no line contains a line break |
| `Ordering.CompareNames` | src/extension.ts:348 | zero exactly when the case-folded names are equal, negative exactly when the first folded name comes first, positive exactly when the second does |
| `Ordering.Compare` | src/extension.ts:341-349 | a directory sorts before a non-directory and after it the other way round; between two directories or two non-directories the result is zero exactly when the folded names are equal and negative exactly when the first comes first |
| `Ordering.CompareFlip` | src/extension.ts:341-349 | the comparator is antisymmetric |
| `Ordering.CompareTransitive` | src/extension.ts:341-349 | the comparator's "at most" relation is transitive |
| `Ordering.SortEntriesSorted` | src/extension.ts:341-349 | after sorting, every entry compares at most level with every later entry: directories first, then by case-folded name |
| `Ordering.SortEntriesPermutes` | src/extension.ts:341-349 | sorting is a permutation of the listed entries |
| `Ordering.SortEntriesStable` | src/extension.ts:341-349 | entries that compare level keep their listing order |
| `TreeBuilder.BuildTreeNode` | src/extension.ts:320-385 | the loop returns exactly the node `Build` describes and exactly the warnings `BuildLog` describes, in order |
| `TreeBuilder.VisitEntry` | src/extension.ts:355-382 | one entry contributes nothing when excluded; for a directory below the guard the recursively built node and its warnings; at the guard only a "max depth" warning; a leaf for a file; nothing for any other kind |
| `TreeBuilder.ListedDirectory` | src/extension.ts:327-384 | a listable directory becomes a directory node with its base name and path whose children and warnings come from its sorted entries |
| `TreeBuilder.ChildrenStep` | src/extension.ts:353-382 | appending what one entry contributes advances the loop invariant by one entry |
| `TreeBuilder.KeptEntries` | src/extension.ts:353-382 | each kept entry is a listed entry that passes the filter and is a file or a directory below the guard |
| `TreeBuilder.KeptSorted` | src/extension.ts:341-382 | filtering sorted entries keeps them sorted |
| `TreeBuilder.ChildrenMatchKept` | src/extension.ts:353-382 | the children are exactly the kept entries in sorted order: same name, directory exactly for directory entries, path joined onto the parent, files are leaves; other entry kinds never appear |
| `TreeBuilder.OrderedFromSorted` | src/extension.ts:341-382 | children built from sorted entries are ordered siblings: no directory after a file, names non-decreasing within each group |
| `TreeBuilder.BuildWellBuilt` | src/extension.ts:320-385 | every built node, recursively: is a directory, has ordered children, has no excluded child, has only leaf files, and nests directories at most `50 - depth` levels |
| `TreeBuilder.WarningText` | src/extension.ts:336-371 | the log text opens with the warning's own prefix, then shows the directory path in double quotes; a "cannot read" text ends with the failure message |
| `TreeBuilder.UnreadableDirectory` | src/extension.ts:331-338 | an unlistable directory becomes an empty directory node with the same path and its base name, and one "cannot read" warning with the failure message |
| `TreeBuilder.BuildNestingBound` | src/extension.ts:326-372 | on any host, directories nest at most `50 - depth` levels below a node built at `depth`, so at most 50 below the root |
| `TreeBuilder.ChildrenNestingBound` | src/extension.ts:361-372 | a subdirectory child is added only below the guard, and its own subtree nests one level less than its parent's allowance |
| `TreeBuilder.AtDepthLimit` | src/extension.ts:361-372 | at depth 50 no subdirectory is added, and every warning of a listed directory is a "max depth" warning |
| `TreeBuilder.BuildIgnoresFormat` | src/extension.ts:320-385 | tree and warnings depend on the options only through the hidden-file setting |
| `Render.Sink.constructor` | src/extension.ts:269-274 | a fresh sink has no lines and both counters at zero |
| `Render.Sink.Push` | src/extension.ts:277-278 | appends one line and leaves the counters alone |
| `Render.Sink.CountFile` | src/extension.ts:279-282 | adds one to the file counter and changes nothing else |
| `Render.Sink.CountDir` | src/extension.ts:283-286 | adds one to the folder counter and changes nothing else |
| `Render.RenderPlainNode` | src/extension.ts:481-498 | one pass of the loop appends the node's line and, for a folder, its children's lines indented two more spaces; it bumps the file counter for a file, and the folder counter once plus the subtree's counts for a folder |
| `Render.RenderPlainText` | src/extension.ts:473-500 | appends exactly the lines `PlainLines` describes and adds the visited files and folders to the counters |
| `Render.RenderMarkdownNode` | src/extension.ts:439-458 | one pass of the loop appends the node's connector line and, for a folder, its children's lines with the indentation grown by four blanks after the last sibling and by a bar and three blanks otherwise; it bumps the file counter for a file, and the folder counter once plus the subtree's counts for a folder |
| `Render.RenderMarkdown` | src/extension.ts:430-460 | appends exactly the lines `MarkdownLines` describes and adds the visited files and folders to the counters |
| `Render.CountsMatchVisits` | src/extension.ts:430-500 | the file counter counts the visited files, the folder counter the visited folders, and together they count every visited node |
| `Render.PlainLinesFollowVisits` | src/extension.ts:473-500 | plain text has one line per visited node in visiting order, indented two spaces per level, with a trailing '/' on folders |
| `Render.PlainLineCount` | src/extension.ts:481-499 | plain text has exactly one line per counted node |
| `Render.MarkdownLineCount` | src/extension.ts:438-459 | Markdown has exactly one line per counted node |
| `Render.MarkdownSiblingBlock` | src/extension.ts:438-459 | the block of sibling `k` (its connector line, then for a folder its subtree) starts right after one line for each node counted in the siblings before it |
| `Render.MarkdownLinesIndented` | src/extension.ts:438-459 | every line drawn for a level starts with that level's indentation, so a subtree stays inside the column of its parent |
| `Generate.NatToStringRoundTrip` | src/extension.ts:292 | the count numeral in the footer reads back as the count |
| `Generate.ExcludeList` | src/extension.ts:250-258 | the configured list when present, the seven built-in names otherwise |
| `Generate.RenderDocument` | src/extension.ts:268-305 | the rendered lines are the framed document and the counters are the file and folder counts of the children |
| `Generate.GenerateTree` | src/extension.ts:245-312 | the text is the document's lines joined by line breaks, and the counts are the files and folders of the built tree below the root; the warnings are the builder's |
| `Generate.DocumentLayout` | src/extension.ts:276-305 | plain text has 1 + files + folders lines starting with the root line; Markdown has 5 + files + folders, opening with the fence and root line and closing with the fence, a blank line and the footer with both counts |
| `Generate.TextSplitsIntoLines` | src/extension.ts:309 | the text splits at line breaks into the document's lines when no line contains a line break |
| `Scenario.SampleOrder` | src/extension.ts:341-349 | for `a.txt`, `.env` and folder `sub`, the sort gives `sub`, `.env`, `a.txt` |
| `Scenario.SamplePlainText` | src/extension.ts:268-312 | the example folder in plain text is `w/`, `  sub/`, `    b.txt`, `  a.txt` (`.env` hidden), with 2 files and 1 folder |
| `Scenario.SampleMarkdown` | src/extension.ts:268-312 | the example folder in Markdown: the fence, the root line, the three connector lines, the fence, a blank line and "2 files, 1 folders" |

## Left out

- Activation, the export command, the option prompts, the status bar and the clipboard are VS Code plumbing and are not part of this model.
- Reading the `workspaceTree.excludePatterns` setting is replaced by the `configured` parameter of `GenerateTree`.
- `log` is replaced by returned `Warning` values: the timestamp and the output channel are not modelled.
- `fs.promises.readdir` is the host's `readDir`, a pure function of the path. The filesystem cannot change during a traversal, and a failure carries only its message.
- The async/await in the builder has no concurrency meaning, so the model is sequential.
- `Ordering.CompareNames`: `localeCompare` with base sensitivity is ICU collation. The model compares code points after folding ASCII upper case to lower case. So accents and non-ASCII case are not folded, and ASCII punctuation, symbols, digits and letters are ordered by code point rather than in collation order. Collation puts punctuation and symbols before digits and letters, and `_` before `-` and `.`. The model therefore lists `my-file` before `my_file` and `a` before `~old`, where the program lists both pairs the other way round.
- `Paths.Join`: `path.join` also normalises `.` and `..` segments and repeated separators. The model only inserts one separator when needed. Listing names never contain a separator, so this matters only for an unnormalised root path.
- `Paths.Basename`: on Windows, `path.basename` also accepts '/' as a separator, and it returns the empty string for a drive root such as `C:\` or `C:`. The model uses only the host separator and returns `C:` there. A workspace at a drive root therefore gets the root line `C:/` in the model and `/` in the program.
- The `rootPath` parameter of both renderers is never read, so the model leaves it out.
- `TreeBuilder.BuildWellBuilt` assumes a host whose listings hold only non-empty names without the separator, as real directory listings do.
