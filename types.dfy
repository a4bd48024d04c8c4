/** The values the tree pipeline works on: the user's options, the in-memory
    tree, the result handed back to the caller, and the directory listings
    the filesystem supplies. */
module Types {

  datatype Option<+T> = None | Some(value: T)

  datatype PathFormat = Relative | Full

  datatype ExportType = Markdown | PlainText

  /** The user's choices for one export. */
  datatype ExportOptions = ExportOptions(
    includeHidden: bool,
    pathFormat: PathFormat,
    exportType: ExportType)

  /** One entry of the built tree. Files are leaves; only directories have children. */
  datatype TreeNode = TreeNode(
    name: string,
    absolutePath: string,
    isDirectory: bool,
    children: seq<TreeNode>)

  /** What tree generation hands back: the rendered text and the two counters. */
  datatype GenerationResult = GenerationResult(text: string, fileCount: nat, dirCount: nat)

  /** Recursion guard of the tree builder. */
  const MaxDepth: nat := 50

  /** Names excluded when the user has not configured a list. */
  const DefaultExcludePatterns: seq<string> :=
    ["node_modules", ".git", "dist", "out", ".next", "__pycache__", ".DS_Store"]

  /** The kind a directory entry reports: directory, regular file, or anything
      else (symbolic link, socket, device, ...). */
  datatype EntryKind = Directory | File | Other

  /** One entry of a directory listing: its base name and its kind. */
  datatype Entry = Entry(name: string, kind: EntryKind)

  /** The outcome of listing one directory. */
  datatype Listing = ListFailed(message: string) | Listed(entries: seq<Entry>)

  /** The host the traversal runs on: its path separator and its
      directory-listing operation, a pure function of the path. */
  datatype Host = Host(sep: char, readDir: string -> Listing)

  /** A name a directory listing can report: non-empty and free of the separator. */
  predicate ValidName(name: string, sep: char) {
    name != [] && sep !in name
  }

  predicate ValidListing(listing: Listing, sep: char) {
    listing.Listed? ==> forall e :: e in listing.entries ==> ValidName(e.name, sep)
  }

  /** Every listing the host produces holds only valid names. */
  ghost predicate WellFormedHost(host: Host) {
    forall p :: ValidListing(host.readDir(p), host.sep)
  }

  /** Concatenation regroups: the builder and the renderers append to
      sequences they have already appended to. */
  lemma AppendAssoc<T>(a: seq<T>, b: seq<T>, c: seq<T>)
    ensures a + b + c == a + (b + c)
  {
  }
}
