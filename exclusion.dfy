/** The exclusion filter: decides whether a directory entry is left out of the tree. */
module Exclusion {
  import opened Types

  /** A hidden entry is one whose name starts with a dot. */
  predicate IsHidden(name: string) {
    |name| > 0 && name[0] == '.'
  }

  /** True when the entry `name` must be dropped: it is listed verbatim in
      `excludePatterns` (case-sensitive, no glob semantics), or hidden entries
      are not wanted and `name` starts with a dot. */
  function ShouldExclude(name: string, options: ExportOptions, excludePatterns: seq<string>): (r: bool)
    ensures name in excludePatterns ==> r
    ensures !r ==> name !in excludePatterns && (options.includeHidden || !IsHidden(name))
  {
    if name in excludePatterns then true
    else if !options.includeHidden && IsHidden(name) then true
    else false
  }

  /** A listed name is excluded whatever the hidden-file setting is. */
  lemma ListedAlwaysExcluded(name: string, options: ExportOptions, excludePatterns: seq<string>)
    requires name in excludePatterns
    ensures ShouldExclude(name, options.(includeHidden := true), excludePatterns)
    ensures ShouldExclude(name, options.(includeHidden := false), excludePatterns)
  {
  }

  /** For a name outside the list, the hidden-file setting decides exactly the
      dot-names: with hidden entries off they go, with hidden entries on they
      stay, and any other name stays either way. */
  lemma HiddenSettingDecides(name: string, options: ExportOptions, excludePatterns: seq<string>)
    requires name !in excludePatterns
    ensures ShouldExclude(name, options, excludePatterns) <==> !options.includeHidden && IsHidden(name)
    ensures IsHidden(name) ==> ShouldExclude(name, options.(includeHidden := false), excludePatterns)
    ensures !ShouldExclude(name, options.(includeHidden := true), excludePatterns)
  {
  }

  /** Turning hidden entries on never excludes more, and the path format and
      export type play no part in the decision. */
  lemma IncludeHiddenOnlyKeepsMore(name: string, options: ExportOptions, excludePatterns: seq<string>)
    ensures ShouldExclude(name, options.(includeHidden := true), excludePatterns)
            ==> ShouldExclude(name, options.(includeHidden := false), excludePatterns)
    ensures ShouldExclude(name, options, excludePatterns)
            == ShouldExclude(name, ExportOptions(options.includeHidden, Relative, PlainText), excludePatterns)
  {
  }
}
