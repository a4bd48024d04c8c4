/** The order the tree builder puts directory entries in: directories before
    everything else, then by name compared case-insensitively. The sort is
    stable, as Array.prototype.sort is. */
module Ordering {
  import opened Types

  /** Case-folding key of one character: ASCII upper-case letters map to
      lower case, every other character is its own key. */
  function FoldChar(c: char): char {
    if 'A' <= c <= 'Z' then (c as int - 'A' as int + 'a' as int) as char else c
  }

  /** The case-insensitive comparison key of a name. */
  function Fold(s: string): string {
    seq(|s|, i requires 0 <= i < |s| => FoldChar(s[i]))
  }

  /** Strict lexicographic order on strings, by character code. */
  predicate LexLess(a: string, b: string)
    decreases |a|
  {
    b != [] && (a == [] || a[0] < b[0] || (a[0] == b[0] && LexLess(a[1..], b[1..])))
  }

  lemma {:induction false} LexLessIrreflexive(a: string)
    ensures !LexLess(a, a)
    decreases |a|
  {
    if a != [] {
      LexLessIrreflexive(a[1..]);
    }
  }

  lemma {:induction false} LexLessTrichotomy(a: string, b: string)
    ensures LexLess(a, b) || a == b || LexLess(b, a)
    decreases |a|
  {
    if a != [] && b != [] && a[0] == b[0] {
      LexLessTrichotomy(a[1..], b[1..]);
      if a[1..] == b[1..] {
        assert a == [a[0]] + a[1..] && b == [b[0]] + b[1..];
      }
    }
  }

  lemma {:induction false} LexLessTransitive(a: string, b: string, c: string)
    requires LexLess(a, b) && LexLess(b, c)
    ensures LexLess(a, c)
    decreases |a|
  {
    if a != [] && a[0] == b[0] && b[0] == c[0] {
      LexLessTransitive(a[1..], b[1..], c[1..]);
    }
  }

  lemma LexLessAsymmetric(a: string, b: string)
    requires LexLess(a, b)
    ensures !LexLess(b, a)
  {
    if LexLess(b, a) {
      LexLessTransitive(a, b, a);
      LexLessIrreflexive(a);
    }
  }

  /** The three-way name comparison: negative, zero or positive as `x` sorts
      before, level with, or after `y` once case is ignored. */
  function CompareNames(x: string, y: string): (r: int)
    ensures r == 0 <==> Fold(x) == Fold(y)
    ensures r < 0 <==> LexLess(Fold(x), Fold(y))
    ensures r > 0 <==> LexLess(Fold(y), Fold(x))
  {
    var fx, fy := Fold(x), Fold(y);
    LexLessTrichotomy(fx, fy);
    if fx == fy then LexLessIrreflexive(fx); 0
    else if LexLess(fx, fy) then LexLessAsymmetric(fx, fy); -1
    else 1
  }

  predicate IsDir(e: Entry) {
    e.kind == Directory
  }

  /** The comparator handed to the sort: a directory sorts before a
      non-directory, otherwise the names decide. */
  function Compare(a: Entry, b: Entry): (r: int)
    ensures IsDir(a) && !IsDir(b) ==> r < 0
    ensures !IsDir(a) && IsDir(b) ==> r > 0
    ensures IsDir(a) == IsDir(b) ==>
              (r == 0 <==> Fold(a.name) == Fold(b.name)) &&
              (r < 0 <==> LexLess(Fold(a.name), Fold(b.name)))
  {
    if IsDir(a) && !IsDir(b) then -1
    else if !IsDir(a) && IsDir(b) then 1
    else CompareNames(a.name, b.name)
  }

  lemma CompareFlip(a: Entry, b: Entry)
    ensures Compare(b, a) == -Compare(a, b)
  {
    var fa, fb := Fold(a.name), Fold(b.name);
    if fa != fb {
      LexLessTrichotomy(fa, fb);
      if LexLess(fa, fb) {
        LexLessAsymmetric(fa, fb);
      }
    }
  }

  lemma CompareTransitive(a: Entry, b: Entry, c: Entry)
    requires Compare(a, b) <= 0 && Compare(b, c) <= 0
    ensures Compare(a, c) <= 0
  {
    var fa, fb, fc := Fold(a.name), Fold(b.name), Fold(c.name);
    if IsDir(a) == IsDir(b) == IsDir(c) && fa != fb && fb != fc && fa != fc {
      LexLessTransitive(fa, fb, fc);
    }
  }

  /** Every earlier element compares at most level with every later one. */
  predicate Sorted(s: seq<Entry>) {
    forall i, j :: 0 <= i < j < |s| ==> Compare(s[i], s[j]) <= 0
  }

  /** Places `x` after every element of `s` that does not compare above it. */
  function Insert(x: Entry, s: seq<Entry>): seq<Entry>
    decreases |s|
  {
    if s != [] && Compare(x, s[|s| - 1]) < 0 then Insert(x, s[..|s| - 1]) + [s[|s| - 1]]
    else s + [x]
  }

  /** The entries in comparator order; entries that compare level keep their
      relative order. */
  function SortEntries(s: seq<Entry>): seq<Entry>
    decreases |s|
  {
    if s == [] then [] else Insert(s[|s| - 1], SortEntries(s[..|s| - 1]))
  }

  lemma {:induction false} InsertPermutes(x: Entry, s: seq<Entry>)
    ensures multiset(Insert(x, s)) == multiset(s) + multiset{x}
    decreases |s|
  {
    if s != [] && Compare(x, s[|s| - 1]) < 0 {
      InsertPermutes(x, s[..|s| - 1]);
      assert s == s[..|s| - 1] + [s[|s| - 1]];
    }
  }

  /** A sorted sequence stays sorted when an element that no element
      compares above is appended. */
  lemma SortedAppend(s: seq<Entry>, x: Entry)
    requires Sorted(s)
    requires forall e :: e in s ==> Compare(e, x) <= 0
    ensures Sorted(s + [x])
  {
    var t := s + [x];
    forall i, j | 0 <= i < j < |t| ensures Compare(t[i], t[j]) <= 0 {
      if j < |s| {
        assert t[i] == s[i] && t[j] == s[j];
      } else {
        assert t[i] == s[i] && s[i] in s;
      }
    }
  }

  /** Dropping the first element keeps a sequence sorted. */
  lemma SortedTail(s: seq<Entry>)
    requires Sorted(s) && s != []
    ensures Sorted(s[1..])
  {
    var t := s[1..];
    forall i, j | 0 <= i < j < |t| ensures Compare(t[i], t[j]) <= 0 {
      assert t[i] == s[i + 1] && t[j] == s[j + 1];
    }
  }

  /** A sorted sequence stays sorted when an element that compares at most
      level with every element is put in front. */
  lemma SortedPrepend(x: Entry, s: seq<Entry>)
    requires Sorted(s)
    requires forall e :: e in s ==> Compare(x, e) <= 0
    ensures Sorted([x] + s)
  {
    var t := [x] + s;
    forall i, j | 0 <= i < j < |t| ensures Compare(t[i], t[j]) <= 0 {
      assert t[j] == s[j - 1] && s[j - 1] in s;
      if 0 < i {
        assert t[i] == s[i - 1];
      }
    }
  }

  lemma {:induction false} InsertSorted(x: Entry, s: seq<Entry>)
    requires Sorted(s)
    ensures Sorted(Insert(x, s))
    decreases |s|
  {
    if s != [] {
      var last := s[|s| - 1];
      if Compare(x, last) < 0 {
        var init := s[..|s| - 1];
        InsertSorted(x, init);
        InsertPermutes(x, init);
        var ins := Insert(x, init);
        forall e | e in ins ensures Compare(e, last) <= 0 {
          assert e in multiset(ins);
          if e != x {
            assert e in init;
          }
        }
        SortedAppend(ins, last);
      } else {
        CompareFlip(x, last);
        forall e | e in s ensures Compare(e, x) <= 0 {
          var i :| 0 <= i < |s| && s[i] == e;
          if i < |s| - 1 {
            CompareTransitive(s[i], last, x);
          }
        }
        SortedAppend(s, x);
      }
    } else {
      SortedAppend(s, x);
    }
  }

  /** The sort is a permutation of its input. */
  lemma {:induction false} SortEntriesPermutes(s: seq<Entry>)
    ensures multiset(SortEntries(s)) == multiset(s)
    decreases |s|
  {
    if s != [] {
      SortEntriesPermutes(s[..|s| - 1]);
      InsertPermutes(s[|s| - 1], SortEntries(s[..|s| - 1]));
      assert s == s[..|s| - 1] + [s[|s| - 1]];
    }
  }

  /** The sort puts its input in comparator order. */
  lemma {:induction false} SortEntriesSorted(s: seq<Entry>)
    ensures Sorted(SortEntries(s))
    decreases |s|
  {
    if s != [] {
      SortEntriesSorted(s[..|s| - 1]);
      InsertSorted(s[|s| - 1], SortEntries(s[..|s| - 1]));
    }
  }

  /** The elements of `s` that compare level with `k`, in their order in `s`. */
  function LevelWith(s: seq<Entry>, k: Entry): seq<Entry>
    decreases |s|
  {
    if s == [] then []
    else LevelWith(s[..|s| - 1], k) + (if Compare(s[|s| - 1], k) == 0 then [s[|s| - 1]] else [])
  }

  lemma {:induction false} InsertStable(x: Entry, s: seq<Entry>, k: Entry)
    ensures LevelWith(Insert(x, s), k)
            == LevelWith(s, k) + (if Compare(x, k) == 0 then [x] else [])
    decreases |s|
  {
    var ins := Insert(x, s);
    if s != [] && Compare(x, s[|s| - 1]) < 0 {
      var init, last := s[..|s| - 1], s[|s| - 1];
      InsertStable(x, init, k);
      assert ins[..|ins| - 1] == Insert(x, init);
      if Compare(x, k) == 0 && Compare(last, k) == 0 {
        // x and last would both be level with k, yet x sorts strictly before last.
        assert false;
      }
    } else {
      assert ins[..|ins| - 1] == s;
    }
  }

  /** Stability: the entries level with any `k` appear in the output in the
      same order as in the input. */
  lemma {:induction false} SortEntriesStable(s: seq<Entry>, k: Entry)
    ensures LevelWith(SortEntries(s), k) == LevelWith(s, k)
    decreases |s|
  {
    if s != [] {
      var init, last := s[..|s| - 1], s[|s| - 1];
      SortEntriesStable(init, k);
      InsertStable(last, SortEntries(init), k);
    }
  }
}
