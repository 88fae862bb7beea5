/**
 Exactly which directories survive the cut and stand in the published forest, said of the scanned files
 alone: the first eighty directories up to three levels deep, of which the first twenty top-level ones are
 shown with everything kept beneath them.
 */
module CutExactly {
  import opened Options
  import opened Sorting
  import opened DirectoryIndex
  import opened Forest

  // ---------------------------------------------------------------- how many are kept

  function Ancestors(dir: Path): set<Path>
  {
    set d: nat | 1 <= d <= 3 && d <= |dir| :: dir[..d]
  }

  /** The directories one to three levels deep with a file at or below them. */
  function Directories(files: seq<File>): set<Path>
  {
    if files == [] then {} else Directories(files[..|files| - 1]) + Ancestors(files[|files| - 1].dir)
  }

  lemma {:induction false} DirectoryHasFile(files: seq<File>, p: Path)
    ensures p in Directories(files) <==> 1 <= |p| <= 3 && HasFileBeneath(files, p)
  {
    if files != [] {
      var dir := files[|files| - 1].dir;
      DirectoryHasFile(files[..|files| - 1], p);
      HasFileBeneathStep(files, p);
      assert p in Ancestors(dir) <==> 1 <= |p| <= 3 && p <= dir by {
        assert p <= dir ==> p == dir[..|p|];
      }
    }
  }

  function AtMost(n: nat, limit: nat): nat
  {
    if n < limit then n else limit
  }

  lemma {:induction false} DistinctCardinality<T>(s: seq<T>)
    requires Distinct(s)
    ensures |set x | x in s| == |s|
  {
    if s != [] {
      var front, last := s[..|s| - 1], s[|s| - 1];
      DistinctCardinality(front);
      assert s == front + [last];
      assert (set x | x in s) == (set x | x in front) + {last};
      assert last !in front;
    }
  }

  lemma IndexedAreDirectories(files: seq<File>)
    ensures (set p | p in IndexOf(files).order) == Directories(files)
    ensures |IndexOf(files).order| == |Directories(files)|
  {
    IndexAgrees(files);
    forall p ensures p in IndexOf(files).order <==> p in Directories(files) {
      DirectoryHasFile(files, p);
    }
    DistinctCardinality(IndexOf(files).order);
    assert (set p | p in IndexOf(files).order) == Directories(files);
  }

  // ---------------------------------------------------------------- the order of discovery

  /** Some first part of the scan has a file beneath p and none beneath q. */
  ghost predicate FoundEarlier(files: seq<File>, p: Path, q: Path)
  {
    exists n :: 0 <= n <= |files| && HasFileBeneath(files[..n], p) && !HasFileBeneath(files[..n], q)
  }

  /** p was found by an earlier file, or by the same one at a lesser depth. */
  ghost predicate FoundBefore(files: seq<File>, p: Path, q: Path)
  {
    FoundEarlier(files, p, q) || (!FoundEarlier(files, q, p) && |p| < |q|)
  }

  /** The order of the cut: larger first, then found first. */
  ghost predicate Ahead(files: seq<File>, p: Path, q: Path)
  {
    || BytesBeneath(files, p) > BytesBeneath(files, q)
    || (BytesBeneath(files, p) == BytesBeneath(files, q) && FoundBefore(files, p, q))
  }

  /** Crediting a file appends what is new of its ancestors, shallowest first. */
  lemma {:induction false} CreditAppends(ix: Index, dir: Path, size: nat, depth: nat)
    requires depth <= |dir|
    ensures var after := CreditAncestors(ix, dir, size, depth).order;
      && ix.order <= after
      && (forall i :: |ix.order| <= i < |after| ==> after[i] <= dir && |after[i]| <= depth)
      && (forall i, j :: |ix.order| <= i < j < |after| ==> |after[i]| < |after[j]|)
  {
    if depth > 0 {
      CreditAppends(ix, dir, size, depth - 1);
    }
  }

  lemma MoreFiles(front: seq<File>, f: File, p: Path, q: Path)
    requires HasFileBeneath(front, p) && HasFileBeneath(front, q)
    ensures FoundEarlier(front + [f], p, q) <==> FoundEarlier(front, p, q)
  {
    var files := front + [f];
    HasFileBeneathStep(files, q);
    assert files[..|files| - 1] == front;
    if n :| 0 <= n <= |files| && HasFileBeneath(files[..n], p) && !HasFileBeneath(files[..n], q) {
      assert files[..|files|] == files;
      assert front[..n] == files[..n];
    }
    if n :| 0 <= n <= |front| && HasFileBeneath(front[..n], p) && !HasFileBeneath(front[..n], q) {
      assert front[..n] == files[..n];
    }
  }

  lemma NewIsLater(front: seq<File>, f: File, p: Path, q: Path)
    requires HasFileBeneath(front, p) && !HasFileBeneath(front, q)
    ensures FoundEarlier(front + [f], p, q)
  {
    assert (front + [f])[..|front|] == front;
  }

  lemma PrefixHas(front: seq<File>, files: seq<File>, n: nat, q: Path)
    requires front <= files && n <= |files| && HasFileBeneath(files[..n], q)
    ensures n <= |front| ==> HasFileBeneath(front, q)
  {
    var i :| 0 <= i < n && q <= files[..n][i].dir;
    assert files[..n][i] == files[i];
    assert n <= |front| ==> front[i] == files[i];
  }

  lemma BothNew(front: seq<File>, f: File, p: Path, q: Path)
    requires !HasFileBeneath(front, q) && p <= f.dir
    ensures !FoundEarlier(front + [f], q, p)
  {
    var files := front + [f];
    assert files[|front|] == f;
    forall n | 0 <= n <= |files| && HasFileBeneath(files[..n], q) ensures HasFileBeneath(files[..n], p) {
      PrefixHas(front, files, n, q);
      assert files[..n][|front|] == f;
    }
  }

  /** The index lists directories in the order of their discovery. */
  lemma {:induction false} ListedAsFound(files: seq<File>, i: nat, j: nat)
    requires i < j < |IndexOf(files).order|
    ensures FoundBefore(files, IndexOf(files).order[i], IndexOf(files).order[j])
  {
    var front, f := files[..|files| - 1], files[|files| - 1];
    assert files == front + [f];
    var before, after := IndexOf(front).order, IndexOf(files).order;
    var p, q := after[i], after[j];
    CreditAppends(IndexOf(front), f.dir, f.size, CreditedDepth(f.dir));
    IndexAgrees(files);
    IndexAgrees(front);
    hide HasFileBeneath, IndexOf, FoundEarlier;
    assert before <= after;
    forall k | 0 <= k < |after| ensures k < |before| <==> HasFileBeneath(front, after[k]) {
      ListedFrom(before, after, k);
      assert after[k] in after;
    }
    if j < |before| {
      ListedAsFound(front, i, j);
      MoreFiles(front, f, p, q);
      MoreFiles(front, f, q, p);
    } else if i < |before| {
      NewIsLater(front, f, p, q);
    } else {
      BothNew(front, f, p, q);
    }
  }

  lemma ListedFrom(before: seq<Path>, after: seq<Path>, k: nat)
    requires before <= after && Distinct(after) && k < |after|
    ensures k < |before| <==> after[k] in before
  {
    if k < |before| {
      assert before[k] == after[k];
    }
  }

  // ---------------------------------------------------------------- the cut, exactly

  /** `kept` are the first directories of the scan, as many as the limit allows, in order. */
  ghost predicate FirstDirectories(files: seq<File>, kept: seq<Path>, limit: nat)
  {
    && Distinct(kept) && |kept| == AtMost(|Directories(files)|, limit)
    && (forall p :: p in kept ==> p in Directories(files))
    && (forall i, j :: 0 <= i < j < |kept| ==> Ahead(files, kept[i], kept[j]))
    && (forall p, q :: p in kept && q in Directories(files) && q !in kept ==> Ahead(files, p, q))
  }

  lemma SortedAhead(files: seq<File>, i: nat, j: nat)
    requires i < j < |Sort(IndexOf(files).order, BySize(IndexOf(files)))|
    ensures var all := Sort(IndexOf(files).order, BySize(IndexOf(files))); Ahead(files, all[i], all[j])
  {
    var ix := IndexOf(files);
    var all := Sort(ix.order, BySize(ix));
    IndexWellFormed(files);
    SortOrdered(ix.order, BySize(ix));
    SameElements(ix.order, all);
    hide Sort, IndexOf, FoundBefore, Distinct;
    assert all[i] in ix.order && all[j] in ix.order;
    IndexAt(files, all[i]);
    IndexAt(files, all[j]);
    assert !BySize(ix)(all[j], all[i]);
    if BytesBeneath(files, all[i]) == BytesBeneath(files, all[j]) {
      TiedAsFound(files, i, j);
    }
  }

  /** Directories of one size come out as they were found. */
  lemma TiedAsFound(files: seq<File>, i: nat, j: nat)
    requires WellFormed(IndexOf(files))
    requires var all := Sort(IndexOf(files).order, BySize(IndexOf(files)));
      i < j < |all| && !BySize(IndexOf(files))(all[i], all[j])
    ensures var all := Sort(IndexOf(files).order, BySize(IndexOf(files))); FoundBefore(files, all[i], all[j])
  {
    var ix := IndexOf(files);
    var all := Sort(ix.order, BySize(ix));
    SameElements(ix.order, all);
    DistinctTransfers(ix.order, all);
    hide Sort, IndexOf, FoundBefore;
    assert all[i] in ix.order && all[j] in ix.order;
    var a :| 0 <= a < |ix.order| && ix.order[a] == all[i];
    var b :| 0 <= b < |ix.order| && ix.order[b] == all[j];
    if b < a {
      SortKeepsAhead(ix.order, BySize(ix), b, a, i);
      assert false;
    }
    ListedAsFound(files, a, b);
  }

  /** The cut keeps exactly the first eighty directories, or all of them when there are no more. */
  lemma CutIsFirstDirectories(files: seq<File>)
    ensures FirstDirectories(files, Cut(IndexOf(files), KEPT_DIRECTORIES), 80)
  {
    var ix := IndexOf(files);
    var all := Sort(ix.order, BySize(ix));
    var kept := Cut(ix, KEPT_DIRECTORIES);
    IndexedAreDirectories(files);
    IndexWellFormed(files);
    SameElements(ix.order, all);
    DistinctTransfers(ix.order, all);
    assert forall p :: p in Directories(files) <==> p in all;
    hide Sort, Ahead, Directories;
    forall i, j | 0 <= i < j < |all| ensures Ahead(files, all[i], all[j]) {
      SortedAhead(files, i, j);
    }
    TakeIsFirst(files, all, kept);
  }

  lemma TakeIsFirst(files: seq<File>, all: seq<Path>, kept: seq<Path>)
    requires Distinct(all) && |all| == |Directories(files)|
    requires forall p :: p in Directories(files) <==> p in all
    requires forall i, j :: 0 <= i < j < |all| ==> Ahead(files, all[i], all[j])
    requires kept == Take(all, 80)
    ensures FirstDirectories(files, kept, 80)
  {
    hide Ahead, Directories;
    forall p, q | p in kept && q in Directories(files) && q !in kept ensures Ahead(files, p, q) {
      var i :| 0 <= i < |kept| && kept[i] == p;
      var j :| 0 <= j < |all| && all[j] == q;
      assert forall k :: 0 <= k < |kept| ==> kept[k] == all[k] && kept[k] != q;
    }
  }

  // ---------------------------------------------------------------- the trees, exactly

  /** Every node carries the bytes of all files beneath it, over its own children in the order of the cut. */
  ghost predicate Exact(files: seq<File>, t: Tree)
  {
    && t.size == BytesBeneath(files, t.path)
    && (forall i :: 0 <= i < |t.children| ==> IsChildOf(t.children[i].path, t.path) && Exact(files, t.children[i]))
    && (forall i, j :: 0 <= i < j < |t.children| ==> Ahead(files, t.children[i].path, t.children[j].path))
  }

  ghost predicate Ranked(files: seq<File>, ps: seq<Path>)
  {
    forall i, j :: 0 <= i < j < |ps| ==> Ahead(files, ps[i], ps[j])
  }

  lemma ChildrenRanked(files: seq<File>, kept: seq<Path>, p: Path)
    requires Ranked(files, kept)
    ensures Ranked(files, ChildrenOf(kept, p))
  {
    hide Ahead;
    var behind := (a: Path, b: Path) => !Ahead(files, b, a);
    var kids := ChildrenOf(kept, p);
    assert Ordered(kept, behind);
    ChildrenOrdered(kept, p, behind);
    forall i, j | 0 <= i < j < |kids| ensures Ahead(files, kids[i], kids[j]) {
      assert !behind(kids[j], kids[i]);
    }
  }

  lemma {:induction false} GrowExact(files: seq<File>, kept: seq<Path>, ix: Index, p: Path, n: nat)
    requires Ranked(files, kept) && SizedBy(kept, ix, files) && p in kept
    ensures Exact(files, Grow(kept, ix, p, n))
    decreases n
  {
    hide Ahead, GrowAll, Exact, Grow, Ranked, SizedBy;
    if n > 0 {
      ChildrenRanked(files, kept, p);
      forall k | k in ChildrenOf(kept, p) ensures Exact(files, Grow(kept, ix, k, n - 1)) {
        GrowExact(files, kept, ix, k, n - 1);
      }
    }
    assert Get(ix, p) == BytesBeneath(files, p) by {
      SizedAt(kept, ix, files, p);
    }
    NodeExact(files, kept, ix, p, n);
  }

  lemma SizedAt(kept: seq<Path>, ix: Index, files: seq<File>, p: Path)
    requires SizedBy(kept, ix, files) && p in kept
    ensures Get(ix, p) == BytesBeneath(files, p)
  {
  }

  lemma NodeExact(files: seq<File>, kept: seq<Path>, ix: Index, p: Path, n: nat)
    requires Get(ix, p) == BytesBeneath(files, p)
    requires n > 0 ==> Ranked(files, ChildrenOf(kept, p))
    requires n > 0 ==> forall k :: k in ChildrenOf(kept, p) ==> Exact(files, Grow(kept, ix, k, n - 1))
    ensures Exact(files, Grow(kept, ix, p, n))
  {
    hide Ahead, GrowAll;
    if n > 0 {
      var kids := ChildrenOf(kept, p);
      var t := Grow(kept, ix, p, n);
      GrownAt(kept, ix, kids, n - 1);
      forall i | 0 <= i < |kids| ensures Exact(files, t.children[i]) && IsChildOf(t.children[i].path, p) {
        assert kids[i] in kids;
      }
    }
  }

  lemma GrownAt(kept: seq<Path>, ix: Index, ps: seq<Path>, n: nat)
    ensures |GrowAll(kept, ix, ps, n)| == |ps|
    ensures forall i :: 0 <= i < |ps| ==>
              GrowAll(kept, ix, ps, n)[i] == Grow(kept, ix, ps[i], n) && Grow(kept, ix, ps[i], n).path == ps[i]
  {
  }

  function TopLevel(kept: seq<Path>): set<Path>
  {
    set p | p in kept && |p| == 1
  }

  ghost predicate Heads(trees: seq<Tree>, p: Path)
  {
    exists i :: 0 <= i < |trees| && trees[i].path <= p
  }

  /** The trees of the first twenty top-level directories among the kept ones, each with all kept beneath it. */
  ghost predicate ShowsKept(files: seq<File>, trees: seq<Tree>, kept: seq<Path>)
  {
    && |trees| == AtMost(|TopLevel(kept)|, 20)
    && (forall i :: 0 <= i < |trees| ==> trees[i].path in TopLevel(kept) && Exact(files, trees[i]))
    && (forall i, j :: 0 <= i < j < |trees| ==> Ahead(files, trees[i].path, trees[j].path))
    && (forall i, q :: 0 <= i < |trees| && q in TopLevel(kept) && !Heads(trees, q) ==> Ahead(files, trees[i].path, q))
    && (forall p :: PathsInAll(trees)[p] == if p in kept && Heads(trees, p) then 1 else 0)
  }

  ghost predicate ShowsFirst(files: seq<File>, trees: seq<Tree>)
  {
    exists kept :: FirstDirectories(files, kept, 80) && ShowsKept(files, trees, kept)
  }

  lemma TopLevelCount(kept: seq<Path>)
    requires ValidCut(kept)
    ensures |RootsOf(kept)| == |TopLevel(kept)|
    ensures forall p :: p in RootsOf(kept) <==> p in TopLevel(kept)
  {
    RootsAreTopLevel(kept);
    ChildrenDistinct(kept, []);
    DistinctCardinality(RootsOf(kept));
    assert (set p | p in RootsOf(kept)) == TopLevel(kept);
  }

  lemma TakeGrown(kept: seq<Path>, ix: Index, ps: seq<Path>, n: nat, limit: nat)
    ensures Take(GrowAll(kept, ix, ps, n), limit) == GrowAll(kept, ix, Take(ps, limit), n)
  {
    hide Grow;
  }

  lemma HeadsByPath(trees: seq<Tree>, ps: seq<Path>, y: Path)
    requires |trees| == |ps| && forall i :: 0 <= i < |ps| ==> trees[i].path == ps[i]
    ensures Heads(trees, y) <==> CoveredBy(ps, y)
  {
    if i :| 0 <= i < |trees| && trees[i].path <= y {
      assert ps[i] in ps;
    }
    if p :| p in ps && p <= y {
      var i :| 0 <= i < |ps| && ps[i] == p;
      assert trees[i].path <= y;
    }
  }

  lemma TakenSiblings(ps: seq<Path>, p: Path, n: nat)
    requires Siblings(ps, p)
    ensures Siblings(Take(ps, n), p)
  {
  }

  lemma CoveredAtTop(ps: seq<Path>, q: Path)
    requires |q| == 1 && forall p :: p in ps ==> |p| == 1
    ensures CoveredBy(ps, q) <==> q in ps
  {
    if p :| p in ps && p <= q {
      assert p == q;
    }
  }

  /** What a scan publishes is exactly the first directories, said of the files alone. */
  lemma ForestShowsFirst(files: seq<File>)
    ensures var ix := IndexOf(files);
      ShowsFirst(files, Take(ForestOf(Cut(ix, KEPT_DIRECTORIES), ix), 20))
  {
    var ix := IndexOf(files);
    var kept := Cut(ix, KEPT_DIRECTORIES);
    CutIsFirstDirectories(files);
    CutClosedUnderParents(files, KEPT_DIRECTORIES);
    hide Cut, IndexOf, GrowAll, ShowsKept, ValidCut, SizedBy;
    var roots := RootsOf(kept);
    TakeGrown(kept, ix, roots, LEVELS - 1, 20);
    KeptIsShown(files, kept, ix);
  }

  lemma ShownRoots(files: seq<File>, kept: seq<Path>, ix: Index)
    requires ValidCut(kept) && SizedBy(kept, ix, files) && Ranked(files, kept)
    ensures var trees := GrowAll(kept, ix, Take(RootsOf(kept), 20), LEVELS - 1);
      && |trees| == AtMost(|TopLevel(kept)|, 20)
      && (forall i :: 0 <= i < |trees| ==> trees[i].path in TopLevel(kept) && Exact(files, trees[i]))
      && (forall i, j :: 0 <= i < j < |trees| ==> Ahead(files, trees[i].path, trees[j].path))
  {
    hide ValidCut, SizedBy, Ahead, GrowAll, Exact, Grow;
    var roots := RootsOf(kept);
    var shown := Take(roots, 20);
    TopLevelCount(kept);
    RootsAreTopLevel(kept);
    ChildrenRanked(files, kept, []);
    GrownAt(kept, ix, shown, LEVELS - 1);
    hide RootsAmong;
    forall i | 0 <= i < |shown| ensures shown[i] in TopLevel(kept) && Exact(files, Grow(kept, ix, shown[i], LEVELS - 1))
    {
      assert shown[i] == roots[i] && roots[i] in roots;
      GrowExact(files, kept, ix, shown[i], LEVELS - 1);
    }
  }

  lemma LeftRootIsBehind(files: seq<File>, kept: seq<Path>, ix: Index, i: nat, q: Path)
    requires ValidCut(kept) && Ranked(files, kept) && q in TopLevel(kept)
    requires var trees := GrowAll(kept, ix, Take(RootsOf(kept), 20), LEVELS - 1); i < |trees| && !Heads(trees, q)
    ensures Ahead(files, GrowAll(kept, ix, Take(RootsOf(kept), 20), LEVELS - 1)[i].path, q)
  {
    hide ValidCut, Ahead, GrowAll, Grow;
    var roots := RootsOf(kept);
    var shown := Take(roots, 20);
    TopLevelCount(kept);
    RootsAreTopLevel(kept);
    ChildrenRanked(files, kept, []);
    GrownAt(kept, ix, shown, LEVELS - 1);
    hide RootsAmong;
    HeadsByPath(GrowAll(kept, ix, shown, LEVELS - 1), shown, q);
    assert forall p :: p in shown ==> p in roots;
    CoveredAtTop(shown, q);
    var j :| 0 <= j < |roots| && roots[j] == q;
    assert forall k :: 0 <= k < |shown| ==> shown[k] == roots[k] && shown[k] in shown;
  }

  lemma ShownOnce(kept: seq<Path>, ix: Index, y: Path)
    requires ValidCut(kept)
    ensures var trees := GrowAll(kept, ix, Take(RootsOf(kept), 20), LEVELS - 1);
      PathsInAll(trees)[y] == if y in kept && Heads(trees, y) then 1 else 0
  {
    var shown := Take(RootsOf(kept), 20);
    RootsAreTopLevel(kept);
    ChildrenDistinct(kept, []);
    TakenSiblings(RootsOf(kept), [], 20);
    GrownAt(kept, ix, shown, LEVELS - 1);
    HeadsByPath(GrowAll(kept, ix, shown, LEVELS - 1), shown, y);
    hide ValidCut, GrowAll, Grow, RootsAmong;
    if y in kept {
      GrowAllCounts(kept, ix, shown, [], LEVELS - 1, y);
    } else {
      assert forall p :: p in shown ==> p in RootsOf(kept);
      GrowAllOnlyKept(kept, ix, shown, LEVELS - 1, y);
    }
  }

  lemma KeptIsShown(files: seq<File>, kept: seq<Path>, ix: Index)
    requires ValidCut(kept) && SizedBy(kept, ix, files) && Ranked(files, kept)
    ensures ShowsKept(files, GrowAll(kept, ix, Take(RootsOf(kept), 20), LEVELS - 1), kept)
  {
    hide ValidCut, SizedBy, Ranked, Ahead, GrowAll, Exact, Heads, TopLevel, PathsInAll;
    var trees := GrowAll(kept, ix, Take(RootsOf(kept), 20), LEVELS - 1);
    ShownRoots(files, kept, ix);
    forall i, q | 0 <= i < |trees| && q in TopLevel(kept) && !Heads(trees, q)
      ensures Ahead(files, trees[i].path, q)
    {
      LeftRootIsBehind(files, kept, ix, i, q);
    }
    forall y ensures PathsInAll(trees)[y] == if y in kept && Heads(trees, y) then 1 else 0 {
      ShownOnce(kept, ix, y);
    }
  }

  lemma SubsetOfSize<T>(a: set<T>, b: set<T>)
    requires a <= b && |a| == |b|
    ensures a == b
  {
    assert b == a + (b - a);
  }

  lemma AllKeptWhenFew(files: seq<File>, kept: seq<Path>)
    requires FirstDirectories(files, kept, 80) && |Directories(files)| <= 80
    ensures forall p :: p in kept <==> p in Directories(files)
  {
    hide Ahead, Directories;
    DistinctCardinality(kept);
    SubsetOfSize((set p | p in kept), Directories(files));
    assert forall p :: p in kept <==> p in set q | q in kept;
  }

  lemma AheadOfOther(files: seq<File>, p: Path, q: Path)
    requires Ahead(files, p, q)
    ensures p != q
  {
  }

  lemma AllRootsWhenFew(files: seq<File>, trees: seq<Tree>, kept: seq<Path>, p: Path)
    requires ShowsKept(files, trees, kept) && |TopLevel(kept)| <= 20 && p in TopLevel(kept)
    ensures Heads(trees, p)
  {
    hide Ahead, Exact, PathsInAll, TopLevel;
    var ps := seq(|trees|, i requires 0 <= i < |trees| => trees[i].path);
    forall i, j | 0 <= i < j < |ps| ensures ps[i] != ps[j] {
      AheadOfOther(files, trees[i].path, trees[j].path);
    }
    DistinctCardinality(ps);
    SubsetOfSize((set q | q in ps), TopLevel(kept));
    assert p in ps;
    var i :| 0 <= i < |ps| && ps[i] == p;
  }

  lemma HeadsBelow(trees: seq<Tree>, top: Path, p: Path)
    requires Heads(trees, top) && top <= p
    ensures Heads(trees, p)
  {
  }

  lemma TopOf(files: seq<File>, p: Path)
    requires p in Directories(files)
    ensures p != [] && p[..1] <= p && p[..1] in Directories(files)
  {
    DirectoryHasFile(files, p);
    DirectoryHasFile(files, p[..1]);
    var i :| 0 <= i < |files| && p <= files[i].dir;
    assert p[..1] <= files[i].dir;
  }

  /** With no more than eighty directories, twenty of them top-level, the forest holds every one of them once. */
  lemma AllShownWhenFew(files: seq<File>, trees: seq<Tree>, p: Path)
    requires ShowsFirst(files, trees) && |Directories(files)| <= 80
    requires |set q | q in Directories(files) && |q| == 1 :: q| <= 20
    ensures PathsInAll(trees)[p] == if p in Directories(files) then 1 else 0
  {
    hide ShowsKept, FirstDirectories;
    var kept :| FirstDirectories(files, kept, 80) && ShowsKept(files, trees, kept);
    AllKeptWhenFew(files, kept);
    SameTopLevel(files, kept);
    hide Directories, TopLevel;
    if p in Directories(files) {
      TopOf(files, p);
      IsTopLevel(kept, p[..1]);
      AllRootsWhenFew(files, trees, kept, p[..1]);
      HeadsBelow(trees, p[..1], p);
    }
    CountedAsKept(files, trees, kept, p);
  }

  lemma IsTopLevel(kept: seq<Path>, p: Path)
    ensures p in TopLevel(kept) <==> p in kept && |p| == 1
  {
  }

  lemma SameTopLevel(files: seq<File>, kept: seq<Path>)
    requires forall p :: p in kept <==> p in Directories(files)
    ensures TopLevel(kept) == set q | q in Directories(files) && |q| == 1 :: q
  {
    hide Directories;
  }

  lemma CountedAsKept(files: seq<File>, trees: seq<Tree>, kept: seq<Path>, p: Path)
    requires ShowsKept(files, trees, kept)
    ensures PathsInAll(trees)[p] == if p in kept && Heads(trees, p) then 1 else 0
  {
    hide Exact, Ahead, TopLevel, PathsInAll;
  }
}
