/**
 The last part of a disk scan: cutting the directory index to its largest entries and
 rebuilding a forest of nested directories from what is left.
 */
module Forest {
  import opened Options
  import opened Sorting
  import opened DirectoryIndex

  const KEPT_DIRECTORIES := 80

  datatype Tree = Tree(path: Path, size: nat, children: seq<Tree>)

  /** The sort key of the cut: descending size. */
  function BySize(ix: Index): (Path, Path) -> bool
  {
    (a, b) => Get(ix, a) > Get(ix, b)
  }

  /** The directories by descending size, earlier insertion first among equals, cut to the first `limit`. */
  function Cut(ix: Index, limit: nat): seq<Path>
  {
    Take(Sort(ix.order, BySize(ix)), limit)
  }

  // ---------------------------------------------------------------- the cut is closed under parents

  ghost predicate ValidCut(kept: seq<Path>)
  {
    && Distinct(kept)
    && (forall p :: p in kept ==> 1 <= |p| <= LEVELS)
    && ParentsFirst(kept)
  }

  ghost predicate SizedBy(kept: seq<Path>, ix: Index, files: seq<File>)
  {
    forall p :: p in kept ==> Get(ix, p) == BytesBeneath(files, p)
  }

  /** In the index, a directory's parent is inserted earlier and is at least as large. */
  lemma ParentInsertedEarlier(files: seq<File>, j: nat) returns (i: nat)
    requires WellFormed(IndexOf(files))
    requires j < |IndexOf(files).order| && |IndexOf(files).order[j]| > 1
    ensures i < j && IndexOf(files).order[i] == Parent(IndexOf(files).order[j])
    ensures !BySize(IndexOf(files))(IndexOf(files).order[j], IndexOf(files).order[i])
  {
    var ix := IndexOf(files);
    var p := Parent(ix.order[j]);
    assert ParentAhead(ix.order, j);
    i :| 0 <= i < j && ix.order[i] == p;
    IndexAt(files, p);
    IndexAt(files, ix.order[j]);
    ContainmentMonotone(files, p, ix.order[j]);
  }

  lemma SortedParentsFirst(files: seq<File>)
    requires WellFormed(IndexOf(files))
    ensures ParentsFirst(Sort(IndexOf(files).order, BySize(IndexOf(files))))
  {
    var ix := IndexOf(files);
    var all := Sort(ix.order, BySize(ix));
    SameElements(ix.order, all);
    forall k | 0 <= k < |all| && |all[k]| > 1 ensures ParentAhead(all, k) {
      assert all[k] in ix.order;
      var j :| 0 <= j < |ix.order| && ix.order[j] == all[k];
      var i := ParentInsertedEarlier(files, j);
      SortKeepsAhead(ix.order, BySize(ix), i, j, k);
    }
  }

  lemma TakeValid(all: seq<Path>, n: nat)
    requires ValidCut(all)
    ensures ValidCut(Take(all, n))
  {
    if |all| > n {
      forall k | 0 <= k < n ensures ParentAhead(all[..n], k) {
        assert ParentAhead(all, k);
        assert all[..n][..k] == all[..k];
      }
    }
  }

  lemma SortedIndexValid(files: seq<File>)
    requires WellFormed(IndexOf(files))
    ensures ValidCut(Sort(IndexOf(files).order, BySize(IndexOf(files))))
  {
    var ix := IndexOf(files);
    var all := Sort(ix.order, BySize(ix));
    SortedParentsFirst(files);
    DistinctTransfers(ix.order, all);
    SameElements(ix.order, all);
  }

  /**
   For any scan and any limit, a directory that survives the cut has its parent ahead of it:
   insertion order, stability of the sort and monotone sizes together close the cut under parents.
   */
  lemma CutClosedUnderParents(files: seq<File>, limit: nat)
    ensures ValidCut(Cut(IndexOf(files), limit))
    ensures Ordered(Cut(IndexOf(files), limit), BySize(IndexOf(files)))
    ensures SizedBy(Cut(IndexOf(files), limit), IndexOf(files), files)
  {
    var ix := IndexOf(files);
    var all := Sort(ix.order, BySize(ix));
    IndexWellFormed(files);
    SortOrdered(ix.order, BySize(ix));
    SortedIndexValid(files);
    TakeValid(all, limit);
    forall p | p in Cut(ix, limit) ensures Get(ix, p) == BytesBeneath(files, p) {
      assert p in all;
      SameElements(ix.order, all);
      IndexAt(files, p);
    }
  }

  /** No directory left out by the cut is larger than one that was kept. */
  lemma CutKeepsLargest(files: seq<File>, limit: nat, p: Path, q: Path)
    requires p in Cut(IndexOf(files), limit)
    requires q in IndexOf(files).sizes && q !in Cut(IndexOf(files), limit)
    ensures BytesBeneath(files, q) <= BytesBeneath(files, p)
  {
    var ix := IndexOf(files);
    var all := Sort(ix.order, BySize(ix));
    IndexWellFormed(files);
    SortOrdered(ix.order, BySize(ix));
    SameElements(ix.order, all);
    TakenAhead(all, limit, p, q, BySize(ix));
    IndexAt(files, p);
    IndexAt(files, q);
  }

  lemma TakenAhead<T(!new)>(all: seq<T>, n: nat, p: T, q: T, before: (T, T) -> bool)
    requires Ordered(all, before)
    requires p in Take(all, n) && q in all && q !in Take(all, n)
    ensures p in all && !before(q, p)
  {
    var i :| 0 <= i < |Take(all, n)| && Take(all, n)[i] == p;
    var j :| 0 <= j < |all| && all[j] == q;
    assert j >= n;
    assert all[i] == p;
  }

  // ---------------------------------------------------------------- the forest, as a value

  /** Entries whose parent was not kept become the top of the forest. */
  function RootsAmong(s: seq<Path>, kept: seq<Path>): (r: seq<Path>)
    ensures forall p :: p in r <==> p in s && Parent(p) !in kept
  {
    if s == [] then []
    else
      var last := s[|s| - 1];
      RootsAmong(s[..|s| - 1], kept) + if Parent(last) !in kept then [last] else []
  }

  function RootsOf(kept: seq<Path>): seq<Path>
  {
    RootsAmong(kept, kept)
  }

  /** The tree of directory p, n levels deep. */
  function Grow(kept: seq<Path>, ix: Index, p: Path, n: nat): Tree
    decreases n, 0
  {
    Tree(p, Get(ix, p), if n == 0 then [] else GrowAll(kept, ix, ChildrenOf(kept, p), n - 1))
  }

  function GrowAll(kept: seq<Path>, ix: Index, ps: seq<Path>, n: nat): seq<Tree>
    decreases n, 1
  {
    seq(|ps|, i requires 0 <= i < |ps| => Grow(kept, ix, ps[i], n))
  }

  function PathsIn(t: Tree): multiset<Path>
    decreases t, 0
  {
    multiset{t.path} + PathsInAll(t.children)
  }

  function PathsInAll(ts: seq<Tree>): multiset<Path>
    decreases ts, 1
  {
    if ts == [] then multiset{} else PathsInAll(ts[..|ts| - 1]) + PathsIn(ts[|ts| - 1])
  }

  function TotalSize(ts: seq<Tree>): nat
  {
    if ts == [] then 0 else TotalSize(ts[..|ts| - 1]) + ts[|ts| - 1].size
  }

  ghost predicate Descending(ts: seq<Tree>)
  {
    forall i, j :: 0 <= i < j < |ts| ==> ts[i].size >= ts[j].size
  }

  /**
   Throughout the tree: nodes sit under their own parent, siblings descend in size, and no node is
   outweighed by its children.
   */
  ghost predicate Sound(t: Tree)
  {
    && TotalSize(t.children) <= t.size
    && Descending(t.children)
    && forall i :: 0 <= i < |t.children| ==> IsChildOf(t.children[i].path, t.path) && Sound(t.children[i])
  }

  lemma {:induction false} AncestorKept(kept: seq<Path>, y: Path, n: nat)
    requires ParentsFirst(kept)
    requires y in kept && 1 <= n <= |y|
    ensures y[..n] in kept
    decreases |y| - n
  {
    if n == |y| {
      assert y[..n] == y;
    } else {
      AncestorKept(kept, y, n + 1);
      var i :| 0 <= i < |kept| && kept[i] == y[..n + 1];
      assert ParentAhead(kept, i) && Parent(kept[i]) == y[..n];
    }
  }

  ghost predicate CoveredBy(ps: seq<Path>, y: Path)
  {
    exists p :: p in ps && p <= y
  }

  lemma ChildrenCover(kept: seq<Path>, p: Path, y: Path)
    requires ParentsFirst(kept) && y in kept
    ensures CoveredBy(ChildrenOf(kept, p), y) <==> p <= y && p != y
  {
    if p <= y && p != y {
      AncestorKept(kept, y, |p| + 1);
      assert y[..|p| + 1] in ChildrenOf(kept, p);
    }
  }

  lemma SiblingsSplit(ps: seq<Path>, p: Path)
    requires Siblings(ps, p) && ps != []
    ensures Siblings(ps[..|ps| - 1], p) && IsChildOf(ps[|ps| - 1], p) && ps[|ps| - 1] !in ps[..|ps| - 1]
  {
    assert ps[|ps| - 1] in ps;
  }

  lemma CoverSplit(ps: seq<Path>, p: Path, y: Path)
    requires Siblings(ps, p) && ps != []
    ensures CoveredBy(ps, y) <==> CoveredBy(ps[..|ps| - 1], y) || ps[|ps| - 1] <= y
    ensures !(CoveredBy(ps[..|ps| - 1], y) && ps[|ps| - 1] <= y)
  {
    SiblingsSplit(ps, p);
    var front, last := ps[..|ps| - 1], ps[|ps| - 1];
    assert forall q :: q in ps <==> q == last || q in front;
    if last <= y && CoveredBy(front, y) {
      var q :| q in front && q <= y;
      SamePrefix(q, last, y);
    }
  }

  /** Each kept path below one of the siblings is counted once. */
  lemma {:induction false} GrowAllCounts(kept: seq<Path>, ix: Index, ps: seq<Path>, p: Path, n: nat, y: Path)
    requires ValidCut(kept) && y in kept
    requires Siblings(ps, p) && |p| + 1 + n == LEVELS
    ensures PathsInAll(GrowAll(kept, ix, ps, n))[y] == if CoveredBy(ps, y) then 1 else 0
    decreases n, 1, |ps|
  {
    hide ValidCut, Siblings, PathsIn, Grow, IsChildOf;
    if ps != [] {
      SiblingsSplit(ps, p);
      CoverSplit(ps, p, y);
      GrowAllCounts(kept, ix, ps[..|ps| - 1], p, n, y);
      GrowCounts(kept, ix, ps[|ps| - 1], n, y);
      var ts := GrowAll(kept, ix, ps, n);
      assert ts[..|ts| - 1] == GrowAll(kept, ix, ps[..|ps| - 1], n);
    }
  }

  lemma {:induction false} GrowCounts(kept: seq<Path>, ix: Index, p: Path, n: nat, y: Path)
    requires ValidCut(kept) && y in kept
    requires |p| + n == LEVELS
    ensures PathsIn(Grow(kept, ix, p, n))[y] == if p <= y then 1 else 0
    decreases n, 0
  {
    hide Distinct, GrowAll;
    var t := Grow(kept, ix, p, n);
    assert PathsIn(t) == multiset{p} + PathsInAll(t.children);
    if n > 0 {
      ChildrenDistinct(kept, p);
      GrowAllCounts(kept, ix, ChildrenOf(kept, p), p, n - 1, y);
      ChildrenCover(kept, p, y);
    } else {
      assert p <= y ==> y == p;
    }
  }

  /** Nothing enters a tree but the directory itself and kept ones. */
  lemma {:induction false} GrowOnlyKept(kept: seq<Path>, ix: Index, p: Path, n: nat, y: Path)
    requires y !in kept && y != p
    ensures PathsIn(Grow(kept, ix, p, n))[y] == 0
    decreases n, 0
  {
    hide GrowAll;
    var t := Grow(kept, ix, p, n);
    assert PathsIn(t) == multiset{p} + PathsInAll(t.children);
    if n > 0 {
      GrowAllOnlyKept(kept, ix, ChildrenOf(kept, p), n - 1, y);
    }
  }

  lemma {:induction false} GrowAllOnlyKept(kept: seq<Path>, ix: Index, ps: seq<Path>, n: nat, y: Path)
    requires y !in kept && forall p :: p in ps ==> p in kept
    ensures PathsInAll(GrowAll(kept, ix, ps, n))[y] == 0
    decreases n, 1, |ps|
  {
    hide PathsIn, Grow;
    if ps != [] {
      assert ps[|ps| - 1] in ps;
      GrowAllOnlyKept(kept, ix, ps[..|ps| - 1], n, y);
      GrowOnlyKept(kept, ix, ps[|ps| - 1], n, y);
      var ts := GrowAll(kept, ix, ps, n);
      assert ts[..|ts| - 1] == GrowAll(kept, ix, ps[..|ps| - 1], n);
    }
  }

  /** The top of the forest is the kept depth-1 directories, in the order of the cut. */
  lemma RootsAreTopLevel(kept: seq<Path>)
    requires ValidCut(kept)
    ensures RootsOf(kept) == ChildrenOf(kept, [])
  {
    forall p | p in kept ensures Parent(p) in kept <==> |p| > 1 {
      var i :| 0 <= i < |kept| && kept[i] == p;
      assert ParentAhead(kept, i);
    }
    RootsAmongTopLevel(kept, kept);
  }

  lemma {:induction false} RootsAmongTopLevel(s: seq<Path>, kept: seq<Path>)
    requires forall p :: p in s ==> p != [] && (Parent(p) in kept <==> |p| > 1)
    ensures RootsAmong(s, kept) == ChildrenOf(s, [])
  {
    if s != [] {
      RootsAmongTopLevel(s[..|s| - 1], kept);
      assert s[|s| - 1] in s;
    }
  }

  function ForestOf(kept: seq<Path>, ix: Index): seq<Tree>
  {
    GrowAll(kept, ix, RootsOf(kept), LEVELS - 1)
  }

  lemma {:induction false} NoneDeeper(ks: seq<Path>, p: Path)
    requires |p| == LEVELS && forall k :: k in ks ==> |k| <= LEVELS
    ensures ChildrenOf(ks, p) == []
  {
    if ks != [] {
      NoneDeeper(ks[..|ks| - 1], p);
      assert ks[|ks| - 1] in ks;
    }
  }

  /** There is nothing below the third level: looking one level deeper shows the same tree. */
  lemma {:induction false} GrowStops(kept: seq<Path>, ix: Index, p: Path, n: nat)
    requires ValidCut(kept) && |p| + n == LEVELS
    ensures Grow(kept, ix, p, n + 1) == Grow(kept, ix, p, n)
    decreases n
  {
    var kids := ChildrenOf(kept, p);
    if n == 0 {
      NoneDeeper(kept, p);
    } else {
      hide ValidCut, Grow, ChildrenOf;
      forall i | 0 <= i < |kids| ensures Grow(kept, ix, kids[i], n) == Grow(kept, ix, kids[i], n - 1) {
        assert kids[i] in kids;
        GrowStops(kept, ix, kids[i], n - 1);
      }
      assert GrownAlike(kept, ix, kids, n - 1);
      SameGrown(kept, ix, p, n);
    }
  }

  ghost predicate GrownAlike(kept: seq<Path>, ix: Index, ps: seq<Path>, n: nat)
  {
    forall i :: 0 <= i < |ps| ==> Grow(kept, ix, ps[i], n + 1) == Grow(kept, ix, ps[i], n)
  }

  lemma SameGrown(kept: seq<Path>, ix: Index, p: Path, n: nat)
    requires n > 0 && GrownAlike(kept, ix, ChildrenOf(kept, p), n - 1)
    ensures Grow(kept, ix, p, n + 1) == Grow(kept, ix, p, n)
  {
    hide GrownAlike, GrowAll;
    SameGrownAll(kept, ix, ChildrenOf(kept, p), n - 1);
  }

  lemma SameGrownAll(kept: seq<Path>, ix: Index, ps: seq<Path>, n: nat)
    requires GrownAlike(kept, ix, ps, n)
    ensures GrowAll(kept, ix, ps, n + 1) == GrowAll(kept, ix, ps, n)
  {
    hide Grow;
  }

  /** The forest holds every kept directory exactly once and nothing else. */
  lemma ForestHoldsEachOnce(kept: seq<Path>, ix: Index)
    requires ValidCut(kept)
    ensures PathsInAll(ForestOf(kept, ix)) == multiset(kept)
  {
    RootsAreTopLevel(kept);
    ChildrenDistinct(kept, []);
    var roots := ChildrenOf(kept, []);
    forall y ensures PathsInAll(ForestOf(kept, ix))[y] == multiset(kept)[y] {
      CountOfDistinct(kept, y);
      if y in kept {
        GrowAllCounts(kept, ix, roots, [], LEVELS - 1, y);
        ChildrenCover(kept, [], y);
      } else {
        GrowAllOnlyKept(kept, ix, roots, LEVELS - 1, y);
      }
    }
  }

  lemma {:induction false} ChildrenOrdered(kept: seq<Path>, p: Path, before: (Path, Path) -> bool)
    requires Ordered(kept, before)
    ensures Ordered(ChildrenOf(kept, p), before)
  {
    if kept != [] {
      var front := kept[..|kept| - 1];
      ChildrenOrdered(front, p, before);
      var kids := ChildrenOf(front, p);
      forall i | 0 <= i < |kids| ensures !before(kept[|kept| - 1], kids[i]) {
        assert kids[i] in front;
      }
    }
  }

  lemma {:induction false} SumBeneathSplit(ps: seq<Path>, files: seq<File>)
    requires ps != []
    ensures SumBeneath(ps, files) == SumBeneath(ps[..|ps| - 1], files) + BytesBeneath(files, ps[|ps| - 1])
  {
    if |ps| > 1 {
      SumBeneathSplit(ps[1..], files);
      assert ps[1..][..|ps| - 2] == ps[..|ps| - 1][1..];
    }
  }

  lemma {:induction false} TotalIsSumBeneath(kept: seq<Path>, ix: Index, ps: seq<Path>, n: nat, files: seq<File>)
    requires forall p :: p in ps ==> Get(ix, p) == BytesBeneath(files, p)
    ensures TotalSize(GrowAll(kept, ix, ps, n)) == SumBeneath(ps, files)
  {
    if ps != [] {
      TotalIsSumBeneath(kept, ix, ps[..|ps| - 1], n, files);
      SumBeneathSplit(ps, files);
      var ts := GrowAll(kept, ix, ps, n);
      assert ts[..|ts| - 1] == GrowAll(kept, ix, ps[..|ps| - 1], n);
      assert ps[|ps| - 1] in ps;
    }
  }

  lemma TotalWithinParent(kept: seq<Path>, ix: Index, p: Path, n: nat, files: seq<File>)
    requires Distinct(kept) && SizedBy(kept, ix, files)
    requires p in kept
    ensures TotalSize(GrowAll(kept, ix, ChildrenOf(kept, p), n)) <= Get(ix, p)
  {
    var kids := ChildrenOf(kept, p);
    ChildrenDistinct(kept, p);
    TotalIsSumBeneath(kept, ix, kids, n, files);
    SiblingsWithinParent(kids, p, files);
  }

  lemma SizesDescend(kept: seq<Path>, ix: Index, ps: seq<Path>, n: nat)
    requires Ordered(ps, BySize(ix))
    ensures Descending(GrowAll(kept, ix, ps, n))
  {
    forall i, j | 0 <= i < j < |ps| ensures Get(ix, ps[i]) >= Get(ix, ps[j]) {
      assert !BySize(ix)(ps[j], ps[i]);
    }
  }

  lemma NodeSound(kept: seq<Path>, ix: Index, p: Path, n: nat)
    requires n > 0 ==> TotalSize(GrowAll(kept, ix, ChildrenOf(kept, p), n - 1)) <= Get(ix, p)
    requires n > 0 ==> Descending(GrowAll(kept, ix, ChildrenOf(kept, p), n - 1))
    requires n > 0 ==> forall k :: k in ChildrenOf(kept, p) ==> IsChildOf(k, p) && Sound(Grow(kept, ix, k, n - 1))
    ensures Sound(Grow(kept, ix, p, n))
  {
  }

  /** Every tree grown from a cut of scanned files is sound. */
  lemma {:induction false} GrowSound(kept: seq<Path>, ix: Index, p: Path, n: nat, files: seq<File>)
    requires Distinct(kept) && Ordered(kept, BySize(ix)) && SizedBy(kept, ix, files)
    requires p in kept
    ensures Sound(Grow(kept, ix, p, n))
    decreases n
  {
    hide Sound, Descending, Distinct, Ordered, SizedBy, TotalSize, Grow, GrowAll;
    if n > 0 {
      TotalWithinParent(kept, ix, p, n - 1, files);
      ChildrenOrdered(kept, p, BySize(ix));
      SizesDescend(kept, ix, ChildrenOf(kept, p), n - 1);
      forall k | k in ChildrenOf(kept, p) ensures Sound(Grow(kept, ix, k, n - 1)) {
        GrowSound(kept, ix, k, n - 1, files);
      }
    }
    NodeSound(kept, ix, p, n);
  }
}
