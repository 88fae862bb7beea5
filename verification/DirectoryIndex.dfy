/**
 The running directory-size index of a disk scan: an insertion-ordered dictionary from
 directories one to three levels below the scanned root to the bytes seen beneath them.
 Directories are paths relative to the root; the root itself is [].
 */
module DirectoryIndex {
  import opened Sorting

  type Path = seq<string>

  const LEVELS := 3

  /** A file whose size was read: its directory, its full path as text, its size. */
  datatype File = File(dir: Path, text: string, size: nat)

  /** A Python dict: `order` lists the keys as they were first inserted. */
  datatype Index = Index(order: seq<Path>, sizes: map<Path, nat>)

  const EMPTY := Index([], map[])

  /** The containing directory; the scanned root stands for its own. */
  function Parent(k: Path): Path
  {
    if k == [] then [] else k[..|k| - 1]
  }

  function Credit(ix: Index, key: Path, size: nat): Index
  {
    if key in ix.sizes then
      ix.(sizes := ix.sizes[key := ix.sizes[key] + size])
    else
      Index(ix.order + [key], ix.sizes[key := size])
  }

  /** Credits a file's size to its ancestors of depth 1 to `depth`, shallowest first. */
  function CreditAncestors(ix: Index, dir: Path, size: nat, depth: nat): Index
    requires depth <= |dir|
  {
    if depth == 0 then ix
    else Credit(CreditAncestors(ix, dir, size, depth - 1), dir[..depth], size)
  }

  function CreditedDepth(dir: Path): nat
  {
    if |dir| < LEVELS then |dir| else LEVELS
  }

  function IndexOf(files: seq<File>): Index
  {
    if files == [] then EMPTY
    else
      var f := files[|files| - 1];
      CreditAncestors(IndexOf(files[..|files| - 1]), f.dir, f.size, CreditedDepth(f.dir))
  }

  // ---------------------------------------------------------------- the plain definition

  /** The bytes of all files at or below directory d. */
  function BytesBeneath(files: seq<File>, d: Path): nat
  {
    if files == [] then 0
    else
      var f := files[|files| - 1];
      BytesBeneath(files[..|files| - 1], d) + if d <= f.dir then f.size else 0
  }

  /** The bytes of the files directly in directory d. */
  function BytesDirectlyIn(files: seq<File>, d: Path): nat
  {
    if files == [] then 0
    else
      var f := files[|files| - 1];
      BytesDirectlyIn(files[..|files| - 1], d) + if d == f.dir then f.size else 0
  }

  function TotalBytes(files: seq<File>): nat
  {
    if files == [] then 0
    else TotalBytes(files[..|files| - 1]) + files[|files| - 1].size
  }

  ghost predicate HasFileBeneath(files: seq<File>, d: Path)
  {
    exists i :: 0 <= i < |files| && d <= files[i].dir
  }

  function SumBeneath(ks: seq<Path>, files: seq<File>): nat
  {
    if ks == [] then 0 else BytesBeneath(files, ks[0]) + SumBeneath(ks[1..], files)
  }

  predicate IsChildOf(k: Path, p: Path): (b: bool)
    ensures b <==> |k| == |p| + 1 && p <= k
  {
    k != [] && Parent(k) == p
  }

  function ChildrenOf(ks: seq<Path>, p: Path): (r: seq<Path>)
    ensures forall k :: k in r <==> k in ks && IsChildOf(k, p)
  {
    if ks == [] then []
    else
      var last := ks[|ks| - 1];
      ChildrenOf(ks[..|ks| - 1], p) + if IsChildOf(last, p) then [last] else []
  }

  // ---------------------------------------------------------------- one file

  /** Keys are listed once each, and a directory is never listed ahead of its parent. */
  ghost predicate WellFormed(ix: Index)
  {
    && Distinct(ix.order)
    && (forall k :: k in ix.order <==> k in ix.sizes)
    && (forall k :: k in ix.sizes ==> 1 <= |k| <= LEVELS)
    && ParentsFirst(ix.order)
  }

  ghost predicate ParentsFirst(ks: seq<Path>)
  {
    forall i :: 0 <= i < |ks| ==> ParentAhead(ks, i)
  }

  ghost predicate ParentAhead(ks: seq<Path>, i: nat)
    requires i < |ks|
  {
    |ks[i]| > 1 ==> Parent(ks[i]) in ks[..i]
  }

  lemma CreditWellFormed(ix: Index, key: Path, size: nat)
    requires WellFormed(ix)
    requires 1 <= |key| <= LEVELS
    requires |key| > 1 ==> Parent(key) in ix.sizes
    ensures WellFormed(Credit(ix, key, size))
  {
    var after := Credit(ix, key, size);
    if key !in ix.sizes {
      forall i | 0 <= i < |after.order| ensures ParentAhead(after.order, i) {
        assert after.order[..i] == ix.order[..i];
        assert i < |ix.order| ==> ParentAhead(ix.order, i);
      }
    }
  }

  function Get(ix: Index, k: Path): nat
  {
    if k in ix.sizes then ix.sizes[k] else 0
  }

  lemma {:induction false} CreditAncestorsAt(ix: Index, dir: Path, size: nat, depth: nat, k: Path)
    requires depth <= |dir|
    ensures var after := CreditAncestors(ix, dir, size, depth);
      && (k in after.sizes <==> k in ix.sizes || (1 <= |k| <= depth && k <= dir))
      && Get(after, k) == Get(ix, k) + if 1 <= |k| <= depth && k <= dir then size else 0
  {
    if depth > 0 {
      CreditAncestorsAt(ix, dir, size, depth - 1, k);
      assert k <= dir && |k| == depth ==> k == dir[..depth];
    }
  }

  lemma {:induction false} CreditAncestorsWellFormed(ix: Index, dir: Path, size: nat, depth: nat)
    requires WellFormed(ix)
    requires depth <= |dir| && depth <= LEVELS
    ensures WellFormed(CreditAncestors(ix, dir, size, depth))
  {
    if depth > 0 {
      CreditAncestorsWellFormed(ix, dir, size, depth - 1);
      CreditAncestorsAt(ix, dir, size, depth - 1, dir[..depth - 1]);
      assert Parent(dir[..depth]) == dir[..depth - 1];
      CreditWellFormed(CreditAncestors(ix, dir, size, depth - 1), dir[..depth], size);
    }
  }

  lemma {:induction false} IndexWellFormed(files: seq<File>)
    ensures WellFormed(IndexOf(files))
  {
    if files != [] {
      var f := files[|files| - 1];
      IndexWellFormed(files[..|files| - 1]);
      CreditAncestorsWellFormed(IndexOf(files[..|files| - 1]), f.dir, f.size, CreditedDepth(f.dir));
    }
  }

  lemma {:induction false} IndexAt(files: seq<File>, k: Path)
    ensures k in IndexOf(files).sizes <==> 1 <= |k| <= LEVELS && HasFileBeneath(files, k)
    ensures k in IndexOf(files).sizes ==> IndexOf(files).sizes[k] == BytesBeneath(files, k)
    ensures k !in IndexOf(files).sizes && 1 <= |k| <= LEVELS ==> BytesBeneath(files, k) == 0
  {
    if files != [] {
      var prior, f := files[..|files| - 1], files[|files| - 1];
      IndexAt(prior, k);
      CreditAncestorsAt(IndexOf(prior), f.dir, f.size, CreditedDepth(f.dir), k);
      HasFileBeneathStep(files, k);
    }
  }

  lemma HasFileBeneathStep(files: seq<File>, k: Path)
    requires files != []
    ensures HasFileBeneath(files, k) <==> HasFileBeneath(files[..|files| - 1], k) || k <= files[|files| - 1].dir
  {
    var prior := files[..|files| - 1];
    if HasFileBeneath(prior, k) {
      var i :| 0 <= i < |prior| && k <= prior[i].dir;
      assert files[i] == prior[i];
    }
    if HasFileBeneath(files, k) {
      var i :| 0 <= i < |files| && k <= files[i].dir;
      assert i < |prior| ==> prior[i] == files[i];
    }
  }

  /** The streaming index equals its definition, whatever files were scanned. */
  lemma IndexAgrees(files: seq<File>)
    ensures WellFormed(IndexOf(files))
    ensures forall k :: k in IndexOf(files).sizes <==> 1 <= |k| <= LEVELS && HasFileBeneath(files, k)
    ensures forall k :: k in IndexOf(files).sizes ==> IndexOf(files).sizes[k] == BytesBeneath(files, k)
  {
    IndexWellFormed(files);
    forall k
      ensures k in IndexOf(files).sizes <==> 1 <= |k| <= LEVELS && HasFileBeneath(files, k)
      ensures k in IndexOf(files).sizes ==> IndexOf(files).sizes[k] == BytesBeneath(files, k)
    {
      IndexAt(files, k);
    }
  }

  /** A directory never outweighs a directory that contains it. */
  lemma {:induction false} ContainmentMonotone(files: seq<File>, p: Path, k: Path)
    requires p <= k
    ensures BytesBeneath(files, k) <= BytesBeneath(files, p)
  {
    if files != [] {
      ContainmentMonotone(files[..|files| - 1], p, k);
    }
  }

  // ---------------------------------------------------------------- conservation of bytes

  ghost predicate Siblings(ks: seq<Path>, p: Path)
  {
    Distinct(ks) && forall k :: k in ks ==> IsChildOf(k, p)
  }

  lemma {:induction false} SumBeneathNone(ks: seq<Path>)
    ensures SumBeneath(ks, []) == 0
  {
    if ks != [] {
      SumBeneathNone(ks[1..]);
    }
  }

  lemma SamePrefix(k: Path, k': Path, dir: Path)
    requires |k| == |k'|
    ensures k <= dir && k' <= dir ==> k == k'
  {
    if k <= dir && k' <= dir {
      assert k == dir[..|k|] == k';
    }
  }

  /** A further file adds its size once when one of the sibling directories holds it, else not at all. */
  lemma {:induction false} SumBeneathStep(ks: seq<Path>, p: Path, files: seq<File>)
    requires files != [] && Siblings(ks, p)
    ensures var f := files[|files| - 1];
      SumBeneath(ks, files) == SumBeneath(ks, files[..|files| - 1])
                               + if (exists k :: k in ks && k <= f.dir) then f.size else 0
  {
    if ks != [] {
      var f := files[|files| - 1];
      assert ks == [ks[0]] + ks[1..];
      SumBeneathStep(ks[1..], p, files);
      assert forall k :: k in ks <==> k == ks[0] || k in ks[1..];
      if ks[0] <= f.dir {
        assert ks[0] in ks;
        forall k | k in ks[1..] ensures !(k <= f.dir) {
          SamePrefix(k, ks[0], f.dir);
        }
      }
    }
  }

  /** The sizes of any distinct children of p add up to at most the size of p. */
  lemma {:induction false} SiblingsWithinParent(ks: seq<Path>, p: Path, files: seq<File>)
    requires Siblings(ks, p)
    ensures SumBeneath(ks, files) <= BytesBeneath(files, p)
  {
    if files == [] {
      SumBeneathNone(ks);
    } else {
      SumBeneathStep(ks, p, files);
      SiblingsWithinParent(ks, p, files[..|files| - 1]);
      var f := files[|files| - 1];
      if k :| k in ks && k <= f.dir {
        assert p <= k;
      }
    }
  }

  /** With every non-empty child listed, nothing is lost: a directory is its direct files and its children. */
  lemma {:induction false} ChildrenAccountForAll(ks: seq<Path>, p: Path, files: seq<File>)
    requires Siblings(ks, p)
    requires forall k :: IsChildOf(k, p) && HasFileBeneath(files, k) ==> k in ks
    ensures BytesBeneath(files, p) == BytesDirectlyIn(files, p) + SumBeneath(ks, files)
  {
    if files == [] {
      SumBeneathNone(ks);
    } else {
      var prior, f := files[..|files| - 1], files[|files| - 1];
      SumBeneathStep(ks, p, files);
      forall k | IsChildOf(k, p) && HasFileBeneath(prior, k) ensures k in ks {
        var i :| 0 <= i < |prior| && k <= prior[i].dir;
        assert files[i] == prior[i];
      }
      ChildrenAccountForAll(ks, p, prior);
      if p <= f.dir && p != f.dir {
        var k := f.dir[..|p| + 1];
        assert IsChildOf(k, p) && k <= files[|files| - 1].dir;
        assert k in ks;
      }
    }
  }

  lemma {:induction false} AllBeneathRoot(files: seq<File>)
    ensures BytesBeneath(files, []) == TotalBytes(files)
  {
    if files != [] {
      AllBeneathRoot(files[..|files| - 1]);
    }
  }

  lemma {:induction false} ChildrenDistinct(ks: seq<Path>, p: Path)
    requires Distinct(ks)
    ensures Siblings(ChildrenOf(ks, p), p)
  {
    if ks != [] {
      ChildrenDistinct(ks[..|ks| - 1], p);
    }
  }

  /**
   The index balances at every level: for the root and for any directory whose children are
   still indexed, its bytes are the files directly in it plus its indexed children.
   */
  lemma IndexBalances(files: seq<File>, p: Path)
    requires |p| < LEVELS
    ensures var kids := ChildrenOf(IndexOf(files).order, p);
      BytesBeneath(files, p) == BytesDirectlyIn(files, p) + SumBeneath(kids, files)
  {
    IndexAgrees(files);
    var ix := IndexOf(files);
    ChildrenDistinct(ix.order, p);
    ChildrenAccountForAll(ChildrenOf(ix.order, p), p, files);
  }

  /** Depth-1 totals plus the files directly in the root are all the scanned bytes. */
  lemma ScannedBytesBalance(files: seq<File>)
    ensures SumBeneath(ChildrenOf(IndexOf(files).order, []), files) + BytesDirectlyIn(files, []) == TotalBytes(files)
  {
    IndexBalances(files, []);
    AllBeneathRoot(files);
  }
}
