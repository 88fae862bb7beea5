/**
 The disk scan worker: one pass over the files of a drive, then the published report.
 The walk itself is an input: a stream of files, each with its size or a failed read.
 */
module DiskScan {
  import opened Arithmetic
  import opened Options
  import opened Sorting
  import opened DirectoryIndex
  import opened Forest
  import opened CutExactly
  import opened LargestFiles

  const PUBLISHED_ROOTS := 20

  /**
   What the walk comes upon: a file whose size cannot be read, a file, with whether enough time has passed
   since the last progress report, or an error of another kind, which ends the scan.
   */
  datatype Visit = Unreadable | Readable(file: File, due: bool) | Breaks

  function FilesOf(stream: seq<Visit>): seq<File>
  {
    if stream == [] then []
    else
      var last := stream[|stream| - 1];
      FilesOf(stream[..|stream| - 1]) + if last.Readable? then [last.file] else []
  }

  function EntryOf(f: File): Entry
  {
    Entry(f.size, f.text)
  }

  function EntriesOf(files: seq<File>): seq<Entry>
  {
    seq(|files|, i requires 0 <= i < |files| => EntryOf(files[i]))
  }

  // ---------------------------------------------------------------- the forest, as linked nodes

  /** A node of the report; its list of children is filled in place. */
  class DirNode {
    const path: Path
    const size: nat
    var children: seq<DirNode>

    constructor (path: Path, size: nat)
      ensures this.path == path && this.size == size && this.children == []
    {
      this.path, this.size, this.children := path, size, [];
    }
  }

  predicate BiggerNode(a: DirNode, b: DirNode)
  {
    a.size > b.size
  }

  function NodesAt(nodes: map<Path, DirNode>, ps: seq<Path>): seq<DirNode>
    requires forall p :: p in ps ==> p in nodes
  {
    seq(|ps|, i requires 0 <= i < |ps| => nodes[ps[i]])
  }

  /** The value a node stands for, `levels` deep; a node at the end shows no children whatever it has. */
  ghost function Snapshot(n: DirNode, levels: nat): Tree
    reads *
  {
    Tree(n.path, n.size,
      if levels == 0 then []
      else seq(|n.children|, i requires 0 <= i < |n.children| reads * => Snapshot(n.children[i], levels - 1)))
  }

  /** `nodes` holds one node for each kept directory. */
  ghost predicate Covers(nodes: map<Path, DirNode>, kept: seq<Path>, ix: Index)
  {
    && (forall p :: p in nodes <==> p in kept)
    && (forall p :: p in nodes ==> nodes[p].path == p && nodes[p].size == Get(ix, p))
  }

  ghost predicate Linked(nodes: map<Path, DirNode>, known: seq<Path>)
    requires forall p :: p in known ==> p in nodes
    reads nodes.Values
  {
    forall p :: p in nodes ==> nodes[p].children == NodesAt(nodes, ChildrenOf(known, p))
  }

  /** Linked nodes show exactly the forest grown from the kept directories. */
  lemma {:induction false} SnapshotIsGrow(nodes: map<Path, DirNode>, kept: seq<Path>, ix: Index, p: Path, n: nat)
    requires Covers(nodes, kept, ix) && Linked(nodes, kept) && p in nodes
    ensures Snapshot(nodes[p], n) == Grow(kept, ix, p, n)
    decreases n
  {
    hide Covers, Linked, ChildrenOf, Snapshot, Grow, GrowAll;
    if n > 0 {
      forall k | k in ChildrenOf(kept, p) ensures k in nodes && Snapshot(nodes[k], n - 1) == Grow(kept, ix, k, n - 1) {
        CoveredNode(nodes, kept, ix, k);
        SnapshotIsGrow(nodes, kept, ix, k, n - 1);
      }
    }
    CoveredNode(nodes, kept, ix, p);
    LinkedNode(nodes, kept, ix, p);
    SnapshotFrom(nodes, kept, ix, p, n);
  }

  lemma CoveredNode(nodes: map<Path, DirNode>, kept: seq<Path>, ix: Index, p: Path)
    requires Covers(nodes, kept, ix) && (p in kept || p in nodes)
    ensures p in nodes && p in kept && nodes[p].path == p && nodes[p].size == Get(ix, p)
  {
  }

  lemma LinkedNode(nodes: map<Path, DirNode>, kept: seq<Path>, ix: Index, p: Path)
    requires Covers(nodes, kept, ix) && p in nodes && Linked(nodes, kept)
    ensures forall k :: k in ChildrenOf(kept, p) ==> k in nodes
    ensures nodes[p].children == NodesAt(nodes, ChildrenOf(kept, p))
  {
  }

  lemma SnapshotFrom(nodes: map<Path, DirNode>, kept: seq<Path>, ix: Index, p: Path, n: nat)
    requires p in nodes && nodes[p].path == p && nodes[p].size == Get(ix, p)
    requires forall k :: k in ChildrenOf(kept, p) ==> k in nodes
    requires nodes[p].children == NodesAt(nodes, ChildrenOf(kept, p))
    requires n > 0 ==> forall k :: k in ChildrenOf(kept, p) ==> Snapshot(nodes[k], n - 1) == Grow(kept, ix, k, n - 1)
    ensures Snapshot(nodes[p], n) == Grow(kept, ix, p, n)
  {
    if n > 0 {
      var kids := ChildrenOf(kept, p);
      forall i | 0 <= i < |kids| ensures Snapshot(nodes[p].children[i], n - 1) == Grow(kept, ix, kids[i], n - 1) {
        assert kids[i] in kids;
      }
      assert Snapshot(nodes[p], n).children == Grow(kept, ix, p, n).children;
    }
  }

  method MakeNodes(kept: seq<Path>, ix: Index) returns (nodes: map<Path, DirNode>)
    requires ValidCut(kept)
    ensures Covers(nodes, kept, ix)
    ensures forall p :: p in nodes ==> fresh(nodes[p]) && nodes[p].children == []
  {
    nodes := map[];
    for i := 0 to |kept|
      invariant Covers(nodes, kept[..i], ix)
      invariant forall p :: p in nodes ==> fresh(nodes[p]) && nodes[p].children == []
    {
      var path := kept[i];
      assert path in kept;
      if |path| <= LEVELS {
        var node := new DirNode(path, Get(ix, path));
        nodes := nodes[path := node];
      }
      assert kept[..i + 1] == kept[..i] + [path];
    }
    assert kept[..|kept|] == kept;
  }

  lemma NodesAtAppend(nodes: map<Path, DirNode>, ps: seq<Path>, p: Path)
    requires (forall k :: k in ps ==> k in nodes) && p in nodes
    ensures forall k :: k in ps + [p] ==> k in nodes
    ensures NodesAt(nodes, ps + [p]) == NodesAt(nodes, ps) + [nodes[p]]
  {
  }

  /** Hangs every node under its parent's node, or at the top when the parent was not kept. */
  method LinkNodes(kept: seq<Path>, ix: Index, nodes: map<Path, DirNode>) returns (tree: seq<DirNode>)
    requires ValidCut(kept) && Covers(nodes, kept, ix)
    requires forall p :: p in nodes ==> nodes[p].children == []
    modifies nodes.Values
    ensures forall p :: p in RootsOf(kept) ==> p in nodes
    ensures Linked(nodes, kept)
    ensures tree == NodesAt(nodes, RootsOf(kept))
  {
    tree := [];
    assert Linked(nodes, []);
    hide Linked, ValidCut, NodesAt, RootsAmong;
    for i := 0 to |kept|
      invariant Linked(nodes, kept[..i])
      invariant tree == NodesAt(nodes, RootsAmong(kept[..i], kept))
    {
      tree := HangNode(kept, ix, nodes, i, tree);
    }
    assert kept[..|kept|] == kept;
  }

  method HangNode(kept: seq<Path>, ix: Index, nodes: map<Path, DirNode>, i: nat, before: seq<DirNode>)
    returns (tree: seq<DirNode>)
    requires i < |kept| && ValidCut(kept) && Covers(nodes, kept, ix)
    requires Linked(nodes, kept[..i])
    requires before == NodesAt(nodes, RootsAmong(kept[..i], kept))
    modifies nodes.Values
    ensures Linked(nodes, kept[..i + 1])
    ensures tree == NodesAt(nodes, RootsAmong(kept[..i + 1], kept))
  {
    var path := kept[i];
    assert path in kept && path != [] && path in nodes;
    tree := before;
    if Parent(path) in nodes {
      hide Linked, ValidCut, NodesAt, RootsAmong;
      RootsStep(kept, i);
      HangUnderParent(kept, ix, nodes, i);
    } else {
      hide Linked, ValidCut, RootsAmong;
      RootsStep(kept, i);
      NodesAtAppend(nodes, RootsAmong(kept[..i], kept), path);
      tree := tree + [nodes[path]];
      StillLinked(kept, nodes, i);
    }
  }

  lemma RootsStep(kept: seq<Path>, i: nat)
    requires i < |kept|
    ensures RootsAmong(kept[..i + 1], kept)
         == RootsAmong(kept[..i], kept) + if Parent(kept[i]) !in kept then [kept[i]] else []
  {
    assert kept[..i + 1][..i] == kept[..i];
  }

  lemma ChildrenStep(kept: seq<Path>, i: nat, p: Path)
    requires i < |kept|
    ensures ChildrenOf(kept[..i + 1], p) == ChildrenOf(kept[..i], p) + if IsChildOf(kept[i], p) then [kept[i]] else []
  {
    assert kept[..i + 1][..i] == kept[..i];
  }

  lemma StillLinked(kept: seq<Path>, nodes: map<Path, DirNode>, i: nat)
    requires i < |kept| && (forall k :: k in kept ==> k in nodes)
    requires Parent(kept[i]) !in nodes
    requires Linked(nodes, kept[..i])
    ensures Linked(nodes, kept[..i + 1])
  {
    forall p | p in nodes ensures nodes[p].children == NodesAt(nodes, ChildrenOf(kept[..i + 1], p)) {
      ChildrenStep(kept, i, p);
    }
  }

  method HangUnderParent(kept: seq<Path>, ix: Index, nodes: map<Path, DirNode>, i: nat)
    requires i < |kept| && kept[i] != [] && Covers(nodes, kept, ix)
    requires Parent(kept[i]) in nodes
    requires Linked(nodes, kept[..i])
    modifies nodes[Parent(kept[i])]
    ensures Linked(nodes, kept[..i + 1])
  {
    var parent := Parent(kept[i]);
    nodes[parent].children := nodes[parent].children + [nodes[kept[i]]];
    forall p | p in nodes ensures nodes[p].children == NodesAt(nodes, ChildrenOf(kept[..i + 1], p)) {
      ChildrenStep(kept, i, p);
      assert nodes[p].path == p;
      if p == parent {
        NodesAtAppend(nodes, ChildrenOf(kept[..i], p), kept[i]);
      }
    }
  }

  lemma NodesOrdered(nodes: map<Path, DirNode>, kept: seq<Path>, ix: Index, p: Path)
    requires Covers(nodes, kept, ix) && Ordered(kept, BySize(ix))
    ensures Ordered(NodesAt(nodes, ChildrenOf(kept, p)), BiggerNode)
  {
    var kids := ChildrenOf(kept, p);
    ChildrenOrdered(kept, p, BySize(ix));
    forall i, j | 0 <= i < j < |kids| ensures !BiggerNode(nodes[kids[j]], nodes[kids[i]]) {
      assert kids[i] in kids && kids[j] in kids;
      assert !BySize(ix)(kids[j], kids[i]);
    }
  }

  /** The last loop sorts every list of children; the cut's own order has left nothing to move. */
  method SortChildren(kept: seq<Path>, ix: Index, nodes: map<Path, DirNode>)
    requires Covers(nodes, kept, ix) && Ordered(kept, BySize(ix))
    requires Linked(nodes, kept)
    modifies nodes.Values
    ensures Linked(nodes, kept)
  {
    for i := 0 to |kept|
      invariant Linked(nodes, kept)
    {
      assert kept[i] in kept;
      var node := nodes[kept[i]];
      NodesOrdered(nodes, kept, ix, kept[i]);
      SortOfOrdered(node.children, BiggerNode);
      node.children := Sort(node.children, BiggerNode);
    }
  }

  ghost function SnapshotAll(ns: seq<DirNode>, levels: nat): seq<Tree>
    reads *
  {
    seq(|ns|, i requires 0 <= i < |ns| reads * => Snapshot(ns[i], levels))
  }

  lemma SnapshotIsForest(nodes: map<Path, DirNode>, kept: seq<Path>, ix: Index, tree: seq<DirNode>)
    requires Covers(nodes, kept, ix) && Linked(nodes, kept)
    requires forall p :: p in RootsOf(kept) ==> p in nodes
    requires tree == NodesAt(nodes, RootsOf(kept))
    requires ValidCut(kept)
    ensures SnapshotAll(tree, LEVELS) == ForestOf(kept, ix)
  {
    RootsAreTopLevel(kept);
    hide Covers, Linked, Snapshot, Grow, ValidCut;
    var roots := RootsOf(kept);
    forall i | 0 <= i < |roots| ensures Snapshot(tree[i], LEVELS) == Grow(kept, ix, roots[i], LEVELS - 1) {
      assert roots[i] in roots;
      SnapshotIsGrow(nodes, kept, ix, roots[i], LEVELS);
      GrowStops(kept, ix, roots[i], LEVELS - 1);
    }
  }

  /** From the cut index to the linked forest, seen one level deeper than any directory in it can lie. */
  method BuildForest(kept: seq<Path>, ix: Index) returns (tree: seq<DirNode>)
    requires ValidCut(kept) && Ordered(kept, BySize(ix))
    ensures SnapshotAll(tree, LEVELS) == ForestOf(kept, ix)
  {
    hide Linked, ValidCut, Ordered, NodesAt, Snapshot, SnapshotAll, ForestOf;
    var nodes := MakeNodes(kept, ix);
    tree := LinkNodes(kept, ix, nodes);
    SortChildren(kept, ix, nodes);
    SnapshotIsForest(nodes, kept, ix, tree);
  }

  // ---------------------------------------------------------------- the worker

  /** One file's size goes to each of its credited ancestors. */
  method CreditFile(before: Index, f: File) returns (ix: Index)
    ensures ix == CreditAncestors(before, f.dir, f.size, CreditedDepth(f.dir))
  {
    ix := before;
    for depth := 1 to CreditedDepth(f.dir) + 1
      invariant ix == CreditAncestors(before, f.dir, f.size, depth - 1)
    {
      ix := Credit(ix, f.dir[..depth], f.size);
    }
  }

  datatype Report = Report(
    scannedBytes: nat, scannedFiles: nat, errors: nat, tree: seq<DirNode>, largestFiles: seq<Entry>)

  /** A job ends complete, with its report, or failed. */
  datatype Outcome = Complete(report: Report) | Failed

  /** What a running job shows. */
  datatype Progress = Progress(fraction: real, scannedBytes: nat, scannedFiles: nat)

  const FILES_PER_UPDATE := 250

  function FractionOf(bytes: nat, used: nat): real
    requires used > 0
  {
    if bytes as real / used as real < 0.99 then bytes as real / used as real else 0.99
  }

  /** The updates of the job while it scans this much of the stream. */
  function Updates(stream: seq<Visit>, used: nat): seq<Progress>
    requires used > 0
  {
    if stream == [] then []
    else
      var last := stream[|stream| - 1];
      var files := FilesOf(stream);
      Updates(stream[..|stream| - 1], used)
      + if last.Readable? && (|files| % FILES_PER_UPDATE == 0 || last.due)
        then [Progress(FractionOf(TotalBytes(files), used), TotalBytes(files), |files|)] else []
  }

  predicate Unbroken(stream: seq<Visit>)
  {
    forall i :: 0 <= i < |stream| ==> !stream[i].Breaks?
  }

  lemma FilesStep(stream: seq<Visit>, i: nat)
    requires i < |stream|
    ensures FilesOf(stream[..i + 1])
         == if stream[i].Readable? then FilesOf(stream[..i]) + [stream[i].file] else FilesOf(stream[..i])
  {
    assert stream[..i + 1][..i] == stream[..i];
  }

  lemma UpdatesStep(stream: seq<Visit>, i: nat, used: nat)
    requires i < |stream| && used > 0
    ensures var files := FilesOf(stream[..i + 1]);
      Updates(stream[..i + 1], used) == Updates(stream[..i], used)
      + if stream[i].Readable? && (|files| % FILES_PER_UPDATE == 0 || stream[i].due)
        then [Progress(FractionOf(TotalBytes(files), used), TotalBytes(files), |files|)] else []
  {
    assert stream[..i + 1][..i] == stream[..i];
  }

  /** A file is followed by an update exactly when it is one of every 250th, or when the last one is long ago. */
  lemma UpdateAfterFile(stream: seq<Visit>, file: File, due: bool, used: nat)
    requires used > 0
    ensures var files := FilesOf(stream) + [file];
      var share := TotalBytes(files) as real / used as real;
      Updates(stream + [Readable(file, due)], used) == Updates(stream, used)
        + if due || |files| % 250 == 0
          then [Progress(if share < 0.99 then share else 0.99, TotalBytes(files), |files|)] else []
  {
    var more := stream + [Readable(file, due)];
    assert more[..|stream|] == stream;
    hide TotalBytes;
  }

  lemma OneMoreFile(files: seq<File>, f: File)
    ensures multiset(EntriesOf(files + [f])) == multiset(EntriesOf(files)) + multiset{EntryOf(f)}
    ensures TotalBytes(files + [f]) == TotalBytes(files) + f.size
    ensures IndexOf(files + [f]) == CreditAncestors(IndexOf(files), f.dir, f.size, CreditedDepth(f.dir))
  {
    assert (files + [f])[..|files|] == files;
    assert EntriesOf(files + [f]) == EntriesOf(files) + [EntryOf(f)];
  }

  /** What the loop has computed after this much of the stream. */
  datatype Tally = Tally(
    ix: Index, scannedBytes: nat, scannedFiles: nat, errors: nat, updates: seq<Progress>)

  ghost predicate Tallies(stream: seq<Visit>, used: nat, c: Tally)
    requires used > 0
  {
    && c.ix == IndexOf(FilesOf(stream))
    && c.scannedBytes == TotalBytes(FilesOf(stream))
    && c.scannedFiles == |FilesOf(stream)| && c.errors == |stream| - |FilesOf(stream)|
    && c.updates == Updates(stream, used)
  }

  /** What one more file makes of it. */
  function Counted(c: Tally, file: File, due: bool, used: nat): Tally
    requires used > 0
  {
    var bytes, files := c.scannedBytes + file.size, c.scannedFiles + 1;
    Tally(CreditAncestors(c.ix, file.dir, file.size, CreditedDepth(file.dir)), bytes, files, c.errors,
      c.updates + if files % FILES_PER_UPDATE == 0 || due
                  then [Progress(FractionOf(bytes, used), bytes, files)] else [])
  }

  lemma TallyUnreadable(stream: seq<Visit>, i: nat, used: nat, c: Tally)
    requires i < |stream| && used > 0 && stream[i].Unreadable? && Tallies(stream[..i], used, c)
    ensures Tallies(stream[..i + 1], used, c.(errors := c.errors + 1))
    ensures FilesOf(stream[..i + 1]) == FilesOf(stream[..i])
  {
    hide IndexOf, TotalBytes, FilesOf, Updates, FractionOf;
    FilesStep(stream, i);
    UpdatesStep(stream, i, used);
  }

  lemma TallyReadable(stream: seq<Visit>, i: nat, used: nat, c: Tally)
    requires i < |stream| && used > 0 && stream[i].Readable? && Tallies(stream[..i], used, c)
    ensures Tallies(stream[..i + 1], used, Counted(c, stream[i].file, stream[i].due, used))
    ensures FilesOf(stream[..i + 1]) == FilesOf(stream[..i]) + [stream[i].file]
  {
    hide IndexOf, TotalBytes, FilesOf, Updates, FractionOf, CreditAncestors;
    FilesStep(stream, i);
    UpdatesStep(stream, i, used);
    OneMoreFile(FilesOf(stream[..i]), stream[i].file);
    assert c.updates + [] == c.updates;
  }

  /** The entries offered to the heap. */
  function Offered(stream: seq<Visit>): multiset<Entry>
  {
    multiset(EntriesOf(FilesOf(stream)))
  }

  lemma OfferedStep(stream: seq<Visit>, i: nat)
    requires i < |stream|
    ensures Offered(stream[..i + 1])
         == Offered(stream[..i]) + if stream[i].Readable? then multiset{EntryOf(stream[i].file)} else multiset{}
  {
    FilesStep(stream, i);
    hide FilesOf, TotalBytes, IndexOf, CreditAncestors;
    if stream[i].Readable? {
      OneMoreFile(FilesOf(stream[..i]), stream[i].file);
    }
  }

  lemma OneMoreUnbroken(stream: seq<Visit>, i: nat)
    requires i < |stream| && Unbroken(stream[..i]) && !stream[i].Breaks?
    ensures Unbroken(stream[..i + 1])
  {
  }

  lemma NothingScanned(used: nat)
    requires used > 0
    ensures Tallies([], used, Tally(EMPTY, 0, 0, 0, []))
    ensures Offered([]) == multiset{}
  {
  }

  /** What the loop does with one file. */
  method CountFile(before: Tally, file: File, due: bool, used: nat, largest: Heap) returns (c: Tally)
    requires used > 0 && largest.Valid()
    modifies largest`count, largest`scanned, largest`dropped, largest.slots
    ensures c == Counted(before, file, due, used)
    ensures largest.Valid() && largest.scanned == old(largest.scanned) + multiset{EntryOf(file)}
  {
    hide Heap.Valid, FractionOf, CreditAncestors;
    c := before.(scannedBytes := before.scannedBytes + file.size, scannedFiles := before.scannedFiles + 1);
    largest.Offer(EntryOf(file));
    var ix := CreditFile(c.ix, file);
    c := c.(ix := ix);
    if c.scannedFiles % FILES_PER_UPDATE == 0 || due {
      c := c.(updates := c.updates + [Progress(FractionOf(c.scannedBytes, used), c.scannedBytes, c.scannedFiles)]);
    } else {
      assert c.updates + [] == c.updates;
    }
  }

  /** The first i visits have been counted into c, their entries offered, and none of them ends the scan. */
  ghost predicate Scanned(stream: seq<Visit>, i: nat, used: nat, c: Tally, offered: multiset<Entry>)
    requires i <= |stream| && used > 0
  {
    Unbroken(stream[..i]) && Tallies(stream[..i], used, c) && offered == Offered(stream[..i])
  }

  lemma ScannedNothing(stream: seq<Visit>, used: nat)
    requires used > 0
    ensures Scanned(stream, 0, used, Tally(EMPTY, 0, 0, 0, []), multiset{})
  {
    assert stream[..0] == [];
    NothingScanned(used);
  }

  lemma ScannedUnreadable(stream: seq<Visit>, i: nat, used: nat, c: Tally, offered: multiset<Entry>)
    requires i < |stream| && used > 0 && stream[i].Unreadable? && Scanned(stream, i, used, c, offered)
    ensures Scanned(stream, i + 1, used, c.(errors := c.errors + 1), offered)
  {
    hide Offered, Tallies;
    OneMoreUnbroken(stream, i);
    OfferedStep(stream, i);
    TallyUnreadable(stream, i, used, c);
  }

  lemma ScannedReadable(stream: seq<Visit>, i: nat, used: nat, c: Tally, offered: multiset<Entry>)
    requires i < |stream| && used > 0 && stream[i].Readable? && Scanned(stream, i, used, c, offered)
    ensures var file := stream[i].file;
      Scanned(stream, i + 1, used, Counted(c, file, stream[i].due, used), offered + multiset{EntryOf(file)})
  {
    hide Offered, Tallies, Counted;
    OneMoreUnbroken(stream, i);
    OfferedStep(stream, i);
    TallyReadable(stream, i, used, c);
  }

  /** The pass over the files, up to the first error that is not a failed read, if any. */
  method ScanFiles(stream: seq<Visit>, used: nat) returns (c: Tally, largest: Heap, reached: nat)
    requires used > 0
    ensures reached <= |stream| && (reached < |stream| ==> stream[reached].Breaks?)
    ensures fresh(largest) && fresh(largest.slots) && largest.Valid()
    ensures Scanned(stream, reached, used, c, largest.scanned)
  {
    hide Heap.Valid, Accounts, HeapShaped, Scanned, Counted;
    c := Tally(EMPTY, 0, 0, 0, []);
    largest := new Heap();
    reached := 0;
    ScannedNothing(stream, used);
    while reached < |stream| && !stream[reached].Breaks?
      invariant reached <= |stream|
      invariant fresh(largest) && fresh(largest.slots) && largest.Valid()
      invariant Scanned(stream, reached, used, c, largest.scanned)
    {
      match stream[reached] {
        case Unreadable =>
          ScannedUnreadable(stream, reached, used, c, largest.scanned);
          c := c.(errors := c.errors + 1);
        case Readable(file, due) =>
          ScannedReadable(stream, reached, used, c, largest.scanned);
          c := CountFile(c, file, due, used, largest);
      }
      reached := reached + 1;
    }
  }

  lemma SnapshotTake(ns: seq<DirNode>, levels: nat, n: nat)
    ensures SnapshotAll(Take(ns, n), levels) == Take(SnapshotAll(ns, levels), n)
  {
  }

  /** The whole scan: the progress shown on the way, and what the job ends with. */
  method ScanWorker(stream: seq<Visit>, usedBytes: int) returns (outcome: Outcome, updates: seq<Progress>)
    ensures outcome.Complete? <==> Unbroken(stream)
    ensures outcome.Complete? ==>
              var report, files := outcome.report, FilesOf(stream);
              && report.scannedBytes == TotalBytes(files) && report.scannedFiles == |files|
              && report.errors == |stream| - |files|
              && SnapshotAll(report.tree, LEVELS) == PublishedForest(files)
              && SizesOf(report.largestFiles) == SizesOf(TopBySize(EntriesOf(files)))
              && ListsLargest(report.largestFiles, multiset(EntriesOf(files)))
              && ShowsFirst(files, SnapshotAll(report.tree, 3))
    ensures exists reached :: 0 <= reached <= |stream|
              && Unbroken(stream[..reached]) && (reached < |stream| ==> stream[reached].Breaks?)
              && updates == Updates(stream[..reached], if usedBytes < 1 then 1 else usedBytes)
  {
    hide SnapshotAll, ForestOf, ValidCut, Ordered, SizedBy;
    var used := if usedBytes < 1 then 1 else usedBytes;
    var c, largest, reached := ScanFiles(stream, used);
    updates := c.updates;
    if reached < |stream| {
      return Failed, updates;
    }
    assert stream[..reached] == stream;
    var largestFiles := largest.Largest();
    var kept := Cut(c.ix, KEPT_DIRECTORIES);
    CutClosedUnderParents(FilesOf(stream), KEPT_DIRECTORIES);
    var tree := BuildForest(kept, c.ix);
    SnapshotTake(tree, LEVELS, PUBLISHED_ROOTS);
    ForestShowsFirst(FilesOf(stream));
    outcome := Complete(Report(c.scannedBytes, c.scannedFiles, c.errors, Take(tree, PUBLISHED_ROOTS), largestFiles));
  }

  // ---------------------------------------------------------------- what the progress shows

  lemma LastVisit(stream: seq<Visit>)
    requires stream != []
    ensures var before, after := FilesOf(stream[..|stream| - 1]), FilesOf(stream);
      if stream[|stream| - 1].Readable? then |after| == |before| + 1 && TotalBytes(before) <= TotalBytes(after)
      else after == before
  {
    var before, after := FilesOf(stream[..|stream| - 1]), FilesOf(stream);
    if stream[|stream| - 1].Readable? {
      assert after[..|after| - 1] == before;
    }
  }

  lemma FractionGrows(bytes: nat, more: nat, used: nat)
    requires used > 0 && bytes <= more
    ensures 0.0 <= FractionOf(bytes, used) <= FractionOf(more, used) <= 0.99
  {
    QuotientBounds(bytes as real, more as real, used as real);
  }

  ghost predicate Climbs(updates: seq<Progress>)
  {
    forall i, j :: 0 <= i < j < |updates| ==>
      && updates[i].fraction <= updates[j].fraction
      && updates[i].scannedBytes <= updates[j].scannedBytes
      && updates[i].scannedFiles < updates[j].scannedFiles
  }

  /** No update shows more than a point of the scan still to come. */
  ghost predicate Behind(updates: seq<Progress>, bytes: nat, files: nat, used: nat)
    requires used > 0
  {
    forall i :: 0 <= i < |updates| ==>
      && 0.0 <= updates[i].fraction <= FractionOf(bytes, used)
      && updates[i].scannedBytes <= bytes && updates[i].scannedFiles <= files
  }

  lemma ClimbsOn(updates: seq<Progress>, p: Progress, bytes: nat, files: nat, used: nat)
    requires used > 0 && Climbs(updates) && Behind(updates, bytes, files, used)
    requires p.fraction == FractionOf(p.scannedBytes, used) && p.scannedBytes >= bytes && p.scannedFiles > files
    ensures Climbs(updates + [p]) && Behind(updates + [p], p.scannedBytes, p.scannedFiles, used)
  {
    FractionGrows(bytes, p.scannedBytes, used);
    hide FractionOf;
  }

  lemma StaysBehind(updates: seq<Progress>, bytes: nat, files: nat, bytes': nat, files': nat, used: nat)
    requires used > 0 && Behind(updates, bytes, files, used) && bytes <= bytes' && files <= files'
    ensures Behind(updates, bytes', files', used)
  {
    FractionGrows(bytes, bytes', used);
    hide FractionOf;
  }

  /** The progress of a scan climbs from update to update and stays below one until the job is complete. */
  lemma {:induction false} ProgressClimbs(stream: seq<Visit>, used: nat)
    requires used > 0
    ensures Climbs(Updates(stream, used))
    ensures Behind(Updates(stream, used), TotalBytes(FilesOf(stream)), |FilesOf(stream)|, used)
    ensures forall i :: 0 <= i < |Updates(stream, used)| ==> Updates(stream, used)[i].fraction <= 0.99
  {
    var files := FilesOf(stream);
    FractionGrows(TotalBytes(files), TotalBytes(files), used);
    if stream != [] {
      var front, last := stream[..|stream| - 1], stream[|stream| - 1];
      var before := FilesOf(front);
      ProgressClimbs(front, used);
      LastVisit(stream);
      hide FilesOf, TotalBytes, FractionOf, Climbs, Behind;
      if last.Readable? && (|files| % FILES_PER_UPDATE == 0 || last.due) {
        var p := Progress(FractionOf(TotalBytes(files), used), TotalBytes(files), |files|);
        ClimbsOn(Updates(front, used), p, TotalBytes(before), |before|, used);
      } else {
        assert Updates(stream, used) == Updates(front, used);
        StaysBehind(Updates(front, used), TotalBytes(before), |before|, TotalBytes(files), |files|, used);
      }
    }
  }

  // ---------------------------------------------------------------- what the published forest means

  /** The forest a finished scan publishes, as a function of the files it read. */
  function PublishedForest(files: seq<File>): seq<Tree>
  {
    Take(ForestOf(Cut(IndexOf(files), KEPT_DIRECTORIES), IndexOf(files)), PUBLISHED_ROOTS)
  }

  /**
   Every published tree is sound, its root is a top-level directory, and its size is
   the bytes of all files beneath it.
   */
  lemma PublishedForestSound(files: seq<File>, i: nat)
    requires i < |PublishedForest(files)|
    ensures var t := PublishedForest(files)[i];
      Sound(t) && |t.path| == 1 && t.size == BytesBeneath(files, t.path) && HasFileBeneath(files, t.path)
  {
    hide Sound, ValidCut, Distinct, Ordered;
    var ix := IndexOf(files);
    var kept := Cut(ix, KEPT_DIRECTORIES);
    CutClosedUnderParents(files, KEPT_DIRECTORIES);
    CutDistinct(kept);
    RootsAreTopLevel(kept);
    var root := RootsOf(kept)[i];
    assert root in ChildrenOf(kept, []);
    GrowSound(kept, ix, root, LEVELS - 1, files);
    IndexAt(files, root);
    CutIndexed(files, KEPT_DIRECTORIES, root);
  }

  lemma CutDistinct(kept: seq<Path>)
    requires ValidCut(kept)
    ensures Distinct(kept)
  {
  }

  lemma CutIndexed(files: seq<File>, limit: nat, p: Path)
    requires p in Cut(IndexOf(files), limit)
    ensures p in IndexOf(files).sizes
  {
    IndexWellFormed(files);
    SameElements(IndexOf(files).order, Sort(IndexOf(files).order, BySize(IndexOf(files))));
  }

  function PublishedRoots(files: seq<File>): seq<Path>
  {
    Take(RootsOf(Cut(IndexOf(files), KEPT_DIRECTORIES)), PUBLISHED_ROOTS)
  }

  lemma PublishedRootAt(files: seq<File>, i: nat)
    ensures |PublishedForest(files)| == |PublishedRoots(files)|
    ensures i < |PublishedForest(files)| ==>
              && PublishedForest(files)[i].path == PublishedRoots(files)[i]
              && PublishedForest(files)[i].size == Get(IndexOf(files), PublishedRoots(files)[i])
  {
    hide Cut, RootsOf, IndexOf, GrowAll;
    GrowAllAt(Cut(IndexOf(files), KEPT_DIRECTORIES), IndexOf(files),
      RootsOf(Cut(IndexOf(files), KEPT_DIRECTORIES)), LEVELS - 1, i);
  }

  lemma GrowAllAt(kept: seq<Path>, ix: Index, ps: seq<Path>, n: nat, i: nat)
    ensures |GrowAll(kept, ix, ps, n)| == |ps|
    ensures i < |ps| ==> GrowAll(kept, ix, ps, n)[i].path == ps[i] && GrowAll(kept, ix, ps, n)[i].size == Get(ix, ps[i])
  {
  }

  lemma LeftOutRootIsSmaller(files: seq<File>, p: Path, q: Path)
    requires p in PublishedRoots(files) && q !in PublishedRoots(files)
    requires |q| == 1 && HasFileBeneath(files, q)
    ensures BytesBeneath(files, q) <= BytesBeneath(files, p)
  {
    hide ValidCut, Distinct, SizedBy, Ordered;
    var ix := IndexOf(files);
    var kept := Cut(ix, KEPT_DIRECTORIES);
    CutClosedUnderParents(files, KEPT_DIRECTORIES);
    RootsAreTopLevel(kept);
    var roots := ChildrenOf(kept, []);
    IndexAt(files, q);
    assert p in roots;
    CutIndexed(files, KEPT_DIRECTORIES, p);
    IndexAt(files, p);
    if q in kept {
      assert IsChildOf(q, []);
      ChildrenOrdered(kept, [], BySize(ix));
      TakenAhead(roots, PUBLISHED_ROOTS, p, q, BySize(ix));
    } else {
      CutKeepsLargest(files, KEPT_DIRECTORIES, p, q);
    }
  }

  /** No top-level directory left out of the published forest is larger than one that is in it. */
  lemma PublishedRootsAreLargest(files: seq<File>, i: nat, q: Path)
    requires i < |PublishedForest(files)|
    requires |q| == 1 && HasFileBeneath(files, q)
    requires forall j :: 0 <= j < |PublishedForest(files)| ==> PublishedForest(files)[j].path != q
    ensures BytesBeneath(files, q) <= PublishedForest(files)[i].size
  {
    hide PublishedForest, PublishedRoots;
    PublishedRootAt(files, i);
    if q in PublishedRoots(files) {
      var j :| 0 <= j < |PublishedRoots(files)| && PublishedRoots(files)[j] == q;
      PublishedRootAt(files, j);
    }
    LeftOutRootIsSmaller(files, PublishedRoots(files)[i], q);
    PublishedForestSound(files, i);
  }

  /** What the heap is offered for a file is its size and its path. */
  lemma OffersExactly(files: seq<File>, i: nat)
    requires i < |files|
    ensures |EntriesOf(files)| == |files| && EntriesOf(files)[i].size == files[i].size
            && EntriesOf(files)[i].text == files[i].text
  {
  }
}
