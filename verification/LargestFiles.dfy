/**
 The 100 largest files of a scan: a binary min-heap of (size, path) pairs in an array.
 The scan offers every file once; a file enters while there is room, or when its size
 exceeds the size at the root, which it then replaces.
 */
module LargestFiles {
  import opened Options
  import opened Sorting
  import opened Texts

  const CAPACITY := 100
  const PUBLISHED := 50

  datatype Entry = Entry(size: nat, text: string)

  // ---------------------------------------------------------------- Python's order on (size, path) tuples

  predicate Less(x: Entry, y: Entry)
  {
    x.size < y.size || (x.size == y.size && TextLess(x.text, y.text))
  }

  predicate Greater(x: Entry, y: Entry)
  {
    Less(y, x)
  }

  lemma LessOrder(x: Entry, y: Entry, z: Entry)
    ensures Less(x, y) ==> !Less(y, x)
    ensures Less(x, y) || Less(y, x) || x == y
    ensures !Less(y, x) && !Less(z, y) ==> !Less(z, x)
  {
    TextOrder(x.text, y.text);
    TextOrder(y.text, z.text);
    TextOrder(x.text, z.text);
    if x != y && y != z && TextLess(x.text, y.text) && TextLess(y.text, z.text) {
      TextTransitive(x.text, y.text, z.text);
    }
  }

  lemma GreaterIsOrder()
    ensures WeakOrder(Greater)
    ensures forall x, y :: !Greater(x, y) && !Greater(y, x) ==> x == y
  {
    forall x, y, z
      ensures Greater(x, y) ==> !Greater(y, x)
      ensures Greater(x, y) && !Greater(z, y) ==> Greater(x, z)
      ensures !Greater(x, y) && !Greater(y, x) ==> x == y
    {
      LessOrder(x, y, z);
      LessOrder(z, y, x);
      LessOrder(x, z, y);
    }
  }

  // ---------------------------------------------------------------- heap shape, on sequences

  function Up(j: nat): nat
  {
    if j == 0 then 0 else (j - 1) / 2
  }

  predicate InPlace(s: seq<Entry>, j: nat)
    requires j < |s|
  {
    !Less(s[j], s[Up(j)])
  }

  predicate ClearsGrandparent(s: seq<Entry>, j: nat)
    requires j < |s|
  {
    !Less(s[j], s[Up(Up(j))])
  }

  /** No entry is less than the one above it. */
  ghost predicate HeapShaped(s: seq<Entry>)
  {
    forall j :: 0 < j < |s| ==> InPlace(s, j)
  }

  /** Heap shape, except that the entry at i may be too small for its place. */
  ghost predicate HeapButUp(s: seq<Entry>, i: nat)
  {
    && (forall j :: 0 < j < |s| && j != i ==> InPlace(s, j))
    && (forall j :: 0 < j < |s| && 0 < i && Up(j) == i ==> ClearsGrandparent(s, j))
  }

  /** Heap shape, except that the entry at i may be too large for its place. */
  ghost predicate HeapButDown(s: seq<Entry>, i: nat)
  {
    && (forall j :: 0 < j < |s| && Up(j) != i ==> InPlace(s, j))
    && (forall j :: 0 < j < |s| && 0 < i && Up(j) == i ==> ClearsGrandparent(s, j))
  }

  function Swap(s: seq<Entry>, i: nat, j: nat): (r: seq<Entry>)
    requires i < |s| && j < |s|
    ensures |r| == |s|
  {
    s[i := s[j]][j := s[i]]
  }

  ghost predicate Permuted(s: seq<Entry>, t: seq<Entry>)
  {
    multiset(s) == multiset(t)
  }

  lemma PermutedRefl(s: seq<Entry>)
    ensures Permuted(s, s)
  {
  }

  lemma SwapPermutes(s: seq<Entry>, i: nat, j: nat, t: seq<Entry>)
    requires i < |s| && j < |s| && Permuted(s, t)
    ensures Permuted(Swap(s, i, j), t)
  {
  }

  /** In a heap the root is least. */
  lemma {:induction false} RootIsLeast(s: seq<Entry>, j: nat)
    requires HeapShaped(s) && j < |s|
    ensures !Less(s[j], s[0])
  {
    hide Less;
    if j == 0 {
      LessOrder(s[0], s[0], s[0]);
    } else {
      RootIsLeast(s, Up(j));
      assert InPlace(s, j);
      LessOrder(s[0], s[Up(j)], s[j]);
    }
  }

  lemma SwapUp(s: seq<Entry>, i: nat)
    requires 0 < i < |s| && HeapButUp(s, i)
    requires !InPlace(s, i)
    ensures HeapButUp(Swap(s, i, Up(i)), Up(i))
  {
    hide Less;
    var p := Up(i);
    var r := Swap(s, i, p);
    forall j | 0 < j < |s| && j != p ensures InPlace(r, j) {
      LessOrder(s[i], s[p], s[j]);
      assert j != i ==> InPlace(s, j);
      assert Up(j) == i ==> ClearsGrandparent(s, j);
    }
    forall j | 0 < j < |s| && 0 < p && Up(j) == p ensures ClearsGrandparent(r, j) {
      assert InPlace(s, p);
      assert j != i ==> InPlace(s, j);
      LessOrder(s[Up(p)], s[p], s[j]);
    }
  }

  lemma SwapDown(s: seq<Entry>, i: nat, c: nat)
    requires 0 < c < |s| && Up(c) == i && HeapButDown(s, i)
    requires forall j :: 0 < j < |s| && Up(j) == i ==> !Less(s[j], s[c])
    requires !InPlace(s, c)
    ensures HeapButDown(Swap(s, i, c), c)
  {
    hide Less;
    var r := Swap(s, i, c);
    forall j | 0 < j < |s| && Up(j) != c ensures InPlace(r, j) {
      LessOrder(s[c], s[i], s[j]);
      if j == i {
        assert ClearsGrandparent(s, c);
      } else if Up(j) != i {
        assert InPlace(s, j);
      }
    }
    forall j | 0 < j < |s| && Up(j) == c ensures ClearsGrandparent(r, j) {
      assert InPlace(s, j);
    }
  }

  lemma SmallerChild(s: seq<Entry>, i: nat, c: nat)
    requires 0 < c < |s| && (c == 2 * i + 1 || c == 2 * i + 2)
    requires c == 2 * i + 1 && 2 * i + 2 < |s| ==> !Less(s[2 * i + 2], s[c])
    requires c == 2 * i + 2 ==> Less(s[c], s[2 * i + 1])
    ensures Up(c) == i
    ensures forall j :: 0 < j < |s| && Up(j) == i ==> !Less(s[j], s[c])
  {
    hide Less;
    forall j | 0 < j < |s| && Up(j) == i ensures !Less(s[j], s[c]) {
      assert j == 2 * i + 1 || j == 2 * i + 2;
      LessOrder(s[c], s[j], s[c]);
    }
  }

  lemma DownInPlace(s: seq<Entry>, i: nat, c: nat)
    requires 0 < c < |s| && Up(c) == i && HeapButDown(s, i)
    requires forall j :: 0 < j < |s| && Up(j) == i ==> !Less(s[j], s[c])
    requires InPlace(s, c)
    ensures HeapShaped(s)
  {
    hide Less;
    forall j | 0 < j < |s| ensures InPlace(s, j) {
      LessOrder(s[i], s[c], s[j]);
    }
  }

  lemma AppendReady(s: seq<Entry>, e: Entry)
    requires HeapShaped(s)
    ensures HeapButUp(s + [e], |s|)
  {
    forall j | 0 < j < |s| ensures InPlace(s + [e], j) {
      assert InPlace(s, j);
    }
  }

  lemma RootReady(s: seq<Entry>, e: Entry)
    requires s != [] && HeapShaped(s)
    ensures HeapButDown(s[0 := e], 0)
  {
    forall j | 0 < j < |s| && Up(j) != 0 ensures InPlace(s[0 := e], j) {
      assert InPlace(s, j);
    }
  }

  // ---------------------------------------------------------------- what the heap means

  /** Everything kept is at least as large as everything passed over, and nothing is passed over while there is room. */
  ghost predicate Accounts(kept: seq<Entry>, dropped: multiset<Entry>, scanned: multiset<Entry>)
  {
    && multiset(kept) + dropped == scanned
    && |kept| <= CAPACITY
    && (dropped != multiset{} ==> |kept| == CAPACITY)
    && (forall x, d :: x in kept && d in dropped ==> d.size <= x.size)
  }

  class Heap {
    const slots: array<Entry>
    var count: nat
    ghost var scanned: multiset<Entry>
    ghost var dropped: multiset<Entry>

    ghost predicate Valid()
      reads this, slots
    {
      && slots.Length == CAPACITY
      && count <= CAPACITY
      && HeapShaped(slots[..count])
      && Accounts(slots[..count], dropped, scanned)
    }

    constructor ()
      ensures Valid() && fresh(slots)
      ensures scanned == multiset{} && count == 0
    {
      slots := new Entry[CAPACITY](_ => Entry(0, ""));
      count := 0;
      scanned, dropped := multiset{}, multiset{};
    }

    /** Moves the entry at the end up to its place. */
    method SiftUp()
      requires slots.Length == CAPACITY && 0 < count <= CAPACITY
      requires HeapButUp(slots[..count], count - 1)
      modifies slots
      ensures HeapShaped(slots[..count])
      ensures Permuted(slots[..count], old(slots[..count]))
    {
      hide Less, HeapButUp, HeapShaped, Permuted;
      ghost var before := slots[..count];
      assert Permuted(before, before) by { PermutedRefl(before); }
      var i: nat := count - 1;
      while i > 0 && Less(slots[i], slots[(i - 1) / 2])
        invariant i < count
        invariant HeapButUp(slots[..count], i)
        invariant Permuted(slots[..count], before)
      {
        SwapUp(slots[..count], i);
        SwapPermutes(slots[..count], i, Up(i), before);
        ghost var next := Swap(slots[..count], i, Up(i));
        slots[i], slots[(i - 1) / 2] := slots[(i - 1) / 2], slots[i];
        assert slots[..count] == next;
        i := (i - 1) / 2;
      }
      UpInPlace(slots[..count], i);
    }

    /** Moves the entry at the root down to its place. */
    method SiftDown()
      requires slots.Length == CAPACITY && 0 < count <= CAPACITY
      requires HeapButDown(slots[..count], 0)
      modifies slots
      ensures HeapShaped(slots[..count])
      ensures Permuted(slots[..count], old(slots[..count]))
    {
      hide Less, HeapButDown, HeapShaped, Permuted;
      ghost var before := slots[..count];
      assert Permuted(before, before) by { PermutedRefl(before); }
      var i: nat := 0;
      while 2 * i + 1 < count
        invariant i < count
        invariant HeapButDown(slots[..count], i)
        invariant Permuted(slots[..count], before)
        decreases count - i
      {
        var c := 2 * i + 1;
        if c + 1 < count && Less(slots[c + 1], slots[c]) {
          c := c + 1;
        }
        SmallerChild(slots[..count], i, c);
        if !Less(slots[c], slots[i]) {
          DownInPlace(slots[..count], i, c);
          return;
        }
        SwapDown(slots[..count], i, c);
        SwapPermutes(slots[..count], i, c, before);
        ghost var next := Swap(slots[..count], i, c);
        slots[i], slots[c] := slots[c], slots[i];
        assert slots[..count] == next;
        i := c;
      }
      LeafInPlace(slots[..count], i);
    }

    /** `heappush` */
    method Push(e: Entry)
      requires slots.Length == CAPACITY && count < CAPACITY && HeapShaped(slots[..count])
      modifies this`count, slots
      ensures count == old(count) + 1 && HeapShaped(slots[..count])
      ensures Permuted(slots[..count], old(slots[..count]) + [e])
    {
      hide Less, HeapShaped, HeapButUp, Permuted;
      ghost var before := slots[..count];
      slots[count] := e;
      count := count + 1;
      assert slots[..count] == before + [e];
      AppendReady(before, e);
      SiftUp();
    }

    /** `heapreplace` */
    method Replace(e: Entry)
      requires slots.Length == CAPACITY && 0 < count <= CAPACITY && HeapShaped(slots[..count])
      modifies slots
      ensures HeapShaped(slots[..count])
      ensures Permuted(slots[..count], old(slots[..count])[0 := e])
    {
      hide Less, HeapShaped, HeapButDown, Permuted;
      ghost var before := slots[..count];
      slots[0] := e;
      assert slots[..count] == before[0 := e];
      RootReady(before, e);
      SiftDown();
    }

    /** One file of the scan. */
    method Offer(e: Entry)
      requires Valid()
      modifies this`count, this`scanned, this`dropped, slots
      ensures Valid()
      ensures scanned == old(scanned) + multiset{e}
      ensures count == if old(count) < 100 then old(count) + 1 else 100
    {
      hide Less, HeapShaped, Accounts, Permuted;
      ghost var before := slots[..count];
      if count < CAPACITY {
        Push(e);
        Admitted(before, e, slots[..count], dropped, scanned);
      } else if e.size > slots[0].size {
        Replace(e);
        Replaced(before, e, slots[..count], dropped, scanned);
        dropped := dropped + multiset{before[0]};
      } else {
        Declined(before, e, dropped, scanned);
        dropped := dropped + multiset{e};
      }
      scanned := scanned + multiset{e};
    }

    /** The published list: the kept files in descending order, cut to 50. */
    method Largest() returns (r: seq<Entry>)
      requires Valid()
      ensures |r| == if |scanned| < 50 then |scanned| else 50
      ensures multiset(r) <= scanned
      ensures forall all: seq<Entry> :: multiset(all) == scanned ==> SizesOf(r) == SizesOf(TopBySize(all))
      ensures ListsLargest(r, scanned)
    {
      var ordered := Sort(slots[..count], Greater);
      r := Take(ordered, PUBLISHED);
      PublishedCount(slots[..count], dropped, scanned);
      assert multiset(r) <= multiset(ordered) by {
        assert ordered == r + ordered[|r|..];
      }
      forall all: seq<Entry> | multiset(all) == scanned ensures SizesOf(r) == SizesOf(TopBySize(all)) {
        PublishedAreLargest(slots[..count], dropped, all);
      }
      FirstOfKept(slots[..count], dropped, scanned);
    }
  }

  lemma UpInPlace(s: seq<Entry>, i: nat)
    requires i < |s| && HeapButUp(s, i) && (i == 0 || InPlace(s, i))
    ensures HeapShaped(s)
  {
    forall j | 0 < j < |s| ensures InPlace(s, j) {
    }
  }

  lemma LeafInPlace(s: seq<Entry>, i: nat)
    requires HeapButDown(s, i) && 2 * i + 1 >= |s|
    ensures HeapShaped(s)
  {
    forall j | 0 < j < |s| ensures InPlace(s, j) {
    }
  }

  // ---------------------------------------------------------------- the three ways an offer can go

  lemma Admitted(kept: seq<Entry>, e: Entry, after: seq<Entry>, dropped: multiset<Entry>, scanned: multiset<Entry>)
    requires Accounts(kept, dropped, scanned) && |kept| < CAPACITY
    requires Permuted(after, kept + [e])
    ensures Accounts(after, dropped, scanned + multiset{e})
  {
    assert |after| == |multiset(after)| == |multiset(kept + [e])| == |kept| + 1;
  }

  lemma Replaced(kept: seq<Entry>, e: Entry, after: seq<Entry>, dropped: multiset<Entry>, scanned: multiset<Entry>)
    requires Accounts(kept, dropped, scanned) && |kept| == CAPACITY && HeapShaped(kept)
    requires e.size > kept[0].size
    requires Permuted(after, kept[0 := e])
    ensures Accounts(after, dropped + multiset{kept[0]}, scanned + multiset{e})
  {
    assert |after| == |multiset(after)| == |multiset(kept[0 := e])| == |kept|;
    SameElements(after, kept[0 := e]);
    forall x, d | x in after && d in dropped + multiset{kept[0]} ensures d.size <= x.size {
      var j :| 0 <= j < |kept| && kept[0 := e][j] == x;
      RootIsLeast(kept, j);
      assert kept[0] in kept && kept[j] in kept;
    }
  }

  lemma Declined(kept: seq<Entry>, e: Entry, dropped: multiset<Entry>, scanned: multiset<Entry>)
    requires Accounts(kept, dropped, scanned) && |kept| == CAPACITY && HeapShaped(kept)
    requires e.size <= kept[0].size
    ensures Accounts(kept, dropped + multiset{e}, scanned + multiset{e})
  {
    forall x, d | x in kept && d in dropped + multiset{e} ensures d.size <= x.size {
      var j :| 0 <= j < |kept| && kept[j] == x;
      RootIsLeast(kept, j);
    }
  }

  // ---------------------------------------------------------------- the published list

  function SizesOf(s: seq<Entry>): seq<nat>
  {
    seq(|s|, i requires 0 <= i < |s| => s[i].size)
  }

  /** The first 50 of the full descending sort. */
  function TopBySize(all: seq<Entry>): seq<Entry>
  {
    Take(Sort(all, Greater), PUBLISHED)
  }

  /** Fifty of the scanned files or all of them, in descending order, and none left out is larger than one listed. */
  ghost predicate ListsLargest(listed: seq<Entry>, scanned: multiset<Entry>)
  {
    && |listed| == (if |scanned| < 50 then |scanned| else 50)
    && multiset(listed) <= scanned
    && (forall i, j :: 0 <= i < j < |listed| ==> !Less(listed[i], listed[j]))
    && (forall x, d :: x in listed && d in scanned - multiset(listed) ==> d.size <= x.size)
  }

  lemma FirstOfKept(kept: seq<Entry>, dropped: multiset<Entry>, scanned: multiset<Entry>)
    requires Accounts(kept, dropped, scanned)
    ensures ListsLargest(Take(Sort(kept, Greater), PUBLISHED), scanned)
  {
    var ordered := Sort(kept, Greater);
    GreaterIsOrder();
    SortOrdered(kept, Greater);
    SameElements(kept, ordered);
    KeptCount(kept, dropped, scanned);
    DroppedAreSmall(kept, ordered, dropped, scanned);
    hide Sort, WeakOrder, Accounts, Less, Ordered;
    ListedFirst(ordered, dropped, scanned);
  }

  lemma KeptCount(kept: seq<Entry>, dropped: multiset<Entry>, scanned: multiset<Entry>)
    requires Accounts(kept, dropped, scanned)
    ensures multiset(kept) + dropped == scanned && |scanned| == |kept| + |dropped|
    ensures |kept| < 50 ==> dropped == multiset{}
  {
    hide HeapShaped;
    assert |multiset(kept)| == |kept|;
  }

  lemma DroppedAreSmall(kept: seq<Entry>, ordered: seq<Entry>, dropped: multiset<Entry>, scanned: multiset<Entry>)
    requires Accounts(kept, dropped, scanned) && forall x :: x in kept <==> x in ordered
    ensures forall x, d :: x in ordered && d in dropped ==> d.size <= x.size
  {
  }

  /** The first fifty of what is kept in descending order, when all that was dropped is smaller. */
  lemma ListedFirst(ordered: seq<Entry>, dropped: multiset<Entry>, scanned: multiset<Entry>)
    requires multiset(ordered) + dropped == scanned && |scanned| == |ordered| + |dropped|
    requires |ordered| < 50 ==> dropped == multiset{}
    requires Ordered(ordered, Greater)
    requires forall x, d :: x in ordered && d in dropped ==> d.size <= x.size
    ensures ListsLargest(Take(ordered, PUBLISHED), scanned)
  {
    var listed := Take(ordered, PUBLISHED);
    var rest := ordered[|listed|..];
    assert ordered == listed + rest;
    FirstOfOrdered(ordered, listed, rest);
    hide Less, Ordered;
    assert scanned - multiset(listed) == multiset(rest) + dropped;
    forall x, d | x in listed && d in multiset(rest) + dropped ensures d.size <= x.size {
      assert x in ordered;
    }
  }

  lemma FirstOfOrdered(ordered: seq<Entry>, listed: seq<Entry>, rest: seq<Entry>)
    requires ordered == listed + rest && Ordered(ordered, Greater)
    ensures forall i, j :: 0 <= i < j < |listed| ==> !Less(listed[i], listed[j])
    ensures forall x, d :: x in listed && d in rest ==> d.size <= x.size
  {
    forall i, j | 0 <= i < j < |ordered| ensures !Less(ordered[i], ordered[j]) {
      assert !Greater(ordered[j], ordered[i]);
    }
    forall x, d | x in listed && d in rest ensures d.size <= x.size {
      var i :| 0 <= i < |listed| && listed[i] == x;
      var j :| 0 <= j < |rest| && rest[j] == d;
      assert ordered[i] == x && ordered[|listed| + j] == d;
      assert !Less(ordered[i], ordered[|listed| + j]);
    }
    assert forall i :: 0 <= i < |listed| ==> listed[i] == ordered[i];
  }

  lemma PublishedCount(kept: seq<Entry>, dropped: multiset<Entry>, scanned: multiset<Entry>)
    requires Accounts(kept, dropped, scanned)
    ensures |scanned| == |kept| + |dropped|
    ensures |kept| < CAPACITY ==> |scanned| == |kept|
  {
  }

  lemma SequenceOf(m: multiset<Entry>) returns (s: seq<Entry>)
    ensures multiset(s) == m
  {
    if m == multiset{} {
      s := [];
    } else {
      var x :| x in m;
      var rest := SequenceOf(m - multiset{x});
      s := rest + [x];
    }
  }

  ghost predicate SizesDescend(s: seq<Entry>)
  {
    forall i, j :: 0 <= i < j < |s| ==> s[i].size >= s[j].size
  }

  lemma SortedDescends(s: seq<Entry>)
    ensures SizesDescend(Sort(s, Greater))
  {
    GreaterIsOrder();
    SortOrdered(s, Greater);
  }

  lemma SizesAppend(a: seq<Entry>, b: seq<Entry>)
    ensures SizesOf(a + b) == SizesOf(a) + SizesOf(b)
  {
  }

  lemma {:induction false} SizesMultiset(s: seq<Entry>, t: seq<Entry>)
    requires Permuted(s, t)
    ensures multiset(SizesOf(s)) == multiset(SizesOf(t))
    decreases |s|, 0
  {
    assert |s| == |multiset(s)| == |multiset(t)| == |t|;
    if s != [] {
      SameElements(s, t);
      assert s[0] in t;
      var k :| 0 <= k < |t| && t[k] == s[0];
      SizesMultisetStep(s[0], s[1..], t[..k], t[k + 1..], s, t);
    }
  }

  lemma {:induction false} SizesMultisetStep(
      x: Entry, rest: seq<Entry>, pre: seq<Entry>, post: seq<Entry>, s: seq<Entry>, t: seq<Entry>)
    requires s == [x] + rest && t == pre + [x] + post && Permuted(s, t)
    ensures multiset(SizesOf(s)) == multiset(SizesOf(t))
    decreases |rest|, 1
  {
    assert multiset(rest) == multiset(s) - multiset{x};
    assert multiset(pre + post) == multiset(t) - multiset{x};
    SizesMultiset(rest, pre + post);
    SizesAppend([x], rest);
    SizesAppend(pre, post);
    SizesAppend(pre + [x], post);
    SizesAppend(pre, [x]);
  }

  predicate More(a: nat, b: nat)
  {
    a > b
  }

  /** Two arrangements of the same entries by descending size show the same sizes. */
  lemma DescendingSizesUnique(s: seq<Entry>, t: seq<Entry>)
    requires SizesDescend(s) && SizesDescend(t) && Permuted(s, t)
    ensures SizesOf(s) == SizesOf(t)
  {
    hide Permuted;
    SizesMultiset(s, t);
    assert Ordered(SizesOf(s), More) && Ordered(SizesOf(t), More);
    OrderedUnique(SizesOf(s), SizesOf(t), More);
  }

  lemma JoinedDescends(kept: seq<Entry>, rest: seq<Entry>)
    requires forall x, d :: x in kept && d in rest ==> d.size <= x.size
    ensures SizesDescend(Sort(kept, Greater) + Sort(rest, Greater))
  {
    hide Sort, SizesDescend;
    var a, b := Sort(kept, Greater), Sort(rest, Greater);
    SortedDescends(kept);
    SortedDescends(rest);
    SameElements(a, kept);
    SameElements(b, rest);
    ConcatDescends(a, b);
  }

  lemma ConcatDescends(a: seq<Entry>, b: seq<Entry>)
    requires SizesDescend(a) && SizesDescend(b)
    requires forall x, d :: x in a && d in b ==> d.size <= x.size
    ensures SizesDescend(a + b)
  {
    var c := a + b;
    forall i, j | 0 <= i < j < |c| ensures c[i].size >= c[j].size {
      if i < |a| <= j {
        assert c[i] in a && c[j] in b;
      }
    }
  }

  /** The published sizes are the first 50 of the full descending sort of everything scanned. */
  lemma PublishedAreLargest(kept: seq<Entry>, dropped: multiset<Entry>, all: seq<Entry>)
    requires Accounts(kept, dropped, multiset(all))
    ensures SizesOf(TopBySize(kept)) == SizesOf(TopBySize(all))
  {
    hide SizesDescend, SizesOf, Permuted, Accounts;
    var rest := SequenceOf(dropped);
    var a, b := Sort(kept, Greater), Sort(rest, Greater);
    AccountsFor(kept, rest, all);
    JoinedDescends(kept, rest);
    SortedDescends(all);
    JoinPermutes(a, b, Sort(all, Greater));
    DescendingSizesUnique(a + b, Sort(all, Greater));
    SameFirstSizes(a + b, Sort(all, Greater));
    FirstOfJoined(a, b);
  }

  lemma AccountsFor(kept: seq<Entry>, rest: seq<Entry>, all: seq<Entry>)
    requires Accounts(kept, multiset(rest), multiset(all))
    ensures multiset(kept) + multiset(rest) == multiset(all)
    ensures forall x, d :: x in kept && d in rest ==> d.size <= x.size
    ensures |kept| >= PUBLISHED || rest == []
  {
    assert |rest| == |multiset(rest)|;
  }

  lemma FirstOfJoined(a: seq<Entry>, b: seq<Entry>)
    requires |a| >= PUBLISHED || b == []
    ensures Take(a + b, PUBLISHED) == Take(a, PUBLISHED)
  {
  }

  lemma JoinPermutes(a: seq<Entry>, b: seq<Entry>, c: seq<Entry>)
    requires multiset(a) + multiset(b) == multiset(c)
    ensures Permuted(a + b, c)
  {
  }

  lemma SameFirstSizes(s: seq<Entry>, t: seq<Entry>)
    requires SizesOf(s) == SizesOf(t)
    ensures SizesOf(Take(s, PUBLISHED)) == SizesOf(Take(t, PUBLISHED))
  {
    assert |SizesOf(s)| == |s| && |SizesOf(t)| == |t|;
    if |s| > PUBLISHED {
      assert SizesOf(s[..PUBLISHED]) == SizesOf(s)[..PUBLISHED];
      assert SizesOf(t[..PUBLISHED]) == SizesOf(t)[..PUBLISHED];
    }
  }
}
