/**
 Stable sorting as Python's `sorted` promises it: the result is ordered, holds the same
 elements, and never exchanges two elements that the order does not separate.
 `before(a, b)` reads "a must come out strictly ahead of b".
 */
module Sorting {

  ghost predicate WeakOrder<T(!new)>(before: (T, T) -> bool)
  {
    && (forall a, b :: before(a, b) ==> !before(b, a))
    && (forall a, b, c :: before(a, b) && !before(c, b) ==> before(a, c))
  }

  ghost predicate Ordered<T>(s: seq<T>, before: (T, T) -> bool)
  {
    forall i, j :: 0 <= i < j < |s| ==> !before(s[j], s[i])
  }

  /** Some occurrence of a stands ahead of some occurrence of b. */
  ghost predicate Precedes<T(!new)>(s: seq<T>, a: T, b: T)
  {
    exists i, j :: 0 <= i < j < |s| && s[i] == a && s[j] == b
  }

  ghost predicate Distinct<T>(s: seq<T>)
  {
    forall i, j :: 0 <= i < j < |s| ==> s[i] != s[j]
  }

  function Insert<T>(x: T, s: seq<T>, before: (T, T) -> bool): (r: seq<T>)
    ensures multiset(r) == multiset(s) + multiset{x}
    ensures |r| == |s| + 1
  {
    if s == [] || !before(s[0], x) then
      [x] + s
    else
      assert s == [s[0]] + s[1..];
      [s[0]] + Insert(x, s[1..], before)
  }

  function Sort<T>(s: seq<T>, before: (T, T) -> bool): (r: seq<T>)
    ensures multiset(r) == multiset(s)
    ensures |r| == |s|
  {
    if s == [] then
      []
    else
      assert s == [s[0]] + s[1..];
      Insert(s[0], Sort(s[1..], before), before)
  }

  lemma InMultiset<T>(s: seq<T>, x: T)
    ensures x in s <==> x in multiset(s)
  {
  }

  lemma SameElements<T(!new)>(s: seq<T>, t: seq<T>)
    requires multiset(s) == multiset(t)
    ensures forall x :: x in s <==> x in t
  {
    forall x ensures x in s <==> x in t {
      InMultiset(s, x);
      InMultiset(t, x);
    }
  }

  lemma {:induction false} InsertOrdered<T(!new)>(x: T, s: seq<T>, before: (T, T) -> bool)
    requires WeakOrder(before)
    requires Ordered(s, before)
    ensures Ordered(Insert(x, s, before), before)
  {
    if s != [] && before(s[0], x) {
      var rest := Insert(x, s[1..], before);
      InsertOrdered(x, s[1..], before);
      forall y | y in rest ensures !before(y, s[0]) {
        InMultiset(rest, y);
        InMultiset(s[1..], y);
      }
    }
  }

  /** The result of Sort is ordered. */
  lemma {:induction false} SortOrdered<T(!new)>(s: seq<T>, before: (T, T) -> bool)
    requires WeakOrder(before)
    ensures Ordered(Sort(s, before), before)
  {
    if s != [] {
      SortOrdered(s[1..], before);
      InsertOrdered(s[0], Sort(s[1..], before), before);
    }
  }

  lemma {:induction false} InsertKeepsOrder<T(!new)>(x: T, s: seq<T>, before: (T, T) -> bool, a: T, b: T)
    requires Precedes(s, a, b)
    ensures Precedes(Insert(x, s, before), a, b)
  {
    var i, j :| 0 <= i < j < |s| && s[i] == a && s[j] == b;
    var r := Insert(x, s, before);
    if s == [] || !before(s[0], x) {
      assert r[i + 1] == a && r[j + 1] == b;
    } else if i == 0 {
      InsertKeepsElement(x, s[1..], before, b, j - 1);
      var k :| 0 <= k < |Insert(x, s[1..], before)| && Insert(x, s[1..], before)[k] == b;
      assert r[0] == a && r[k + 1] == b;
    } else {
      assert s[1..][i - 1] == a && s[1..][j - 1] == b;
      InsertKeepsOrder(x, s[1..], before, a, b);
      var p, q :| 0 <= p < q < |Insert(x, s[1..], before)|
        && Insert(x, s[1..], before)[p] == a && Insert(x, s[1..], before)[q] == b;
      assert r[p + 1] == a && r[q + 1] == b;
    }
  }

  lemma InsertKeepsElement<T>(x: T, s: seq<T>, before: (T, T) -> bool, b: T, j: nat)
    requires j < |s| && s[j] == b
    ensures b in Insert(x, s, before)
  {
    InMultiset(s, b);
    InMultiset(Insert(x, s, before), b);
  }

  lemma {:induction false} InsertGoesAhead<T(!new)>(x: T, s: seq<T>, before: (T, T) -> bool, b: T)
    requires WeakOrder(before)
    requires Ordered(s, before)
    requires b in s && !before(b, x)
    ensures Precedes(Insert(x, s, before), x, b)
  {
    var r := Insert(x, s, before);
    var j :| 0 <= j < |s| && s[j] == b;
    if !before(s[0], x) {
      assert r[0] == x && r[j + 1] == b;
    } else {
      assert j != 0;
      assert b == s[1..][j - 1];
      InsertGoesAhead(x, s[1..], before, b);
      var p, q :| 0 <= p < q < |Insert(x, s[1..], before)|
        && Insert(x, s[1..], before)[p] == x && Insert(x, s[1..], before)[q] == b;
      assert r[p + 1] == x && r[q + 1] == b;
    }
  }

  /** Stability: a pair that is not out of order keeps its relative position. */
  lemma {:induction false} SortStable<T(!new)>(s: seq<T>, before: (T, T) -> bool, i: nat, j: nat)
    requires WeakOrder(before)
    requires i < j < |s| && !before(s[j], s[i])
    ensures Precedes(Sort(s, before), s[i], s[j])
  {
    var rest := Sort(s[1..], before);
    if i == 0 {
      SortOrdered(s[1..], before);
      InMultiset(s[1..], s[j]);
      assert s[1..][j - 1] == s[j];
      InMultiset(rest, s[j]);
      InsertGoesAhead(s[0], rest, before, s[j]);
    } else {
      SortStable(s[1..], before, i - 1, j - 1);
      InsertKeepsOrder(s[0], rest, before, s[i], s[j]);
    }
  }

  /** Neither comes out strictly ahead of the other. */
  predicate Tied<T>(a: T, b: T, before: (T, T) -> bool)
  {
    !before(a, b) && !before(b, a)
  }

  /** The elements of s tied with p, as they stand. */
  function TiedWith<T>(s: seq<T>, p: T, before: (T, T) -> bool): seq<T>
  {
    if s == [] then []
    else (if Tied(s[0], p, before) then [s[0]] else []) + TiedWith(s[1..], p, before)
  }

  lemma {:induction false} InsertKeepsTies<T(!new)>(x: T, s: seq<T>, before: (T, T) -> bool, p: T)
    requires WeakOrder(before)
    ensures TiedWith(Insert(x, s, before), p, before) == TiedWith([x] + s, p, before)
  {
    assert ([x] + s)[1..] == s;
    if s != [] && before(s[0], x) {
      InsertKeepsTies(x, s[1..], before, p);
      assert ([x] + s[1..])[1..] == s[1..];
      assert Insert(x, s, before)[1..] == Insert(x, s[1..], before);
      assert !(Tied(x, p, before) && Tied(s[0], p, before));
    }
  }

  /**
   Stability, repeats included: of every group of tied elements the sort keeps all, in their order. With
   the order of the result this leaves nothing open.
   */
  lemma {:induction false} SortKeepsTies<T(!new)>(s: seq<T>, before: (T, T) -> bool, p: T)
    requires WeakOrder(before)
    ensures TiedWith(Sort(s, before), p, before) == TiedWith(s, p, before)
  {
    if s != [] {
      var rest := Sort(s[1..], before);
      SortKeepsTies(s[1..], before, p);
      InsertKeepsTies(s[0], rest, before, p);
      assert ([s[0]] + rest)[1..] == rest;
    }
  }

  /** Stability by position, for distinct elements: what stood ahead and is not smaller stays ahead. */
  lemma SortKeepsAhead<T(!new)>(s: seq<T>, before: (T, T) -> bool, i: nat, j: nat, k: nat)
    requires WeakOrder(before) && Distinct(s)
    requires i < j < |s| && !before(s[j], s[i])
    requires k < |s| && Sort(s, before)[k] == s[j]
    ensures s[i] in Sort(s, before)[..k]
  {
    var r := Sort(s, before);
    SortStable(s, before, i, j);
    DistinctTransfers(s, r);
    var p, q :| 0 <= p < q < |r| && r[p] == s[i] && r[q] == s[j];
    assert q == k;
    assert r[..k][p] == s[i];
  }

  /** Sorting what is already in order changes nothing. */
  lemma {:induction false} SortOfOrdered<T>(s: seq<T>, before: (T, T) -> bool)
    requires Ordered(s, before)
    ensures Sort(s, before) == s
  {
    if s != [] {
      SortOfOrdered(s[1..], before);
      assert s == [s[0]] + s[1..];
      if |s| > 1 {
        assert s[1..][0] == s[1];
      }
    }
  }

  lemma DistinctByCount<T(!new)>(s: seq<T>)
    ensures Distinct(s) <==> forall x :: multiset(s)[x] <= 1
  {
    if Distinct(s) {
      forall x ensures multiset(s)[x] <= 1 {
        CountOfDistinct(s, x);
      }
    }
    if forall x :: multiset(s)[x] <= 1 {
      forall i, j | 0 <= i < j < |s| ensures s[i] != s[j] {
        if s[i] == s[j] {
          CountOfRepeated(s, i, j);
        }
      }
    }
  }

  lemma CountOfRepeated<T>(s: seq<T>, i: nat, j: nat)
    requires i < j < |s| && s[i] == s[j]
    ensures multiset(s)[s[i]] >= 2
  {
    assert s == s[..j] + s[j..];
    assert s[..j][i] == s[j..][0] == s[i];
    InMultiset(s[..j], s[i]);
    InMultiset(s[j..], s[i]);
  }

  lemma {:induction false} CountOfDistinct<T>(s: seq<T>, x: T)
    requires Distinct(s)
    ensures multiset(s)[x] == if x in s then 1 else 0
  {
    if s != [] {
      assert s == [s[0]] + s[1..];
      CountOfDistinct(s[1..], x);
      if x == s[0] {
        InMultiset(s[1..], x);
      }
    }
  }

  lemma DistinctTransfers<T(!new)>(s: seq<T>, t: seq<T>)
    requires Distinct(s) && multiset(s) == multiset(t)
    ensures Distinct(t)
  {
    DistinctByCount(s);
    DistinctByCount(t);
  }

  /** Two ordered arrangements of the same elements agree, when incomparable elements are equal. */
  lemma {:induction false} OrderedUnique<T(!new)>(s: seq<T>, t: seq<T>, before: (T, T) -> bool)
    requires forall a, b :: !before(a, b) && !before(b, a) ==> a == b
    requires Ordered(s, before) && Ordered(t, before)
    requires multiset(s) == multiset(t)
    ensures s == t
  {
    hide Ordered;
    assert |t| == |multiset(t)| == |multiset(s)| == |s|;
    if s != [] {
      OrderedTail(s, before);
      OrderedTail(t, before);
      FirstIsLeast(s, t, before);
      FirstIsLeast(t, s, before);
      TailMultiset(s);
      TailMultiset(t);
      OrderedUnique(s[1..], t[1..], before);
    }
  }

  lemma TailMultiset<T>(s: seq<T>)
    requires s != []
    ensures multiset(s[1..]) == multiset(s) - multiset{s[0]}
  {
    assert s == [s[0]] + s[1..];
  }

  lemma OrderedTail<T>(s: seq<T>, before: (T, T) -> bool)
    requires Ordered(s, before) && s != []
    ensures Ordered(s[1..], before)
  {
  }

  lemma FirstIsLeast<T(!new)>(s: seq<T>, t: seq<T>, before: (T, T) -> bool)
    requires s != [] && t != []
    requires Ordered(t, before)
    requires multiset(s) == multiset(t)
    ensures s[0] == t[0] || !before(s[0], t[0])
  {
    InMultiset(t, s[0]);
    InMultiset(s, s[0]);
  }
}
