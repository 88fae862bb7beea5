/**
 Telemetry history: the width of a time bucket, and the grouped, ordered and limited query over it.
 Time stamps are whole seconds; a column value may be null.
 */
module HistoryQuery {
  import opened Arithmetic
  import opened Options

  datatype Row = Row(id: int, stamp: int, reading: Option<real>)

  /** One line of the result: AVG is null when every value of the group is. */
  datatype Bucket = Bucket(key: int, minId: int, average: Option<real>)

  // ---------------------------------------------------------------- the bucket width

  /** Rounding a quotient up; Dafny's division by a positive number rounds down. */
  function CeilDiv(a: int, b: int): int
    requires b > 0
  {
    -((-a) / b)
  }

  function BucketSeconds(range: int, points: int): int
    requires points > 0
  {
    if CeilDiv(range, points) < 1 then 1 else CeilDiv(range, points)
  }

  lemma CeilDivBounds(a: int, b: int)
    requires b > 0
    ensures CeilDiv(a, b) * b >= a
    ensures (CeilDiv(a, b) - 1) * b < a
  {
    var q := (-a) / b;
    assert -a == q * b + (-a) % b;
  }

  lemma WholeSteps(v: int, w: int, b: int)
    requires b > 0 && v < w
    ensures v * b <= (w - 1) * b
  {
  }

  /** The width is the least whole number of seconds, at least one, that covers the range in that many buckets. */
  lemma WidthIsLeast(range: int, points: int)
    requires points > 0
    ensures BucketSeconds(range, points) >= 1
    ensures BucketSeconds(range, points) * points >= range
    ensures forall v :: v >= 1 && v * points >= range ==> BucketSeconds(range, points) <= v
  {
    CeilDivBounds(range, points);
    var w := CeilDiv(range, points);
    if w < 1 {
      assert points >= w * points by { WholeSteps(w, 2, points); }
    }
    forall v | v >= 1 && v * points >= range ensures BucketSeconds(range, points) <= v {
      if v < w {
        WholeSteps(v, w, points);
      }
    }
  }

  // ---------------------------------------------------------------- bucket numbers

  /** SQLite's integer division, which rounds towards zero. */
  function SqlDiv(a: int, b: int): int
    requires b > 0
  {
    if a >= 0 then a / b else -((-a) / b)
  }

  lemma DivShift(a: int, b: int, k: int)
    requires b > 0
    ensures (a + k * b) / b == a / b + k
  {
    var q, r := a / b, a % b;
    assert a + k * b == (q + k) * b + r;
    QuotientUnique(a + k * b, b, q + k, r);
  }

  lemma QuotientUnique(a: int, b: int, q: int, r: int)
    requires b > 0 && 0 <= r < b && a == q * b + r
    ensures a / b == q
  {
    var d := a / b - q;
    assert d * b == r - a % b;
    if d >= 1 {
      WholeSteps(0, d, b);
    } else if d <= -1 {
      WholeSteps(d, 0, b);
    }
  }

  lemma DivMonotone(a: int, c: int, b: int)
    requires b > 0 && a <= c
    ensures a / b <= c / b
  {
    if a / b > c / b {
      WholeSteps(c / b, a / b, b);
    }
  }

  lemma SqlDivMonotone(a: int, c: int, b: int)
    requires b > 0 && a <= c
    ensures SqlDiv(a, b) <= SqlDiv(c, b)
  {
    if a >= 0 {
      DivMonotone(a, c, b);
    } else if c < 0 {
      DivMonotone(-c, -a, b);
    } else {
      DivMonotone(0, -a, b);
      DivMonotone(0, c, b);
    }
  }

  /** Times at most k widths apart are at most k buckets apart, on either side of zero or across it. */
  lemma SqlDivSpread(a: int, c: int, b: int, k: nat)
    requires b > 0 && c - a <= k * b
    ensures SqlDiv(c, b) - SqlDiv(a, b) <= k
  {
    if c < a {
      SqlDivMonotone(c, a, b);
    } else if a >= 0 {
      DivMonotone(c, a + k * b, b);
      DivShift(a, b, k);
    } else if c < 0 {
      DivMonotone(-a, -c + k * b, b);
      DivShift(-c, b, k);
    } else {
      var n := -a;
      DivMonotone(c, k * b - n, b);
      DivShift(-n, b, k);
      DivMonotone(-n, -(n / b) * b, b);
      assert n == n / b * b + n % b;
      DivShift(0, b, -(n / b));
    }
  }

  // ---------------------------------------------------------------- the query

  function Window(rows: seq<Row>, from: int): seq<Row>
  {
    if rows == [] then []
    else
      Window(rows[..|rows| - 1], from) + if rows[|rows| - 1].stamp >= from then [rows[|rows| - 1]] else []
  }

  function KeyOf(r: Row, width: int): int
    requires width > 0
  {
    SqlDiv(r.stamp, width)
  }

  /** Puts a key into a descending list that holds each key once. */
  function InsertKey(keys: seq<int>, k: int): seq<int>
  {
    if keys == [] || k > keys[0] then [k] + keys
    else if k == keys[0] then keys
    else [keys[0]] + InsertKey(keys[1..], k)
  }

  /** The group keys, newest bucket first. */
  function KeysOf(rows: seq<Row>, width: int): seq<int>
    requires width > 0
  {
    if rows == [] then []
    else InsertKey(KeysOf(rows[..|rows| - 1], width), KeyOf(rows[|rows| - 1], width))
  }

  function SumOf(rows: seq<Row>, width: int, key: int): real
    requires width > 0
  {
    if rows == [] then 0.0
    else
      var r := rows[|rows| - 1];
      SumOf(rows[..|rows| - 1], width, key)
      + if KeyOf(r, width) == key && r.reading.Some? then r.reading.value else 0.0
  }

  function CountOf(rows: seq<Row>, width: int, key: int): nat
    requires width > 0
  {
    if rows == [] then 0
    else
      var r := rows[|rows| - 1];
      CountOf(rows[..|rows| - 1], width, key) + if KeyOf(r, width) == key && r.reading.Some? then 1 else 0
  }

  function MinId(rows: seq<Row>, width: int, key: int): int
    requires width > 0
  {
    if rows == [] then 0
    else
      var r := rows[|rows| - 1];
      var rest := MinId(rows[..|rows| - 1], width, key);
      if KeyOf(r, width) != key then rest
      else if key !in KeysOf(rows[..|rows| - 1], width) || r.id < rest then r.id else rest
  }

  function Average(rows: seq<Row>, width: int, key: int): Option<real>
    requires width > 0
  {
    if CountOf(rows, width, key) == 0 then None
    else Some(SumOf(rows, width, key) / CountOf(rows, width, key) as real)
  }

  function Aggregate(rows: seq<Row>, width: int, keys: seq<int>): seq<Bucket>
    requires width > 0
  {
    seq(|keys|, i requires 0 <= i < |keys| =>
      Bucket(keys[i], MinId(rows, width, keys[i]), Average(rows, width, keys[i])))
  }

  /** The whole query for one column. */
  function FetchHistory(rows: seq<Row>, now: int, range: int, points: int): seq<Bucket>
    requires points > 0
  {
    var width := BucketSeconds(range, points);
    var window := Window(rows, now - range);
    var keys := KeysOf(window, width);
    Aggregate(window, width, if |keys| <= points then keys else keys[..points])
  }

  // ---------------------------------------------------------------- how many buckets

  ghost predicate Descending(keys: seq<int>)
  {
    forall i, j :: 0 <= i < j < |keys| ==> keys[i] > keys[j]
  }

  lemma {:induction false} InsertKeyOk(keys: seq<int>, k: int)
    requires Descending(keys)
    ensures Descending(InsertKey(keys, k))
    ensures forall x :: x in InsertKey(keys, k) <==> x == k || x in keys
  {
    if keys != [] && k < keys[0] {
      InsertKeyOk(keys[1..], k);
      var rest := InsertKey(keys[1..], k);
      forall j | 0 <= j < |rest| ensures keys[0] > rest[j] {
        assert rest[j] in rest;
        assert forall x :: x in keys[1..] ==> x < keys[0];
      }
    }
  }

  lemma {:induction false} KeysOk(rows: seq<Row>, width: int)
    requires width > 0
    ensures Descending(KeysOf(rows, width))
    ensures forall x :: x in KeysOf(rows, width) <==> exists i :: 0 <= i < |rows| && KeyOf(rows[i], width) == x
  {
    hide KeyOf;
    if rows != [] {
      var front := rows[..|rows| - 1];
      KeysOk(front, width);
      InsertKeyOk(KeysOf(front, width), KeyOf(rows[|rows| - 1], width));
      forall x
        ensures x in KeysOf(rows, width) <==> exists i :: 0 <= i < |rows| && KeyOf(rows[i], width) == x
      {
        if i :| 0 <= i < |front| && KeyOf(front[i], width) == x {
          assert KeyOf(rows[i], width) == x;
        }
        if i :| 0 <= i < |rows| && KeyOf(rows[i], width) == x {
          assert i < |front| ==> front[i] == rows[i];
        }
      }
    }
  }

  ghost predicate InBucket(rows: seq<Row>, i: int, width: int, key: int)
    requires width > 0
  {
    0 <= i < |rows| && KeyOf(rows[i], width) == key
  }

  /** m is the least id in the bucket. */
  ghost predicate IsLeastId(rows: seq<Row>, width: int, key: int, m: int)
    requires width > 0
  {
    && (exists i :: InBucket(rows, i, width, key) && rows[i].id == m)
    && (forall i :: InBucket(rows, i, width, key) ==> m <= rows[i].id)
  }

  lemma LeastOfMore(rows: seq<Row>, last: Row, width: int, key: int, m: int)
    requires width > 0 && IsLeastId(rows, width, key, m)
    ensures IsLeastId(rows + [last], width, key, if KeyOf(last, width) == key && last.id < m then last.id else m)
  {
    hide KeyOf;
    var more := rows + [last];
    var i :| InBucket(rows, i, width, key) && rows[i].id == m;
    assert InBucket(more, i, width, key) && more[i] == rows[i];
    assert KeyOf(last, width) == key ==> InBucket(more, |rows|, width, key);
    forall k | InBucket(more, k, width, key)
      ensures (if KeyOf(last, width) == key && last.id < m then last.id else m) <= more[k].id
    {
      assert k < |rows| ==> InBucket(rows, k, width, key);
    }
  }

  lemma LeastOfFirst(rows: seq<Row>, last: Row, width: int, key: int)
    requires width > 0 && KeyOf(last, width) == key
    requires key !in KeysOf(rows, width)
    ensures IsLeastId(rows + [last], width, key, last.id)
  {
    KeysOk(rows, width);
    hide KeyOf, KeysOf;
    var more := rows + [last];
    assert InBucket(more, |rows|, width, key);
    assert forall k :: 0 <= k < |rows| ==> more[k] == rows[k];
    assert forall k :: InBucket(more, k, width, key) ==> k == |rows|;
  }

  lemma KeysStep(rows: seq<Row>, last: Row, width: int, key: int)
    requires width > 0
    ensures key in KeysOf(rows + [last], width) <==> key in KeysOf(rows, width) || KeyOf(last, width) == key
  {
    hide KeyOf;
    assert (rows + [last])[..|rows|] == rows;
    KeysOk(rows, width);
    InsertKeyOk(KeysOf(rows, width), KeyOf(last, width));
  }

  /** The id reported for a bucket is the least id in it. */
  lemma {:induction false} MinIdIsLeast(rows: seq<Row>, width: int, key: int)
    requires width > 0 && key in KeysOf(rows, width)
    ensures IsLeastId(rows, width, key, MinId(rows, width, key))
  {
    var front, last := rows[..|rows| - 1], rows[|rows| - 1];
    assert rows == front + [last];
    KeysStep(front, last, width, key);
    hide KeyOf, KeysOf, IsLeastId;
    if key in KeysOf(front, width) {
      MinIdIsLeast(front, width, key);
      LeastOfMore(front, last, width, key, MinId(front, width, key));
    } else {
      LeastOfFirst(front, last, width, key);
    }
  }

  lemma {:induction false} DescendingRange(keys: seq<int>, low: int, high: int)
    requires Descending(keys) && forall x :: x in keys ==> low <= x <= high
    requires low <= high + 1
    ensures |keys| <= high - low + 1
  {
    if keys != [] {
      assert keys[0] in keys;
      assert forall x :: x in keys[1..] ==> x in keys;
      DescendingRange(keys[1..], low, keys[0] - 1);
    }
  }

  lemma {:induction false} WindowRows(rows: seq<Row>, from: int)
    ensures forall i :: 0 <= i < |Window(rows, from)| ==>
              Window(rows, from)[i].stamp >= from && Window(rows, from)[i] in rows
  {
    if rows != [] {
      WindowRows(rows[..|rows| - 1], from);
    }
  }

  /**
   Rows stamped no later than now fill at most one bucket more than asked for; the limit drops at most
   one bucket, and that is the oldest.
   */
  lemma AtMostOneBucketLost(rows: seq<Row>, now: int, range: nat, points: int)
    requires points > 0
    requires forall r :: r in rows ==> r.stamp <= now
    ensures var keys := KeysOf(Window(rows, now - range), BucketSeconds(range, points));
      && |keys| <= points + 1
      && |FetchHistory(rows, now, range, points)| == (if |keys| <= points then |keys| else points)
      && (forall i :: 0 <= i < |FetchHistory(rows, now, range, points)| ==>
            FetchHistory(rows, now, range, points)[i].key == keys[i])
      && (|keys| == points + 1 ==> forall i :: 0 <= i < points ==> keys[points] < keys[i])
  {
    var width := BucketSeconds(range, points);
    var window := Window(rows, now - range);
    var keys := KeysOf(window, width);
    WidthIsLeast(range, points);
    KeysOk(window, width);
    WindowRows(rows, now - range);
    var low, high := SqlDiv(now - range, width), SqlDiv(now, width);
    SqlDivMonotone(now - range, now, width);
    assert points * width >= range;
    SqlDivSpread(now - range, now, width, points);
    hide SqlDiv;
    forall x | x in keys ensures low <= x <= high {
      var i :| 0 <= i < |window| && KeyOf(window[i], width) == x;
      SqlDivMonotone(now - range, window[i].stamp, width);
      SqlDivMonotone(window[i].stamp, now, width);
    }
    DescendingRange(keys, low, high);
  }

  // ---------------------------------------------------------------- conservation

  function ColumnTotal(rows: seq<Row>): real
  {
    if rows == [] then 0.0
    else
      ColumnTotal(rows[..|rows| - 1])
      + if rows[|rows| - 1].reading.Some? then rows[|rows| - 1].reading.value else 0.0
  }

  function SumOverKeys(rows: seq<Row>, width: int, keys: seq<int>): real
    requires width > 0
  {
    if keys == [] then 0.0 else SumOf(rows, width, keys[0]) + SumOverKeys(rows, width, keys[1..])
  }

  /** Average times count, null counting as nothing, added over the buckets. */
  function Weighted(rows: seq<Row>, width: int, buckets: seq<Bucket>): real
    requires width > 0
  {
    if buckets == [] then 0.0
    else
      (if buckets[0].average.None? then 0.0
       else buckets[0].average.value * CountOf(rows, width, buckets[0].key) as real)
      + Weighted(rows, width, buckets[1..])
  }

  lemma {:induction false} NullGroup(rows: seq<Row>, width: int, key: int)
    requires width > 0 && CountOf(rows, width, key) == 0
    ensures SumOf(rows, width, key) == 0.0
  {
    if rows != [] {
      NullGroup(rows[..|rows| - 1], width, key);
    }
  }

  /** One bucket's average, weighted by its count, is the sum over its rows. */
  lemma WeightOfBucket(rows: seq<Row>, width: int, key: int)
    requires width > 0
    ensures var average := Average(rows, width, key);
      (if average.None? then 0.0 else average.value * CountOf(rows, width, key) as real) == SumOf(rows, width, key)
  {
    if CountOf(rows, width, key) == 0 {
      NullGroup(rows, width, key);
    } else {
      hide SumOf, CountOf;
      QuotientTimes(SumOf(rows, width, key), CountOf(rows, width, key) as real);
    }
  }

  lemma {:induction false} WeightedIsSum(rows: seq<Row>, width: int, keys: seq<int>)
    requires width > 0
    ensures Weighted(rows, width, Aggregate(rows, width, keys)) == SumOverKeys(rows, width, keys)
  {
    hide SumOf, CountOf, MinId, Average;
    if keys != [] {
      var buckets := Aggregate(rows, width, keys);
      assert buckets[1..] == Aggregate(rows, width, keys[1..]);
      WeightedIsSum(rows, width, keys[1..]);
      WeightOfBucket(rows, width, keys[0]);
    }
  }

  lemma {:induction false} SumOverKeysStep(rows: seq<Row>, width: int, keys: seq<int>)
    requires width > 0 && rows != [] && Descending(keys)
    ensures var r := rows[|rows| - 1];
      SumOverKeys(rows, width, keys) == SumOverKeys(rows[..|rows| - 1], width, keys)
        + if KeyOf(r, width) in keys && r.reading.Some? then r.reading.value else 0.0
  {
    hide KeyOf;
    if keys != [] {
      SumOverKeysStep(rows, width, keys[1..]);
      assert keys == [keys[0]] + keys[1..];
    }
  }

  lemma {:induction false} SumOverNothing(width: int, keys: seq<int>)
    requires width > 0
    ensures SumOverKeys([], width, keys) == 0.0
  {
    if keys != [] {
      SumOverNothing(width, keys[1..]);
    }
  }

  lemma {:induction false} KeysCoverTotal(rows: seq<Row>, width: int, keys: seq<int>)
    requires width > 0 && Descending(keys)
    requires forall i :: 0 <= i < |rows| ==> KeyOf(rows[i], width) in keys
    ensures SumOverKeys(rows, width, keys) == ColumnTotal(rows)
  {
    hide KeyOf;
    if rows == [] {
      SumOverNothing(width, keys);
    } else {
      SumOverKeysStep(rows, width, keys);
      KeysCoverTotal(rows[..|rows| - 1], width, keys);
    }
  }

  /** Count-weighted bucket averages add back to the total of the column over the window, before the limit. */
  lemma AveragesAddBack(rows: seq<Row>, now: int, range: int, points: int)
    requires points > 0
    ensures var width := BucketSeconds(range, points);
      var window := Window(rows, now - range);
      Weighted(window, width, Aggregate(window, width, KeysOf(window, width))) == ColumnTotal(window)
  {
    var width := BucketSeconds(range, points);
    var window := Window(rows, now - range);
    KeysOk(window, width);
    WeightedIsSum(window, width, KeysOf(window, width));
    KeysCoverTotal(window, width, KeysOf(window, width));
  }

  // ---------------------------------------------------------------- the result, exactly

  /** SQLite's quotient: what is left over is smaller than the divisor and has the sign of the dividend. */
  lemma SqlDivTruncates(a: int, b: int)
    requires b > 0
    ensures var rest := a - SqlDiv(a, b) * b;
      -b < rest < b && (a >= 0 ==> rest >= 0) && (a <= 0 ==> rest <= 0)
  {
    if a >= 0 {
      assert a == a / b * b + a % b;
    } else {
      assert -a == (-a) / b * b + (-a) % b;
      assert SqlDiv(a, b) * b == -((-a) / b * b);
    }
  }

  /** Row i is inside the range and falls into this bucket. */
  ghost predicate Falls(rows: seq<Row>, i: int, from: int, width: int, key: int)
    requires width > 0
  {
    0 <= i < |rows| && rows[i].stamp >= from && SqlDiv(rows[i].stamp, width) == key
  }

  ghost predicate Occupied(rows: seq<Row>, from: int, width: int, key: int)
    requires width > 0
  {
    exists i :: Falls(rows, i, from, width, key)
  }

  /** The sum and the number of the readings in a bucket, row by row; one without a value counts for neither. */
  function TotalIn(rows: seq<Row>, from: int, width: int, key: int): (real, nat)
    requires width > 0
  {
    if rows == [] then (0.0, 0)
    else
      var (total, count) := TotalIn(rows[..|rows| - 1], from, width, key);
      var r := rows[|rows| - 1];
      if r.stamp >= from && SqlDiv(r.stamp, width) == key && r.reading.Some? then (total + r.reading.value, count + 1)
      else (total, count)
  }

  /** The bucket's line: its least id, and the mean of its readings if it has any. */
  ghost predicate Summed(rows: seq<Row>, from: int, width: int, b: Bucket)
    requires width > 0
  {
    && (exists i :: Falls(rows, i, from, width, b.key) && rows[i].id == b.minId)
    && (forall i :: Falls(rows, i, from, width, b.key) ==> b.minId <= rows[i].id)
    && var (total, count) := TotalIn(rows, from, width, b.key);
       b.average == if count == 0 then None else Some(total / count as real)
  }

  lemma {:induction false} WindowExactly(rows: seq<Row>, from: int)
    ensures forall r :: r in Window(rows, from) <==> r in rows && r.stamp >= from
  {
    if rows != [] {
      var front, last := rows[..|rows| - 1], rows[|rows| - 1];
      WindowExactly(front, from);
      assert rows == front + [last];
      assert forall r :: r in Window(rows, from) <==> r in Window(front, from) || (r == last && last.stamp >= from);
    }
  }

  lemma SumStep(rows: seq<Row>, r: Row, width: int, key: int)
    requires width > 0
    ensures SumOf(rows + [r], width, key)
         == SumOf(rows, width, key) + if SqlDiv(r.stamp, width) == key && r.reading.Some? then r.reading.value else 0.0
    ensures CountOf(rows + [r], width, key)
         == CountOf(rows, width, key) + if SqlDiv(r.stamp, width) == key && r.reading.Some? then 1 else 0
  {
    hide SqlDiv;
    assert (rows + [r])[..|rows|] == rows;
  }

  lemma {:induction false} WindowTotals(rows: seq<Row>, from: int, width: int, key: int)
    requires width > 0
    ensures TotalIn(rows, from, width, key)
         == (SumOf(Window(rows, from), width, key), CountOf(Window(rows, from), width, key))
  {
    hide SqlDiv, SumOf, CountOf;
    if rows == [] {
      NothingSummed(width, key);
    } else {
      var front, last := rows[..|rows| - 1], rows[|rows| - 1];
      WindowTotals(front, from, width, key);
      SumStep(Window(front, from), last, width, key);
      assert Window(front, from) + [] == Window(front, from);
    }
  }

  lemma NothingSummed(width: int, key: int)
    requires width > 0
    ensures SumOf([], width, key) == 0.0 && CountOf([], width, key) == 0
  {
  }

  lemma FallsInWindow(rows: seq<Row>, from: int, width: int, key: int, i: int) returns (j: int)
    requires width > 0 && Falls(rows, i, from, width, key)
    ensures InBucket(Window(rows, from), j, width, key) && Window(rows, from)[j] == rows[i]
  {
    WindowExactly(rows, from);
    assert rows[i] in Window(rows, from);
    hide SqlDiv, Window;
    j :| 0 <= j < |Window(rows, from)| && Window(rows, from)[j] == rows[i];
  }

  lemma WindowFalls(rows: seq<Row>, from: int, width: int, key: int, j: int) returns (i: int)
    requires width > 0 && InBucket(Window(rows, from), j, width, key)
    ensures Falls(rows, i, from, width, key) && Window(rows, from)[j] == rows[i]
  {
    WindowExactly(rows, from);
    var r := Window(rows, from)[j];
    assert r in Window(rows, from);
    hide SqlDiv, Window;
    i :| 0 <= i < |rows| && rows[i] == r;
  }

  lemma OccupiedKeys(rows: seq<Row>, from: int, width: int, key: int)
    requires width > 0
    ensures key in KeysOf(Window(rows, from), width) <==> Occupied(rows, from, width, key)
  {
    var window := Window(rows, from);
    KeysOk(window, width);
    hide KeysOf;
    if key in KeysOf(window, width) {
      var j :| 0 <= j < |window| && KeyOf(window[j], width) == key;
      assert InBucket(window, j, width, key);
      var i := WindowFalls(rows, from, width, key, j);
    }
    if i :| Falls(rows, i, from, width, key) {
      var j := FallsInWindow(rows, from, width, key, i);
      assert KeyOf(window[j], width) == key;
    }
  }

  lemma BucketSummed(rows: seq<Row>, from: int, width: int, key: int)
    requires width > 0 && Occupied(rows, from, width, key)
    ensures var window := Window(rows, from);
      Summed(rows, from, width, Bucket(key, MinId(window, width, key), Average(window, width, key)))
  {
    var window := Window(rows, from);
    OccupiedKeys(rows, from, width, key);
    MinIdIsLeast(window, width, key);
    WindowTotals(rows, from, width, key);
    hide MinId, KeysOf, SumOf, CountOf, SqlDiv, Window, TotalIn;
    var m := MinId(window, width, key);
    var j :| InBucket(window, j, width, key) && window[j].id == m;
    var i := WindowFalls(rows, from, width, key, j);
    forall k | Falls(rows, k, from, width, key) ensures m <= rows[k].id {
      var l := FallsInWindow(rows, from, width, key, k);
    }
  }

  ghost predicate NewestFirst(result: seq<Bucket>)
  {
    forall i, j :: 0 <= i < j < |result| ==> result[i].key > result[j].key
  }

  ghost predicate Returned(result: seq<Bucket>, key: int)
  {
    exists i :: 0 <= i < |result| && result[i].key == key
  }

  ghost predicate OlderThanAll(result: seq<Bucket>, key: int)
  {
    forall i :: 0 <= i < |result| ==> key < result[i].key
  }

  /**
   What the query returns, said of the rows: one line for each of the newest buckets that hold a row of the
   range, as many as asked for or as there are, newest first, each with its least id and its mean.
   */
  lemma FetchedExactly(rows: seq<Row>, now: int, range: int, points: int)
    requires points > 0
    ensures var from, width := now - range, BucketSeconds(range, points);
      var result := FetchHistory(rows, now, range, points);
      && width > 0 && |result| <= points && NewestFirst(result)
      && (forall i :: 0 <= i < |result| ==>
            Occupied(rows, from, width, result[i].key) && Summed(rows, from, width, result[i]))
      && (forall key :: Occupied(rows, from, width, key) ==>
            Returned(result, key) || (|result| == points && OlderThanAll(result, key)))
  {
    WidthIsLeast(range, points);
    hide KeysOf, Window, MinId, Average, BucketSeconds, Occupied, Summed, FetchHistory;
    hide NewestFirst, Returned, OlderThanAll;
    var from, width := now - range, BucketSeconds(range, points);
    var result := FetchHistory(rows, now, range, points);
    FetchedKeys(rows, now, range, points);
    forall i | 0 <= i < |result|
      ensures Occupied(rows, from, width, result[i].key) && Summed(rows, from, width, result[i])
    {
      FetchedLine(rows, now, range, points, i);
    }
    forall key | Occupied(rows, from, width, key)
      ensures Returned(result, key) || (|result| == points && OlderThanAll(result, key))
    {
      OccupiedKeys(rows, from, width, key);
    }
  }

  lemma FetchedLine(rows: seq<Row>, now: int, range: int, points: int, i: nat)
    requires points > 0 && i < |FetchHistory(rows, now, range, points)|
    ensures var from, width := now - range, BucketSeconds(range, points);
      var b := FetchHistory(rows, now, range, points)[i];
      width > 0 && Occupied(rows, from, width, b.key) && Summed(rows, from, width, b)
  {
    WidthIsLeast(range, points);
    FetchedAt(rows, now, range, points, i);
    hide KeysOf, Window, MinId, Average, BucketSeconds, Occupied, Summed, FetchHistory;
    var from, width := now - range, BucketSeconds(range, points);
    var key := KeysOf(Window(rows, from), width)[i];
    assert key in KeysOf(Window(rows, from), width);
    OccupiedKeys(rows, from, width, key);
    BucketSummed(rows, from, width, key);
  }

  lemma FetchedKeys(rows: seq<Row>, now: int, range: int, points: int)
    requires points > 0
    ensures var width := BucketSeconds(range, points);
      var result := FetchHistory(rows, now, range, points);
      && width > 0 && |result| <= points && NewestFirst(result)
      && forall key :: key in KeysOf(Window(rows, now - range), width) ==>
           Returned(result, key) || (|result| == points && OlderThanAll(result, key))
  {
    WidthIsLeast(range, points);
    hide KeysOf, Window, MinId, Average, BucketSeconds, FetchHistory;
    var keys := KeysOf(Window(rows, now - range), BucketSeconds(range, points));
    var result := FetchHistory(rows, now, range, points);
    FetchedLength(rows, now, range, points);
    forall i | 0 <= i < |result| ensures result[i].key == keys[i] {
      FetchedAt(rows, now, range, points, i);
    }
    assert Descending(keys) by {
      KeysOk(Window(rows, now - range), BucketSeconds(range, points));
    }
    forall key | key in keys ensures Returned(result, key) || (|result| == points && OlderThanAll(result, key)) {
      var k :| 0 <= k < |keys| && keys[k] == key;
      assert k < |result| ==> result[k].key == key;
    }
  }

  lemma FetchedLength(rows: seq<Row>, now: int, range: int, points: int)
    requires points > 0
    ensures var width := BucketSeconds(range, points);
      var keys := if width > 0 then KeysOf(Window(rows, now - range), width) else [];
      |FetchHistory(rows, now, range, points)| == if |keys| <= points then |keys| else points
  {
    WidthIsLeast(range, points);
    hide BucketSeconds, KeysOf, Window, MinId, Average;
  }

  lemma FetchedAt(rows: seq<Row>, now: int, range: int, points: int, i: nat)
    requires points > 0 && i < |FetchHistory(rows, now, range, points)|
    ensures var window, width := Window(rows, now - range), BucketSeconds(range, points);
      && width > 0 && i < |KeysOf(window, width)|
      && var key := KeysOf(window, width)[i];
         FetchHistory(rows, now, range, points)[i]
           == Bucket(key, MinId(window, width, key), Average(window, width, key))
  {
    WidthIsLeast(range, points);
    hide BucketSeconds, KeysOf, Window, MinId, Average;
  }
}
