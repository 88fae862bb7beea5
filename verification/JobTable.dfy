/**
 The table of scan and benchmark jobs: trimming it to its bound by dropping the oldest finished jobs.
 */
module JobTable {
  import opened Options
  import opened Sorting
  import opened Texts

  const MAXIMUM := 20

  type JobId = string

  datatype Status = Queued | Running | Complete | Failed

  /** A job may carry no creation time; it then counts as created at zero. */
  datatype Job = Job(status: Status, created: Option<real>)

  type Stamp = (real, JobId)

  predicate Finished(job: Job)
  {
    job.status.Complete? || job.status.Failed?
  }

  function StampOf(id: JobId, job: Job): Stamp
  {
    (if job.created.Some? then job.created.value else 0.0, id)
  }

  /** Python's order on (created_at, job_id) tuples. */
  predicate Earlier(a: Stamp, b: Stamp)
  {
    a.0 < b.0 || (a.0 == b.0 && TextLess(a.1, b.1))
  }

  lemma EarlierIsOrder()
    ensures WeakOrder(Earlier)
    ensures forall a, b :: !Earlier(a, b) && !Earlier(b, a) ==> a == b
  {
    forall a, b, c
      ensures Earlier(a, b) ==> !Earlier(b, a)
      ensures Earlier(a, b) && !Earlier(c, b) ==> Earlier(a, c)
      ensures !Earlier(a, b) && !Earlier(b, a) ==> a == b
    {
      TextOrder(a.1, b.1);
      TextOrder(b.1, c.1);
      if TextLess(a.1, b.1) && TextLess(b.1, c.1) {
        TextTransitive(a.1, b.1, c.1);
      }
    }
  }

  /** The finished jobs, in the order the dict lists them. */
  function FinishedStamps(order: seq<JobId>, jobs: map<JobId, Job>): seq<Stamp>
    requires forall id :: id in order ==> id in jobs
  {
    if order == [] then []
    else
      var id := order[|order| - 1];
      FinishedStamps(order[..|order| - 1], jobs) + if Finished(jobs[id]) then [StampOf(id, jobs[id])] else []
  }

  function Excess(jobs: map<JobId, Job>): nat
  {
    if |jobs| <= MAXIMUM then 0 else |jobs| - MAXIMUM
  }

  function FinishedIds(jobs: map<JobId, Job>): set<JobId>
  {
    set id | id in jobs && Finished(jobs[id])
  }

  /** One of the finished jobs outlives another only when it was created later, or at the same time under a later id. */
  ghost predicate OldestGone(before: map<JobId, Job>, gone: set<JobId>)
  {
    forall a, b :: a in gone && a in before && b in FinishedIds(before) && b !in gone ==>
      Earlier(StampOf(a, before[a]), StampOf(b, before[b]))
  }

  /** What trimming must have done. */
  ghost predicate Trimmed(before: map<JobId, Job>, after: map<JobId, Job>)
  {
    exists gone: set<JobId> :: Dropped(before, after, gone)
  }

  ghost predicate Dropped(before: map<JobId, Job>, after: map<JobId, Job>, gone: set<JobId>)
  {
    && gone <= FinishedIds(before)
    && after == before - gone
    && |gone| == (if |FinishedIds(before)| < Excess(before) then |FinishedIds(before)| else Excess(before))
    && OldestGone(before, gone)
  }

  function IdsOf(stamps: seq<Stamp>): set<JobId>
  {
    set i | 0 <= i < |stamps| :: stamps[i].1
  }

  /** A dict: its keys in insertion order, and its values. */
  class Jobs {
    var order: seq<JobId>
    var jobs: map<JobId, Job>

    ghost predicate Valid()
      reads this
    {
      Distinct(order) && forall id :: id in order <==> id in jobs
    }

    constructor ()
      ensures Valid() && jobs == map[]
    {
      order, jobs := [], map[];
    }

    method Trim()
      requires Valid()
      modifies this
      ensures Valid()
      ensures Trimmed(old(jobs), jobs)
    {
      ghost var before := jobs;
      if |jobs| <= MAXIMUM {
        assert Dropped(before, jobs, {});
        return;
      }
      var completed := Completed();
      var sorted := Sort(completed, Earlier);
      var n := if |sorted| < |jobs| - MAXIMUM then |sorted| else |jobs| - MAXIMUM;
      FinishedListed(order, jobs);
      OldestFirst(jobs, completed, n);
      hide Sort, FinishedStamps, Distinct, OldestGone, FinishedIds, Earlier, Lists;
      PopAll(sorted[..n]);
      assert Dropped(before, jobs, IdsOf(sorted[..n]));
    }

    method Completed() returns (completed: seq<Stamp>)
      requires Valid()
      ensures completed == FinishedStamps(order, jobs)
    {
      completed := [];
      for i := 0 to |order|
        invariant completed == FinishedStamps(order[..i], jobs)
      {
        assert order[..i + 1][..i] == order[..i] && order[i] in order;
        if Finished(jobs[order[i]]) {
          completed := completed + [StampOf(order[i], jobs[order[i]])];
        }
      }
      assert order[..|order|] == order;
    }

    method PopAll(oldest: seq<Stamp>)
      requires Valid()
      modifies this
      ensures Valid()
      ensures jobs == old(jobs) - IdsOf(oldest)
    {
      for i := 0 to |oldest|
        invariant jobs == old(jobs) - IdsOf(oldest[..i])
        invariant Valid()
      {
        assert IdsOf(oldest[..i + 1]) == IdsOf(oldest[..i]) + {oldest[i].1};
        Pop(oldest[i].1);
      }
      assert oldest[..|oldest|] == oldest;
    }

    method Pop(id: JobId)
      requires Valid()
      modifies this
      ensures Valid() && jobs == old(jobs) - {id}
    {
      WithoutIsDistinct(order, id);
      order, jobs := Without(order, id), jobs - {id};
    }
  }

  function Without(order: seq<JobId>, id: JobId): (r: seq<JobId>)
    ensures forall x :: x in r <==> x in order && x != id
  {
    if order == [] then []
    else
      var last := order[|order| - 1];
      Without(order[..|order| - 1], id) + if last == id then [] else [last]
  }

  lemma {:induction false} WithoutIsDistinct(order: seq<JobId>, id: JobId)
    requires Distinct(order)
    ensures Distinct(Without(order, id))
  {
    if order != [] {
      var front, last := order[..|order| - 1], order[|order| - 1];
      WithoutIsDistinct(front, id);
      forall i | 0 <= i < |Without(front, id)| ensures Without(front, id)[i] != last {
        assert Without(front, id)[i] in front;
      }
    }
  }

  ghost predicate Lists(stamps: seq<Stamp>, jobs: map<JobId, Job>)
  {
    && Distinct(stamps)
    && (forall i :: 0 <= i < |stamps| ==>
          stamps[i].1 in FinishedIds(jobs) && stamps[i] == StampOf(stamps[i].1, jobs[stamps[i].1]))
    && (forall id :: id in FinishedIds(jobs) ==> StampOf(id, jobs[id]) in stamps)
  }

  lemma {:induction false} StampsDistinct(order: seq<JobId>, jobs: map<JobId, Job>)
    requires Distinct(order) && forall id :: id in order ==> id in jobs
    ensures Distinct(FinishedStamps(order, jobs))
    ensures forall s :: s in FinishedStamps(order, jobs) <==>
              s.1 in order && Finished(jobs[s.1]) && s == StampOf(s.1, jobs[s.1])
  {
    if order != [] {
      StampsDistinct(order[..|order| - 1], jobs);
      assert forall id :: id in order <==> id in order[..|order| - 1] || id == order[|order| - 1];
    }
  }

  lemma FinishedListed(order: seq<JobId>, jobs: map<JobId, Job>)
    requires Distinct(order) && forall id :: id in order <==> id in jobs
    ensures Lists(FinishedStamps(order, jobs), jobs)
  {
    StampsDistinct(order, jobs);
    var stamps := FinishedStamps(order, jobs);
    forall i | 0 <= i < |stamps|
      ensures stamps[i].1 in FinishedIds(jobs) && stamps[i] == StampOf(stamps[i].1, jobs[stamps[i].1])
    {
      assert stamps[i] in stamps;
    }
  }

  lemma ListsSorted(stamps: seq<Stamp>, sorted: seq<Stamp>, jobs: map<JobId, Job>)
    requires Lists(stamps, jobs) && multiset(stamps) == multiset(sorted)
    ensures Lists(sorted, jobs)
  {
    DistinctTransfers(stamps, sorted);
    SameElements(stamps, sorted);
    forall i | 0 <= i < |sorted|
      ensures sorted[i].1 in FinishedIds(jobs) && sorted[i] == StampOf(sorted[i].1, jobs[sorted[i].1])
    {
      assert sorted[i] in stamps;
    }
  }

  lemma {:induction false} CountIds(stamps: seq<Stamp>, jobs: map<JobId, Job>)
    requires Distinct(stamps)
    requires forall i :: 0 <= i < |stamps| ==>
               stamps[i].1 in jobs && stamps[i] == StampOf(stamps[i].1, jobs[stamps[i].1])
    ensures |IdsOf(stamps)| == |stamps|
  {
    if stamps == [] {
      assert IdsOf(stamps) == {};
    } else {
      var front, last := stamps[..|stamps| - 1], stamps[|stamps| - 1];
      CountIds(front, jobs);
      assert IdsOf(stamps) == IdsOf(front) + {last.1};
      assert last.1 !in IdsOf(front);
    }
  }

  /** The first n of the sorted list are the right jobs to drop, and the right number. */
  lemma OldestFirst(jobs: map<JobId, Job>, completed: seq<Stamp>, n: nat)
    requires Lists(completed, jobs) && n <= |completed|
    ensures var sorted := Sort(completed, Earlier);
      && |sorted| == |completed| == |FinishedIds(jobs)|
      && |IdsOf(sorted[..n])| == n
      && IdsOf(sorted[..n]) <= FinishedIds(jobs)
      && OldestGone(jobs, IdsOf(sorted[..n]))
  {
    var sorted := Sort(completed, Earlier);
    EarlierIsOrder();
    SortOrdered(completed, Earlier);
    ListsSorted(completed, sorted, jobs);
    hide Sort, Earlier, StampOf;
    CountIds(sorted, jobs);
    assert IdsOf(sorted) == FinishedIds(jobs) by {
      AllIds(sorted, jobs);
    }
    CountIds(sorted[..n], jobs);
    FirstAreOldest(jobs, sorted, n);
  }

  lemma AllIds(stamps: seq<Stamp>, jobs: map<JobId, Job>)
    requires Lists(stamps, jobs)
    ensures IdsOf(stamps) == FinishedIds(jobs)
  {
    forall id | id in FinishedIds(jobs) ensures id in IdsOf(stamps) {
      var i :| 0 <= i < |stamps| && stamps[i] == StampOf(id, jobs[id]);
      assert stamps[i].1 == id;
    }
  }

  lemma FirstAreOldest(jobs: map<JobId, Job>, sorted: seq<Stamp>, n: nat)
    requires Lists(sorted, jobs) && Ordered(sorted, Earlier) && n <= |sorted|
    requires forall a, b :: !Earlier(a, b) && !Earlier(b, a) ==> a == b
    ensures OldestGone(jobs, IdsOf(sorted[..n]))
  {
    hide Earlier;
    var gone := IdsOf(sorted[..n]);
    forall a, b | a in gone && b in FinishedIds(jobs) && b !in gone
      ensures Earlier(StampOf(a, jobs[a]), StampOf(b, jobs[b]))
    {
      var i :| 0 <= i < n && sorted[..n][i].1 == a;
      assert StampOf(b, jobs[b]) in sorted;
      var j :| 0 <= j < |sorted| && sorted[j] == StampOf(b, jobs[b]);
      assert sorted[j].1 == b;
      assert forall k :: 0 <= k < n ==> sorted[..n][k] == sorted[k];
      assert !Earlier(sorted[j], sorted[i]);
      assert sorted[i] != sorted[j];
    }
  }

  // ---------------------------------------------------------------- what trimming amounts to

  /** No unfinished job goes, and the table is back at its bound unless unfinished jobs alone exceed it. */
  lemma TrimBounds(before: map<JobId, Job>, after: map<JobId, Job>)
    requires Trimmed(before, after)
    ensures forall id :: id in before && !Finished(before[id]) ==> id in after && after[id] == before[id]
    ensures |before| <= 20 ==> after == before
    ensures |before| > 20 && |before| - |FinishedIds(before)| <= 20 ==> |after| == 20
    ensures |before| - |FinishedIds(before)| > 20 ==> FinishedIds(after) == {}
  {
    var gone :| Dropped(before, after, gone);
    assert after.Keys == before.Keys - gone;
    assert |before.Keys| == |before|;
    assert |before.Keys - gone| == |before| - |gone| by {
      SubsetSize(gone, before.Keys);
    }
    SubsetSize(FinishedIds(before), before.Keys);
    if |before| <= MAXIMUM {
      assert gone == {};
    }
    if |before| - |FinishedIds(before)| > MAXIMUM {
      SameSize(gone, FinishedIds(before));
    }
  }

  /** The time a job was created, zero when it carries none. */
  function CreatedAt(job: Job): real
  {
    if job.created.Some? then job.created.value else 0.0
  }

  lemma FinishedExactly(jobs: map<JobId, Job>)
    ensures FinishedIds(jobs) == set id | id in jobs && (jobs[id].status == Complete || jobs[id].status == Failed)
  {
  }

  /** What goes is complete or failed, and nothing that stays and is complete or failed was created earlier. */
  lemma OldestGo(before: map<JobId, Job>, after: map<JobId, Job>, a: JobId, b: JobId)
    requires Trimmed(before, after) && a in before && a !in after
    ensures before[a].status.Complete? || before[a].status.Failed?
    ensures b in after && (after[b].status.Complete? || after[b].status.Failed?) ==>
              b in before && after[b] == before[b] && CreatedAt(before[a]) <= CreatedAt(before[b])
  {
    var gone :| Dropped(before, after, gone);
    assert a in gone;
  }

  lemma SubsetSize<T>(a: set<T>, b: set<T>)
    requires a <= b
    ensures |b - a| == |b| - |a|
  {
    assert b == a + (b - a);
  }

  lemma SameSize<T>(a: set<T>, b: set<T>)
    requires a <= b && |a| == |b|
    ensures a == b
  {
    SubsetSize(a, b);
    assert b - a == {};
  }
}
