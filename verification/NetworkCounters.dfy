/**
 Network counters: per interface, transfer rates since the previous poll and bytes since the first one.
 Every poll lists the interfaces it saw; one without a counter reads as zero bytes.
 */
module NetworkCounters {
  import opened Arithmetic
  import opened Options
  import opened Rounding

  type Name = string

  datatype Direction = Sent | Received

  datatype Counter = Counter(sent: int, received: int)

  datatype Reading = Reading(at: real, bytes: Counter)

  datatype Report = Report(
    name: Name, bytes: Counter, upload: real, download: real, sessionSent: int, sessionReceived: int)

  datatype Poll = Poll(at: real, names: seq<Name>, counters: map<Name, Counter>)

  datatype Memory = Memory(previous: map<Name, Reading>, session: map<Name, Counter>)

  function Bytes(c: Counter, d: Direction): int
  {
    if d.Sent? then c.sent else c.received
  }

  function ReadingIn(p: Poll, n: Name): Reading
  {
    Reading(p.at, if n in p.counters then p.counters[n] else Counter(0, 0))
  }

  // ---------------------------------------------------------------- one interface, one poll

  function AtLeastZero(x: int): int
  {
    if x < 0 then 0 else x
  }

  function Elapsed(before: Reading, now: Reading): real
  {
    if now.at - before.at < 0.001 then 0.001 else now.at - before.at
  }

  function Rate(before: Reading, now: Reading, d: Direction): real
  {
    var delta := Bytes(now.bytes, d) - Bytes(before.bytes, d);
    if delta < 0 then 0.0 else delta as real / Elapsed(before, now)
  }

  function RateAfter(before: Option<Reading>, now: Reading, d: Direction): real
  {
    if before.None? then 0.0 else Rate(before.value, now, d)
  }

  function Lookup<T>(m: map<Name, T>, n: Name): Option<T>
  {
    if n in m then Some(m[n]) else None
  }

  function ReportOf(m: Memory, p: Poll, n: Name): Report
  {
    var now := ReadingIn(p, n);
    var before := Lookup(m.previous, n);
    var start := if n in m.session then m.session[n] else now.bytes;
    Report(n, now.bytes,
      Round(RateAfter(before, now, Sent), 100), Round(RateAfter(before, now, Received), 100),
      AtLeastZero(now.bytes.sent - start.sent), AtLeastZero(now.bytes.received - start.received))
  }

  function SessionBytes(r: Report, d: Direction): int
  {
    if d.Sent? then r.sessionSent else r.sessionReceived
  }

  function ReportedRate(r: Report, d: Direction): real
  {
    if d.Sent? then r.upload else r.download
  }

  /** What a poll leaves behind: each listed interface has this reading... */
  function Latest(m: map<Name, Reading>, p: Poll): map<Name, Reading>
  {
    map n | n in m.Keys + (set x | x in p.names) :: if n in p.names then ReadingIn(p, n) else m[n]
  }

  /** ... and keeps its first one. */
  function First(m: map<Name, Counter>, p: Poll): map<Name, Counter>
  {
    map n | n in m.Keys + (set x | x in p.names) :: if n in m then m[n] else ReadingIn(p, n).bytes
  }

  function After(m: Memory, p: Poll): Memory
  {
    Memory(Latest(m.previous, p), First(m.session, p))
  }

  function AfterAll(polls: seq<Poll>): Memory
  {
    if polls == [] then Memory(map[], map[]) else After(AfterAll(polls[..|polls| - 1]), polls[|polls| - 1])
  }

  function Prefix(p: Poll, i: nat): Poll
    requires i <= |p.names|
  {
    p.(names := p.names[..i])
  }

  lemma NothingListed(m: Memory, p: Poll)
    ensures After(m, Prefix(p, 0)) == m
  {
    assert Latest(m.previous, Prefix(p, 0)) == m.previous;
    assert First(m.session, Prefix(p, 0)) == m.session;
  }

  lemma LatestStep(m: map<Name, Reading>, p: Poll, i: nat)
    requires i < |p.names| && p.names[i] !in p.names[..i]
    ensures var so := Latest(m, Prefix(p, i));
      && Lookup(so, p.names[i]) == Lookup(m, p.names[i])
      && Latest(m, Prefix(p, i + 1)) == so[p.names[i] := ReadingIn(p, p.names[i])]
  {
    var so, next := Latest(m, Prefix(p, i)), Latest(m, Prefix(p, i + 1));
    assert p.names[..i + 1] == p.names[..i] + [p.names[i]];
    assert next.Keys == so.Keys + {p.names[i]};
  }

  lemma FirstStep(m: map<Name, Counter>, p: Poll, i: nat)
    requires i < |p.names| && p.names[i] !in p.names[..i]
    ensures var so := First(m, Prefix(p, i));
      && Lookup(so, p.names[i]) == Lookup(m, p.names[i])
      && First(m, Prefix(p, i + 1))
         == so[p.names[i] := if p.names[i] in m then m[p.names[i]] else ReadingIn(p, p.names[i]).bytes]
  {
    var so, next := First(m, Prefix(p, i)), First(m, Prefix(p, i + 1));
    assert p.names[..i + 1] == p.names[..i] + [p.names[i]];
    assert next.Keys == so.Keys + {p.names[i]};
  }

  // ---------------------------------------------------------------- the collector

  class NetworkCollector {
    var previousInterfaces: map<Name, Reading>
    var sessionInterfaces: map<Name, Counter>

    function State(): Memory
      reads this
    {
      Memory(previousInterfaces, sessionInterfaces)
    }

    constructor ()
      ensures State() == AfterAll([])
    {
      previousInterfaces, sessionInterfaces := map[], map[];
    }

    /** The loop over the interfaces, which come out of a set and so are distinct. */
    method Collect(p: Poll) returns (reports: seq<Report>)
      requires forall i, j :: 0 <= i < j < |p.names| ==> p.names[i] != p.names[j]
      modifies this
      ensures State() == After(old(State()), p)
      ensures |reports| == |p.names|
      ensures forall i :: 0 <= i < |reports| ==> reports[i] == ReportOf(old(State()), p, p.names[i])
    {
      hide Round, Rate, Latest, First;
      reports := [];
      ghost var before := State();
      assert After(before, Prefix(p, 0)) == before by {
        NothingListed(before, p);
      }
      for i := 0 to |p.names|
        invariant State() == After(before, Prefix(p, i))
        invariant |reports| == i
        invariant forall j :: 0 <= j < i ==> reports[j] == ReportOf(before, p, p.names[j])
      {
        var name := p.names[i];
        assert name !in p.names[..i];
        LatestStep(before.previous, p, i);
        FirstStep(before.session, p, i);
        var bytes := if name in p.counters then p.counters[name] else Counter(0, 0);
        var now := Reading(p.at, bytes);
        var upload, download := 0.0, 0.0;
        if name in previousInterfaces {
          upload := Rate(previousInterfaces[name], now, Sent);
          download := Rate(previousInterfaces[name], now, Received);
        }
        previousInterfaces := previousInterfaces[name := now];
        if name !in sessionInterfaces {
          sessionInterfaces := sessionInterfaces[name := bytes];
        }
        var start := sessionInterfaces[name];
        reports := reports + [Report(name, bytes, Round(upload, 100), Round(download, 100),
          AtLeastZero(bytes.sent - start.sent), AtLeastZero(bytes.received - start.received))];
      }
      assert Prefix(p, |p.names|) == p;
    }
  }

  // ---------------------------------------------------------------- one interface over a run

  /** The readings of one interface, oldest first. */
  function Seen(polls: seq<Poll>, n: Name): seq<Reading>
  {
    if polls == [] then []
    else
      var last := polls[|polls| - 1];
      Seen(polls[..|polls| - 1], n) + if n in last.names then [ReadingIn(last, n)] else []
  }

  /** Interfaces do not disturb each other: what is remembered of one is its own latest and first reading. */
  lemma {:induction false} RemembersLatestAndFirst(polls: seq<Poll>, n: Name)
    ensures var seen := Seen(polls, n);
      && Lookup(AfterAll(polls).previous, n) == (if seen == [] then None else Some(seen[|seen| - 1]))
      && Lookup(AfterAll(polls).session, n) == (if seen == [] then None else Some(seen[0].bytes))
  {
    if polls != [] {
      RemembersLatestAndFirst(polls[..|polls| - 1], n);
    }
  }

  lemma RatesNeverNegative(m: Memory, p: Poll, n: Name, d: Direction)
    ensures RateAfter(Lookup(m.previous, n), ReadingIn(p, n), d) >= 0.0
    ensures ReportedRate(ReportOf(m, p, n), d) >= 0.0
    ensures SessionBytes(ReportOf(m, p, n), d) >= 0
  {
    RoundWhole(0, 100);
    RoundMonotone(0.0, RateAfter(Lookup(m.previous, n), ReadingIn(p, n), Sent), 100);
    RoundMonotone(0.0, RateAfter(Lookup(m.previous, n), ReadingIn(p, n), Received), 100);
  }

  // ---------------------------------------------------------------- rates against session bytes

  function Volume(rate: real, elapsed: real): real
  {
    rate * elapsed
  }

  /** Rate times the elapsed time it was divided by, for one poll. */
  function Transferred(before: Option<Reading>, now: Reading, d: Direction): real
  {
    if before.None? then 0.0 else Volume(Rate(before.value, now, d), Elapsed(before.value, now))
  }

  /** Added up over the polls that list the interface. */
  function TotalTransferred(polls: seq<Poll>, n: Name, d: Direction): real
  {
    if polls == [] then 0.0
    else
      var front, last := polls[..|polls| - 1], polls[|polls| - 1];
      TotalTransferred(front, n, d)
      + if n in last.names then Transferred(Lookup(AfterAll(front).previous, n), ReadingIn(last, n), d) else 0.0
  }

  /** The bytes gained, counting only steps forward. */
  function Gained(seen: seq<Reading>, d: Direction): nat
  {
    if |seen| < 2 then 0
    else
      Gained(seen[..|seen| - 1], d)
      + AtLeastZero(Bytes(seen[|seen| - 1].bytes, d) - Bytes(seen[|seen| - 2].bytes, d))
  }

  ghost predicate Forward(seen: seq<Reading>, i: int, d: Direction)
    requires 0 < i < |seen|
  {
    Bytes(seen[i].bytes, d) > Bytes(seen[i - 1].bytes, d)
  }

  ghost predicate Backward(seen: seq<Reading>, i: int, d: Direction)
    requires 0 < i < |seen|
  {
    Bytes(seen[i].bytes, d) < Bytes(seen[i - 1].bytes, d)
  }

  ghost predicate NeverForward(seen: seq<Reading>, d: Direction)
  {
    forall i :: 0 < i < |seen| ==> !Forward(seen, i, d)
  }

  ghost predicate NeverBackward(seen: seq<Reading>, d: Direction)
  {
    forall i :: 0 < i < |seen| ==> !Backward(seen, i, d)
  }

  lemma RateTimesElapsed(before: Reading, now: Reading, d: Direction)
    ensures Volume(Rate(before, now, d), Elapsed(before, now))
         == AtLeastZero(Bytes(now.bytes, d) - Bytes(before.bytes, d)) as real
  {
    hide Elapsed;
    assert Elapsed(before, now) > 0.0 by {
      ElapsedPositive(before, now);
    }
    QuotientTimes((Bytes(now.bytes, d) - Bytes(before.bytes, d)) as real, Elapsed(before, now));
  }

  lemma ElapsedPositive(before: Reading, now: Reading)
    ensures Elapsed(before, now) >= 0.001
  {
  }

  lemma GainedNothing(d: Direction)
    ensures Gained([], d) == 0
  {
  }

  lemma GainedStep(before: seq<Reading>, now: Reading, d: Direction)
    ensures Gained(before + [now], d) as real == Gained(before, d) as real
      + Transferred(if before == [] then None else Some(before[|before| - 1]), now, d)
  {
    var seen := before + [now];
    assert seen[..|seen| - 1] == before;
    if before != [] {
      RateTimesElapsed(before[|before| - 1], now, d);
      hide Rate, Elapsed, Volume;
    }
  }

  lemma {:induction false} TransferredIsGained(polls: seq<Poll>, n: Name, d: Direction)
    ensures TotalTransferred(polls, n, d) == Gained(Seen(polls, n), d) as real
  {
    hide Transferred, Gained, AfterAll;
    if polls == [] {
      GainedNothing(d);
    } else {
      var front, last := polls[..|polls| - 1], polls[|polls| - 1];
      TransferredIsGained(front, n, d);
      if n in last.names {
        RemembersLatestAndFirst(front, n);
        GainedStep(Seen(front, n), ReadingIn(last, n), d);
      } else {
        assert Seen(polls, n) == Seen(front, n);
      }
    }
  }

  /** Bytes gained against the whole change of the counter. */
  lemma {:induction false} GainedCoversChange(seen: seq<Reading>, d: Direction)
    requires seen != []
    ensures var change := Bytes(seen[|seen| - 1].bytes, d) - Bytes(seen[0].bytes, d);
      && Gained(seen, d) >= AtLeastZero(change)
      && (Gained(seen, d) == change <==> NeverBackward(seen, d))
      && (Gained(seen, d) == 0 <==> NeverForward(seen, d))
  {
    if |seen| >= 2 {
      var front := seen[..|seen| - 1];
      GainedCoversChange(front, d);
      assert forall i :: 0 < i < |front| ==> Forward(front, i, d) == Forward(seen, i, d);
      assert forall i :: 0 < i < |front| ==> Backward(front, i, d) == Backward(seen, i, d);
      var last := |seen| - 1;
      assert NeverForward(seen, d) <==> NeverForward(front, d) && !Forward(seen, last, d);
      assert NeverBackward(seen, d) <==> NeverBackward(front, d) && !Backward(seen, last, d);
    }
  }

  /**
   Over any run, whatever the counters and the clock do: rate times elapsed time adds up to at least the
   session bytes of the latest report, and to exactly them just when the counter never went backwards
   or never went forwards.
   */
  lemma RatesCoverSession(polls: seq<Poll>, p: Poll, n: Name, d: Direction)
    requires n in p.names
    ensures var total := TotalTransferred(polls + [p], n, d);
      var session := SessionBytes(ReportOf(AfterAll(polls), p, n), d) as real;
      var seen := Seen(polls + [p], n);
      && total >= session
      && (total == session <==> NeverBackward(seen, d) || NeverForward(seen, d))
  {
    hide Rate, After, Round;
    var all := polls + [p];
    assert all[..|all| - 1] == polls;
    TransferredIsGained(all, n, d);
    RemembersLatestAndFirst(polls, n);
    var seen := Seen(all, n);
    GainedCoversChange(seen, d);
    hide NeverForward, NeverBackward, TotalTransferred, AfterAll, Seen;
    var change := Bytes(seen[|seen| - 1].bytes, d) - Bytes(seen[0].bytes, d);
    assert SessionBytes(ReportOf(AfterAll(polls), p, n), d) == AtLeastZero(change);
  }

  // ---------------------------------------------------------------- the rounded rates

  /** The time a rate was divided by; an interface seen for the first time has none. */
  function Span(m: Memory, p: Poll, n: Name): real
  {
    if n in p.names && n in m.previous then Elapsed(m.previous[n], ReadingIn(p, n)) else 0.0
  }

  function Reported(m: Memory, p: Poll, n: Name, d: Direction): real
  {
    Volume(ReportedRate(ReportOf(m, p, n), d), Span(m, p, n))
  }

  function TotalReported(polls: seq<Poll>, n: Name, d: Direction): real
  {
    if polls == [] then 0.0
    else
      var so, last := AfterAll(polls[..|polls| - 1]), polls[|polls| - 1];
      TotalReported(polls[..|polls| - 1], n, d) + Reported(so, last, n, d)
  }

  function TotalElapsed(polls: seq<Poll>, n: Name): real
  {
    if polls == [] then 0.0
    else
      TotalElapsed(polls[..|polls| - 1], n) + Span(AfterAll(polls[..|polls| - 1]), polls[|polls| - 1], n)
  }

  lemma RoundingCost(rate: real, elapsed: real)
    requires elapsed > 0.0
    ensures -0.005 * elapsed <= Volume(Round(rate, 100), elapsed) - Volume(rate, elapsed) <= 0.005 * elapsed
  {
    RoundNear(rate, 100);
    hide Round;
    var off := Round(rate, 100) - rate;
    assert -0.005 <= off <= 0.005;
    ProductNotNegative(off + 0.005, elapsed);
    ProductNotNegative(0.005 - off, elapsed);
    assert off * elapsed == Round(rate, 100) * elapsed - rate * elapsed;
  }

  lemma NoSpan(rate: real)
    ensures Volume(rate, 0.0) == 0.0
  {
  }

  lemma DriftStep(m: Memory, p: Poll, n: Name, d: Direction)
    ensures var exact := if n in p.names then Transferred(Lookup(m.previous, n), ReadingIn(p, n), d) else 0.0;
      var drift := Reported(m, p, n, d) - exact;
      -0.005 * Span(m, p, n) <= drift <= 0.005 * Span(m, p, n)
  {
    hide Rate, Elapsed, Round, Volume;
    if n in p.names && n in m.previous {
      ElapsedPositive(m.previous[n], ReadingIn(p, n));
      RoundingCost(Rate(m.previous[n], ReadingIn(p, n), d), Elapsed(m.previous[n], ReadingIn(p, n)));
    } else {
      NoSpan(ReportedRate(ReportOf(m, p, n), d));
    }
  }

  /** The two-decimal rates of the reports are off by at most half a hundredth of a byte per second elapsed. */
  lemma {:induction false} RoundingDrift(polls: seq<Poll>, n: Name, d: Direction)
    ensures var drift := TotalReported(polls, n, d) - TotalTransferred(polls, n, d);
      -0.005 * TotalElapsed(polls, n) <= drift <= 0.005 * TotalElapsed(polls, n)
  {
    if polls != [] {
      hide Transferred, AfterAll, Span, Reported;
      RoundingDrift(polls[..|polls| - 1], n, d);
      DriftStep(AfterAll(polls[..|polls| - 1]), polls[|polls| - 1], n, d);
    }
  }


  // ---------------------------------------------------------------- a report, exactly

  /** Bytes gained a second, over at least a thousandth of one; none when the counter did not go up. */
  lemma RateExactly(before: Reading, now: Reading, d: Direction)
    ensures var gap := now.at - before.at;
      var gained := Bytes(now.bytes, d) - Bytes(before.bytes, d);
      Rate(before, now, d) ==
        if gained <= 0 then 0.0 else gained as real / (if gap > 0.001 then gap else 0.001)
  {
  }

  /**
   A report over any run: the counter as polled, or zero without one; the rate against the interface's own last
   reading, zero for its first; and the bytes since its own first reading, never negative.
   */
  lemma ReportExactly(polls: seq<Poll>, p: Poll, n: Name)
    requires n in p.names
    ensures var seen := Seen(polls, n);
      var r := ReportOf(AfterAll(polls), p, n);
      var now := Reading(p.at, if n in p.counters then p.counters[n] else Counter(0, 0));
      && r.name == n && r.bytes == now.bytes
      && (seen == [] ==> r.upload == 0.0 && r.download == 0.0 && r.sessionSent == 0 && r.sessionReceived == 0)
      && (seen != [] ==>
            var last, first := seen[|seen| - 1], seen[0].bytes;
            && r.upload == Round(Rate(last, now, Sent), 100) && r.download == Round(Rate(last, now, Received), 100)
            && r.sessionSent == (if now.bytes.sent > first.sent then now.bytes.sent - first.sent else 0)
            && r.sessionReceived
               == if now.bytes.received > first.received then now.bytes.received - first.received else 0)
  {
    RemembersLatestAndFirst(polls, n);
    RoundWhole(0, 100);
    hide Round, Rate, AfterAll, Seen;
  }
}
