/**
 The gaming report: sessions grouped by game in a dictionary, and the game played longest.
 */
module GamingReport {
  import opened Options
  import opened Sorting

  datatype Played = Played(game: string, seconds: real)

  datatype Bucket = Bucket(sessions: nat, seconds: real)

  datatype Groups = Groups(order: seq<string>, buckets: map<string, Bucket>)

  // ---------------------------------------------------------------- the plain definition

  function CountOf(sessions: seq<Played>, game: string): nat
  {
    if sessions == [] then 0
    else CountOf(sessions[..|sessions| - 1], game) + if sessions[|sessions| - 1].game == game then 1 else 0
  }

  function SecondsOf(sessions: seq<Played>, game: string): real
  {
    if sessions == [] then 0.0
    else
      SecondsOf(sessions[..|sessions| - 1], game)
      + if sessions[|sessions| - 1].game == game then sessions[|sessions| - 1].seconds else 0.0
  }

  function TotalSeconds(sessions: seq<Played>): real
  {
    if sessions == [] then 0.0
    else TotalSeconds(sessions[..|sessions| - 1]) + sessions[|sessions| - 1].seconds
  }

  function SumCounts(games: seq<string>, sessions: seq<Played>): nat
  {
    if games == [] then 0 else CountOf(sessions, games[0]) + SumCounts(games[1..], sessions)
  }

  function SumSeconds(games: seq<string>, sessions: seq<Played>): real
  {
    if games == [] then 0.0 else SecondsOf(sessions, games[0]) + SumSeconds(games[1..], sessions)
  }

  /** The position of a game's first session, or the number of sessions when it has none. */
  function FirstOf(sessions: seq<Played>, game: string): (i: nat)
    ensures i <= |sessions|
    ensures i < |sessions| ==> sessions[i].game == game
    ensures forall k :: 0 <= k < i ==> sessions[k].game != game
  {
    if sessions == [] || sessions[0].game == game then 0 else 1 + FirstOf(sessions[1..], game)
  }

  predicate AppearsBefore(games: seq<string>, sessions: seq<Played>, i: nat, j: nat)
    requires i < |games| && j < |games|
  {
    FirstOf(sessions, games[i]) < FirstOf(sessions, games[j])
  }

  /** Games are listed as they first appear. */
  ghost predicate InOrderOfAppearance(games: seq<string>, sessions: seq<Played>)
  {
    forall i, j :: 0 <= i < j < |games| ==> AppearsBefore(games, sessions, i, j)
  }

  /** One bucket a game, holding that game's sessions, in order of first appearance. */
  ghost predicate GroupsAgree(g: Groups, sessions: seq<Played>)
  {
    && Distinct(g.order) && InOrderOfAppearance(g.order, sessions)
    && (forall game :: game in g.order <==> game in g.buckets)
    && (forall i :: 0 <= i < |sessions| ==> sessions[i].game in g.buckets)
    && (forall game :: game in g.buckets ==>
          CountOf(sessions, game) > 0 && g.buckets[game] == Bucket(CountOf(sessions, game), SecondsOf(sessions, game)))
  }

  // ---------------------------------------------------------------- the loop

  lemma {:induction false} NoSessions(sessions: seq<Played>, game: string)
    requires forall i :: 0 <= i < |sessions| ==> sessions[i].game != game
    ensures CountOf(sessions, game) == 0 && SecondsOf(sessions, game) == 0.0
  {
    if sessions != [] {
      NoSessions(sessions[..|sessions| - 1], game);
    }
  }

  lemma AppendSession(sessions: seq<Played>, item: Played, game: string)
    ensures CountOf(sessions + [item], game) == CountOf(sessions, game) + if item.game == game then 1 else 0
    ensures SecondsOf(sessions + [item], game)
         == SecondsOf(sessions, game) + if item.game == game then item.seconds else 0.0
  {
    assert (sessions + [item])[..|sessions|] == sessions;
  }

  lemma FirstIs(sessions: seq<Played>, game: string, i: nat)
    requires i < |sessions| && sessions[i].game == game
    requires forall k :: 0 <= k < i ==> sessions[k].game != game
    ensures FirstOf(sessions, game) == i
  {
  }

  /** A further session leaves the first session of every game seen before where it was. */
  lemma FirstStays(sessions: seq<Played>, item: Played, game: string)
    requires FirstOf(sessions, game) < |sessions|
    ensures FirstOf(sessions + [item], game) == FirstOf(sessions, game)
  {
    FirstIs(sessions + [item], game, FirstOf(sessions, game));
  }

  lemma AppearanceStays(games: seq<string>, sessions: seq<Played>, item: Played)
    requires InOrderOfAppearance(games, sessions)
    requires forall game :: game in games ==> FirstOf(sessions, game) < |sessions|
    ensures InOrderOfAppearance(games, sessions + [item])
  {
    hide FirstOf;
    forall i, j | 0 <= i < j < |games|
      ensures AppearsBefore(games, sessions + [item], i, j)
    {
      assert AppearsBefore(games, sessions, i, j);
      assert games[i] in games && games[j] in games;
      FirstStays(sessions, item, games[i]);
      FirstStays(sessions, item, games[j]);
    }
  }

  lemma AppearanceGrows(games: seq<string>, sessions: seq<Played>, item: Played)
    requires InOrderOfAppearance(games, sessions + [item])
    requires forall game :: game in games ==> FirstOf(sessions, game) < |sessions|
    requires FirstOf(sessions + [item], item.game) == |sessions|
    ensures InOrderOfAppearance(games + [item.game], sessions + [item])
  {
    forall i, j | 0 <= i < j <= |games|
      ensures AppearsBefore(games + [item.game], sessions + [item], i, j)
    {
      GrownPair(games, sessions, item, i, j);
    }
    hide AppearsBefore;
  }

  lemma GrownPair(games: seq<string>, sessions: seq<Played>, item: Played, i: nat, j: nat)
    requires i < j <= |games| && InOrderOfAppearance(games, sessions + [item])
    requires FirstOf(sessions, games[i]) < |sessions|
    requires FirstOf(sessions + [item], item.game) == |sessions|
    ensures AppearsBefore(games + [item.game], sessions + [item], i, j)
  {
    hide FirstOf;
    if j < |games| {
      assert AppearsBefore(games, sessions + [item], i, j);
    } else {
      FirstBefore(sessions, item, games[i]);
    }
  }

  lemma FirstBefore(sessions: seq<Played>, item: Played, game: string)
    requires FirstOf(sessions, game) < |sessions|
    ensures FirstOf(sessions + [item], game) < |sessions|
  {
    FirstStays(sessions, item, game);
  }

  lemma AppearanceStep(games: seq<string>, sessions: seq<Played>, item: Played)
    requires InOrderOfAppearance(games, sessions)
    requires forall game :: game in games ==> FirstOf(sessions, game) < |sessions|
    requires forall i :: 0 <= i < |sessions| ==> sessions[i].game in games
    ensures InOrderOfAppearance(games, sessions + [item])
    ensures item.game !in games ==> InOrderOfAppearance(games + [item.game], sessions + [item])
  {
    hide FirstOf, InOrderOfAppearance;
    AppearanceStays(games, sessions, item);
    if item.game !in games {
      FirstIs(sessions + [item], item.game, |sessions|);
      AppearanceGrows(games, sessions, item);
    }
  }

  lemma {:induction false} Appears(sessions: seq<Played>, game: string)
    requires CountOf(sessions, game) > 0
    ensures FirstOf(sessions, game) < |sessions|
  {
    if FirstOf(sessions, game) == |sessions| {
      NoSessions(sessions, game);
    }
  }

  /** One turn of the loop. */
  lemma GroupStep(g: Groups, g': Groups, sessions: seq<Played>, item: Played)
    requires GroupsAgree(g, sessions)
    requires var b := if item.game in g.buckets then g.buckets[item.game] else Bucket(0, 0.0);
      && g'.order == (if item.game in g.buckets then g.order else g.order + [item.game])
      && g'.buckets == g.buckets[item.game := Bucket(b.sessions + 1, b.seconds + item.seconds)]
    ensures GroupsAgree(g', sessions + [item])
  {
    hide CountOf, SecondsOf, FirstOf, InOrderOfAppearance;
    if item.game !in g.buckets {
      NoSessions(sessions, item.game);
    }
    forall game | game in g.order ensures FirstOf(sessions, game) < |sessions| {
      Appears(sessions, game);
    }
    AppearanceStep(g.order, sessions, item);
    forall game | game in g'.buckets
      ensures CountOf(sessions + [item], game) > 0
      ensures g'.buckets[game] == Bucket(CountOf(sessions + [item], game), SecondsOf(sessions + [item], game))
    {
      AppendSession(sessions, item, game);
    }
  }

  method GroupByGame(sessions: seq<Played>) returns (g: Groups)
    ensures GroupsAgree(g, sessions)
  {
    hide GroupsAgree;
    var order: seq<string> := [];
    var buckets: map<string, Bucket> := map[];
    assert GroupsAgree(Groups(order, buckets), []) by { NothingGrouped(); }
    for i := 0 to |sessions|
      invariant GroupsAgree(Groups(order, buckets), sessions[..i])
    {
      var item := sessions[i];
      ghost var before := Groups(order, buckets);
      if item.game !in buckets {
        order := order + [item.game];
        buckets := buckets[item.game := Bucket(0, 0.0)];
      }
      var b := buckets[item.game];
      buckets := buckets[item.game := Bucket(b.sessions + 1, b.seconds + item.seconds)];
      GroupStep(before, Groups(order, buckets), sessions[..i], item);
      assert sessions[..i + 1] == sessions[..i] + [item];
    }
    assert sessions[..|sessions|] == sessions;
    g := Groups(order, buckets);
  }

  lemma NothingGrouped()
    ensures GroupsAgree(Groups([], map[]), [])
  {
  }

  /** The first of the longest-played games. */
  method MostPlayed(g: Groups) returns (best: nat)
    requires g.order != [] && forall i :: 0 <= i < |g.order| ==> g.order[i] in g.buckets
    ensures best < |g.order|
    ensures forall i :: 0 <= i < |g.order| ==> g.buckets[g.order[i]].seconds <= g.buckets[g.order[best]].seconds
    ensures forall i :: 0 <= i < best ==> g.buckets[g.order[i]].seconds < g.buckets[g.order[best]].seconds
  {
    best := 0;
    for i := 1 to |g.order|
      invariant best < i
      invariant forall k :: 0 <= k < i ==> g.buckets[g.order[k]].seconds <= g.buckets[g.order[best]].seconds
      invariant forall k :: 0 <= k < best ==> g.buckets[g.order[k]].seconds < g.buckets[g.order[best]].seconds
    {
      if g.buckets[g.order[i]].seconds > g.buckets[g.order[best]].seconds {
        best := i;
      }
    }
  }

  lemma SomeGame(g: Groups, sessions: seq<Played>)
    requires GroupsAgree(g, sessions)
    ensures sessions != [] ==> g.order != []
  {
    if sessions != [] {
      assert sessions[0].game in g.order;
    }
  }

  /**
   The grouping and the game played longest, as the report puts them together. Of several games with the
   most seconds it names the one that was played first.
   */
  method MostPlayedGame(sessions: seq<Played>) returns (g: Groups, most: Option<string>)
    ensures GroupsAgree(g, sessions)
    ensures most.None? <==> sessions == []
    ensures most.Some? ==> forall i :: 0 <= i < |sessions| ==>
              var game := sessions[i].game;
              || SecondsOf(sessions, game) < SecondsOf(sessions, most.value)
              || (SecondsOf(sessions, game) == SecondsOf(sessions, most.value)
                  && FirstOf(sessions, most.value) <= FirstOf(sessions, game))
  {
    g := GroupByGame(sessions);
    SomeGame(g, sessions);
    if g.order == [] {
      return g, None;
    }
    var best := MostPlayed(g);
    most := Some(g.order[best]);
    Appears(sessions, g.order[best]);
    forall i | 0 <= i < |sessions|
      ensures var game := sessions[i].game;
        || SecondsOf(sessions, game) < SecondsOf(sessions, most.value)
        || (SecondsOf(sessions, game) == SecondsOf(sessions, most.value)
            && FirstOf(sessions, most.value) <= FirstOf(sessions, game))
    {
      var k :| 0 <= k < |g.order| && g.order[k] == sessions[i].game;
      assert k < best ==> g.buckets[g.order[k]].seconds < g.buckets[g.order[best]].seconds;
      assert best < k ==> AppearsBefore(g.order, sessions, best, k);
    }
  }

  // ---------------------------------------------------------------- conservation

  lemma {:induction false} SumOfNothing(games: seq<string>)
    ensures SumCounts(games, []) == 0 && SumSeconds(games, []) == 0.0
  {
    if games != [] {
      SumOfNothing(games[1..]);
    }
  }

  lemma {:induction false} SumStep(games: seq<string>, sessions: seq<Played>)
    requires Distinct(games) && sessions != []
    ensures var last := sessions[|sessions| - 1];
      var front := sessions[..|sessions| - 1];
      && SumCounts(games, sessions) == SumCounts(games, front) + (if last.game in games then 1 else 0)
      && SumSeconds(games, sessions) == SumSeconds(games, front) + (if last.game in games then last.seconds else 0.0)
  {
    if games != [] {
      assert games == [games[0]] + games[1..];
      SumStep(games[1..], sessions);
    }
  }

  /** Grouping loses and invents nothing: the buckets add up to all sessions and all seconds. */
  lemma {:induction false} GroupsConserve(games: seq<string>, sessions: seq<Played>)
    requires Distinct(games)
    requires forall i :: 0 <= i < |sessions| ==> sessions[i].game in games
    ensures SumCounts(games, sessions) == |sessions|
    ensures SumSeconds(games, sessions) == TotalSeconds(sessions)
  {
    if sessions == [] {
      SumOfNothing(games);
    } else {
      SumStep(games, sessions);
      GroupsConserve(games, sessions[..|sessions| - 1]);
    }
  }
}
