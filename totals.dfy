/**
 * The totals and end-of-game calculator (`computeTotalsByRound`): running
 * per-player totals after every round, the first round at which some total
 * reaches the threshold, and the tied winners at that round.
 */
module Totals {
  import opened Common

  /** Player ids are opaque unique strings. */
  type PlayerId = string

  datatype Player = Player(id: PlayerId, name: string)

  /** A recorded round: a timestamp and a score for (some of) the players. */
  datatype Round = Round(ts: string, scores: map<PlayerId, int>)

  /** The game ends after the first round in which some total reaches this. */
  const EndThreshold: int := 200

  /** What the end-of-game detection reports. */
  datatype GameEnd = GameEnd(ended: bool, endIndex: Option<nat>, winners: seq<PlayerId>, maxTotal: Option<int>)

  /** A player's score in a round; a player without an entry scored 0. */
  function ScoreIn(r: Round, id: PlayerId): int {
    if id in r.scores then r.scores[id] else 0
  }

  /** The sum of a player's scores over the given rounds. */
  function Total(rounds: seq<Round>, id: PlayerId): int {
    if rounds == [] then 0 else Total(rounds[..|rounds| - 1], id) + ScoreIn(rounds[|rounds| - 1], id)
  }

  /** A player's total after round `i` (0-based), counting rounds 0 through `i`. */
  function TotalThrough(rounds: seq<Round>, i: nat, id: PlayerId): int
    requires i < |rounds|
  {
    Total(rounds[..i + 1], id)
  }

  function Ids(players: seq<Player>): set<PlayerId> {
    set k | 0 <= k < |players| :: players[k].id
  }

  predicate UniqueIds(players: seq<Player>) {
    forall i, j :: 0 <= i < j < |players| ==> players[i].id != players[j].id
  }

  /** The totals of every player after the first `n` rounds. */
  function TotalsAfter(players: seq<Player>, rounds: seq<Round>, n: nat): (t: map<PlayerId, int>)
    requires n <= |rounds|
  {
    map id | id in Ids(players) :: Total(rounds[..n], id)
  }

  /** Each player's entry after `n` rounds is the sum of that player's first `n` scores. */
  lemma TotalsAfterAt(players: seq<Player>, rounds: seq<Round>, n: nat)
    requires n <= |rounds|
    ensures TotalsAfter(players, rounds, n).Keys == Ids(players)
    ensures forall k :: 0 <= k < |players| ==>
      players[k].id in TotalsAfter(players, rounds, n) && TotalsAfter(players, rounds, n)[players[k].id] == Total(rounds[..n], players[k].id)
  {
  }

  /** The snapshots of the totals after each of the first `n` rounds. */
  function Snapshots(players: seq<Player>, rounds: seq<Round>, n: nat): (s: seq<map<PlayerId, int>>)
    requires n <= |rounds|
    ensures |s| == n
  {
    if n == 0 then [] else Snapshots(players, rounds, n - 1) + [TotalsAfter(players, rounds, n)]
  }

  /** There is one snapshot per round, and snapshot `i` holds the totals after round `i`. */
  lemma {:induction false} SnapshotsAt(players: seq<Player>, rounds: seq<Round>, n: nat)
    requires n <= |rounds|
    ensures forall i :: 0 <= i < n ==> Snapshots(players, rounds, n)[i] == TotalsAfter(players, rounds, i + 1)
  {
    if n > 0 {
      SnapshotsAt(players, rounds, n - 1);
    }
  }

  /** With no rounds every total is 0; otherwise the current totals are the last snapshot. */
  lemma TotalsNowFacts(players: seq<Player>, rounds: seq<Round>)
    ensures rounds == [] ==> TotalsAfter(players, rounds, 0).Keys == Ids(players)
    ensures rounds == [] ==> forall id :: id in TotalsAfter(players, rounds, 0) ==> TotalsAfter(players, rounds, 0)[id] == 0
    ensures rounds != [] ==> TotalsAfter(players, rounds, |rounds|) == Snapshots(players, rounds, |rounds|)[|rounds| - 1]
  {
    if rounds != [] {
      SnapshotsAt(players, rounds, |rounds|);
    }
  }

  /** Some player's total over `rs` has reached the threshold. */
  predicate SomeReaches(players: seq<Player>, rs: seq<Round>) {
    players != [] && (Total(rs, players[0].id) >= EndThreshold || SomeReaches(players[1..], rs))
  }

  /** Some player's total after round `i` (0-based) has reached the threshold. */
  predicate Reached(players: seq<Player>, rounds: seq<Round>, i: nat)
    requires i < |rounds|
  {
    SomeReaches(players, rounds[..i + 1])
  }

  lemma {:induction false} SomeReachesIff(players: seq<Player>, rs: seq<Round>)
    ensures SomeReaches(players, rs) <==> exists k :: 0 <= k < |players| && Total(rs, players[k].id) >= EndThreshold
  {
    if players != [] {
      SomeReachesIff(players[1..], rs);
      if SomeReaches(players[1..], rs) {
        var k :| 0 <= k < |players[1..]| && Total(rs, players[1..][k].id) >= EndThreshold;
        assert players[k + 1] == players[1..][k];
      }
      if exists k :: 0 <= k < |players| && Total(rs, players[k].id) >= EndThreshold {
        var k :| 0 <= k < |players| && Total(rs, players[k].id) >= EndThreshold;
        if k > 0 { assert players[1..][k - 1] == players[k]; }
      }
    }
  }

  /** `Math.max` over the players' entries of `t` (the roster is non-empty). */
  function MaxTotal(players: seq<Player>, t: map<PlayerId, int>): int
    requires |players| > 0
    requires forall k :: 0 <= k < |players| ==> players[k].id in t
  {
    if |players| == 1 then t[players[0].id]
    else
      assert forall k :: 0 <= k < |players| - 1 ==> players[1..][k] == players[k + 1];
      var rest := MaxTotal(players[1..], t);
      if t[players[0].id] >= rest then t[players[0].id] else rest
  }

  /** `MaxTotal` is an upper bound of the players' entries and is one of them. */
  lemma {:induction false} MaxTotalIsMax(players: seq<Player>, t: map<PlayerId, int>)
    requires |players| > 0
    requires forall k :: 0 <= k < |players| ==> players[k].id in t
    ensures forall k :: 0 <= k < |players| ==> t[players[k].id] <= MaxTotal(players, t)
    ensures exists k :: 0 <= k < |players| && t[players[k].id] == MaxTotal(players, t)
  {
    if |players| > 1 {
      var tail := players[1..];
      assert forall k :: 0 <= k < |tail| ==> tail[k] == players[k + 1];
      MaxTotalIsMax(tail, t);
      var j :| 0 <= j < |tail| && t[tail[j].id] == MaxTotal(tail, t);
      if t[players[0].id] < MaxTotal(tail, t) {
        assert t[players[j + 1].id] == MaxTotal(players, t);
      } else {
        assert t[players[0].id] == MaxTotal(players, t);
      }
    } else {
      assert t[players[0].id] == MaxTotal(players, t);
    }
  }

  /** The first round, from index `from` on, after which the threshold is reached. */
  function FirstEndFrom(players: seq<Player>, rounds: seq<Round>, from: nat): (r: Option<nat>)
    requires from <= |rounds|
    ensures r.Some? ==> from <= r.value < |rounds| && Reached(players, rounds, r.value)
    ensures r.Some? ==> forall j :: from <= j < r.value ==> !Reached(players, rounds, j)
    ensures r.None? ==> forall j :: from <= j < |rounds| ==> !Reached(players, rounds, j)
    decreases |rounds| - from
  {
    if from == |rounds| then None
    else if Reached(players, rounds, from) then Some(from)
    else FirstEndFrom(players, rounds, from + 1)
  }

  function EndIndex(players: seq<Player>, rounds: seq<Round>): Option<nat> {
    FirstEndFrom(players, rounds, 0)
  }

  /** What the scan has noted as the end after looking at the first `n` rounds. */
  function EndSeenIn(players: seq<Player>, rounds: seq<Round>, n: nat): Option<nat>
    requires n <= |rounds|
  {
    if n == 0 then None
    else match EndSeenIn(players, rounds, n - 1)
      case Some(e) => Some(e)
      case None => if Reached(players, rounds, n - 1) then Some(n - 1) else None
  }

  /** Keeping the first hit while scanning forward finds the first round that reaches the threshold. */
  lemma {:induction false} EndSeenInIsFirst(players: seq<Player>, rounds: seq<Round>, n: nat)
    requires n <= |rounds|
    ensures EndSeenIn(players, rounds, n).Some? ==>
      var e := EndSeenIn(players, rounds, n).value;
      e < n && Reached(players, rounds, e) && forall j :: 0 <= j < e ==> !Reached(players, rounds, j)
    ensures EndSeenIn(players, rounds, n).None? ==> forall j :: 0 <= j < n ==> !Reached(players, rounds, j)
  {
    if n > 0 {
      EndSeenInIsFirst(players, rounds, n - 1);
    }
  }

  /** The scan over all rounds yields `EndIndex`. */
  lemma EndSeenInAllIsEndIndex(players: seq<Player>, rounds: seq<Round>)
    ensures EndSeenIn(players, rounds, |rounds|) == EndIndex(players, rounds)
  {
    EndSeenInIsFirst(players, rounds, |rounds|);
  }

  /** The ids, in roster order, of the players whose entry in `t` equals `m`. */
  function Winners(players: seq<Player>, t: map<PlayerId, int>, m: int): (w: seq<PlayerId>)
    requires forall k :: 0 <= k < |players| ==> players[k].id in t
  {
    if players == [] then []
    else
      assert forall k :: 1 <= k < |players| ==> players[k] == players[1..][k - 1];
      var rest := Winners(players[1..], t, m);
      if t[players[0].id] == m then [players[0].id] + rest else rest
  }

  /** A player's id is among the winners exactly when that player's entry equals `m`. */
  lemma {:induction false} WinnersMembership(players: seq<Player>, t: map<PlayerId, int>, m: int)
    requires forall k :: 0 <= k < |players| ==> players[k].id in t
    ensures forall x :: x in Winners(players, t, m) <==>
      exists k :: 0 <= k < |players| && players[k].id == x && t[x] == m
  {
    if players != [] {
      var tail := players[1..];
      assert forall k :: 0 <= k < |tail| ==> tail[k] == players[k + 1];
      WinnersMembership(tail, t, m);
      forall x | exists k :: 0 <= k < |players| && players[k].id == x && t[x] == m
        ensures x in Winners(players, t, m)
      {
        var k :| 0 <= k < |players| && players[k].id == x && t[x] == m;
        if k > 0 { assert tail[k - 1].id == x; }
      }
    }
  }

  /** The `end` part of what `computeTotalsByRound` returns. */
  function EndOf(players: seq<Player>, rounds: seq<Round>): GameEnd {
    match EndIndex(players, rounds)
    case None => GameEnd(false, None, [], None)
    case Some(e) =>
      TotalsAfterAt(players, rounds, e + 1);
      var t := TotalsAfter(players, rounds, e + 1);
      var m := MaxTotal(players, t);
      GameEnd(true, Some(e), Winners(players, t, m), Some(m))
  }

  lemma TotalSnoc(rounds: seq<Round>, i: nat, id: PlayerId)
    requires i < |rounds|
    ensures Total(rounds[..i + 1], id) == Total(rounds[..i], id) + ScoreIn(rounds[i], id)
  {
    assert rounds[..i + 1][..i] == rounds[..i];
  }

  /** Totals over consecutive stretches of rounds add up. */
  lemma {:induction false} TotalAppend(a: seq<Round>, b: seq<Round>, id: PlayerId)
    ensures Total(a + b, id) == Total(a, id) + Total(b, id)
    decreases |b|
  {
    if b != [] {
      assert (a + b)[..|a + b| - 1] == a + b[..|b| - 1];
      TotalAppend(a, b[..|b| - 1], id);
    } else {
      assert a + b == a;
    }
  }

  /** A map with the roster's keys is fixed by its values at the players' ids. */
  lemma SameAtEveryPlayer<V>(players: seq<Player>, m1: map<PlayerId, V>, m2: map<PlayerId, V>)
    requires m1.Keys == Ids(players) && m2.Keys == Ids(players)
    requires forall k :: 0 <= k < |players| ==> m1[players[k].id] == m2[players[k].id]
    ensures m1 == m2
  {
    forall id | id in m1 ensures m1[id] == m2[id] {
      var k :| 0 <= k < |players| && players[k].id == id;
    }
  }

  lemma IdsOfPrefix(players: seq<Player>, j: nat)
    requires j < |players|
    ensures Ids(players[..j + 1]) == Ids(players[..j]) + {players[j].id}
  {
    var p := players[..j + 1];
    forall id | id in Ids(p) ensures id in Ids(players[..j]) + {players[j].id} {
      var k :| 0 <= k < |p| && p[k].id == id;
      if k < j { assert players[..j][k] == p[k]; }
    }
    forall id | id in Ids(players[..j]) ensures id in Ids(p) {
      var k :| 0 <= k < j && players[..j][k].id == id;
      assert p[k] == players[..j][k];
    }
    assert p[j] == players[j];
  }

  /** The largest total after round `i` reaches the threshold exactly when some total does. */
  lemma ReachedIsMaxAtLeastThreshold(players: seq<Player>, rounds: seq<Round>, i: nat)
    requires i < |rounds| && |players| > 0
    ensures Reached(players, rounds, i) <==> MaxTotal(players, TotalsAfter(players, rounds, i + 1)) >= EndThreshold
  {
    TotalsAfterAt(players, rounds, i + 1);
    SomeReachesIff(players, rounds[..i + 1]);
    var t := TotalsAfter(players, rounds, i + 1);
    var m := MaxTotal(players, t);
    MaxTotalIsMax(players, t);
    if Reached(players, rounds, i) {
      var k :| 0 <= k < |players| && Total(rounds[..i + 1], players[k].id) >= EndThreshold;
      assert t[players[k].id] <= m;
    }
  }

  lemma ReachedFromTotals(players: seq<Player>, rounds: seq<Round>, i: nat, totals: map<PlayerId, int>)
    requires i < |rounds| && totals == TotalsAfter(players, rounds, i + 1)
    ensures forall k :: 0 <= k < |players| ==> players[k].id in totals
    ensures Reached(players, rounds, i) <==> |players| > 0 && MaxTotal(players, totals) >= EndThreshold
  {
    TotalsAfterAt(players, rounds, i + 1);
    if |players| > 0 {
      ReachedIsMaxAtLeastThreshold(players, rounds, i);
    }
  }

  /** The inner loop of `computeTotalsByRound`: add round `i`'s scores to the running totals. */
  method AddRound(players: seq<Player>, rounds: seq<Round>, i: nat, totals: map<PlayerId, int>)
      returns (next: map<PlayerId, int>)
    requires UniqueIds(players)
    requires i < |rounds| && totals == TotalsAfter(players, rounds, i)
    ensures next == TotalsAfter(players, rounds, i + 1)
  {
    TotalsAfterAt(players, rounds, i);
    TotalsAfterAt(players, rounds, i + 1);
    var r := rounds[i];
    next := totals;
    var j := 0;
    while j < |players|
      invariant 0 <= j <= |players|
      invariant next.Keys == Ids(players)
      invariant forall k :: 0 <= k < j ==> next[players[k].id] == Total(rounds[..i + 1], players[k].id)
      invariant forall k :: j <= k < |players| ==> next[players[k].id] == Total(rounds[..i], players[k].id)
    {
      var id := players[j].id;
      var v := if id in r.scores then r.scores[id] else 0;
      TotalSnoc(rounds, i, id);
      assert forall k :: 0 <= k < |players| && k != j ==> players[k].id != id;
      next := next[id := next[id] + v];
      j := j + 1;
    }
    SameAtEveryPlayer(players, next, TotalsAfter(players, rounds, i + 1));
  }

  /** The first loop of `computeTotalsByRound`: every player starts at 0. */
  method ZeroTotals(players: seq<Player>, rounds: seq<Round>) returns (totals: map<PlayerId, int>)
    ensures totals == TotalsAfter(players, rounds, 0)
  {
    totals := map[];
    var j := 0;
    while j < |players|
      invariant 0 <= j <= |players|
      invariant totals.Keys == Ids(players[..j])
      invariant forall id :: id in totals ==> totals[id] == 0
    {
      IdsOfPrefix(players, j);
      totals := totals[players[j].id := 0];
      j := j + 1;
    }
    assert players[..|players|] == players;
    TotalsAfterAt(players, rounds, 0);
    SameAtEveryPlayer(players, totals, TotalsAfter(players, rounds, 0));
  }

  /**
   * `computeTotalsByRound`: one pass over the rounds that keeps a running total
   * per player, records a snapshot after every round, and notes the first round
   * at which the largest total is at least the threshold; then collects the
   * players who hold the largest total at that round.
   */
  method ComputeTotalsByRound(players: seq<Player>, rounds: seq<Round>)
      returns (totalsNow: map<PlayerId, int>, totalsAfterRound: seq<map<PlayerId, int>>, end: GameEnd)
    requires UniqueIds(players)
    ensures |totalsAfterRound| == |rounds|
    ensures forall i :: 0 <= i < |rounds| ==> totalsAfterRound[i] == TotalsAfter(players, rounds, i + 1)
    ensures totalsNow == TotalsAfter(players, rounds, |rounds|)
    ensures rounds != [] ==> totalsNow == totalsAfterRound[|rounds| - 1]
    ensures rounds == [] ==> totalsNow.Keys == Ids(players) && forall id :: id in totalsNow ==> totalsNow[id] == 0
    ensures end == EndOf(players, rounds)
  {
    var totals := ZeroTotals(players, rounds);
    totalsAfterRound := [];
    var endIndex: Option<nat> := None;
    var i := 0;
    while i < |rounds|
      invariant 0 <= i <= |rounds|
      invariant totals == TotalsAfter(players, rounds, i)
      invariant totalsAfterRound == Snapshots(players, rounds, i)
      invariant endIndex == EndSeenIn(players, rounds, i)
    {
      totals := AddRound(players, rounds, i, totals);
      totalsAfterRound := totalsAfterRound + [totals];
      ReachedFromTotals(players, rounds, i, totals);
      var reached := |players| > 0 && MaxTotal(players, totals) >= EndThreshold;
      if endIndex.None? && reached {
        endIndex := Some(i);
      }
      i := i + 1;
    }

    EndSeenInAllIsEndIndex(players, rounds);
    SnapshotsAt(players, rounds, |rounds|);
    TotalsNowFacts(players, rounds);
    totalsNow := totals;
    end := Conclude(players, rounds, totalsAfterRound, endIndex);
  }

  /**
   * The end of `computeTotalsByRound`: given the first round that reached the
   * threshold, if any, take the largest total at that round and its holders.
   */
  method Conclude(players: seq<Player>, rounds: seq<Round>, totalsAfterRound: seq<map<PlayerId, int>>, endIndex: Option<nat>)
      returns (end: GameEnd)
    requires |totalsAfterRound| == |rounds|
    requires forall k :: 0 <= k < |rounds| ==> totalsAfterRound[k] == TotalsAfter(players, rounds, k + 1)
    requires endIndex == EndIndex(players, rounds)
    ensures end == EndOf(players, rounds)
  {
    var winners: seq<PlayerId> := [];
    var maxAtEnd: Option<int> := None;
    if endIndex.Some? {
      TotalsAfterAt(players, rounds, endIndex.value + 1);
      var tEnd := totalsAfterRound[endIndex.value];
      var m := MaxTotal(players, tEnd);
      maxAtEnd := Some(m);
      winners := Winners(players, tEnd, m);
    }
    end := GameEnd(endIndex.Some?, endIndex, winners, maxAtEnd);
  }

  lemma ReachedIff(players: seq<Player>, rounds: seq<Round>, i: nat)
    requires i < |rounds|
    ensures Reached(players, rounds, i) <==>
      exists k :: 0 <= k < |players| && TotalThrough(rounds, i, players[k].id) >= EndThreshold
  {
    SomeReachesIff(players, rounds[..i + 1]);
  }

  /**
   * The game has ended exactly when, after some round, some player's total is at
   * least the threshold; the end is the first such round, and before it every
   * total of every player was below the threshold.
   */
  lemma EndIsFirstRoundReaching(players: seq<Player>, rounds: seq<Round>)
    ensures EndOf(players, rounds).ended <==> EndOf(players, rounds).endIndex.Some?
    ensures EndOf(players, rounds).ended <==>
      exists i, k :: 0 <= i < |rounds| && 0 <= k < |players| && TotalThrough(rounds, i, players[k].id) >= EndThreshold
    ensures EndOf(players, rounds).ended ==>
      var e := EndOf(players, rounds).endIndex.value;
      && e < |rounds|
      && (exists k :: 0 <= k < |players| && TotalThrough(rounds, e, players[k].id) >= EndThreshold)
      && (forall j, k :: 0 <= j < e && 0 <= k < |players| ==> TotalThrough(rounds, j, players[k].id) < EndThreshold)
  {
    forall i | 0 <= i < |rounds|
      ensures Reached(players, rounds, i) <==>
        exists k :: 0 <= k < |players| && TotalThrough(rounds, i, players[k].id) >= EndThreshold
    {
      ReachedIff(players, rounds, i);
    }
    var g := EndOf(players, rounds);
    if g.ended {
      var e := g.endIndex.value;
      assert Reached(players, rounds, e);
      forall j, k | 0 <= j < e && 0 <= k < |players|
        ensures TotalThrough(rounds, j, players[k].id) < EndThreshold
      {
        assert !Reached(players, rounds, j);
      }
    } else {
      forall i, k | 0 <= i < |rounds| && 0 <= k < |players|
        ensures TotalThrough(rounds, i, players[k].id) < EndThreshold
      {
        assert !Reached(players, rounds, i);
      }
    }
  }

  /**
   * When the game has ended, the reported maximum is the largest total at the end
   * round and is at least the threshold, and the winners are exactly the players
   * holding it (so there is at least one, and ties give several).
   */
  lemma WinnersAreTopScorers(players: seq<Player>, rounds: seq<Round>)
    requires EndOf(players, rounds).ended
    ensures
      var g := EndOf(players, rounds);
      var e := g.endIndex.value;
      var m := g.maxTotal.value;
      && g.endIndex.Some? && g.maxTotal.Some? && e < |rounds|
      && m >= EndThreshold
      && (forall k :: 0 <= k < |players| ==> Total(rounds[..e + 1], players[k].id) <= m)
      && g.winners != []
      && (forall x :: x in g.winners <==>
            exists k :: 0 <= k < |players| && players[k].id == x && Total(rounds[..e + 1], x) == m)
  {
    var g := EndOf(players, rounds);
    var e := g.endIndex.value;
    TotalsAfterAt(players, rounds, e + 1);
    var t := TotalsAfter(players, rounds, e + 1);
    MaxTotalIsMax(players, t);
    ReachedIsMaxAtLeastThreshold(players, rounds, e);
    WinnersMembership(players, t, MaxTotal(players, t));
    var k :| 0 <= k < |players| && t[players[k].id] == MaxTotal(players, t);
    assert players[k].id in g.winners;
  }

  /**
   * The winners keep roster order: they are the ids of an increasing selection of
   * roster positions, each holding the maximum.
   */
  lemma {:induction false} WinnersFollowRoster(players: seq<Player>, t: map<PlayerId, int>, m: int)
      returns (pos: seq<nat>)
    requires forall k :: 0 <= k < |players| ==> players[k].id in t
    ensures Selects(players, t, m, pos, Winners(players, t, m))
  {
    if players == [] {
      pos := [];
    } else {
      var tail := players[1..];
      assert forall k :: 0 <= k < |tail| ==> tail[k] == players[k + 1];
      var rest := WinnersFollowRoster(tail, t, m);
      var shifted := ShiftSelection(players, t, m, rest, Winners(tail, t, m));
      if t[players[0].id] == m {
        assert Winners(players, t, m) == [players[0].id] + Winners(tail, t, m);
        pos := ConsSelection(players, t, m, shifted, Winners(tail, t, m));
      } else {
        assert Winners(players, t, m) == Winners(tail, t, m);
        pos := shifted;
      }
    }
  }

  /** `pos` is an increasing list of roster positions whose ids are `w` and whose entries equal `m`. */
  predicate Selects(players: seq<Player>, t: map<PlayerId, int>, m: int, pos: seq<nat>, w: seq<PlayerId>)
    requires forall k :: 0 <= k < |players| ==> players[k].id in t
  {
    && |pos| == |w|
    && (forall i :: 0 <= i < |pos| ==> pos[i] < |players| && players[pos[i]].id == w[i] && t[w[i]] == m)
    && (forall i, j :: 0 <= i < j < |pos| ==> pos[i] < pos[j])
  }

  lemma ConsSelection(players: seq<Player>, t: map<PlayerId, int>, m: int, rest: seq<nat>, w: seq<PlayerId>)
      returns (pos: seq<nat>)
    requires players != []
    requires forall k :: 0 <= k < |players| ==> players[k].id in t
    requires t[players[0].id] == m
    requires Selects(players, t, m, rest, w)
    requires forall i :: 0 <= i < |rest| ==> rest[i] > 0
    ensures Selects(players, t, m, pos, [players[0].id] + w)
  {
    pos := [0] + rest;
    assert forall i :: 1 <= i < |pos| ==> pos[i] == rest[i - 1];
  }

  lemma ShiftSelection(players: seq<Player>, t: map<PlayerId, int>, m: int, rest: seq<nat>, w: seq<PlayerId>)
      returns (shifted: seq<nat>)
    requires players != []
    requires forall k :: 0 <= k < |players| ==> players[k].id in t
    requires Selects(players[1..], t, m, rest, w)
    ensures Selects(players, t, m, shifted, w)
    ensures forall i :: 0 <= i < |shifted| ==> shifted[i] > 0
  {
    shifted := seq(|rest|, i requires 0 <= i < |rest| => rest[i] + 1);
    assert forall i :: 0 <= i < |shifted| ==> players[shifted[i]] == players[1..][rest[i]];
  }

  /**
   * Replacing round `idx` leaves the totals before it alone and, from it on,
   * shifts every total by exactly the change in that round's score.
   */
  lemma EditShiftsLaterTotals(rounds: seq<Round>, idx: nat, r: Round, id: PlayerId, n: nat)
    requires idx < |rounds| && n <= |rounds|
    ensures n <= idx ==> Total(rounds[idx := r][..n], id) == Total(rounds[..n], id)
    ensures n > idx ==>
      Total(rounds[idx := r][..n], id) == Total(rounds[..n], id) - ScoreIn(rounds[idx], id) + ScoreIn(r, id)
  {
    var edited := rounds[idx := r];
    if n <= idx {
      assert edited[..n] == rounds[..n];
    } else {
      var pre := rounds[..idx];
      var post := rounds[idx + 1..n];
      assert edited[..n] == pre + [r] + post;
      assert rounds[..n] == pre + [rounds[idx]] + post;
      TotalAppend(pre + [r], post, id);
      TotalAppend(pre, [r], id);
      TotalAppend(pre + [rounds[idx]], post, id);
      TotalAppend(pre, [rounds[idx]], id);
      assert [r][..0] == [] && [rounds[idx]][..0] == [];
    }
  }
}
