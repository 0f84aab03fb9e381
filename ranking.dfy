/**
 * `sortedPlayersByTotal`: a copy of the roster ordered by current total, highest
 * first, players with equal totals ordered by name. The ordering of names is
 * code-point lexicographic order.
 */
module Ranking {
  import opened Totals

  /** `totalsNow[id] ?? 0`. */
  function TotalOrZero(totals: map<PlayerId, int>, id: PlayerId): int {
    if id in totals then totals[id] else 0
  }

  /** Lexicographic three-way comparison of names: negative, zero or positive. */
  function CompareNames(a: string, b: string): int {
    if a == [] && b == [] then 0
    else if a == [] then -1
    else if b == [] then 1
    else if a[0] < b[0] then -1
    else if a[0] > b[0] then 1
    else CompareNames(a[1..], b[1..])
  }

  /** The sort comparator: negative when `a` ranks before `b`. */
  function Compare(totals: map<PlayerId, int>, a: Player, b: Player): int {
    var da := TotalOrZero(totals, a.id);
    var db := TotalOrZero(totals, b.id);
    if db != da then db - da else CompareNames(a.name, b.name)
  }

  lemma {:induction false} CompareNamesAntisymmetric(a: string, b: string)
    ensures CompareNames(a, b) == -CompareNames(b, a)
    ensures CompareNames(a, b) == 0 <==> a == b
  {
    if a != [] && b != [] && a[0] == b[0] {
      CompareNamesAntisymmetric(a[1..], b[1..]);
      if a[1..] == b[1..] {
        assert a == [a[0]] + a[1..] && b == [b[0]] + b[1..];
      }
    }
  }

  lemma {:induction false} CompareNamesTransitive(a: string, b: string, c: string)
    requires CompareNames(a, b) <= 0 && CompareNames(b, c) <= 0
    ensures CompareNames(a, c) <= 0
  {
    if a != [] && b != [] && c != [] && a[0] == b[0] && b[0] == c[0] {
      CompareNamesTransitive(a[1..], b[1..], c[1..]);
    }
  }

  /** The comparator is a total preorder: antisymmetric in sign and transitive. */
  lemma CompareAntisymmetric(totals: map<PlayerId, int>, a: Player, b: Player)
    ensures Compare(totals, a, b) < 0 <==> Compare(totals, b, a) > 0
  {
    CompareNamesAntisymmetric(a.name, b.name);
  }

  lemma CompareTransitive(totals: map<PlayerId, int>, a: Player, b: Player, c: Player)
    requires Compare(totals, a, b) <= 0 && Compare(totals, b, c) <= 0
    ensures Compare(totals, a, c) <= 0
  {
    var da, db, dc := TotalOrZero(totals, a.id), TotalOrZero(totals, b.id), TotalOrZero(totals, c.id);
    if da == db && db == dc {
      CompareNamesTransitive(a.name, b.name, c.name);
    }
  }

  /** Ordered by the comparator: no player comes after one it ranks before. */
  predicate Ranked(totals: map<PlayerId, int>, s: seq<Player>) {
    forall i, j :: 0 <= i < j < |s| ==> Compare(totals, s[i], s[j]) <= 0
  }

  /** Insert `x` into a ranked list after every player that does not rank below it. */
  function Insert(totals: map<PlayerId, int>, x: Player, s: seq<Player>): seq<Player> {
    if s == [] then [x]
    else if Compare(totals, x, s[0]) < 0 then [x] + s
    else [s[0]] + Insert(totals, x, s[1..])
  }

  lemma {:induction false} InsertPermutes(totals: map<PlayerId, int>, x: Player, s: seq<Player>)
    ensures multiset(Insert(totals, x, s)) == multiset(s) + multiset{x}
  {
    if s != [] && Compare(totals, x, s[0]) >= 0 {
      InsertPermutes(totals, x, s[1..]);
      assert s == [s[0]] + s[1..];
    }
  }

  lemma {:induction false} InsertKeepsRanked(totals: map<PlayerId, int>, x: Player, s: seq<Player>)
    requires Ranked(totals, s)
    ensures Ranked(totals, Insert(totals, x, s))
  {
    if s == [] {
    } else if Compare(totals, x, s[0]) < 0 {
      forall j | 0 <= j < |s| ensures Compare(totals, x, s[j]) <= 0 {
        if j > 0 { CompareTransitive(totals, x, s[0], s[j]); }
      }
      var r := [x] + s;
      forall i, j | 0 <= i < j < |r| ensures Compare(totals, r[i], r[j]) <= 0 {
        if i > 0 { assert r[i] == s[i - 1] && r[j] == s[j - 1]; }
      }
    } else {
      var tail := s[1..];
      assert Ranked(totals, tail);
      InsertKeepsRanked(totals, x, tail);
      InsertPermutes(totals, x, tail);
      var rest := Insert(totals, x, tail);
      CompareAntisymmetric(totals, x, s[0]);
      forall j | 0 <= j < |rest| ensures Compare(totals, s[0], rest[j]) <= 0 {
        assert rest[j] in multiset(rest);
        if rest[j] != x {
          assert rest[j] in multiset(tail);
          var k :| 0 <= k < |tail| && tail[k] == rest[j];
          assert s[k + 1] == rest[j];
        }
      }
      var r := [s[0]] + rest;
      forall i, j | 0 <= i < j < |r| ensures Compare(totals, r[i], r[j]) <= 0 {
        if i > 0 { assert r[i] == rest[i - 1] && r[j] == rest[j - 1]; }
      }
    }
  }

  /** Insertion sort; a later player goes after earlier players it ties with. */
  function Sort(totals: map<PlayerId, int>, players: seq<Player>): (r: seq<Player>)
    ensures multiset(r) == multiset(players)
    ensures Ranked(totals, r)
  {
    if players == [] then []
    else
      var init, last := players[..|players| - 1], players[|players| - 1];
      assert players == init + [last];
      var sorted := Sort(totals, init);
      InsertPermutes(totals, last, sorted);
      InsertKeepsRanked(totals, last, sorted);
      Insert(totals, last, sorted)
  }

  /**
   * `sortedPlayersByTotal`: the same players, each exactly as often as in the
   * roster, with higher totals first and equal totals in name order.
   */
  function SortedPlayersByTotal(players: seq<Player>, totalsNow: map<PlayerId, int>): (r: seq<Player>)
    ensures multiset(r) == multiset(players) && |r| == |players|
    ensures forall i, j :: 0 <= i < j < |r| ==>
      TotalOrZero(totalsNow, r[i].id) > TotalOrZero(totalsNow, r[j].id)
      || (TotalOrZero(totalsNow, r[i].id) == TotalOrZero(totalsNow, r[j].id) && CompareNames(r[i].name, r[j].name) <= 0)
  {
    var r := Sort(totalsNow, players);
    assert |r| == |multiset(r)| == |multiset(players)| == |players|;
    r
  }
}
