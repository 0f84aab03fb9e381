/** Worked games: the end of the game and its winners on concrete rounds. */
module Scenarios {
  import opened Common
  import opened Totals

  function Pair(): seq<Player> {
    [Player("a", "A"), Player("b", "B")]
  }

  lemma PairFacts()
    ensures "a" != "b"
    ensures Ids(Pair()) == {"a", "b"}
    ensures Pair()[1..] == [Player("b", "B")] && Pair()[1..][1..] == []
  {
    assert "a"[0] != "b"[0];
    assert Pair()[0].id == "a" && Pair()[1].id == "b";
  }

  /** The totals after some rounds of the pair, as a map literal. */
  lemma PairTotals(rounds: seq<Round>, n: nat, x: int, y: int)
    requires n <= |rounds|
    requires Total(rounds[..n], "a") == x && Total(rounds[..n], "b") == y
    ensures TotalsAfter(Pair(), rounds, n) == map["a" := x, "b" := y]
  {
    PairFacts();
    TotalsAfterAt(Pair(), rounds, n);
    assert Pair()[0].id == "a" && Pair()[1].id == "b";
  }

  /** A reaches 205 in the second round; B trails with 10. */
  lemma SecondRoundEndsWithOneWinner()
    ensures var rounds := [Round("t1", map["a" := 5, "b" := 10]), Round("t2", map["a" := 200, "b" := 0])];
      && TotalsAfter(Pair(), rounds, 1) == map["a" := 5, "b" := 10]
      && TotalsAfter(Pair(), rounds, 2) == map["a" := 205, "b" := 10]
      && EndOf(Pair(), rounds) == GameEnd(true, Some(1), ["a"], Some(205))
  {
    PairFacts();
    var rounds := [Round("t1", map["a" := 5, "b" := 10]), Round("t2", map["a" := 200, "b" := 0])];
    assert rounds[..1] == [rounds[0]];
    assert rounds[..2] == rounds;
    assert rounds[..2][..1] == [rounds[0]];
    assert [rounds[0]][..0] == [];
    assert Total(rounds[..1], "a") == 5 && Total(rounds[..1], "b") == 10;
    assert Total(rounds[..2], "a") == 205 && Total(rounds[..2], "b") == 10;
    PairTotals(rounds, 1, 5, 10);
    PairTotals(rounds, 2, 205, 10);
    ReachedIff(Pair(), rounds, 0);
    ReachedIff(Pair(), rounds, 1);
    assert TotalThrough(rounds, 0, "a") == 5 && TotalThrough(rounds, 0, "b") == 10;
    assert TotalThrough(rounds, 1, "a") == 205;
    assert !Reached(Pair(), rounds, 0);
    assert Reached(Pair(), rounds, 1);
    assert EndIndex(Pair(), rounds) == Some(1);
    var t := TotalsAfter(Pair(), rounds, 2);
    assert MaxTotal(Pair(), t) == 205;
    assert Winners(Pair()[1..][1..], t, 205) == [];
    assert Winners(Pair()[1..], t, 205) == [];
    assert Winners(Pair(), t, 205) == ["a"];
  }

  /** Both players reach 200 in the first round: the game ends there with a tie. */
  lemma FirstRoundTieEndsWithTwoWinners()
    ensures var rounds := [Round("t1", map["a" := 200, "b" := 200])];
      EndOf(Pair(), rounds) == GameEnd(true, Some(0), ["a", "b"], Some(200))
  {
    PairFacts();
    var rounds := [Round("t1", map["a" := 200, "b" := 200])];
    assert rounds[..1] == rounds;
    assert rounds[..0] == [];
    assert Total(rounds[..1], "a") == 200 && Total(rounds[..1], "b") == 200;
    PairTotals(rounds, 1, 200, 200);
    ReachedIff(Pair(), rounds, 0);
    assert TotalThrough(rounds, 0, "a") == 200;
    assert Reached(Pair(), rounds, 0);
    assert EndIndex(Pair(), rounds) == Some(0);
    var t := TotalsAfter(Pair(), rounds, 1);
    assert MaxTotal(Pair(), t) == 200;
    assert Winners(Pair()[1..][1..], t, 200) == [];
    assert Winners(Pair()[1..], t, 200) == ["b"];
    assert Winners(Pair(), t, 200) == ["a", "b"];
  }
}
