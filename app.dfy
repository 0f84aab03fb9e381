/**
 * The app state of the scorekeeper and the actions that change it. The browser's
 * `confirm` answers arrive as a `bool`, `alert`s become the `Refused` outcome, the
 * clock's timestamp and a freshly generated player id arrive as parameters, and
 * the edit form's fields arrive as a map from player id to the text typed.
 */
module App {
  import opened Common
  import opened Text
  import opened Totals

  const MaxPlayers: nat := 8
  const MinPlayers: nat := 2

  datatype View = Setup | Score | History | Edit

  /** Why an action left the state alone (what the app reports with `alert`). */
  datatype Refusal =
    | GameEnded
    | MissingScore
    | NotAnInteger(name: string)
    | NoRoundsToUndo
    | HistoryAlreadyEmpty
    | TooFewPlayers
    | TooManyPlayers
    | CannotEditRound

  /** What an action did: its change, a declined confirmation, or a refusal. */
  datatype Outcome = Done | Declined | Refused(why: Refusal)

  /** The whole app state as a value: what is persisted and what `init` loads. */
  datatype SavedState = SavedState(
    players: seq<Player>,
    rounds: seq<Round>,
    currentInputs: map<PlayerId, string>,
    view: View,
    editIndex: Option<int>)

  /** The text typed for a player; an absent field reads as the empty string. */
  function InputOf(inputs: map<PlayerId, string>, id: PlayerId): string {
    if id in inputs then inputs[id] else ""
  }

  /** `inputs` with `"0"` for every player of `ps` who has no entry yet. */
  function FillMissing(inputs: map<PlayerId, string>, ps: seq<Player>): map<PlayerId, string> {
    map id | id in inputs.Keys + Ids(ps) :: if id in inputs then inputs[id] else "0"
  }

  /** `inputs` with every player of `ps` set back to `"0"`; other entries are kept. */
  function ResetInputs(inputs: map<PlayerId, string>, ps: seq<Player>): map<PlayerId, string> {
    map id | id in inputs.Keys + Ids(ps) :: if id in Ids(ps) then "0" else inputs[id]
  }

  predicate Blank(inputs: map<PlayerId, string>, id: PlayerId) {
    id in inputs && Trim(inputs[id]) == ""
  }

  predicate Unparsable(inputs: map<PlayerId, string>, id: PlayerId) {
    ParseIntStrict(InputOf(inputs, id)).None?
  }

  /** The position of the first player with a blank entry, or the roster length. */
  function FirstBlank(players: seq<Player>, inputs: map<PlayerId, string>): (r: nat)
    ensures r <= |players|
  {
    if players == [] then 0
    else if Blank(inputs, players[0].id) then 0
    else 1 + FirstBlank(players[1..], inputs)
  }

  /** `FirstBlank` is the first position with a blank entry. */
  lemma {:induction false} FirstBlankIsFirst(players: seq<Player>, inputs: map<PlayerId, string>)
    ensures var r := FirstBlank(players, inputs);
      && (r < |players| ==> Blank(inputs, players[r].id))
      && (forall k :: 0 <= k < r ==> !Blank(inputs, players[k].id))
  {
    if players != [] && !Blank(inputs, players[0].id) {
      FirstBlankIsFirst(players[1..], inputs);
      assert forall k :: 1 <= k < |players| ==> players[k] == players[1..][k - 1];
    }
  }

  /**
   * One step of the scan for a blank input: after filling the first `k + 1`
   * players' missing inputs with `"0"`, player `k`'s input is blank exactly
   * when `k` is the first blank position.
   */
  lemma BlankStep(players: seq<Player>, inputs: map<PlayerId, string>, k: nat)
    requires k < |players| && k <= FirstBlank(players, inputs)
    ensures var m := FillMissing(inputs, players[..k + 1]);
      && players[k].id in m
      && (Trim(m[players[k].id]) == "" <==> FirstBlank(players, inputs) == k)
  {
    FirstBlankIsFirst(players, inputs);
    TrimOfTight("0");
    assert players[..k + 1][k] == players[k];
    FillMissingAt(inputs, players[..k + 1]);
  }

  /** The position of the first player whose entry is not an integer, or the roster length. */
  function FirstUnparsable(players: seq<Player>, inputs: map<PlayerId, string>): (r: nat)
    ensures r <= |players|
  {
    if players == [] then 0
    else if Unparsable(inputs, players[0].id) then 0
    else 1 + FirstUnparsable(players[1..], inputs)
  }

  /** `FirstUnparsable` is the first position with an entry that is not an integer. */
  lemma {:induction false} FirstUnparsableIsFirst(players: seq<Player>, inputs: map<PlayerId, string>)
    ensures var r := FirstUnparsable(players, inputs);
      && (r < |players| ==> Unparsable(inputs, players[r].id))
      && (forall k :: 0 <= k < r ==> !Unparsable(inputs, players[k].id))
  {
    if players != [] && !Unparsable(inputs, players[0].id) {
      FirstUnparsableIsFirst(players[1..], inputs);
      assert forall k :: 1 <= k < |players| ==> players[k] == players[1..][k - 1];
    }
  }

  /** Every player's entry parsed, once all of them parse. */
  function ParsedScores(players: seq<Player>, inputs: map<PlayerId, string>): map<PlayerId, int>
    requires FirstUnparsable(players, inputs) == |players|
  {
    FirstUnparsableIsFirst(players, inputs);
    map id | id in Ids(players) :: ParseIntStrict(InputOf(inputs, id)).value
  }

  /** The parsed scores name exactly the roster, each with the value its entry parses to. */
  lemma ParsedScoresAt(players: seq<Player>, inputs: map<PlayerId, string>)
    requires FirstUnparsable(players, inputs) == |players|
    ensures ParsedScores(players, inputs).Keys == Ids(players)
    ensures forall k :: 0 <= k < |players| ==>
      && players[k].id in ParsedScores(players, inputs)
      && ParseIntStrict(InputOf(inputs, players[k].id)) == Some(ParsedScores(players, inputs)[players[k].id])
  {
    FirstUnparsableIsFirst(players, inputs);
  }

  /** After a reset every roster player's entry is `"0"`, and nobody else's changed. */
  lemma ResetInputsAt(inputs: map<PlayerId, string>, ps: seq<Player>)
    ensures forall k :: 0 <= k < |ps| ==> ps[k].id in ResetInputs(inputs, ps) && ResetInputs(inputs, ps)[ps[k].id] == "0"
    ensures forall id :: id !in Ids(ps) ==>
      (id in ResetInputs(inputs, ps) <==> id in inputs) && (id in inputs ==> ResetInputs(inputs, ps)[id] == inputs[id])
  {
  }

  /** Filling keeps every entry that was there and gives every roster player one. */
  lemma FillMissingAt(inputs: map<PlayerId, string>, ps: seq<Player>)
    ensures forall id :: id in inputs ==> id in FillMissing(inputs, ps) && FillMissing(inputs, ps)[id] == inputs[id]
    ensures forall k :: 0 <= k < |ps| ==> ps[k].id in FillMissing(inputs, ps)
    ensures forall id :: id in FillMissing(inputs, ps) && id !in inputs ==> FillMissing(inputs, ps)[id] == "0"
  {
  }

  lemma FillMissingStep(inputs: map<PlayerId, string>, ps: seq<Player>, k: nat)
    requires k < |ps|
    ensures FillMissing(inputs, ps[..k + 1]) ==
      (var m := FillMissing(inputs, ps[..k]); if ps[k].id in m then m else m[ps[k].id := "0"])
  {
    IdsOfPrefix(ps, k);
  }

  lemma ResetInputsStep(inputs: map<PlayerId, string>, ps: seq<Player>, k: nat)
    requires k < |ps|
    ensures ResetInputs(inputs, ps[..k + 1]) == ResetInputs(inputs, ps[..k])[ps[k].id := "0"]
  {
    IdsOfPrefix(ps, k);
  }

  /**
   * What an accepted submission records: a round naming exactly the roster,
   * each player with the integer typed (a missing entry counted as `"0"`), and
   * then every roster player's entry back at `"0"`, which parses to 0.
   */
  lemma AcceptedRound(players: seq<Player>, inputs: map<PlayerId, string>, ts: string)
    requires FirstUnparsable(players, FillMissing(inputs, players)) == |players|
    ensures var filled := FillMissing(inputs, players);
      var r := Round(ts, ParsedScores(players, filled));
      var next := ResetInputs(filled, players);
      && r.scores.Keys == Ids(players)
      && (forall k :: 0 <= k < |players| ==>
            && Some(r.scores[players[k].id]) ==
                 ParseIntStrict(if players[k].id in inputs then inputs[players[k].id] else "0")
            && next[players[k].id] == "0"
            && ParseIntStrict(next[players[k].id]) == Some(0))
  {
    var filled := FillMissing(inputs, players);
    ParsedScoresAt(players, filled);
    FillMissingAt(inputs, players);
    ResetInputsAt(filled, players);
    ParseAcceptsZero();
  }

  /** The roster without the player `id` (`players.filter(p => p.id !== id)`). */
  function Without(players: seq<Player>, id: PlayerId): (r: seq<Player>)
    ensures |r| <= |players|
    ensures forall p :: p in r <==> p in players && p.id != id
    ensures UniqueIds(players) ==> UniqueIds(r)
  {
    if players == [] then []
    else
      var rest := Without(players[1..], id);
      if players[0].id == id then rest
      else
        assert forall k :: 0 <= k < |rest| ==> rest[k] in players[1..];
        [players[0]] + rest
  }

  lemma WithoutIds(players: seq<Player>, id: PlayerId)
    ensures Ids(Without(players, id)) == Ids(players) - {id}
  {
    var r := Without(players, id);
    forall x | x in Ids(r) ensures x in Ids(players) - {id} {
      var k :| 0 <= k < |r| && r[k].id == x;
      assert r[k] in players;
    }
    forall x | x in Ids(players) - {id} ensures x in Ids(r) {
      var k :| 0 <= k < |players| && players[k].id == x;
      assert players[k] in r;
      var j :| 0 <= j < |r| && r[j] == players[k];
    }
  }

  /** A round with the player `id`'s entry deleted. */
  function Strip(r: Round, id: PlayerId): Round {
    r.(scores := r.scores - {id})
  }

  function StripAll(rounds: seq<Round>, id: PlayerId): (rs: seq<Round>)
    ensures |rs| == |rounds|
  {
    seq(|rounds|, i requires 0 <= i < |rounds| => Strip(rounds[i], id))
  }

  /** Deleting a player's entries changes no other player's totals and zeroes that player's. */
  lemma {:induction false} StripKeepsOtherTotals(rounds: seq<Round>, id: PlayerId, q: PlayerId)
    ensures Total(StripAll(rounds, id), q) == if q == id then 0 else Total(rounds, q)
    decreases |rounds|
  {
    if rounds != [] {
      var n := |rounds| - 1;
      assert StripAll(rounds, id)[..n] == StripAll(rounds[..n], id);
      StripKeepsOtherTotals(rounds[..n], id, q);
    }
  }

  /**
   * After removing a player, each remaining player's totals after every round
   * are what they were before.
   */
  lemma RemovalKeepsRemainingTotals(players: seq<Player>, rounds: seq<Round>, id: PlayerId, n: nat)
    requires n <= |rounds|
    ensures TotalsAfter(Without(players, id), StripAll(rounds, id), n) == TotalsAfter(players, rounds, n) - {id}
  {
    WithoutIds(players, id);
    assert StripAll(rounds, id)[..n] == StripAll(rounds[..n], id);
    forall q | q in Ids(players) - {id}
      ensures Total(StripAll(rounds, id)[..n], q) == Total(rounds[..n], q)
    {
      StripKeepsOtherTotals(rounds[..n], id, q);
    }
  }

  /** The loop of `removePlayer` over the rounds: delete `id` from every round's scores. */
  method StripScores(rounds: seq<Round>, id: PlayerId) returns (rs: seq<Round>)
    ensures rs == StripAll(rounds, id)
  {
    rs := rounds;
    var i := 0;
    while i < |rs|
      invariant 0 <= i <= |rs| && |rs| == |rounds|
      invariant forall j :: 0 <= j < i ==> rs[j] == Strip(rounds[j], id)
      invariant forall j :: i <= j < |rs| ==> rs[j] == rounds[j]
    {
      var r := rs[i];
      if id in r.scores {
        rs := rs[i := r.(scores := r.scores - {id})];
      } else {
        assert r.scores - {id} == r.scores;
      }
      i := i + 1;
    }
  }

  /** `players.find(p => p.id === id)`, as a position; the roster length when absent. */
  method FindPlayer(players: seq<Player>, id: PlayerId) returns (k: nat)
    ensures k <= |players|
    ensures k < |players| ==> players[k].id == id
    ensures forall j :: 0 <= j < k ==> players[j].id != id
    ensures k == |players| <==> id !in Ids(players)
  {
    k := 0;
    while k < |players| && players[k].id != id
      invariant 0 <= k <= |players|
      invariant forall j :: 0 <= j < k ==> players[j].id != id
    {
      k := k + 1;
    }
  }

  /** `scores` is `base` with the entries of the first `k` players parsed into it. */
  predicate PartlyParsed(players: seq<Player>, inputs: map<PlayerId, string>, base: map<PlayerId, int>,
                         scores: map<PlayerId, int>, k: nat)
    requires k <= |players|
  {
    && scores.Keys == base.Keys + Ids(players[..k])
    && BaseKept(base, scores, Ids(players[..k]))
    && ParsedBefore(players, inputs, scores, k)
  }

  predicate BaseKept(base: map<PlayerId, int>, scores: map<PlayerId, int>, done: set<PlayerId>) {
    forall id :: id in base && id !in done ==> id in scores && scores[id] == base[id]
  }

  predicate ParsedBefore(players: seq<Player>, inputs: map<PlayerId, string>, scores: map<PlayerId, int>, k: nat)
    requires k <= |players|
  {
    forall j :: 0 <= j < k ==> players[j].id in scores && Some(scores[players[j].id]) == ParseIntStrict(InputOf(inputs, players[j].id))
  }

  lemma ParsedBeforeStep(players: seq<Player>, inputs: map<PlayerId, string>, scores: map<PlayerId, int>, k: nat, v: int)
    requires UniqueIds(players) && k < |players|
    requires ParsedBefore(players, inputs, scores, k)
    requires ParseIntStrict(InputOf(inputs, players[k].id)) == Some(v)
    ensures ParsedBefore(players, inputs, scores[players[k].id := v], k + 1)
  {
    var id := players[k].id;
    forall j | 0 <= j < k ensures players[j].id != id {
    }
  }

  lemma BaseKeptStep(base: map<PlayerId, int>, scores: map<PlayerId, int>, done: set<PlayerId>, id: PlayerId, v: int)
    requires BaseKept(base, scores, done)
    ensures BaseKept(base, scores[id := v], done + {id})
  {
  }

  lemma PartlyParsedStep(players: seq<Player>, inputs: map<PlayerId, string>, base: map<PlayerId, int>,
                         scores: map<PlayerId, int>, k: nat, v: int)
    requires UniqueIds(players) && k < |players|
    requires PartlyParsed(players, inputs, base, scores, k)
    requires ParseIntStrict(InputOf(inputs, players[k].id)) == Some(v)
    ensures PartlyParsed(players, inputs, base, scores[players[k].id := v], k + 1)
  {
    IdsOfPrefix(players, k);
    ParsedBeforeStep(players, inputs, scores, k, v);
    BaseKeptStep(base, scores, Ids(players[..k]), players[k].id, v);
  }

  /**
   * The parsing loop shared by `submitRound` and `saveEdit`: in roster order,
   * parse each player's entry into a copy of `base`, stopping at the first one
   * that is not an integer; `bad` is that player's position (or the roster length).
   */
  method ParseEntries(players: seq<Player>, inputs: map<PlayerId, string>, base: map<PlayerId, int>)
    returns (bad: nat, scores: map<PlayerId, int>)
    requires UniqueIds(players)
    ensures bad == FirstUnparsable(players, inputs)
    ensures bad == |players| ==> scores == base + ParsedScores(players, inputs)
  {
    FirstUnparsableIsFirst(players, inputs);
    scores := base;
    var k := 0;
    while k < |players|
      invariant 0 <= k <= |players|
      invariant k <= FirstUnparsable(players, inputs)
      invariant PartlyParsed(players, inputs, base, scores, k)
    {
      var p := players[k];
      var v := ParseIntStrict(InputOf(inputs, p.id));
      if v.None? {
        return k, scores;
      }
      PartlyParsedStep(players, inputs, base, scores, k, v.value);
      scores := scores[p.id := v.value];
      k := k + 1;
    }
    assert players[..|players|] == players;
    MergeParsed(players, inputs, base, scores);
    return |players|, scores;
  }

  /** A map that agrees with `base` off the roster and with every parsed entry on it. */
  lemma MergeParsed(players: seq<Player>, inputs: map<PlayerId, string>, base: map<PlayerId, int>, scores: map<PlayerId, int>)
    requires FirstUnparsable(players, inputs) == |players|
    requires scores.Keys == base.Keys + Ids(players)
    requires forall id :: id in base && id !in Ids(players) ==> scores[id] == base[id]
    requires forall j :: 0 <= j < |players| ==>
      Some(scores[players[j].id]) == ParseIntStrict(InputOf(inputs, players[j].id))
    ensures scores == base + ParsedScores(players, inputs)
  {
    ParsedScoresAt(players, inputs);
    forall id | id in scores ensures scores[id] == (base + ParsedScores(players, inputs))[id] {
      if id in Ids(players) {
        var j :| 0 <= j < |players| && players[j].id == id;
      }
    }
  }

  /**
   * The normalisation `init` applies to the loaded (or default) state: fill in
   * missing inputs, fall back to setup without players, keep at most eight
   * players, and leave an edit view whose round index is invalid.
   */
  function Normalized(s: SavedState): SavedState {
    var inputs := FillMissing(s.currentInputs, s.players);
    var view := if |s.players| == 0 && s.view != Setup then Setup else s.view;
    var players := if |s.players| > MaxPlayers then s.players[..MaxPlayers] else s.players;
    var badEdit := view == Edit && (s.editIndex.None? || s.editIndex.value < 0 || s.editIndex.value >= |s.rounds|);
    SavedState(players, s.rounds, inputs, if badEdit then History else view, if badEdit then None else s.editIndex)
  }

  /** What normalisation guarantees about the state the app starts with. */
  lemma NormalizedIsConsistent(s: SavedState)
    ensures var n := Normalized(s);
      && |n.players| <= MaxPlayers
      && n.players == s.players[..|n.players|]
      && (|s.players| <= MaxPlayers ==> n.players == s.players)
      && n.rounds == s.rounds
      && (forall k :: 0 <= k < |n.players| ==> n.players[k].id in n.currentInputs)
      && (forall id :: id in s.currentInputs ==> id in n.currentInputs && n.currentInputs[id] == s.currentInputs[id])
      && (n.players == [] ==> n.view == Setup)
      && (n.view == Edit ==> n.editIndex.Some? && 0 <= n.editIndex.value < |n.rounds|)
      && (UniqueIds(s.players) ==> UniqueIds(n.players))
  {
    var n := Normalized(s);
    FillMissingAt(s.currentInputs, s.players);
    forall k | 0 <= k < |n.players| ensures n.players[k].id in n.currentInputs {
      assert n.players[k] == s.players[k];
    }
  }

  /** Normalising twice is the same as normalising once. */
  lemma NormalizedIdempotent(s: SavedState)
    ensures Normalized(Normalized(s)) == Normalized(s)
  {
    var n := Normalized(s);
    FillMissingAt(s.currentInputs, s.players);
    forall id | id in Ids(n.players) ensures id in n.currentInputs {
      var k :| 0 <= k < |n.players| && n.players[k].id == id;
      assert n.players[k] == s.players[k];
    }
    assert FillMissing(n.currentInputs, n.players) == n.currentInputs;
  }

  /** The state of the scorekeeper, updated in place by its actions. */
  class Scoreboard {
    var players: seq<Player>
    var rounds: seq<Round>
    var currentInputs: map<PlayerId, string>
    var view: View
    var editIndex: Option<int>

    /** Ids are unique and there are at most eight players. */
    ghost predicate Valid()
      reads this
    {
      UniqueIds(players) && |players| <= MaxPlayers
    }

    function State(): SavedState
      reads this
    {
      SavedState(players, rounds, currentInputs, view, editIndex)
    }

    /** `defaultState()`. */
    constructor ()
      ensures Valid()
      ensures players == [] && rounds == [] && currentInputs == map[] && view == Setup && editIndex == None
    {
      players := [];
      rounds := [];
      currentInputs := map[];
      view := Setup;
      editIndex := None;
    }

    /** `addPlayer`: nothing at eight players; otherwise `Player <n+1>` with input `"0"`. */
    method AddPlayer(id: PlayerId)
      requires Valid()
      requires id !in Ids(players)
      modifies this
      ensures Valid()
      ensures old(|players|) >= MaxPlayers ==> unchanged(this)
      ensures old(|players|) < MaxPlayers ==>
        && players == old(players) + [Player(id, "Player " + NatToString(old(|players|) + 1))]
        && currentInputs == old(currentInputs)[id := "0"]
        && rounds == old(rounds) && view == old(view) && editIndex == old(editIndex)
    {
      if |players| >= MaxPlayers {
        return;
      }
      var index := |players| + 1;
      var p := Player(id, "Player " + NatToString(index));
      players := players + [p];
      currentInputs := currentInputs[p.id := "0"];
    }

    /**
     * `removePlayer`: take the player off the roster and delete that player's
     * pending input and every recorded score of that player.
     */
    method RemovePlayer(id: PlayerId)
      requires Valid()
      modifies this
      ensures Valid()
      ensures players == Without(old(players), id)
      ensures currentInputs == old(currentInputs) - {id}
      ensures rounds == StripAll(old(rounds), id)
      ensures view == old(view) && editIndex == old(editIndex)
      ensures id !in Ids(players) && id !in currentInputs
      ensures forall i :: 0 <= i < |rounds| ==> id !in rounds[i].scores
    {
      players := Without(players, id);
      currentInputs := currentInputs - {id};
      rounds := StripScores(rounds, id);
      WithoutIds(old(players), id);
    }

    /** `renamePlayer`: the trimmed new name, unless it is blank; unknown ids change nothing. */
    method RenamePlayer(id: PlayerId, newName: string)
      requires Valid()
      modifies this
      ensures Valid()
      ensures id !in Ids(old(players)) ==> unchanged(this)
      ensures id in Ids(old(players)) ==>
        exists k :: 0 <= k < |old(players)| && old(players)[k].id == id
          && players == old(players)[k := Player(id, if Trim(newName) != "" then Trim(newName) else old(players)[k].name)]
      ensures |players| == |old(players)|
      ensures rounds == old(rounds) && currentInputs == old(currentInputs)
      ensures view == old(view) && editIndex == old(editIndex)
    {
      var k := FindPlayer(players, id);
      if k == |players| {
        return;
      }
      var t := Trim(newName);
      var p := players[k];
      players := players[k := p.(name := if t != "" then t else p.name)];
    }

    /** `setInput`: record the text typed for a player. */
    method SetInput(id: PlayerId, value: string)
      modifies this
      ensures currentInputs == old(currentInputs)[id := value]
      ensures players == old(players) && rounds == old(rounds)
      ensures view == old(view) && editIndex == old(editIndex)
    {
      currentInputs := currentInputs[id := value];
    }

    /** The loop the source repeats: every roster player's input back to `"0"`. */
    method ResetPendingInputs()
      modifies this`currentInputs
      ensures currentInputs == ResetInputs(old(currentInputs), players)
    {
      var k := 0;
      while k < |players|
        invariant 0 <= k <= |players|
        invariant currentInputs == ResetInputs(old(currentInputs), players[..k])
      {
        ResetInputsStep(old(currentInputs), players, k);
        currentInputs := currentInputs[players[k].id := "0"];
        k := k + 1;
      }
      assert players[..|players|] == players;
    }

    /** The loop of `startGame` and `init`: `"0"` for every roster player without an input. */
    method FillMissingInputs()
      modifies this`currentInputs
      ensures currentInputs == FillMissing(old(currentInputs), players)
    {
      var k := 0;
      while k < |players|
        invariant 0 <= k <= |players|
        invariant currentInputs == FillMissing(old(currentInputs), players[..k])
      {
        FillMissingStep(old(currentInputs), players, k);
        if players[k].id !in currentInputs {
          currentInputs := currentInputs[players[k].id := "0"];
        }
        k := k + 1;
      }
      assert players[..|players|] == players;
    }

    /**
     * `ensureAllInputsPresent`: in roster order, give a missing input `"0"`, and
     * stop with `false` at the first player whose input is blank.
     */
    method EnsureAllInputsPresent() returns (ok: bool)
      modifies this`currentInputs
      ensures ok <==> FirstBlank(players, old(currentInputs)) == |players|
      ensures currentInputs == FillMissing(old(currentInputs), players[..FirstBlank(players, old(currentInputs))])
    {
      var k := 0;
      while k < |players|
        invariant 0 <= k <= |players|
        invariant k <= FirstBlank(players, old(currentInputs))
        invariant currentInputs == FillMissing(old(currentInputs), players[..k])
      {
        var id := players[k].id;
        FillMissingStep(old(currentInputs), players, k);
        BlankStep(players, old(currentInputs), k);
        if id !in currentInputs {
          currentInputs := currentInputs[id := "0"];
        }
        if Trim(currentInputs[id]) == "" {
          return false;
        }
        k := k + 1;
      }
      assert players[..|players|] == players;
      return true;
    }

    /** `startGame`: refuse fewer than two or more than eight players; else fill inputs and score. */
    method StartGame() returns (outcome: Outcome)
      modifies this
      ensures |old(players)| < MinPlayers ==> outcome == Refused(TooFewPlayers) && unchanged(this)
      ensures |old(players)| > MaxPlayers ==> outcome == Refused(TooManyPlayers) && unchanged(this)
      ensures MinPlayers <= |old(players)| <= MaxPlayers ==>
        && outcome == Done
        && currentInputs == FillMissing(old(currentInputs), players)
        && view == Score
      ensures players == old(players) && rounds == old(rounds) && editIndex == old(editIndex)
    {
      if |players| < MinPlayers {
        return Refused(TooFewPlayers);
      }
      if |players| > MaxPlayers {
        return Refused(TooManyPlayers);
      }
      FillMissingInputs();
      view := Score;
      return Done;
    }

    /**
     * `submitRound`: refuse once the game has ended; refuse at the first blank
     * input (after giving missing inputs `"0"`); refuse at the first input that
     * is not an integer; otherwise append a round with every player's parsed
     * score and reset every player's input to `"0"`.
     */
    method SubmitRound(ts: string) returns (outcome: Outcome)
      requires Valid()
      modifies this
      ensures Valid()
      ensures players == old(players) && view == old(view) && editIndex == old(editIndex)
      ensures EndOf(old(players), old(rounds)).ended ==>
        outcome == Refused(GameEnded) && rounds == old(rounds) && currentInputs == old(currentInputs)
      ensures !EndOf(old(players), old(rounds)).ended ==>
        var blank := FirstBlank(players, old(currentInputs));
        var filled := FillMissing(old(currentInputs), players);
        var bad := FirstUnparsable(players, filled);
        if blank < |players| then
          && outcome == Refused(MissingScore) && rounds == old(rounds)
          && currentInputs == FillMissing(old(currentInputs), players[..blank])
        else if bad < |players| then
          outcome == Refused(NotAnInteger(players[bad].name)) && rounds == old(rounds) && currentInputs == filled
        else
          && outcome == Done
          && rounds == old(rounds) + [Round(ts, ParsedScores(players, filled))]
          && currentInputs == ResetInputs(filled, players)
      ensures outcome != Done ==> rounds == old(rounds)
    {
      var _, _, end := ComputeTotalsByRound(players, rounds);
      if end.ended {
        return Refused(GameEnded);
      }
      var ok := EnsureAllInputsPresent();
      if !ok {
        return Refused(MissingScore);
      }
      assert players[..|players|] == players;
      var bad, scores := ParseEntries(players, currentInputs, map[]);
      if bad < |players| {
        return Refused(NotAnInteger(players[bad].name));
      }
      assert scores == ParsedScores(players, currentInputs);
      rounds := rounds + [Round(ts, scores)];
      ResetPendingInputs();
      return Done;
    }

    /** `undoLastRound`: refuse with no rounds; if confirmed, drop the last round. */
    method UndoLastRound(confirmed: bool) returns (outcome: Outcome)
      modifies this
      ensures old(rounds) == [] ==> outcome == Refused(NoRoundsToUndo) && unchanged(this)
      ensures old(rounds) != [] && !confirmed ==> outcome == Declined && unchanged(this)
      ensures old(rounds) != [] && confirmed ==> outcome == Done && rounds == old(rounds)[..|old(rounds)| - 1]
      ensures players == old(players) && currentInputs == old(currentInputs)
      ensures view == old(view) && editIndex == old(editIndex)
    {
      if |rounds| == 0 {
        return Refused(NoRoundsToUndo);
      }
      if !confirmed {
        return Declined;
      }
      rounds := rounds[..|rounds| - 1];
      return Done;
    }

    /** `clearHistory`: refuse with no rounds; if confirmed, drop all rounds and reset inputs. */
    method ClearHistory(confirmed: bool) returns (outcome: Outcome)
      modifies this
      ensures old(rounds) == [] ==> outcome == Refused(HistoryAlreadyEmpty) && unchanged(this)
      ensures old(rounds) != [] && !confirmed ==> outcome == Declined && unchanged(this)
      ensures old(rounds) != [] && confirmed ==>
        outcome == Done && rounds == [] && currentInputs == ResetInputs(old(currentInputs), players)
      ensures players == old(players) && view == old(view) && editIndex == old(editIndex)
    {
      if |rounds| == 0 {
        return Refused(HistoryAlreadyEmpty);
      }
      if !confirmed {
        return Declined;
      }
      rounds := [];
      ResetPendingInputs();
      return Done;
    }

    /** `resetScoresKeepPlayers`: if confirmed, drop all rounds and reset inputs; the roster stays. */
    method ResetScoresKeepPlayers(confirmed: bool) returns (outcome: Outcome)
      modifies this
      ensures !confirmed ==> outcome == Declined && unchanged(this)
      ensures confirmed ==> outcome == Done && rounds == [] && currentInputs == ResetInputs(old(currentInputs), players)
      ensures players == old(players) && view == old(view) && editIndex == old(editIndex)
    {
      if !confirmed {
        return Declined;
      }
      rounds := [];
      ResetPendingInputs();
      return Done;
    }

    /** `newGame` and `resetToNewGame`: if confirmed, a fresh state with two default players, in setup. */
    method NewGame(confirmed: bool, first: PlayerId, second: PlayerId) returns (outcome: Outcome)
      requires first != second
      modifies this
      ensures !confirmed ==> outcome == Declined && unchanged(this)
      ensures confirmed ==>
        && outcome == Done && Valid()
        && players == [Player(first, "Player 1"), Player(second, "Player 2")]
        && rounds == [] && currentInputs == map[first := "0", second := "0"]
        && view == Setup && editIndex == None
    {
      if !confirmed {
        return Declined;
      }
      players, rounds, currentInputs, view, editIndex := [], [], map[], Setup, None;
      assert NatToString(1) == "1" && NatToString(2) == "2";
      assert "Player " + NatToString(1) == "Player 1";
      AddPlayer(first);
      assert |players| == 1;
      assert players == [Player(first, "Player 1")];
      assert "Player " + NatToString(2) == "Player 2";
      AddPlayer(second);
      view := Setup;
      return Done;
    }

    /** `setView`. */
    method SetView(v: View)
      modifies this`view
      ensures view == v
    {
      view := v;
    }

    /** `openHistory`. */
    method OpenHistory()
      modifies this`view
      ensures view == History
    {
      view := History;
    }

    /** `backToScore`. */
    method BackToScore()
      modifies this`view
      ensures view == Score
    {
      view := Score;
    }

    /** `openEditRound`: select a round for editing. */
    method OpenEditRound(index: int)
      modifies this`view, this`editIndex
      ensures editIndex == Some(index) && view == Edit
    {
      editIndex := Some(index);
      view := Edit;
    }

    /** `cancelEdit`. */
    method CancelEdit()
      modifies this`view, this`editIndex
      ensures editIndex == None && view == History
    {
      editIndex := None;
      view := History;
    }

    /**
     * `saveEdit`: refuse when no valid round is selected or some roster player's
     * field is not an integer; otherwise replace the selected round's scores by
     * its old scores overridden with every roster player's new value, keep (or,
     * if it had none, set) its timestamp, and go back to the history.
     */
    method SaveEdit(form: map<PlayerId, string>, now: string) returns (outcome: Outcome)
      requires Valid()
      modifies this
      ensures Valid()
      ensures var idx := old(editIndex);
        idx.None? || idx.value < 0 || idx.value >= |old(rounds)| ==>
          outcome == Refused(CannotEditRound) && unchanged(this)
      ensures var idx := old(editIndex);
        idx.Some? && 0 <= idx.value < |old(rounds)| ==>
          var i := idx.value;
          var bad := FirstUnparsable(players, form);
          if bad < |players| then
            outcome == Refused(NotAnInteger(players[bad].name)) && unchanged(this)
          else
            var r := old(rounds)[i];
            && outcome == Done
            && rounds == old(rounds)[i := Round(if r.ts != "" then r.ts else now, r.scores + ParsedScores(players, form))]
            && (forall id :: id in r.scores && id !in Ids(players) ==> rounds[i].scores[id] == r.scores[id])
            && (forall k :: 0 <= k < |players| ==>
                  Some(rounds[i].scores[players[k].id]) == ParseIntStrict(InputOf(form, players[k].id)))
            && (forall j :: 0 <= j < |rounds| && j != i ==> rounds[j] == old(rounds)[j])
            && view == History && editIndex == None
      ensures players == old(players) && currentInputs == old(currentInputs)
    {
      var idx := editIndex;
      if idx.None? || idx.value < 0 || idx.value >= |rounds| {
        return Refused(CannotEditRound);
      }
      var i := idx.value;
      var round := rounds[i];
      var bad, newScores := ParseEntries(players, form, round.scores);
      if bad < |players| {
        return Refused(NotAnInteger(players[bad].name));
      }
      ParsedScoresAt(players, form);
      rounds := rounds[i := Round(if round.ts != "" then round.ts else now, newScores)];
      view := History;
      editIndex := None;
      return Done;
    }

    /**
     * `init`: take the loaded state when there is one, then normalise it (fill
     * missing inputs, setup without players, at most eight players, no edit view
     * with an invalid round index).
     */
    method Init(loaded: Option<SavedState>)
      requires loaded.Some? ==> UniqueIds(loaded.value.players)
      requires loaded.None? ==> Valid()
      modifies this
      ensures Valid()
      ensures State() == Normalized(if loaded.Some? then loaded.value else old(State()))
    {
      if loaded.Some? {
        var s := loaded.value;
        players, rounds, currentInputs, view, editIndex := s.players, s.rounds, s.currentInputs, s.view, s.editIndex;
      }
      FillMissingInputs();
      if |players| == 0 && view != Setup {
        view := Setup;
      }
      if |players| > MaxPlayers {
        players := players[..MaxPlayers];
      }
      if view == Edit {
        var idx := editIndex;
        if idx.None? || idx.value < 0 || idx.value >= |rounds| {
          view := History;
          editIndex := None;
        }
      }
      NormalizedIsConsistent(if loaded.Some? then loaded.value else old(State()));
    }
  }

  /** Undoing a confirmed round right after submitting it restores the history. */
  method UndoRevertsSubmit(b: Scoreboard, ts: string) returns (submitted: Outcome, undone: Outcome)
    requires b.Valid()
    modifies b
    ensures submitted == Done ==> undone == Done && b.rounds == old(b.rounds)
    ensures b.players == old(b.players) && b.view == old(b.view)
  {
    submitted := b.SubmitRound(ts);
    if submitted == Done {
      undone := b.UndoLastRound(true);
    } else {
      undone := Declined;
    }
  }
}
