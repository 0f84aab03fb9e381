# Flip7 scorekeeper: a verified model of its scoring core

The Flip7 scorekeeper is a single-page browser app. It keeps the score of a
card game for two to eight players. Each round, every player enters a signed
integer score. The running totals are sums of those scores. The game ends after
the first round in which some player's total reaches 200. The winners are the
players tied at the highest total after that round.

This project models the scoring core of `app.js` in Dafny:

- `common.dfy` (`Common`): the `Option` type, standing for the source's `null`.
- `text.dfy` (`Text`):
  - JavaScript's `String.prototype.trim` over the ECMAScript white-space set;
  - the strict integer parser `parseIntStrict`;
  - the decimal rendering `String(n)` used to pre-fill the edit form.
- `totals.dfy` (`Totals`): `computeTotalsByRound`.
  - It is a method with the source's two nested loops.
  - It is proved against reference functions: a player's total is the sum of
    that player's first `n` scores, the end is the first round that reaches the
    threshold, and the winners filter the roster at the end.
  - Lemmas state what those reference functions mean.
- `ranking.dfy` (`Ranking`): `sortedPlayersByTotal`, as a sort of a copy of
  the roster. It orders by total, highest first, then by name, and is proved to
  be a permutation that respects that order.
- `app.dfy` (`App`): the app state as the class `Scoreboard`.
  - The fields are `players`, `rounds`, `currentInputs`, `view` and `editIndex`.
  - Every action that changes the state is a method with a `modifies` clause:
    adding, removing and renaming players, starting, submitting, undoing,
    clearing, resetting, editing a round, the view changes, and the
    normalisation in `init`.
  - The loops of the source are loops here, with invariants.
- `scenarios.dfy` (`Scenarios`): two worked games, one won outright after the
  second round and one tied in the first.

How the model treats the browser's inputs:

- A browser `confirm` becomes a `bool` parameter.
- An `alert` becomes an `Outcome` result `Refused(why)`; a declined confirmation is `Declined`.
- The fresh id from `uid()` and the timestamp from `nowISO()` are parameters.
- The edit form's fields are a map from player id to the text typed. An absent
  field reads as the empty string, as the source's `input ? input.value : ""` does.
- Player ids are opaque strings, assumed distinct (`Scoreboard.Valid`).

Two behaviours of the code worth noting, which the model keeps:

- `resetScoresKeepPlayers` (app.js:319-327) does not change the view, and
  neither does `ResetScoresKeepPlayers`.
- `removePlayer` (app.js:123-133) removes a player whatever the roster size.
  The two-player minimum exists only because the setup screen shows its Remove
  button when more than two players remain (app.js:447-448). `RemovePlayer`
  has no such guard.

## Model

| member | source | states |
|---|---|---|
| Text.Trim | app.js:209 | `s.trim()`: white space removed from both ends; TrimStartFacts, TrimEndFacts, TrimIsTightAndIdempotent and TrimSplit state what that means. |
| Text.TrimStartFacts | app.js:209 | The leading part `trim` removes is all white space, the rest is a suffix of the input, and it does not start with white space. |
| Text.TrimEndFacts | app.js:209 | The trailing part `trim` removes is all white space, the rest is a prefix of the input, and it does not end with white space. |
| Text.TrimOfPadded | app.js:209 | Trimming a tight string surrounded by any white space gives exactly that string back. |
| Text.TrimIsTightAndIdempotent | app.js:209 | The trimmed string neither starts nor ends with white space, and trimming it again changes nothing. |
| Text.TrimSplit | app.js:209 | Every string is white space, then its trimmed form, then white space. |
| Text.ParseIntStrictMeans | app.js:206-215 | A value is returned exactly when the trimmed input is non-empty and matches `-?\d+`; the value is the decimal value of that literal. Otherwise the result is none. A literal padded with white space parses to its value. |
| Text.ParseIntStrict | app.js:206-215 | `parseIntStrict`: trim, refuse an empty result or one that is not `-?\d+`, else the decimal value; ParseIntStrictMeans states when it succeeds and with what value. |
| Text.IntToString | app.js:679 | `String(n)` for a score, as a minus sign and the decimal digits; IntToStringIsLiteral and ParseFormatRoundTrip state what it produces. |
| Text.ParseRejectsBlank | app.js:209-210 | An empty or all-white-space input never parses. |
| Text.ParseIgnoresPadding | app.js:209-211 | Surrounding white space does not change what an input parses to. |
| Text.ParseRefusesExamples | app.js:211 | `"abc"`, `"+5"`, `"1.5"` and a lone `"-"` are refused. |
| Text.ParseAcceptsZero | app.js:119 | The default input `"0"` parses to 0. |
| Text.NatToStringDigits | app.js:679 | The decimal rendering of a natural number is a non-empty digit string whose value is that number. |
| Text.IntToStringIsLiteral | app.js:679 | The decimal rendering of `n` is tight, matches `-?\d+`, and denotes `n`. This is `String(n)` for scores below 10^21 in magnitude (see Left out). |
| Text.ParseFormatRoundTrip | app.js:679 | What the edit form pre-fills for a score `n` parses back to `n`, for scores written in plain decimal (see Left out). |
| Totals.Total | app.js:157-162 | A player's running total: the sum of that player's scores over the given rounds, a missing entry counting 0; TotalSnoc and TotalAppend state how it grows. |
| Totals.TotalsAfter | app.js:150-163 | The totals dictionary after the first `n` rounds; TotalsAfterAt states its keys and values. |
| Totals.TotalsAfterAt | app.js:150-161 | After the first `n` rounds the totals map has exactly the roster's ids as keys. Each player's entry is the sum of that player's scores in those rounds, and a round without an entry counts 0. |
| Totals.SnapshotsAt | app.js:163 | Snapshot `i` holds the totals after rounds `0..i`. |
| Totals.TotalsNowFacts | app.js:150-182 | With no rounds, every roster player's current total is 0. Otherwise the current totals equal the last snapshot. |
| Totals.SomeReachesIff | app.js:165-166 | Some player reaches the threshold after a prefix of rounds exactly when some roster player's total is at least 200 there. |
| Totals.ReachedIsMaxAtLeastThreshold | app.js:165-166 | For a non-empty roster, the maximum total after round `i` is at least 200 exactly when some player's total is. |
| Totals.MaxTotalIsMax | app.js:165-177 | The maximum over the roster bounds every player's entry and is attained by one player. |
| Totals.MaxTotal | app.js:165-177 | `Math.max` over the roster's entries; MaxTotalIsMax states that it bounds every entry and is attained. |
| Totals.FirstEndFrom | app.js:157-169 | The round found is the first one at or after the start where someone reaches 200. When none is found, no round from the start on reaches it. |
| Totals.EndIndex | app.js:164-168 | The first round after which some total reaches 200; FirstEndFrom and EndIsFirstRoundReaching state that it is the first such round. |
| Totals.EndSeenInIsFirst | app.js:157-169 | The forward scan, which keeps the first hit, holds after `n` rounds the first round among them that reaches 200. |
| Totals.EndSeenInAllIsEndIndex | app.js:157-169 | Scanning all the rounds finds the end index. |
| Totals.Winners | app.js:178 | The roster filtered to the players whose entry equals the maximum, as ids; WinnersMembership and WinnersFollowRoster state membership and order. |
| Totals.EndOf | app.js:171-190 | The end record: not ended with no winners or maximum, or the end index, its maximum and its tied winners; EndIsFirstRoundReaching and WinnersAreTopScorers state what it means. |
| Totals.WinnersMembership | app.js:178 | A player is a winner exactly when that player's entry equals the maximum. |
| Totals.WinnersFollowRoster | app.js:178 | The winners are listed in roster order: each one is picked, at increasing roster positions, with an entry equal to the maximum. |
| Totals.TotalSnoc | app.js:159-162 | Adding one round adds that round's score to each player's total. |
| Totals.TotalAppend | app.js:157-162 | The total over two runs of rounds is the sum of the totals over each. |
| Totals.AddRound | app.js:158-162 | The inner loop turns the totals after `i` rounds into the totals after `i + 1` rounds. |
| Totals.ZeroTotals | app.js:150-151 | The initial loop gives every roster player a total of 0, the totals after no rounds. |
| Totals.ComputeTotalsByRound | app.js:148-191 | The method returns one snapshot per round, and snapshot `i` is the totals after rounds `0..i`. The current totals are the totals after all rounds: all zero with no rounds, the last snapshot otherwise. The end record is the one defined by the first round reaching 200 and the roster's top scorers there. |
| Totals.Conclude | app.js:171-179 | From the snapshots and the end index, the method builds the end record: no winners and no maximum when not ended, otherwise the maximum and the tied players at the end round. |
| Totals.ReachedIff | app.js:165-166 | Round `i` ends the game exactly when some player's total through round `i` is at least 200. |
| Totals.EndIsFirstRoundReaching | app.js:155-185 | `ended` holds exactly when the end index is present, and exactly when some player's total after some round is at least 200. The end index is such a round, and after every earlier round every player is below 200. |
| Totals.WinnersAreTopScorers | app.js:171-179 | When the game has ended, the maximum at the end round is at least 200 and bounds every player's total there. The winner list is non-empty, and a player is on it exactly when that player's total there equals the maximum. |
| Totals.EditShiftsLaterTotals | app.js:157-162 | Replacing round `idx` leaves every total over the rounds before `idx` as it was. Every total that includes `idx` moves by the difference between the new and old score, so totals recomputed after `saveEdit` reflect only the new values. |
| Ranking.CompareNames | app.js:198 | The name order (lexicographic, standing for `localeCompare`); CompareNamesAntisymmetric and CompareNamesTransitive state that it is a total order. |
| Ranking.Compare | app.js:194-198 | The sort comparator: higher total first (a missing total counting 0), then by name; CompareAntisymmetric and CompareTransitive state that it is a consistent order. |
| Ranking.CompareNamesAntisymmetric | app.js:198 | The name order is antisymmetric and is 0 only on equal names. |
| Ranking.CompareNamesTransitive | app.js:198 | The name order is transitive. |
| Ranking.CompareAntisymmetric | app.js:194-198 | The comparator is antisymmetric. |
| Ranking.CompareTransitive | app.js:194-198 | The comparator is transitive. |
| Ranking.InsertPermutes | app.js:194 | Inserting into a sorted copy adds exactly that player. |
| Ranking.InsertKeepsRanked | app.js:194-198 | Inserting into a ranked sequence keeps it ranked. |
| Ranking.Sort | app.js:194-199 | The sort returns a permutation of its input that the comparator ranks. |
| Ranking.SortedPlayersByTotal | app.js:193-200 | The result holds the same players. A player with a higher total (a missing total counts 0) comes first; on equal totals the names are in order. |
| App.FirstBlank | app.js:219-222 | The position of the first roster player whose input is present and blank; FirstBlankIsFirst states that it is the first. |
| App.FirstBlankIsFirst | app.js:219-222 | The position found is the first roster player whose input is present and blank after trimming. |
| App.BlankStep | app.js:219-222 | At step `k` of the scan, after player `k`'s missing input is filled with `"0"`, that input is blank exactly when `k` is the first blank position. |
| App.FirstUnparsable | app.js:265-270 | The position of the first roster player whose input does not parse; FirstUnparsableIsFirst states that it is the first. |
| App.ParsedScores | app.js:264-272 | The new round's score map; ParsedScoresAt states its keys and values. |
| App.FirstUnparsableIsFirst | app.js:265-270 | The position found is the first roster player whose input does not parse as an integer. |
| App.ParsedScoresAt | app.js:264-271 | The new round's score map has exactly the roster's ids as keys. Each player's score is the value that player's input parses to. |
| App.ResetInputs | app.js:279 | The inputs after the reset loop; ResetInputsAt states that roster inputs become `"0"` and nothing else changes. |
| App.ResetInputsAt | app.js:279 | After the reset every roster player's input is `"0"`; other players' entries are kept. |
| App.FillMissing | app.js:243-245 | The inputs after the fill loop; FillMissingAt states that existing inputs stay and roster players without one get `"0"`. |
| App.FillMissingAt | app.js:243-245 | Filling keeps every existing input, gives each roster player one, and adds only `"0"`. |
| App.AcceptedRound | app.js:251-279 | An accepted round scores every roster player with the integer typed, counting a missing input as `"0"`. Afterwards every player's input is `"0"`, which parses to 0. |
| App.Without | app.js:124 | `players.filter(p => p.id !== id)`: exactly the other players, with ids still unique; WithoutIds states the remaining ids. |
| App.WithoutIds | app.js:124 | Removing a player leaves exactly the other roster ids. |
| App.StripAll | app.js:126-131 | Every round with the player's entry deleted, one round per round; StripKeepsOtherTotals and RemovalKeepsRemainingTotals state its effect on totals. |
| App.StripKeepsOtherTotals | app.js:126-131 | Deleting a player's scores from every round leaves every other player's total unchanged and makes that player's total 0. |
| App.RemovalKeepsRemainingTotals | app.js:123-131 | Removing a player leaves the totals of every remaining player, after every prefix of rounds, exactly as before. |
| App.StripScores | app.js:126-131 | The loop deletes the player's entry from every round's scores. |
| App.FindPlayer | app.js:136-137 | The method finds the first roster position holding the id, as `find` does, or returns the roster length when the id is absent. |
| App.ParseEntries | app.js:264-271 | The loop stops at the first roster player whose entry does not parse. When every entry parses, the result is the base map overridden by every roster player's parsed value. The same loop serves `saveEdit` (app.js:372-380). |
| App.MergeParsed | app.js:368-380 | A map that agrees with the base off the roster, and with every parsed entry on it, is the base overridden by the parsed scores. |
| App.Normalized | app.js:770-790 | The four normalisation steps of `init`, in order; NormalizedIsConsistent and NormalizedIdempotent state what they guarantee. |
| App.NormalizedIsConsistent | app.js:766-790 | After normalisation there are at most 8 players, kept as a prefix of the loaded roster with ids still unique. Every kept player has an input and existing inputs are kept. With no players the view is setup. An edit view has a valid round index. The rounds are untouched. |
| App.NormalizedIdempotent | app.js:766-790 | Normalising an already normalised state changes nothing. |
| App.Scoreboard.constructor | app.js:70-78 | The default state: no players, no rounds, no inputs, setup view, no edit index. |
| App.Scoreboard.AddPlayer | app.js:113-121 | At 8 players nothing changes. Otherwise exactly one player, named `Player <n+1>`, is appended with input `"0"`, and the roster never exceeds 8. |
| App.Scoreboard.RemovePlayer | app.js:123-133 | The player is off the roster and its input is deleted. Every round has lost that player's entry and nothing else. The id appears in no player, no input and no round. |
| App.Scoreboard.RenamePlayer | app.js:135-140 | An unknown id changes nothing. Otherwise only that player's name changes, to the trimmed new name, or stays when that is blank. |
| App.Scoreboard.SetInput | app.js:226-229 | Only that player's pending input changes. |
| App.Scoreboard.ResetPendingInputs | app.js:279 | Every roster player's input becomes `"0"`. |
| App.Scoreboard.FillMissingInputs | app.js:243-245 | Every roster player without an input gets `"0"`. |
| App.Scoreboard.EnsureAllInputsPresent | app.js:217-224 | The result is true exactly when no roster player's input is blank. Inputs are filled with `"0"` up to the first blank one, where the scan stops. |
| App.Scoreboard.StartGame | app.js:233-249 | Fewer than 2 or more than 8 players are refused and nothing changes. Otherwise missing inputs become `"0"` and the view becomes score. |
| App.Scoreboard.SubmitRound | app.js:251-288 | An ended game, a blank input or a non-integer input is refused with the rounds unchanged. Otherwise exactly one round is appended, holding every roster player's parsed score, and every roster player's input is reset to `"0"`. |
| App.Scoreboard.UndoLastRound | app.js:290-301 | With no rounds the undo is refused. When declined nothing changes. When confirmed the last round is dropped. |
| App.Scoreboard.ClearHistory | app.js:303-317 | With no rounds the clear is refused. When declined nothing changes. When confirmed the rounds are emptied and every roster player's input is reset to `"0"`. |
| App.Scoreboard.ResetScoresKeepPlayers | app.js:319-327 | When declined nothing changes. When confirmed the rounds are emptied and inputs are reset, while the roster and the view stay. |
| App.Scoreboard.NewGame | app.js:103-111 | When the `newGame` confirmation is given, a fresh state with `Player 1` and `Player 2`, each with input `"0"`, in the setup view. |
| App.Scoreboard.SetView | app.js:142-146 | The view is the one asked for. |
| App.Scoreboard.OpenHistory | app.js:336-340 | The view becomes history. |
| App.Scoreboard.BackToScore | app.js:342-346 | The view becomes score. |
| App.Scoreboard.OpenEditRound | app.js:348-353 | The round is selected and the view becomes edit. |
| App.Scoreboard.CancelEdit | app.js:355-360 | The selection is cleared and the view becomes history. |
| App.Scoreboard.SaveEdit | app.js:362-391 | Nothing changes when no valid round is selected or some roster player's field is not an integer. Otherwise only the selected round changes. It gets every roster player's new value, keeps the entries of players no longer on the roster, and keeps its timestamp, or takes the current one if it had none. The view returns to history with no selection. |
| App.Scoreboard.Init | app.js:766-790 | The state becomes the normalised form of the loaded state, or of the current one when nothing was loaded. |
| App.UndoRevertsSubmit | app.js:251-301 | Undoing a confirmed round right after a successful submission restores the history. |
| Scenarios.SecondRoundEndsWithOneWinner | app.js:148-191 | Rounds A=5, B=10 and then A=200, B=0 give totals 5/10 and then 205/10. The game ends at the second round with A the only winner, at 205. |
| Scenarios.FirstRoundTieEndsWithTwoWinners | app.js:148-191 | A=200, B=200 in the first round ends the game there, with both players winning at 200. |

## Left out

- Rendering, the DOM, event listeners and focus handling are not modelled. The model covers only the state they read and the actions they call: `render*`, `el`, `focusNextInputBySortedIndex` and the listeners.
- `saveState` and `loadState` are left out because they are browser storage and `JSON.parse`. `Init` takes the already-loaded state as an `Option<SavedState>`, and the `SavedState` type takes the place of the shape check at app.js:95-96.
- `uid()` and `nowISO()` depend on randomness and the clock. They become parameters: the fresh id for `AddPlayer` and `NewGame`, and the timestamp for `SubmitRound` and `SaveEdit`.
- App.Scoreboard.AddPlayer, App.Scoreboard.Init, App.Scoreboard.SubmitRound: ids are assumed distinct, as `uid()` is meant to make them. Duplicate ids in a loaded state are outside the model.
- `alert`, `confirm` and `prompt` are user interaction. The model uses a `bool` parameter, or an `Outcome` result naming the refusal.
- The 650 ms `setTimeout` that re-enables the submit button is timing, not state.
- Text.IntToString: JavaScript's `String(n)` writes numbers of magnitude 10^21 or more in exponent form (`"1e+21"`), which `parseIntStrict` then refuses. That form is not modelled, so the pre-fill round trip is stated for plain decimal renderings only. In the source, a round holding such a score cannot be saved unchanged from the edit form (app.js:374-377).
- Text.ParseIntStrict: scores are unbounded integers. The `Number(t)` conversion and the `isFinite` check (app.js:212-213) are floating point, so the loss of precision on very long digit strings is not modelled. The `typeof s !== "string"` guard is vacuous because inputs are strings here.
- Ranking.SortedPlayersByTotal: `localeCompare` is replaced by lexicographic order on code points, because locale collation is outside the model. That the JavaScript sort is stable is not stated.
- A loaded round without a `scores` object (app.js:127, app.js:160) has no counterpart, because a `Round` always holds a score map.
- The service worker and `escapeHtml` are left out: caching plumbing and presentation only.
- `renderSetup` adds two players whenever it renders an empty roster (app.js:422-425). `renderEdit` repairs an invalid edit index while rendering (app.js:648-655). Both are rendering side effects outside the actions modelled.
- `removePlayer` itself does not refuse to drop below two players. That guard lives in the setup screen's button handling, so `RemovePlayer` has no such guard.
- `currentRoundIndex` and `clamp` are display helpers and are not part of this model.
- `view` values other than the four known ones cannot appear, because `View` is a datatype.
