# granboard-app: a Dafny model of the scorekeeping core

granboard-app keeps score for darts games played on a Granboard electronic board. This
project models its core in Dafny and proves properties of the model:

- **ZeroOne** (`zeroone.dfy`): the 01 engine (301/501/701).
  - Starting states.
  - Dart processing, with the bust rule, the double-out rule, the exact-zero win and the
    duplicate-hit guard.
  - Turn rotation, with round counting and the round-limit finish.
  - Points-per-dart and per-round averages.
  - Cloning.
- **ZeroOneScenarios** (`zeroone_scenarios.dfy`): the engine's documented examples,
  stated on the model.
- **GameHistory** (`history.dfy`): the bounded undo history of a game screen.
  - A class whose render step records the state seen before each change of turn
    position.
  - The log keeps the twenty newest entries.
  - Undo pops the newest entry and suppresses the re-recording of the restored state.
- **PlayerOrder** (`player_order.dfy`): the order dialog.
  - The manual reorder works by copying the list into an array and swapping two cells
    in place.
  - Confirm and "current order" hand a list over.
- **ZeroOneSetup** (`setup.dfy`): the 01 setup screen.
  - Adding players with trimmed names, removing players by id.
  - Mode, double-out and the round-limit field.
  - The two-player minimum.
  - The hand-over of roster and options to the game screen through session storage.
- **CricketScoreBoard** (`scoreboard.dfy`): the Cricket board's display rules.
  - Mark symbols and cell tones.
  - "Closed by all".
  - The split into two columns.
  - Placement of the current-player marker.
  - Row labels.
- **Settings** (`settings.dfy`): the settings provider.
  - Sound and theme kept in local storage, which is modelled as a `map<string, string>`.
  - Resolution of the system theme, with the system's dark-mode preference as an input
    field.
  - The `dark` class on the document root.
  - The settings dialog.
- Shared modules:
  - `Strings` models the JavaScript built-ins the setup screen relies on: `trim`,
    `parseInt` and the decimal text of a number.
  - `BoardInfo` holds the board segments that the examples use.
  - `Players` and `Optional` hold the player record and an option type.

The 01 engine's own source, `services/zeroone.ts`, is not part of this model. Its
behaviour is taken from its test file, `services/zeroone.test.ts`. Where that file leaves
a choice open, the model picks one reading, and the choice is listed under "Left out".

## Model

| member | source | states |
|---|---|---|
| ZeroOne.CreateInitialPlayerState | services/zeroone.test.ts:20-41 | A new player starts at the mode's score (301, 501 or 701), with no darts, points, busts or rounds. |
| ZeroOne.CreateInitialGameState | services/zeroone.test.ts:43-69 | A new game has one initial state per player, in order. The first player is up in round 1 with no darts thrown. The game is started, not finished and has no winner. The options are as given. The state satisfies the validity, score-bookkeeping and winner invariants. |
| ZeroOne.IsBust | services/zeroone.test.ts:134-179 | A dart stands if and only if it leaves at least 2 points, or leaves exactly 0 and, under double-out, lands in a double; every other dart is a bust. |
| ZeroOne.ProcessDartHit | services/zeroone.test.ts:72-204 | A dart changes only the current player's entry. It keeps the player order, round, options and validity. The last hit id becomes the supplied one. |
| ZeroOne.DuplicateHitIgnored | services/zeroone.test.ts:193-203 | A hit whose id equals the last processed id leaves the state exactly as it was. |
| ZeroOne.ProcessDartHitIdempotent | services/zeroone.test.ts:193-203 | Delivering the same identified hit twice has the effect of delivering it once. |
| ZeroOne.ScoringHit | services/zeroone.test.ts:73-132 | A dart that is neither a bust nor a finish is subtracted from the score and added to the points. It counts once for the player and once for the turn. Busts, rounds, the finished flag and the winner are unchanged. |
| ZeroOne.BustHit | services/zeroone.test.ts:134-156 | Going below zero, landing on 1, or reaching zero off a non-double under double-out is a bust. A bust keeps the score, adds one bust, ends the turn (three darts) and never finishes the game. |
| ZeroOne.WinningHit | services/zeroone.test.ts:158-191 | The game finishes on this dart if and only if the dart brings the score to exactly zero and, under double-out, lands in a double. The thrower then wins with score 0 and the turn ends. The winning dart counts like a scored dart: its value is added to the thrower's points, their darts go up by one, and their busts and rounds are unchanged. |
| ZeroOne.BustCounted | services/zeroone.test.ts:134-191 | For every dart that is not a repeat, the thrower's bust count goes up by one if and only if `IsBust` holds of the dart. Their completed rounds are unchanged. |
| ZeroOne.DoubleOutRequiresDouble | services/zeroone.test.ts:170-179 | Under double-out, reaching zero with a non-double is a bust: the score is kept, the bust is counted and the game is not finished. |
| ZeroOne.ProcessDartHitKeepsInvariants | services/zeroone.test.ts:72-204 | Every score stays non-negative and, with the points scored, adds up to the starting score. A winner is always a player of a finished game. |
| ZeroOne.LowestScoreIndex | services/zeroone.test.ts:240-249 | Returns the position of a lowest remaining score; on ties, the earliest such player. |
| ZeroOne.NextPlayer | services/zeroone.test.ts:207-249 | Passing the turn keeps validity, the roster, the mode, the round limit, double-out, the started flag and the last hit id (so a repeat of the last hit is still ignored after the turn passes). A finished game is left unchanged. |
| ZeroOne.NextPlayerRotates | services/zeroone.test.ts:208-238 | The next index is (i + 1) mod n and the turn's darts reset to 0. The outgoing player gains one completed round; the other players are unchanged. The round advances exactly when play wraps to the first player. |
| ZeroOne.NextPlayerMaxRounds | services/zeroone.test.ts:240-249 | With a positive round limit, the game ends if and only if the last player passes the turn in the final round. The winner then has the lowest score. |
| ZeroOne.NextPlayerKeepsInvariants | services/zeroone.test.ts:207-249 | Passing the turn keeps the score bookkeeping and the winner consistent. |
| ZeroOne.RoundRobin | services/zeroone.test.ts:207-238 | Without a round limit, after k turn changes the player at (i + k) mod n is up and (i + k) div n new rounds have begun. |
| ZeroOne.FullCycleAdvancesRound | services/zeroone.test.ts:219-238 | Without a round limit, n turn changes bring play back to the same player and advance the round by exactly one. |
| ZeroOne.CalculatePPD | services/zeroone.test.ts:252-280 | Points per dart times darts thrown equals points scored; the result is 0 before the first dart. |
| ZeroOne.CalculateAverage | services/zeroone.test.ts:282-310 | The per-round average times rounds played equals points scored; the result is 0 before the first completed round. |
| ZeroOne.ClonePlayersIsIdentity | services/zeroone.test.ts:312-337 | Cloning the player list gives equal contents. |
| ZeroOne.CloneGameState | services/zeroone.test.ts:312-337 | A cloned game state equals the original. As states are values, a change to the clone is never seen through the original. |
| ZeroOneScenarios.StartingScores | services/zeroone.test.ts:20-41 | The three modes start at 301, 501 and 701. |
| ZeroOneScenarios.SegmentsScoreTheirValue | services/zeroone.test.ts:73-132 | From 501: treble 20 gives 441, single 20 gives 481, double 20 gives 461, bull gives 476, double bull gives 451. A miss keeps 501 and still counts a dart. |
| ZeroOneScenarios.BustExamples | services/zeroone.test.ts:134-179 | 40 minus 60 and 21 minus 20 are busts. Under double-out, 20 minus a single 20 is a bust. Each keeps the score and counts one bust. |
| ZeroOneScenarios.WinExamples | services/zeroone.test.ts:158-191 | 60 minus treble 20 wins. Under double-out, 40 minus double 20 wins. |
| ZeroOneScenarios.DuplicateHitExample | services/zeroone.test.ts:193-203 | The same hit id twice scores once: 481, with one dart. |
| ZeroOneScenarios.ThreeTrebleTwenties | services/zeroone.test.ts:73-83 | Three treble 20s from 501 leave 321, with 180 scored in three darts and no bust. |
| ZeroOneScenarios.TurnExamples | services/zeroone.test.ts:207-249 | The turn passes from player 1 to player 2, and wraps to player 1 in round 2. With a one-round limit, the game finishes on the wrap. |
| ZeroOneScenarios.StatisticsExamples | services/zeroone.test.ts:252-310 | 180 in 9 darts is 20 per dart; 100 in 9 darts is 100/9; 180 over 3 rounds averages 60; 100 over 2 rounds averages 50. Both are 0 when nothing has been thrown. |
| GameHistory.Appended | app/cricket/game/hooks/useGameHistory.ts:37-45 | Appending keeps the 20 newest entries: the new entry is last, preceded in order by the newest old entries that fit. |
| GameHistory.UndoAfterAppend | app/cricket/game/hooks/useGameHistory.ts:37-70 | Popping right after an append returns the appended entry. The old log is left intact, minus its oldest entry if it was full. |
| GameHistory.History.HasHistory | app/cricket/game/hooks/useGameHistory.ts:76 | There is something to undo while the log is non-empty. `UndoLastAction` returns nothing exactly when this did not hold beforehand. |
| GameHistory.History.constructor | app/cricket/game/hooks/useGameHistory.ts:9-17 | The history starts empty, with no previous state or hits and not restoring. |
| GameHistory.History.Render | app/cricket/game/hooks/useGameHistory.ts:20-51 | The recording step runs exactly when the watched fields (darts thrown, current player) differ from the last render's; otherwise nothing changes. The log never exceeds 20 entries. |
| GameHistory.History.Observe | app/cricket/game/hooks/useGameHistory.ts:20-50 | Without a game state, nothing happens. After an undo, the flag is cleared and the restored state and hits become the previous ones, without recording. Otherwise the previous state and hits, if any, are appended and the current state becomes the previous one. |
| GameHistory.History.SaveCurrentTurnHits | app/cricket/game/hooks/useGameHistory.ts:53-55 | The remembered turn hits become the given hits. |
| GameHistory.History.UndoLastAction | app/cricket/game/hooks/useGameHistory.ts:57-70 | Returns None if and only if the log is empty, and then changes nothing. Otherwise returns the newest entry, removes it and marks the next observation as a restoration. |
| GameHistory.UndoThenRender | app/cricket/game/hooks/useGameHistory.ts:20-70 | Undo followed by the render of the restored state returns the newest entry and shortens the log by it. The restored state is not recorded again; it and its hits become the previous ones, and its watched fields become the last seen. |
| PlayerOrder.Moved | app/cricket/components/PlayerOrderDialog.tsx:36-49 | A move swaps the player with its neighbour in the chosen direction and leaves everyone else in place. A move past either end changes nothing. The result is a permutation of the list. |
| PlayerOrder.SwapIsPermutation | app/cricket/components/PlayerOrderDialog.tsx:42-47 | Swapping two entries keeps the multiset of players. |
| PlayerOrder.UpThenDownRestores | app/cricket/components/PlayerOrderDialog.tsx:36-49 | Moving a player up and then back down restores the list. |
| PlayerOrder.SecondUpBecomesFirst | app/cricket/components/PlayerOrderDialog.tsx:36-49 | Moving the second player up makes them first and the former first player second. |
| PlayerOrder.PlayerOrderDialog.constructor | app/cricket/components/PlayerOrderDialog.tsx:33-34 | The manual list starts as a copy of the players in their given order, and the manual view is closed. |
| PlayerOrder.PlayerOrderDialog.OpenManualOrder | app/cricket/components/PlayerOrderDialog.tsx:192 | Opens the manual-order view. |
| PlayerOrder.PlayerOrderDialog.CloseManualOrder | app/cricket/components/PlayerOrderDialog.tsx:64 | Goes back from the manual-order view. |
| PlayerOrder.PlayerOrderDialog.MovePlayer | app/cricket/components/PlayerOrderDialog.tsx:36-49 | The in-place array swap leaves the manual list equal to `Moved` of the old list. |
| PlayerOrder.PlayerOrderDialog.ValidateManualOrder | app/cricket/components/PlayerOrderDialog.tsx:51-53 | Confirming hands over the manual list as it stands. |
| PlayerOrder.PlayerOrderDialog.CurrentOrder | app/cricket/components/PlayerOrderDialog.tsx:207-210 | "Current order" hands over the players unchanged, so the first player added throws first. |
| ZeroOneSetup.WithoutId | app/01/page.tsx:39-41 | The filtered roster holds exactly the players whose id differs from the given one. |
| ZeroOneSetup.WithoutIdDistributes | app/01/page.tsx:39-41 | Filtering a concatenation filters each part and keeps their order. |
| ZeroOneSetup.WithoutAbsentId | app/01/page.tsx:39-41 | Removing an id that nobody has leaves the roster unchanged. |
| ZeroOneSetup.WithoutUniqueId | app/01/page.tsx:39-41 | Removing a unique id deletes exactly that one entry and keeps the others in order. |
| ZeroOneSetup.MaxRoundsFromInput | app/01/page.tsx:275 | The field's text gives 0 when no number can be read or the number is not positive; otherwise it gives the number read. |
| ZeroOneSetup.MaxRoundsFromNumber | app/01/page.tsx:275 | Typing the decimal text of n sets the limit to n. |
| ZeroOneSetup.Setup.constructor | app/01/page.tsx:18-24 | The screen starts with no players, an empty name, 501, no double-out, no round limit and both dialogs closed. |
| ZeroOneSetup.Setup.SetCurrentName | app/01/page.tsx:137-143 | The name field holds the typed text of at most 20 characters. |
| ZeroOneSetup.Setup.AddPlayer | app/01/page.tsx:27-37 | A blank field changes nothing. Otherwise a player named after the trimmed field is appended and the field is cleared. Every roster name stays trimmed, non-empty and at most 20 characters. |
| ZeroOneSetup.Setup.RemovePlayer | app/01/page.tsx:39-41 | The roster becomes `WithoutId` of the old one. |
| ZeroOneSetup.Setup.SelectMode | app/01/page.tsx:200-228 | The mode becomes the selected one. |
| ZeroOneSetup.Setup.SetDoubleOut | app/01/page.tsx:253 | Double-out follows the checkbox. |
| ZeroOneSetup.Setup.SetMaxRoundsInput | app/01/page.tsx:275 | The round limit becomes `MaxRoundsFromInput` of the text and stays non-negative. |
| ZeroOneSetup.Setup.StartDisabled | app/01/page.tsx:288 | The start button is disabled while fewer than two players are listed. `StartGame` raises its alert exactly when this held beforehand. |
| ZeroOneSetup.Setup.StartGame | app/01/page.tsx:70-78 | The minimum-players alert is raised if and only if fewer than two players are listed, and then nothing opens. Otherwise the order dialog opens. |
| ZeroOneSetup.Setup.CloseOrderDialog | app/01/page.tsx:328 | Closes the order dialog. |
| ZeroOneSetup.Setup.Handoff | app/01/page.tsx:80-90 | The session gains the four entries: ordered players, mode, double-out and round limit. Every other entry is kept. |
| ZeroOneSetup.Setup.HandleOrderSet | app/01/page.tsx:80-90 | The roster becomes the chosen order and the dialog closes. The hand-over is written and the game screen is requested. |
| ZeroOneSetup.Setup.HandleOrderDetermined | app/01/page.tsx:43-53 | Does the same when the order was decided by throwing, closing the throw dialog. |
| Strings.Trim | app/01/page.tsx:28-32 | Trimming drops only whitespace, and only at the two ends. What remains is one contiguous piece of the text. It is empty if and only if the text is all whitespace; otherwise it neither starts nor ends with whitespace. |
| Strings.TrimIdempotent | app/01/page.tsx:28-32 | Trimming twice is trimming once. |
| Strings.ParseInt | app/01/page.tsx:275 | No number is read if and only if no digit follows the leading whitespace and an optional sign. A leading minus gives a non-positive number; otherwise the number is non-negative. The value itself is stated by `Strings.ParseIntReads`. |
| Strings.ParseIntReads | app/01/page.tsx:275 | For any text made of whitespace, an optional `+` or `-`, one or more digits, and then anything not starting with a digit, the result is the digits' value, negated after `-`. So "010" reads as 10, "+5" as 5, " 7" as 7, and "1.5" and "1e2" as 1. |
| Strings.ParseIntOfNatToString | app/01/page.tsx:275 | Reading the decimal text of n gives n. |
| CricketScoreBoard.IsNumberClosedByAll | app/cricket/game/components/ScoreBoard.tsx:24-26 | A number is closed by all if and only if every player's cell for it shows the closed symbol. |
| CricketScoreBoard.ClosedByAllColumns | app/cricket/game/components/ScoreBoard.tsx:24-40 | A number is closed by all players if and only if it is closed by everyone in both columns. |
| CricketScoreBoard.GetMarkSymbol | app/cricket/game/components/ScoreBoard.tsx:29-35 | The symbol is "" if and only if marks ≤ 0, "/" if and only if marks = 1, "X" if and only if marks = 2, and "⊗" if and only if marks ≥ 3. |
| CricketScoreBoard.CellText | app/cricket/game/components/ScoreBoard.tsx:47-68 | A cell shows "-" if and only if it has no marks; otherwise it shows its symbol. |
| CricketScoreBoard.CellToneOf | app/cricket/game/components/ScoreBoard.tsx:49-66 | The tone is muted if and only if the cell is closed and everyone has closed the number. It is the closed colour if and only if the cell is closed and someone has not. It is marked if and only if there are 1-2 marks, and unmarked if and only if there are none. |
| CricketScoreBoard.RowMutedWhenClosedByAll | app/cricket/game/components/ScoreBoard.tsx:49-66 | Once every player has closed a number, every cell of its row is muted. |
| CricketScoreBoard.SplitColumns | app/cricket/game/components/ScoreBoard.tsx:37-40 | The two columns together list every player once, in order. The left column has ⌈n/2⌉ players, equal to the right column or one more. |
| CricketScoreBoard.IndexOf | app/cricket/game/components/ScoreBoard.tsx:82 | Returns the first position of the element, or -1 if and only if it does not occur. |
| CricketScoreBoard.ShowsCurrentMarker | app/cricket/game/components/ScoreBoard.tsx:82-97 | A header has the marker if and only if the game is not over and the current index is the first position of that player. If the player is absent, it has the marker exactly when the index is -1, as `indexOf` answers -1. |
| CricketScoreBoard.CurrentMarkerPlacement | app/cricket/game/components/ScoreBoard.tsx:82-97 | With distinct players, a header has the marker if and only if it is the current player's and the game is not over. |
| CricketScoreBoard.RightColumnMarker | app/cricket/game/components/ScoreBoard.tsx:107-123 | The k-th right-column header has the marker if and only if ⌈n/2⌉ + k is the current index and the game is not over. |
| CricketScoreBoard.NumberLabel | app/cricket/game/components/ScoreBoard.tsx:144-149 | The label is "Bull" if and only if the number is 25. Otherwise it is the number's decimal digits with no leading zero ("20" for 20, "0" only for 0), whose value is the number. |
| Settings.SavedTheme | app/contexts/SettingsContext.tsx:60-76 | A stored theme is accepted if and only if it is "light", "dark" or "system", and it names the theme accepted. |
| Settings.ThemeRoundTrip | app/contexts/SettingsContext.tsx:112-116 | A theme written by `setTheme` is accepted as the same theme on the next load. |
| Settings.ResolveTheme | app/contexts/SettingsContext.tsx:37-54 | Light and dark stand for themselves. The system theme is dark if and only if the system prefers dark. |
| Settings.LoadedSound | app/contexts/SettingsContext.tsx:67-69 | A missing or empty stored value keeps the flag. Otherwise the flag is on if and only if the value is "true". |
| Settings.SoundRoundTrip | app/contexts/SettingsContext.tsx:104-110 | A flag written as "true" or "false" is loaded as the same flag. |
| Settings.SettingsProvider.constructor | app/contexts/SettingsContext.tsx:28-34 | Sound starts on, the theme is system (shown dark), the dialog is closed and there is no custom content. |
| Settings.SettingsProvider.ApplyTheme | app/contexts/SettingsContext.tsx:42-54 | The shown scheme is the theme resolved against the system preference. The root has the dark class if and only if that scheme is dark. |
| Settings.SettingsProvider.LoadOnMount | app/contexts/SettingsContext.tsx:56-84 | Loads the sound flag per `LoadedSound`. A valid stored theme is selected and shown; otherwise the system theme is shown. A reopen flag of "true" is removed and opens the dialog; any other value changes neither. |
| Settings.SettingsProvider.ToggleSound | app/contexts/SettingsContext.tsx:104-110 | Flips the flag and stores the new value as text. |
| Settings.SettingsProvider.SetTheme | app/contexts/SettingsContext.tsx:112-116 | Selects, stores and shows the theme; the shown scheme and root class agree with it. |
| Settings.SettingsProvider.SystemPreferenceChanged | app/contexts/SettingsContext.tsx:86-97 | Under the system theme the shown scheme follows the new preference; under light or dark nothing is shown differently. Agreement between theme and shown scheme is preserved. |
| Settings.SettingsProvider.OpenDialog | app/contexts/SettingsContext.tsx:118-121 | Opens the dialog with the given custom content. |
| Settings.SettingsProvider.CloseDialog | app/contexts/SettingsContext.tsx:123-126 | Closes the dialog and drops the custom content. |
| Settings.ToggleSoundTwice | app/contexts/SettingsContext.tsx:104-110 | Toggling twice restores the flag, and the store holds it. |
| Settings.ChoicesSurviveReload | app/contexts/SettingsContext.tsx:56-116 | A theme and sound flag set in one session are the ones a fresh provider loads from the same store. |

## Left out

- `services/zeroone.ts` is not part of this model. The engine is modelled from its test file, with these readings:
  - A bust changes only the player's bust count and the turn's dart count. The player's dart and point totals stay as they were.
  - A winning dart counts as a scored dart.
  - The hit-id guard applies only when an id is supplied. A dart without an id keeps the last processed id.
  - A winning dart ends the turn: the turn's dart count becomes 3, as after a bust.
  - ZeroOne.NextPlayer leaves a finished game unchanged.
  - The finish at the round limit happens on the same turn change that rotates. The outgoing player's round is counted, play moves to the first player, and the round becomes the limit plus one before the game is marked finished.
  - At the round limit, ties for the lowest score go to the player who throws first.
- ZeroOne.ProcessDartHit: nothing guards a dart thrown into a finished game; the model processes it like any other.
- Rolling back several darts of a turn is not modelled.
- GameHistory.History: the game state type is generic. `keyOf` stands for reading its two watched fields.
- React's asynchronous state updates are not modelled. Each update takes effect immediately, and one render is one call of `Render`.
- Random player ids: `Math.random().toString(36)` is replaced by an id parameter.
- The random shuffle in the order dialog (`sort` with a random comparator) is not modelled.
- The Bluetooth connection to the board and the throw-for-order modal itself are not modelled. Only the modal's completion handler is, as ZeroOneSetup.Setup.HandleOrderDetermined. Navigation is only the `gameRequested` flag.
- Volume: `setVolume` and the stored volume, read with `parseFloat`, are not modelled because they involve floating point.
- CalculatePPD and CalculateAverage use exact reals, not IEEE doubles. Display rounding is not modelled.
- The session hand-over stores typed values. JSON and the mode's `toString` text are not modelled.
- Strings.ParseInt returns an exact unbounded integer. In JavaScript, `parseInt` returns a double, so a very long digit string loses precision or becomes `Infinity`. The round limit here keeps every digit.
- ZeroOneSetup.Setup.SetCurrentName: the field's `maxLength` of 20 counts UTF-16 code units, while the model counts characters. A name of astral characters (two code units each) longer than 10 characters is accepted here but refused by the browser.
- Strings.ParseInt covers decimal text only. The `0x` prefix that `parseInt` also accepts is not modelled.
- `getSystemTheme` without a window (server rendering, which answers 'dark') is not modelled; the system preference is always an input.
- CricketScoreBoard.CurrentMarkerPlacement: `indexOf` compares objects by identity, and the model compares values. The marker lemmas therefore require the players to be distinct.
- Cricket scoring itself is not modelled. `services/cricket.ts` is not part of this model; the board reads only each player's marks.
- Rendering, styles, translations and sounds are not modelled.
- BoardInfo: only the segments the examples use are modelled, not the full segment table. The zones given to the bull segments are a reading, because only their values appear in the examples.
