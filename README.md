# Math facts games — a verified model

This project models, in Dafny, the core of a set of browser flashcard games for
arithmetic facts:

- the **leaderboard store**: one list of at most 25 entries per game, in localStorage
  under `mfacts.leaderboard.<gameId>.v1`, with a one-time move of the legacy board into
  the multiplication game;
- the **classic timed game** (`MathFactsGame`): pick the tables and a time limit, then
  answer as many questions as possible. A question is never the same as the one before.
  Every submission counts toward the total; only a right answer on the first try scores;
- its four configurations:
  - **addition** and **multiplication** use the shared generator;
  - **subtraction** and **division** draw the answer first and show the fact backwards;
- **Times Table Sprint**: answer the twelve products of one factor in order, against the
  clock;
- the **legacy single-page game** (`script.js`): the classic engine in its first form.

How the model is built:

- Pure parts are datatypes, functions and lemmas. These are the keys, the comparator,
  the stable sort and top-25 cut, the tables label, the generators and JavaScript's
  `NaN`/`undefined` arithmetic.
- Each game is a class whose fields are the source's state object, the answer buffer and
  the visible screen.
- Every method is proved to update those fields exactly as a pure transition says:
  `Engine.Submitted`, `Engine.Next`, `SprintGame.Marked`, and so on.
- The lemmas about those transitions state what the games promise.

Modelling choices:

- Randomness is a parameter. `Math.random` becomes a sequence of draws. Because
  `nextQuestion` draws again while a key repeats, the method takes the first draw whose
  key is fresh.
- Time is a parameter. `Date.now()` becomes `now`, and a timer interval becomes a `Tick`
  method.
- localStorage is a class over a `map<string, Stored>`.
  - `available == false` stands for a store that throws on every call.
  - `loadAll` and the migration swallow that throw.
  - `saveScore` and `clear` let it propagate. This is reported as `thrown`, which also
    skips the end screen.

Behaviours of the code worth knowing, each stated in the model as the code has it:

- Sprint boards are ordered newest first: the comparator ignores a sprint's time
  (`Ranking.SprintBoardByDate`).
- `startRun` does not refuse an empty selection (see Findings).
- Every valid submission adds 1 to `total`, a wrong one included; only a right answer on
  the first try adds 1 to `score`.
- A storage failure in `saveScore` or `clear` is not caught.

## Model

| member | source | states |
|---|---|---|
| LeaderboardStore.StorageKey | modules/leaderboard.js:9 | the key is the prefix `mfacts.leaderboard.`, the game id and `.v1`, so the game id can be read back from it, and it is never the legacy key |
| LeaderboardStore.StorageKeyDistinct | modules/leaderboard.js:9 | two game ids share a key only if they are equal, and no game id maps to the legacy key |
| LeaderboardStore.Load | modules/leaderboard.js:46-53 | a stored list is returned as it is; a non-empty result always is the list stored under the key |
| LeaderboardStore.Stamp | modules/leaderboard.js:30-33 | the saved entry keeps every field of the caller's entry except the date, which is the save instant |
| LeaderboardStore.Migrate | modules/leaderboard.js:13-26 | no game but `multiplication` changes the store, a game that already has a board changes nothing, and no key other than the legacy key and the game's own ever changes |
| LeaderboardStore.MigrateEffect | modules/leaderboard.js:13-26 | only `multiplication` migrates, only when the legacy key holds something and its own key nothing; the value is copied, the legacy key removed, other keys untouched |
| LeaderboardStore.MigrateIdempotent | modules/leaderboard.js:13-26 | a second migration changes nothing |
| LeaderboardStore.Leaderboard.constructor | modules/leaderboard.js:7-11 | the key is `mfacts.leaderboard.<gameId>.v1` and the store is left as the migration says |
| LeaderboardStore.Leaderboard.MigrateOldData | modules/leaderboard.js:13-26 | the store after the call is `Migrate` of the store before, whether or not storage throws |
| LeaderboardStore.Leaderboard.LoadAll | modules/leaderboard.js:46-53 | the stored list, or [] when the key is absent, corrupt or storage throws |
| LeaderboardStore.Leaderboard.SaveScore | modules/leaderboard.js:28-44 | on success the game's key holds `Ranked` of the loaded list and the stamped entry; on a throwing store nothing changes and the call throws |
| LeaderboardStore.Leaderboard.Clear | modules/leaderboard.js:55-57 | removes this game's key only; throws on a throwing store |
| LeaderboardStore.SaveIsolated | modules/leaderboard.js:43 | a save leaves every other game's key and the legacy key as they were |
| LeaderboardStore.ClearThenLoad | modules/leaderboard.js:55-57 | after `clear`, `loadAll` returns [] and other games' lists are unchanged |
| LeaderboardStore.SaveLength | modules/leaderboard.js:29-43 | after a save the list holds min(n + 1, 25) entries |
| Ranking.Compare | modules/leaderboard.js:36-40 | two sprint entries are ordered by date alone, newest first; two entries tie exactly when they are of the same kind with the same date (and, for classic entries, the same score and accuracy) |
| Ranking.ClassicOrder | modules/leaderboard.js:36-40 | classic entries are ordered by score, then accuracy, then date, each descending |
| Ranking.CompareFlips | modules/leaderboard.js:36-40 | the comparator is antisymmetric |
| Ranking.PrecedesTransitive | modules/leaderboard.js:36-40 | the comparator's order is transitive |
| Ranking.Insert | modules/leaderboard.js:36-40 | inserting adds exactly the one entry (multiset) |
| Ranking.Sort | modules/leaderboard.js:36-40 | the sort is a permutation of its input |
| Ranking.InsertSorted | modules/leaderboard.js:36-40 | inserting into an ordered board keeps it ordered |
| Ranking.SortSorted | modules/leaderboard.js:36-40 | the sort's result is in leaderboard order |
| Ranking.SortLength | modules/leaderboard.js:36-40 | the sort keeps the length |
| Ranking.InsertAfterTies | modules/leaderboard.js:36-40 | into an ordered board an entry is inserted after every entry that ranks before it or ties with it, and before every entry it beats, which is how the stable sort treats the entry pushed last |
| Ranking.SortOfSorted | modules/leaderboard.js:36-40 | sorting a board already in leaderboard order leaves it unchanged |
| Ranking.Top | modules/leaderboard.js:42 | `slice(0, 25)` keeps the first min(n, 25) entries, in order |
| Ranking.Ranked | modules/leaderboard.js:29-43 | the stored list has at most 25 entries and is in leaderboard order |
| Ranking.RankedShape | modules/leaderboard.js:29-43 | the saved list is the first min(n + 1, 25) entries of a sorted permutation of the old list plus the new entry; no dropped entry ranks above a kept one |
| Ranking.FullBoardKeepsTies | modules/leaderboard.js:34-43 | on a full ordered board, a new entry that does not beat the 25th leaves the board unchanged: a tie goes to the older entry |
| Ranking.SprintBoardByDate | modules/leaderboard.js:36-40 | a board of sprint entries is ordered exactly when dates never increase |
| Ranking.SlowerNewerSprintRanksFirst | games/times-table-sprint.js:358-363 | a slower sprint saved later ranks above a faster earlier one |
| Text.DecimalRoundTrip | games/math-facts-base.js:338 | `Number` of the decimal digits of n is n |
| Text.DecimalInjective | games/math-facts-base.js:412 | different numbers render differently |
| Text.DecimalLength | games/math-facts-base.js:427-429 | a number below 10^k has at most k digits |
| Js.Plus | games/addition.js:10 | the sum is a whole number exactly when both operands are, and then it is their sum |
| Js.Times | games/multiplication.js:10 | the product is a whole number exactly when both operands are, and then it is their product |
| Js.Percent | games/math-facts-base.js:387 | accuracy is the whole percentage nearest to score/total (0 when total is 0) and at most 100 when score ≤ total |
| Js.Tenths | games/times-table-sprint.js:356-361 | the saved time is the elapsed time to the nearest tenth of a second |
| Tables.AllFacts | games/math-facts-base.js:62 | the initial selection is 1..12, each once |
| Tables.Remove | games/math-facts-base.js:285 | deleting n leaves exactly the other tables and no repeats |
| Tables.Toggle | games/math-facts-base.js:284-291 | a click never empties the selection and never changes whether any other table is selected; the clicked table ends up selected exactly when it was not, or when it was the only one |
| Tables.ToggleFacts | games/math-facts-base.js:284-291 | toggling adds an unselected table, removes a selected one unless it is the last, never empties the selection, keeps it repeat-free and within 1..12 |
| Tables.ToggleTwice | games/math-facts-base.js:284-291 | toggling an unselected table twice restores the selection exactly |
| Tables.ToggleTwiceSelected | games/math-facts-base.js:284-291 | toggling a selected table twice (not the last) restores the set, moving it to the end of the insertion order |
| Tables.SetAll | games/math-facts-base.js:297-302 | all selects exactly 1..12, clear selects nothing |
| Tables.AscendingSorts | games/math-facts-base.js:410 | the sorted label list holds the selected tables, each once, strictly increasing |
| Tables.FullSelection | games/math-facts-base.js:411 | twelve selected tables means every table is selected |
| Tables.Label | games/math-facts-base.js:409-413 | for a selection without repeats from 1..12 the label is `All 1–12` exactly when every table is selected; a selection of 1 to 11 tables gives a label that starts with a table number; the empty selection (left by Clear) gives the empty label, as `[].join(', ')` does |
| Tables.LabelThreeFour | games/math-facts-base.js:409-413 | selecting 4 then 3 (or 3 then 4) gives the label `3×, 4×` |
| Keypad.DropLast | games/math-facts-base.js:424-426 | back removes the last character and leaves an empty buffer empty |
| Keypad.Typed | games/math-facts-base.js:427-431 | a digit is appended only while the buffer is shorter than three characters |
| Keypad.KeysKeepBuffer | games/math-facts-base.js:415-433 | keys keep the buffer at most three digits, so it reads as a number below 1000 |
| Keypad.BackUndoesDigit | games/math-facts-base.js:424-431 | back undoes an accepted digit |
| Keypad.TypeAnswer | games/math-facts-base.js:427-431 | typing the digits of any answer below 1000 fills the buffer with them and reads back the answer |
| Keypad.TypeAllShort | games/math-facts-base.js:427-431 | digits typed into a buffer with room for them are all appended, in order |
| Questions.FirstFresh | games/math-facts-base.js:322 | the re-draw settles on the first draw whose key differs from the previous one |
| Questions.StandardOperands | games/math-facts-base.js:316-327 | a is a selected table and b is in 1..12; the answer is a whole number exactly when a table is selected |
| Subtraction.Generate | games/subtraction.js:17-33 | the key is the shown minuend and subtrahend, the subtrahend is the second draw, and a whole answer is the minuend minus the subtrahend |
| Subtraction.PositiveAnswers | games/subtraction.js:17-34 | the minuend minus the subtrahend is the answer, a selected table in 1..12; the operands lie in 2..24 and 1..12 |
| Subtraction.InvertsAddition | games/subtraction.js:20-24 | the question is the addition fact of the same draw turned around |
| Subtraction.NoTablesNoAnswer | games/subtraction.js:22 | with no table selected no typed answer is right |
| Subtraction.KeysSeparate | games/subtraction.js:26 | draws with different subtrahends give different keys |
| Division.Generate | games/division.js:17-33 | the key is the shown dividend and divisor, the answer is the drawn quotient, and a positive whole divisor divides the dividend exactly to that quotient |
| Division.WholeAnswers | games/division.js:17-34 | the dividend is the divisor times the answer and divides exactly; all are whole, with the answer in 1..12 |
| Division.InvertsMultiplication | games/division.js:20-24 | the question is the multiplication fact of the same draw turned around |
| Division.EmptySelectionOneKey | games/division.js:22-26 | with no table selected every draw gives the key `NaN÷undefined` |
| Division.KeysSeparate | games/division.js:26 | with one divisor, different quotients give different keys |
| Addition.Answers | games/addition.js:4-15 | answers are a + b with a selected and b in 1..12, lie in 2..24 and fit the keypad; with no table the answer is NaN |
| Addition.OwnBoard | games/addition.js:6 | the key is `mfacts.leaderboard.addition.v1`, shared with no other game, and migration leaves the store alone |
| Multiplication.Answers | games/multiplication.js:4-15 | answers are a × b with a selected and b in 1..12, lie in 1..144 and fit the three-digit keypad |
| Multiplication.SameQuestionsAsLegacy | games/multiplication.js:9-10 | the multiplication game asks the legacy game's questions; only the key's symbol differs |
| Multiplication.TakesOverLegacyBoard | games/multiplication.js:6 | opening the game moves the legacy board to its key and removes the legacy key |
| Multiplication.LegacyRunsCarryOver | modules/leaderboard.js:13-26 | a board saved by the legacy game, new run included, is what the multiplication game shows after migrating |
| Multiplication.KeepsOwnBoard | modules/leaderboard.js:18 | a game with its own board leaves the legacy data alone |
| Engine.Generate | games/math-facts-base.js:316-327 | for a valid draw the expected answer is a whole number exactly when a table is selected, except in division, where it always is |
| Engine.Stuck | games/division.js:26-29 | when stuck, every valid draw repeats the previous key |
| Engine.StuckExactly | games/division.js:26-29 | every draw repeats the previous key exactly in the division game with no table after the `NaN÷undefined` question |
| Engine.StuckHasNoFresh | games/division.js:29 | when stuck, no stream of draws holds a fresh question |
| Engine.Initial | games/math-facts-base.js:60-71 | the initial state: 60 seconds, every table, no run, the invariant holds |
| Engine.Toggled | games/math-facts-base.js:284-291 | toggling changes only the selection and keeps it non-empty |
| Engine.AllSelected | games/math-facts-base.js:297-302 | all or clear changes only the selection |
| Engine.TimeSelected | games/math-facts-base.js:304-314 | `timeLimit` and `remaining` both become the chosen seconds; nothing else changes |
| Engine.CustomSeconds | games/math-facts-base.js:235-243 | an integer from 10 to 600 is selected as the time; anything else leaves the state unchanged |
| Engine.Next | games/math-facts-base.js:316-334 | a new question keeps the invariant and clears the buffer |
| Engine.NextFacts | games/math-facts-base.js:316-327 | the new question is the first draw with a fresh key; only the question, the key, the first-try flag and the buffer change; it throws exactly when no draw can escape |
| Engine.RedrawStep | games/math-facts-base.js:322 | a repeating draw is skipped by recursing on the remaining draws |
| Engine.Submitted | games/math-facts-base.js:336-353 | a submission keeps score ≤ total and the rest of the invariant |
| Engine.SubmitFacts | games/math-facts-base.js:336-353 | no effect outside a run or on a blank buffer; otherwise total + 1; a right answer scores only on the first try and moves on; a wrong one keeps the question and spends the first try |
| Engine.WrongSpendsTheQuestion | games/math-facts-base.js:349-351 | after a wrong answer the question can no longer score |
| Engine.LegacyBlankIsWrong | script.js:157-172 | in the legacy game a blank answer reads as 0 and counts as wrong |
| Engine.Started | games/math-facts-base.js:361-380 | starting keeps the invariant |
| Engine.StartFacts | games/math-facts-base.js:361-380 | a start zeroes score and total, sets `remaining` to the limit, shows the game screen and keeps the selection and the limit; unless the draw throws, it shows the first drawn question whose key differs from the previous run's last key and starts the interval |
| Engine.EmptyDivisionRun | games/math-facts-base.js:361-370 | as written: a division run started with no table shows `NaN ÷ undefined`; answering it scores and then throws |
| Engine.EmptyDivisionScoresAgain | games/division.js:29 | as written: re-submitting that answer scores again each time |
| Engine.StartedGuarded | games/math-facts-base.js:361-370 | the guarded start keeps the invariant |
| Engine.GuardedStartFacts | games/math-facts-base.js:284-291 | a guarded start ignores an empty selection; otherwise the question has a whole answer and the game can never get stuck |
| Engine.Ticked | games/math-facts-base.js:373-375 | a tick lowers `remaining` by one and changes nothing else |
| Engine.Stopped | games/math-facts-base.js:382-407 | stopping acts only on a running game; it clears the interval and shows the end screen only if the save succeeded |
| Engine.EntryFacts | games/math-facts-base.js:382-396 | the entry holds score, total, the time limit, the nearest-percent accuracy (0 without answers, at most 100) and a label that reads `All 1–12` exactly when all tables were picked |
| Engine.Clicked | games/math-facts-base.js:415-433 | a keypad click keeps the invariant and the buffer well formed |
| Engine.KeyPressed | games/math-facts-base.js:435-444 | on the game screen Enter acts as the keypad's Enter; every other key changes nothing |
| Engine.Cleaned | games/math-facts-base.js:446-449 | cleanup stops the run and the interval and changes nothing else |
| MathFacts.MathFactsGame.constructor | games/math-facts-base.js:48-90 | the initial state, and the store as the migration leaves it |
| MathFacts.MathFactsGame.ToggleTable | games/math-facts-base.js:284-291 | the new state is `Toggled` of the old |
| MathFacts.MathFactsGame.SetAllTables | games/math-facts-base.js:297-302 | the new state is `AllSelected` of the old |
| MathFacts.MathFactsGame.SelectTime | games/math-facts-base.js:304-314 | the new state is `TimeSelected` of the old |
| MathFacts.MathFactsGame.CommitCustomSeconds | games/math-facts-base.js:235-243 | the new state is `CustomSeconds` of the old; reports whether the value was accepted |
| MathFacts.MathFactsGame.NextQuestion | games/math-facts-base.js:316-334 | the recursive re-draw gives `Next` of the old state; overflow exactly when stuck |
| MathFacts.MathFactsGame.SubmitAnswer | games/math-facts-base.js:336-353 | the new state is `Submitted` of the old |
| MathFacts.MathFactsGame.StartRun | games/math-facts-base.js:361-380 | the new state is `Started` of the old |
| MathFacts.MathFactsGame.EndRun | games/math-facts-base.js:382-407 | no effect when not running; otherwise stops, saves `RunEntry` stamped with `now` under the game's key, and shows the end screen unless the save throws |
| MathFacts.MathFactsGame.Tick | games/math-facts-base.js:373-379 | one second less, and at zero the run ends and is saved |
| MathFacts.MathFactsGame.KeypadClick | games/math-facts-base.js:415-433 | the new state is `Clicked` of the old |
| MathFacts.MathFactsGame.Keydown | games/math-facts-base.js:435-444 | the new state is `KeyPressed` of the old |
| MathFacts.MathFactsGame.ResetBoard | games/math-facts-base.js:261-266 | removes this game's key only |
| MathFacts.MathFactsGame.Cleanup | games/math-facts-base.js:446-449 | the new state is `Cleaned` of the old |
| SprintGame.TableOf | games/times-table-sprint.js:209-218 | for a factor f in 1..12 the problems are the times table of f (row i asks (i + 1) × f with its product as the answer), none of them done |
| SprintGame.TableOfFacts | games/times-table-sprint.js:209-218 | every answer of a table is at most 144, so it fits the three-digit buffer, and the answers strictly increase row by row |
| SprintGame.SprintInitial | games/times-table-sprint.js:7-38 | no factor, no run, start screen, listener bound |
| SprintGame.FactorSelected | games/times-table-sprint.js:191-194 | only the factor changes |
| SprintGame.SprintStarted | games/times-table-sprint.js:203-237 | starting keeps the sprint invariant |
| SprintGame.StartFacts | games/times-table-sprint.js:203-237 | without a factor nothing happens; otherwise twelve fresh problems, index 0, clock at `now`, game screen, buffer kept |
| SprintGame.SprintTicked | games/times-table-sprint.js:230-233 | a tick sets the elapsed time since the start and nothing else |
| SprintGame.Marked | games/times-table-sprint.js:315-327 | a right answer completes the current row at `now − start`, clears the buffer and changes no other row |
| SprintGame.MarkFacts | games/times-table-sprint.js:329-336 | below the last row a right answer moves to the next row and keeps the invariant; on the last row every row is done |
| SprintGame.EndsOnce | games/times-table-sprint.js:347-349 | after the last row the run is stopped and later submissions do nothing |
| SprintGame.SprintStopped | games/times-table-sprint.js:347-354 | stopping acts only on a running sprint and records the final elapsed time |
| SprintGame.SprintEntry | games/times-table-sprint.js:356-363 | the entry holds the factor and the elapsed time to the nearest tenth, never negative |
| SprintGame.ProgressIsIndex | games/times-table-sprint.js:301-304 | during a run the completed count equals the current index |
| SprintGame.SprintSubmitted | games/times-table-sprint.js:306-345 | anything but the right answer changes nothing; otherwise the invariant is kept |
| SprintGame.Classify | games/times-table-sprint.js:395-430 | a typed key is always a digit |
| SprintGame.KeyboardMatchesKeypad | games/times-table-sprint.js:395-430 | Enter submits, Backspace/Delete erase, a digit types, Escape asks to leave; a letter or another named key (`ArrowLeft`) does nothing; off the game screen or with a modifier nothing happens |
| SprintGame.SprintCleaned | games/times-table-sprint.js:432-439 | cleanup stops the clock and the run, unbinds the listener, nothing else |
| SprintGame.CleanupIdempotent | games/times-table-sprint.js:432-439 | a second cleanup changes nothing |
| SprintGame.TimesTableSprint.constructor | games/times-table-sprint.js:7-38 | the initial sprint state, and the store left as the migration does |
| SprintGame.TimesTableSprint.SelectFactor | games/times-table-sprint.js:191-194 | the new state is `FactorSelected` of the old |
| SprintGame.TimesTableSprint.StartRun | games/times-table-sprint.js:203-237 | the push loop builds `TableOf(f)`; the new state is `SprintStarted` of the old |
| SprintGame.TimesTableSprint.Tick | games/times-table-sprint.js:230-233 | the new state is `SprintTicked` of the old |
| SprintGame.TimesTableSprint.EndRun | games/times-table-sprint.js:347-371 | no effect when not running; otherwise stops, saves the factor and time stamped with `now`, and shows the end screen unless the save throws |
| SprintGame.TimesTableSprint.SubmitAnswer | games/times-table-sprint.js:306-345 | `SprintSubmitted`, or on the last row `Marked` then `SprintStopped` with the entry saved |
| SprintGame.TimesTableSprint.KeypadClick | games/times-table-sprint.js:373-393 | Enter submits, back erases, a digit types under the cap, no key does nothing; an Enter that answers the last row stops the run and saves the stamped sprint entry through `saveScore`, with the board then stated in full, or leaves the store as it was when the save throws |
| SprintGame.TimesTableSprint.Keydown | games/times-table-sprint.js:395-437 | while the listener is bound, the key's `Classify` outcome is applied to the state; an Enter that answers the last row saves the stamped sprint entry, with the board then stated in full; after `cleanup()` has removed the listener a key press changes nothing and saves nothing |
| SprintGame.TimesTableSprint.PlayAgain | games/times-table-sprint.js:154-157 | only the screen changes, to the start screen |
| SprintGame.TimesTableSprint.ResetBoard | games/times-table-sprint.js:169-173 | removes the sprint's key only |
| SprintGame.TimesTableSprint.Cleanup | games/times-table-sprint.js:432-439 | the new state is `SprintCleaned` of the old |
| Legacy.VariedCanDraw | script.js:136-143 | two draws with different second factors always include a fresh key, so the legacy game never gets stuck |
| Legacy.NoZeroAnswer | script.js:144 | no legacy question has 0 as its answer |
| Legacy.FieldTyped | script.js:306-311 | in the focused field Backspace deletes, a digit is typed without a cap, and other keys do nothing |
| Legacy.FieldTypeAll | script.js:306-311 | typing in the field keeps the invariant and changes nothing but the answer text |
| Legacy.FieldTypesAll | script.js:306-311 | typing digits appends all of them |
| Legacy.FieldReadsBack | script.js:159 | a typed number of any length reads back as itself |
| Legacy.FieldListener | script.js:314-316 | the field's listener submits on Enter whatever the screen, and otherwise does nothing |
| Legacy.FieldEnter | script.js:306-316 | Enter in the field as written: two submissions |
| Legacy.FieldEnterOnce | script.js:314-316 | Enter in the field submitted once |
| Legacy.DoubleEnterSpendsNextQuestion | script.js:306-316 | as written, a right answer entered in the field adds 2 to the total and spends the next question's first try |
| Legacy.DoubleEnterCountsWrongTwice | script.js:306-316 | as written, a wrong answer entered in the field counts twice |
| Legacy.SingleEnterScores | script.js:157-173 | submitted once, a right first answer scores and the next question keeps its first try; a wrong one counts once |
| Legacy.LegacySaved | script.js:61-72 | the legacy save writes `Ranked` of the old list and the entry, with the entry's own date, under the legacy key and touches nothing else |
| Legacy.LegacyGame.constructor | script.js:332-341 | the initial state |
| Legacy.LegacyGame.LoadAll | script.js:73-78 | the stored list, or [] |
| Legacy.LegacyGame.SaveScore | script.js:61-72 | on success the store is `LegacySaved` of the old; a throwing store throws |
| Legacy.LegacyGame.ClearScores | script.js:79-81 | removes the legacy key only |
| Legacy.LegacyGame.ToggleTable | script.js:105-113 | the new state is `Toggled` of the old |
| Legacy.LegacyGame.SetAllTables | script.js:118-124 | the new state is `AllSelected` of the old |
| Legacy.LegacyGame.SelectTime | script.js:127-132 | the new state is `TimeSelected` of the old |
| Legacy.LegacyGame.CommitCustomSeconds | script.js:271-281 | the new state is `CustomSeconds` of the old |
| Legacy.LegacyGame.NextQuestion | script.js:136-154 | the re-draw gives `Next` of the old state and never throws |
| Legacy.LegacyGame.SubmitAnswer | script.js:157-173 | the new state is `Submitted` of the old, with a blank answer read as 0 |
| Legacy.LegacyGame.StartRun | script.js:188-208 | the new state is `Started` of the old; it never throws |
| Legacy.LegacyGame.EndRun | script.js:209-234 | no effect when not running; otherwise stops, saves the run's entry dated `now` under the legacy key, and shows the end screen unless the save throws |
| Legacy.LegacyGame.Tick | script.js:201-206 | one second less, and at zero the run ends and is saved |
| Legacy.LegacyGame.KeypadClick | script.js:291-303 | the new state is `Clicked` of the old |
| Legacy.LegacyGame.DocumentKeydown | script.js:306-311 | the new state is `KeyPressed` of the old |
| Legacy.LegacyGame.FieldKeydown | script.js:314-316 | the new state is `FieldListener` of the old |
| Legacy.LegacyGame.TypeInField | script.js:306-311 | the new state is `FieldTyped` of the old |
| Legacy.LegacyGame.ShowStart | script.js:321 | only the screen changes, to the start screen |

## Left out

- DOM rendering is not modelled: screens' HTML, the HUD text, the tables and factor
  chips, the problems grid, `renderBoard`, `flash` and `speak`. `showScreen` is the
  `screen` field. The HUD shows 100% accuracy before any answer; the saved accuracy in
  that case is 0.
- `formatDate` and the locale date shown on boards are not modelled. Dates are integer
  timestamps, not ISO strings.
- JSON parsing is abstracted. Stored text is absent, unparseable, or a list of entries.
  Text that parses to something other than a list is not modelled.
- Storage errors are one kind. Quota errors are not distinguished from a disabled store.
- Keys are structured values `Key(left, symbol, right)`, not strings. No rendered number
  contains an operator symbol, so two keys are equal exactly when their strings are.
- Mixed boards are outside the source's use. It never stores classic and sprint entries
  under one key. For such a pair the comparator puts the classic entry first.
- `Math.round` and `toFixed(1)` are exact rational rounding, with halves rounded up.
  Binary floating point can differ at exact halves.
- The exit button, `confirmExit`, `goHome` and the sprint's Escape key are not modelled.
  They ask the browser and the hosting page (app.js, not part of this model) to leave the
  game, so Escape is classified but changes no state.
- The classic and legacy document keydown listeners are not modelled as bound or
  unbound state: the source never removes them. Only the sprint's listener binding
  (`listening`) is modelled: `Keydown` acts only while it is bound.
- Field clearing is not modelled: the custom-seconds field being cleared, and
  `selectTime` clearing it.
- `operationFn` of subtraction and division is not modelled, because the overriding
  generators never call it.
- `minFactor`/`maxFactor` are stored in `GameConfig` and read by nothing.
- The legacy answer field's native editing is simplified. The caret is taken to be at
  the end, and focus to be in the field whenever `TypeInField` or `FieldKeydown` runs.
  Pasting and keys whose names contain a digit (`F5`) are not modelled.
- Enter on a focused keypad button is not modelled. It would also fire the button's own
  click.
- `nextQuestion` re-draws with recursion. In the source this ends only when a draw's key
  differs from the previous one. The model takes a finite stream of draws with a fresh
  key in it; with none in it, the game counts as stuck and the call is reported as
  throwing. That is the stack-overflow RangeError on engines without proper tail calls;
  on an engine with them (`return this.nextQuestion()` is a tail call in module code)
  the recursion loops forever instead. The model does not distinguish the two.
- The sprint reads `Date.now()` twice when it finishes (row time, then total). The model
  uses one `now` for both.
- app.js, sw.js and modules/ui.js are not part of this model.

## Findings

| source | as written | input that shows it | evidently intended | confidence | as-written member | corrected member |
|---|---|---|---|---|---|---|
| script.js:306-316 | Enter in the answer field runs the field's listener and then, as the event bubbles, the document's listener: the answer is submitted twice, and the second submission reads the just-cleared field as 0 | during a run, type the right answer in the focused field and press Enter: the total rises by 2 and the new question can no longer score | one submission per Enter | medium, not executed | Legacy.DoubleEnterSpendsNextQuestion | Legacy.SingleEnterScores |
| games/math-facts-base.js:361-370 | `startRun` accepts the empty selection that the Clear button leaves. In the division game the first question is `NaN ÷ undefined` and its answer is a number from 1 to 12. Once it is answered every draw repeats its key, so `nextQuestion` recurses without end (a stack overflow on engines without proper tail calls, a hang on engines with them), and after an overflow each new Enter scores again | Clear, Start, type the hidden quotient, press Enter repeatedly: the score rises by one per Enter while the same question stays | a run starts only with a table selected, as the guard in `toggleTable` keeps | medium, not executed | Engine.EmptyDivisionRun | Engine.GuardedStartFacts |

The classes follow the source as written. They use `Engine.Started`, and the legacy
game's listeners are the two listeners as written. `Legacy.FieldEnterOnce` and
`Engine.StartedGuarded` are the corrected definitions.
