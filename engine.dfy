/** The timed classic game: the engine of `MathFactsGame` (games/math-facts-base.js), which
    the legacy single-page game (script.js) already contains in its first form. It is stated
    here as transitions between values of its state, that is, the source's `state` object
    plus the answer buffer and the visible screen; the classes in the MathFacts and Legacy
    modules are proved to update their fields exactly as these transitions say. */
module Engine {
  import opened Js
  import opened Text
  import opened Keypad
  import opened Storage
  import opened Questions
  import opened Tables
  import Subtraction
  import Division

  /** What distinguishes one engine from another: how questions are drawn, the symbol in
      the anti-repeat key, and whether an empty answer is ignored (the modular games) or
      read as 0 (the legacy game). */
  datatype Rules = Rules(generator: Generator, symbol: char, ignoresBlank: bool)

  function RulesOf(config: GameConfig): Rules
  {
    Rules(config.generator, config.operation, true)
  }

  /** One draw of the game's `nextQuestion`: the shared generator, or the override of the
      subtraction or division game. The expected answer is a whole number exactly when a
      table is selected, except in division, where it is always the drawn quotient. */
  function Generate(rules: Rules, tables: seq<nat>, d: Draw): (c: Candidate)
    ensures ValidDraw(d, |tables|) ==>
      (c.question.result.Whole? <==> |tables| > 0 || rules.generator == InvertedDivision)
  {
    match rules.generator
    case Standard(fn) =>
      if ValidDraw(d, |tables|) then
        StandardOperands(fn, rules.symbol, tables, d);
        StandardCandidate(fn, rules.symbol, tables, d)
      else StandardCandidate(fn, rules.symbol, tables, d)
    case InvertedSubtraction => Subtraction.Generate(tables, d)
    case InvertedDivision => Division.Generate(tables, d)
  }

  /** The questions a stream of draws would produce, one per draw. */
  function Candidates(rules: Rules, tables: seq<nat>, draws: seq<Draw>): (cs: seq<Candidate>)
    ensures |cs| == |draws|
    ensures forall i :: 0 <= i < |draws| ==> cs[i] == Generate(rules, tables, draws[i])
  {
    if draws == [] then [] else [Generate(rules, tables, draws[0])] + Candidates(rules, tables, draws[1..])
  }

  /** The division game with no table selected, right after a `NaN÷undefined` question:
      every draw repeats that key, so `nextQuestion` recurses without end: a stack overflow
      on engines without proper tail calls, a hang on engines with them. */
  predicate Stuck(rules: Rules, tables: seq<nat>, lastPair: Option<Key>): (b: bool)
    ensures b ==> forall d :: ValidDraw(d, |tables|) ==> Repeats(Generate(rules, tables, d), lastPair)
  {
    rules.generator == InvertedDivision && |tables| == 0 && lastPair == Some(Division.DeadKey)
  }

  /** `Stuck` is exactly the situation in which no possible draw escapes the anti-repeat
      rule; for every other selection and every other previous key, some draw does. */
  lemma StuckExactly(rules: Rules, tables: seq<nat>, lastPair: Option<Key>)
    requires InRange(tables)
    ensures Stuck(rules, tables, lastPair) <==>
      forall d :: ValidDraw(d, |tables|) ==> Repeats(Generate(rules, tables, d), lastPair)
  {
    if forall d :: ValidDraw(d, |tables|) ==> Repeats(Generate(rules, tables, d), lastPair) {
      var d1, d2 := Draw(0, 1), Draw(0, 2);
      assert ValidDraw(d1, |tables|) && ValidDraw(d2, |tables|);
      var k1, k2 := Generate(rules, tables, d1).key, Generate(rules, tables, d2).key;
      assert lastPair == Some(k1) && lastPair == Some(k2);
      if |tables| > 0 {
        Division.KeysSeparate(tables, d1, d2);
      }
    }
  }

  /** When stuck, no stream of draws holds a way out. */
  lemma StuckHasNoFresh(rules: Rules, tables: seq<nat>, lastPair: Option<Key>, draws: seq<Draw>)
    requires Stuck(rules, tables, lastPair) && DrawsValid(draws, |tables|)
    ensures !HasFresh(Candidates(rules, tables, draws), lastPair)
  {
    var cs := Candidates(rules, tables, draws);
    forall i | 0 <= i < |cs| ensures Repeats(cs[i], lastPair) {
      Division.EmptySelectionOneKey(draws[i]);
    }
  }

  datatype Screen = StartScreen | GameScreen | EndScreen

  /** The engine's state: the fields of the source's `state` (with `ticking` for "the
      one-second interval is running"), the answer buffer, and the visible screen. */
  datatype Run = Run(
    timeLimit: int,
    selectedTables: seq<nat>,
    running: bool,
    score: nat,
    total: nat,
    correctOnFirstTry: bool,
    current: Option<Question>,
    lastPair: Option<Key>,
    remaining: int,
    ticking: bool,
    startedAt: int,
    answer: string,
    screen: Screen)

  /** The state after a transition, and whether the transition threw. */
  datatype Step = Step(run: Run, thrown: bool)

  /** What every reachable state satisfies: a selection without repeats drawn from 1..12,
      no more first-try answers than answers, a buffer of digits, a question
      on show whenever a run is on or a key was remembered, and no interval without a run. */
  predicate Inv(s: Run) {
    Settled(s) && (s.running ==> s.current.Some?)
  }

  /** `Inv` but for the question on show, which `startRun()` draws only after the run is on. */
  predicate Settled(s: Run) {
    && Distinct(s.selectedTables) && InRange(s.selectedTables)
    && s.score <= s.total
    && IsDigits(s.answer)
    && (s.lastPair.Some? ==> s.current.Some?)
    && (s.ticking ==> s.running)
  }

  /** The state the constructor and `init()` leave: 60 seconds, every table, no run. */
  function Initial(): (s: Run)
    ensures Inv(s) && !s.running && !s.ticking && s.screen == StartScreen
    ensures s.timeLimit == s.remaining == 60
    ensures forall n :: n in s.selectedTables <==> 1 <= n <= 12
  {
    Run(60, SetAll(true), false, 0, 0, true, None, None, 60, false, 0, "", StartScreen)
  }

  /** A click on table chip `n`. */
  function Toggled(s: Run, n: nat): (r: Run)
    requires Inv(s) && 1 <= n <= 12
    ensures Inv(r) && |r.selectedTables| >= 1
    ensures r.(selectedTables := s.selectedTables) == s
  {
    ToggleFacts(s.selectedTables, n);
    s.(selectedTables := Toggle(s.selectedTables, n))
  }

  /** The All and Clear buttons. The Clear button may leave the selection empty, which
      nothing later checks. */
  function AllSelected(s: Run, on: bool): (r: Run)
    requires Inv(s)
    ensures Inv(r) && (on ==> |r.selectedTables| == 12) && (!on ==> |r.selectedTables| == 0)
    ensures r.(selectedTables := s.selectedTables) == s
  {
    AllFacts();
    s.(selectedTables := SetAll(on))
  }

  /** `selectTime(seconds)`: sets both the limit and the countdown. */
  function TimeSelected(s: Run, seconds: int): (r: Run)
    requires Inv(s)
    ensures Inv(r) && r.timeLimit == seconds && r.remaining == seconds
    ensures r.(timeLimit := s.timeLimit, remaining := s.remaining) == s
  {
    s.(timeLimit := seconds, remaining := seconds)
  }

  /** The custom-seconds field accepts whole numbers from 10 to 600. */
  predicate AcceptsSeconds(x: JsNumber) {
    IsInteger(x) && 10.0 <= x.value <= 600.0
  }

  /** A change of the custom-seconds field: an accepted value becomes the time limit,
      anything else leaves the limit alone. */
  function CustomSeconds(s: Run, x: JsNumber): (r: Run)
    requires Inv(s)
    ensures Inv(r)
    ensures AcceptsSeconds(x) ==> r.timeLimit as real == x.value && 10 <= r.timeLimit <= 600
    ensures AcceptsSeconds(x) ==> r == TimeSelected(s, r.timeLimit)
    ensures !AcceptsSeconds(x) ==> r == s
  {
    if AcceptsSeconds(x) then TimeSelected(s, x.value.Floor) else s
  }

  /** The draws are the values `Math.random` yields: each is a valid draw, and unless no
      draw can escape the anti-repeat rule one of them eventually does. */
  predicate CanDraw(rules: Rules, s: Run, draws: seq<Draw>) {
    && DrawsValid(draws, |s.selectedTables|)
    && (Stuck(rules, s.selectedTables, s.lastPair)
        || HasFresh(Candidates(rules, s.selectedTables, draws), s.lastPair))
  }

  /** `nextQuestion()`: draw until the key differs from `lastPair`, then show that question
      with a cleared buffer. When stuck, the recursion never ends; on engines without
      proper tail calls it overflows the stack, and the call throws before anything is
      assigned. */
  function Next(rules: Rules, s: Run, draws: seq<Draw>): (st: Step)
    requires Settled(s) && CanDraw(rules, s, draws)
    ensures Inv(st.run)
    ensures st.run.answer == s.answer || st.run.answer == ""
  {
    if Stuck(rules, s.selectedTables, s.lastPair) then Step(s, true)
    else
      var cs := Candidates(rules, s.selectedTables, draws);
      var c := cs[FirstFresh(cs, s.lastPair)];
      Step(s.(lastPair := Some(c.key), current := Some(c.question), correctOnFirstTry := true,
              answer := ""), false)
  }

  /** The next question is the one of the first draw whose key differs from the previous
      key; every earlier draw repeated it. Only it, the key, the first-try flag and the
      buffer change. The call throws exactly when no draw could ever escape. */
  lemma NextFacts(rules: Rules, s: Run, draws: seq<Draw>)
    requires Settled(s) && CanDraw(rules, s, draws)
    ensures var st := Next(rules, s, draws);
      && (st.thrown <==> forall d :: ValidDraw(d, |s.selectedTables|) ==>
            Repeats(Generate(rules, s.selectedTables, d), s.lastPair))
      && (st.thrown ==> st.run == s)
      && (!st.thrown ==>
        && st.run.lastPair != s.lastPair
        && st.run.correctOnFirstTry && st.run.answer == ""
        && st.run.(lastPair := s.lastPair, current := s.current, correctOnFirstTry := s.correctOnFirstTry,
                   answer := s.answer) == s
        && (exists k ::
              && 0 <= k < |draws|
              && (forall j :: 0 <= j < k ==> Repeats(Generate(rules, s.selectedTables, draws[j]), s.lastPair))
              && st.run.lastPair == Some(Generate(rules, s.selectedTables, draws[k]).key)
              && st.run.current == Some(Generate(rules, s.selectedTables, draws[k]).question)))
  {
    StuckExactly(rules, s.selectedTables, s.lastPair);
    if !Stuck(rules, s.selectedTables, s.lastPair) {
      var cs := Candidates(rules, s.selectedTables, draws);
      var k := FirstFresh(cs, s.lastPair);
      assert forall j :: 0 <= j < k ==> Repeats(Generate(rules, s.selectedTables, draws[j]), s.lastPair) by {
        forall j | 0 <= j < k ensures Repeats(Generate(rules, s.selectedTables, draws[j]), s.lastPair) {
          assert cs[j] == Generate(rules, s.selectedTables, draws[j]);
        }
      }
    }
  }

  /** One level of the re-drawing recursion: when the first draw repeats the previous key,
      the question finally shown is the one the remaining draws settle on. */
  lemma RedrawStep(rules: Rules, s: Run, draws: seq<Draw>)
    requires Settled(s) && CanDraw(rules, s, draws) && !Stuck(rules, s.selectedTables, s.lastPair)
    requires |draws| > 0 && Repeats(Generate(rules, s.selectedTables, draws[0]), s.lastPair)
    ensures CanDraw(rules, s, draws[1..])
    ensures Next(rules, s, draws[1..]) == Next(rules, s, draws)
  {
    var cs := Candidates(rules, s.selectedTables, draws);
    assert cs[1..] == Candidates(rules, s.selectedTables, draws[1..]);
  }

  /** `submitAnswer()`. Outside a run, or (in the modular games) with an empty buffer,
      nothing happens. Otherwise the answer counts; a right one scores only if it is the
      first try at this question and moves on to a new question; a wrong one keeps the
      question and the buffer but spends the first try. */
  function Submitted(rules: Rules, s: Run, draws: seq<Draw>): (st: Step)
    requires Inv(s) && CanDraw(rules, s, draws)
    ensures Inv(st.run)
    ensures st.run.answer == s.answer || st.run.answer == ""
  {
    if !s.running || (rules.ignoresBlank && s.answer == "") then Step(s, false)
    else
      var counted := s.(total := s.total + 1);
      if s.current.value.result == Whole(DecimalValue(s.answer)) then
        Next(rules, counted.(score := if s.correctOnFirstTry then s.score + 1 else s.score), draws)
      else Step(counted.(correctOnFirstTry := false), false)
  }

  /** What an answer does, case by case. */
  lemma SubmitFacts(rules: Rules, s: Run, draws: seq<Draw>)
    requires Inv(s) && CanDraw(rules, s, draws)
    ensures var st := Submitted(rules, s, draws);
      var counts := s.running && !(rules.ignoresBlank && s.answer == "");
      var right := s.running && s.current.value.result == Whole(DecimalValue(s.answer));
      && (!counts ==> st == Step(s, false))
      && (counts && !right ==>
            st == Step(s.(total := s.total + 1, correctOnFirstTry := false), false))
      && (counts && right ==>
        && st.run.total == s.total + 1
        && st.run.score == (if s.correctOnFirstTry then s.score + 1 else s.score)
        && (st.thrown <==> Stuck(rules, s.selectedTables, s.lastPair))
        && (!st.thrown ==> st.run.correctOnFirstTry && st.run.answer == "" && st.run.lastPair != s.lastPair))
  {
    var counted := s.(total := s.total + 1);
    var scored := counted.(score := if s.correctOnFirstTry then s.score + 1 else s.score);
    NextFacts(rules, scored, draws);
    StuckExactly(rules, s.selectedTables, s.lastPair);
  }

  /** A question that was once answered wrongly cannot score any more: the next submission
      raises the total but never the score. */
  lemma WrongSpendsTheQuestion(rules: Rules, s: Run, draws: seq<Draw>)
    requires Inv(s) && CanDraw(rules, s, draws)
    requires s.running && s.answer != ""
    requires s.current.value.result != Whole(DecimalValue(s.answer))
    ensures var after := Submitted(rules, s, draws).run;
      CanDraw(rules, after, draws) && Submitted(rules, after, draws).run.score == s.score
  {
    SubmitFacts(rules, s, draws);
    var after := Submitted(rules, s, draws).run;
    SubmitFacts(rules, after, draws);
  }

  /** In the legacy game an empty buffer reads as 0, so submitting it counts as a wrong
      answer to any question whose answer is not 0. */
  lemma LegacyBlankIsWrong(rules: Rules, s: Run, draws: seq<Draw>)
    requires Inv(s) && CanDraw(rules, s, draws)
    requires !rules.ignoresBlank && s.running && s.answer == "" && s.current.value.result != Whole(0)
    ensures Submitted(rules, s, draws) == Step(s.(total := s.total + 1, correctOnFirstTry := false), false)
  {
  }

  /** `startRun()`: reset the counters and the countdown, switch to the game screen, draw
      the first question, then (re)start the interval. If the draw throws, the interval
      is never started. */
  function Started(rules: Rules, s: Run, draws: seq<Draw>, now: int): (st: Step)
    requires Inv(s) && CanDraw(rules, s, draws)
    ensures Inv(st.run)
    ensures st.run.answer == s.answer || st.run.answer == ""
  {
    var reset := s.(running := true, score := 0, total := 0, remaining := s.timeLimit,
                    startedAt := now, screen := GameScreen);
    var first := Next(rules, reset, draws);
    if first.thrown then first else Step(first.run.(ticking := true), false)
  }

  /** `startRun()` resets the counters and draws a question, but does not reset `lastPair`:
      a new run's first question is the first draw whose key differs from the last key of
      the previous run. */
  lemma StartFacts(rules: Rules, s: Run, draws: seq<Draw>, now: int)
    requires Inv(s) && CanDraw(rules, s, draws)
    ensures var st := Started(rules, s, draws, now);
      && st.run.running && st.run.score == 0 && st.run.total == 0
      && st.run.remaining == s.timeLimit && st.run.startedAt == now
      && st.run.screen == GameScreen
      && (st.thrown <==> Stuck(rules, s.selectedTables, s.lastPair))
      && (st.thrown ==> st.run.ticking == s.ticking && st.run.current == s.current)
      && st.run.selectedTables == s.selectedTables && st.run.timeLimit == s.timeLimit
      && (!st.thrown ==> st.run.ticking && st.run.correctOnFirstTry && st.run.answer == "")
      && (!st.thrown ==>
        && st.run.lastPair != s.lastPair
        && (exists k ::
              && 0 <= k < |draws|
              && (forall j :: 0 <= j < k ==> Repeats(Generate(rules, s.selectedTables, draws[j]), s.lastPair))
              && st.run.lastPair == Some(Generate(rules, s.selectedTables, draws[k]).key)
              && st.run.current == Some(Generate(rules, s.selectedTables, draws[k]).question)))
  {
    var reset := s.(running := true, score := 0, total := 0, remaining := s.timeLimit,
                    startedAt := now, screen := GameScreen);
    NextFacts(rules, reset, draws);
    StuckExactly(rules, s.selectedTables, s.lastPair);
  }

  /** As written, `startRun()` accepts the empty selection the Clear button leaves. In the
      division game the first question is then `NaN ÷ undefined`, whose answer is the
      second draw; typing that answer and submitting it scores, and then `nextQuestion`
      finds every draw repeating the key and throws, leaving the question and the answer
      on show. */
  lemma EmptyDivisionRun(s: Run, draws: seq<Draw>, now: int)
    requires Inv(s) && |s.selectedTables| == 0 && s.lastPair != Some(Division.DeadKey)
    requires DrawsValid(draws, 0) && |draws| > 0
    ensures CanDraw(RulesOf(Division.Config), s, draws)
    ensures var st := Started(RulesOf(Division.Config), s, draws, now);
      var typed := st.run.(answer := Decimal(draws[0].second));
      && !st.thrown && st.run.running && st.run.correctOnFirstTry && st.run.answer == ""
      && st.run.current == Some(Question(NaN, Undefined, Whole(draws[0].second)))
      && st.run.lastPair == Some(Division.DeadKey)
      && CanDraw(RulesOf(Division.Config), typed, draws)
      && Submitted(RulesOf(Division.Config), typed, draws) == Step(typed.(total := 1, score := 1), true)
  {
    var rules := RulesOf(Division.Config);
    Division.EmptySelectionOneKey(draws[0]);
    assert !Repeats(Candidates(rules, s.selectedTables, draws)[0], s.lastPair);
    var st := Started(rules, s, draws, now);
    DecimalRoundTrip(draws[0].second);
    EmptyDivisionScoresAgain(st.run.(answer := Decimal(draws[0].second)), draws);
  }

  /** ... and once it holds its answer, every draw repeats the key, so a submission
      scores and then throws before a new question is shown: the answer and the question
      stay, and submitting the same answer again scores again, without end. */
  lemma EmptyDivisionScoresAgain(s: Run, draws: seq<Draw>)
    requires Inv(s) && s.running && |s.selectedTables| == 0 && s.lastPair == Some(Division.DeadKey)
    requires s.correctOnFirstTry && s.answer != "" && s.current.value.result == Whole(DecimalValue(s.answer))
    requires DrawsValid(draws, 0)
    ensures CanDraw(RulesOf(Division.Config), s, draws)
    ensures Submitted(RulesOf(Division.Config), s, draws)
         == Step(s.(total := s.total + 1, score := s.score + 1), true)
  {
  }

  /** `startRun()` as the selection guard of `toggleTable` evidently intends: with no
      table selected the run does not start. */
  function StartedGuarded(rules: Rules, s: Run, draws: seq<Draw>, now: int): (st: Step)
    requires Inv(s) && CanDraw(rules, s, draws)
    ensures Inv(st.run)
  {
    if |s.selectedTables| == 0 then Step(s, false) else Started(rules, s, draws, now)
  }

  /** A guarded start either leaves an empty selection alone, or starts a run whose
      question has a whole answer in a game that can never get stuck. */
  lemma GuardedStartFacts(rules: Rules, s: Run, draws: seq<Draw>, now: int)
    requires Inv(s) && CanDraw(rules, s, draws)
    ensures var st := StartedGuarded(rules, s, draws, now);
      && (|s.selectedTables| == 0 ==> st == Step(s, false))
      && (|s.selectedTables| > 0 ==>
            && !st.thrown && st.run.running && st.run.ticking && st.run.score == 0 && st.run.total == 0
            && st.run.current.value.result.Whole?
            && forall lastPair :: !Stuck(rules, st.run.selectedTables, lastPair))
  {
    if |s.selectedTables| > 0 {
      StartFacts(rules, s, draws, now);
      var reset := s.(running := true, score := 0, total := 0, remaining := s.timeLimit,
                      startedAt := now, screen := GameScreen);
      NextFacts(rules, reset, draws);
      var k :| 0 <= k < |draws| && Next(rules, reset, draws).run.current
        == Some(Generate(rules, s.selectedTables, draws[k]).question);
      assert ValidDraw(draws[k], |s.selectedTables|);
    }
  }

  /** One tick of the interval: the countdown goes down by one second. */
  function Ticked(s: Run): (r: Run)
    requires Inv(s)
    ensures Inv(r) && r.remaining == s.remaining - 1
    ensures r.(remaining := s.remaining) == s
  {
    s.(remaining := s.remaining - 1)
  }

  /** The state side of `endRun()`: a run that is on stops and its interval is cleared;
      the end screen shows only if the score was saved (a throwing save skips it). */
  function Stopped(s: Run, saved: bool): (r: Run)
    requires Inv(s)
    ensures Inv(r) && !r.running && (s.running ==> !r.ticking)
    ensures !s.running ==> r == s
    ensures s.running ==> r.screen == (if saved then EndScreen else s.screen)
    ensures s.running ==> r.(running := true, ticking := s.ticking, screen := s.screen) == s
  {
    if !s.running then s
    else s.(running := false, ticking := false, screen := if saved then EndScreen else s.screen)
  }

  /** The leaderboard entry a finished run saves. */
  function RunEntry(s: Run, symbol: char, date: int): Entry
  {
    Classic(s.score, s.total, Percent(s.score, s.total), s.timeLimit, Label(s.selectedTables, symbol), date)
  }

  /** The saved accuracy is the whole percentage nearest to score / total (0 for a run
      without answers), never above 100, and the saved tables read `All 1–12` exactly when
      every table was selected. */
  lemma EntryFacts(s: Run, symbol: char, date: int)
    requires Inv(s)
    ensures var e := RunEntry(s, symbol, date);
      && e.score == s.score && e.total == s.total && e.time == s.timeLimit && e.date == date
      && e.accuracy <= 100
      && (s.total == 0 ==> e.accuracy == 0)
      && (s.total > 0 ==> 2 * s.total * e.accuracy <= 200 * s.score + s.total < 2 * s.total * (e.accuracy + 1))
      && (e.tables == AllLabel <==> forall n :: 1 <= n <= 12 ==> n in s.selectedTables)
  {
  }

  /** A click on the on-screen keypad. */
  function Clicked(rules: Rules, s: Run, b: Button, draws: seq<Draw>): (st: Step)
    requires Inv(s) && CanDraw(rules, s, draws)
    ensures Inv(st.run)
    ensures WellFormed(s.answer) ==> WellFormed(st.run.answer)
  {
    match b
    case EnterKey => Submitted(rules, s, draws)
    case BackKey =>
      assert IsDigits(DropLast(s.answer));
      Step(s.(answer := DropLast(s.answer)), false)
    case DigitKey(c) =>
      assert IsDigits(Typed(s.answer, c));
      Step(s.(answer := Typed(s.answer, c)), false)
    case NoKey => Step(s, false)
  }

  /** The document's keydown listener: on the game screen the Enter key submits; every
      other key leaves the state alone (the answer display is not editable). */
  function KeyPressed(rules: Rules, s: Run, key: string, draws: seq<Draw>): (st: Step)
    requires Inv(s) && CanDraw(rules, s, draws)
    ensures Inv(st.run)
    ensures s.screen != GameScreen || key != "Enter" ==> st == Step(s, false)
    ensures s.screen == GameScreen && key == "Enter" ==> st == Clicked(rules, s, EnterKey, draws)
  {
    if s.screen == GameScreen && key == "Enter" then Submitted(rules, s, draws) else Step(s, false)
  }

  /** `cleanup()`: clears the interval and ends the run without saving. */
  function Cleaned(s: Run): (r: Run)
    requires Inv(s)
    ensures Inv(r) && !r.running && !r.ticking
    ensures r.(running := s.running, ticking := s.ticking) == s
  {
    s.(running := false, ticking := false)
  }
}
