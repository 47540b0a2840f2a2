/** `MathFactsGame` (games/math-facts-base.js): the timed classic game that the addition,
    subtraction, multiplication and division games configure. Its fields are the source's
    `state`, the answer display and the visible screen; every method is proved to change
    them exactly as the matching transition of the Engine module says. */
module MathFacts {
  import opened Js
  import opened Text
  import opened Keypad
  import opened Storage
  import opened Ranking
  import opened LeaderboardStore
  import opened Questions
  import opened Tables
  import opened Engine

  class MathFactsGame {
    const config: GameConfig
    const board: Leaderboard

    var timeLimit: int
    var selectedTables: seq<nat>
    var running: bool
    var score: nat
    var total: nat
    var correctOnFirstTry: bool
    var current: Option<Question>
    var lastPair: Option<Key>
    var remaining: int
    /** The one-second interval (`tickHandle`) is running. */
    var ticking: bool
    var startedAt: int
    /** The text of the answer display. */
    var answer: string
    var screen: Screen

    function State(): Run
      reads this
    {
      Run(timeLimit, selectedTables, running, score, total, correctOnFirstTry, current, lastPair,
          remaining, ticking, startedAt, answer, screen)
    }

    function Rules(): Rules
    {
      RulesOf(config)
    }

    predicate Valid()
      reads this
    {
      && Inv(State())
      && WellFormed(answer)
      && board.gameId == config.gameId
      && board.storageKey == StorageKey(config.gameId)
    }

    /** The constructor followed by `init()`: the leaderboard for the game id (which runs
        the migration), 60 seconds, every table, the start screen. */
    constructor (config: GameConfig, storage: LocalStorage)
      modifies storage
      ensures Valid() && State() == Initial()
      ensures this.config == config && board.storage == storage
      ensures storage.available == old(storage.available)
      ensures storage.items == Migrate(config.gameId, old(storage.items), old(storage.available))
    {
      this.config := config;
      board := new Leaderboard(config.gameId, storage);
      timeLimit := 60;
      selectedTables := SetAll(true);
      running := false;
      score := 0;
      total := 0;
      correctOnFirstTry := true;
      current := None;
      lastPair := None;
      remaining := 60;
      ticking := false;
      startedAt := 0;
      answer := "";
      screen := StartScreen;
    }

    method ToggleTable(n: nat)
      requires Valid() && 1 <= n <= 12
      modifies this
      ensures State() == Toggled(old(State()), n) && Valid()
    {
      if n in selectedTables {
        selectedTables := Remove(selectedTables, n);
      } else {
        selectedTables := selectedTables + [n];
      }
      if |selectedTables| == 0 {
        selectedTables := selectedTables + [n];
      }
    }

    method SetAllTables(on: bool)
      requires Valid()
      modifies this
      ensures Valid() && State() == AllSelected(old(State()), on)
    {
      selectedTables := SetAll(on);
    }

    method SelectTime(seconds: int)
      requires Valid()
      modifies this
      ensures Valid() && State() == TimeSelected(old(State()), seconds)
    {
      timeLimit := seconds;
      remaining := seconds;
    }

    /** The change listener of the custom-seconds field. */
    method CommitCustomSeconds(x: JsNumber) returns (accepted: bool)
      requires Valid()
      modifies this
      ensures Valid() && State() == CustomSeconds(old(State()), x)
      ensures accepted == AcceptsSeconds(x)
    {
      accepted := IsInteger(x) && 10.0 <= x.value <= 600.0;
      if accepted {
        SelectTime(x.value.Floor);
      }
    }

    /** The first half of `startRun()`: counters, countdown and screen. */
    method Reset(now: int)
      modifies this
      ensures State() == old(State()).(running := true, score := 0, total := 0,
        remaining := timeLimit, startedAt := now, screen := GameScreen)
    {
      running := true;
      score := 0;
      total := 0;
      remaining := timeLimit;
      startedAt := now;
      screen := GameScreen;
    }

    /** `nextQuestion()`, recursing while the draw repeats the previous key. When no draw
        can ever differ the source recurses without end, overflowing the stack on engines
        without proper tail calls; the model reports that RangeError as `overflow` without
        recursing. */
    method NextQuestion(draws: seq<Draw>) returns (overflow: bool)
      requires Settled(State()) && WellFormed(answer) && CanDraw(Rules(), State(), draws)
      modifies this
      ensures State() == Next(Rules(), old(State()), draws).run
      ensures overflow == Next(Rules(), old(State()), draws).thrown
      decreases |draws|
    {
      if Stuck(Rules(), selectedTables, lastPair) {
        return true;
      }
      var c := Generate(Rules(), selectedTables, draws[0]);
      if Repeats(c, lastPair) {
        RedrawStep(Rules(), State(), draws);
        overflow := NextQuestion(draws[1..]);
        return;
      }
      lastPair := Some(c.key);
      current := Some(c.question);
      correctOnFirstTry := true;
      answer := "";
      overflow := false;
    }

    method SubmitAnswer(draws: seq<Draw>) returns (thrown: bool)
      requires Valid() && CanDraw(Rules(), State(), draws)
      modifies this
      ensures Valid()
      ensures State() == Submitted(Rules(), old(State()), draws).run
      ensures thrown == Submitted(Rules(), old(State()), draws).thrown
    {
      if !running || answer == "" {
        return false;
      }
      var correct := current.value.result == Whole(DecimalValue(answer));
      total := total + 1;
      if correct {
        if correctOnFirstTry {
          score := score + 1;
        }
        thrown := NextQuestion(draws);
      } else {
        correctOnFirstTry := false;
        thrown := false;
      }
    }

    method StartRun(draws: seq<Draw>, now: int) returns (thrown: bool)
      requires Valid() && CanDraw(Rules(), State(), draws)
      modifies this
      ensures Valid()
      ensures State() == Started(Rules(), old(State()), draws, now).run
      ensures thrown == Started(Rules(), old(State()), draws, now).thrown
    {
      Reset(now);
      thrown := NextQuestion(draws);
      if thrown {
        return;
      }
      ticking := true;
    }

    /** `endRun()`: saves the run's entry under the game's key and shows the end screen;
        a throwing store leaves the game screen up. */
    method EndRun(now: int) returns (thrown: bool)
      requires Valid()
      modifies this, board.storage
      ensures Valid()
      ensures board.storage.available == old(board.storage.available)
      ensures !old(running) ==> !thrown && State() == old(State()) && board.storage.items == old(board.storage.items)
      ensures old(running) ==> thrown == !board.storage.available
      ensures old(running) ==> State() == Stopped(old(State()), !thrown)
      ensures old(running) ==> board.storage.items == if thrown then old(board.storage.items)
        else old(board.storage.items)[board.storageKey := Entries(Ranked(
          Load(old(board.storage.items), board.storageKey, true),
          Stamp(RunEntry(old(State()), config.operation, now), now)))]
    {
      if !running {
        return false;
      }
      running := false;
      ticking := false;
      var entry := Classic(score, total, Percent(score, total), timeLimit, Label(selectedTables, config.operation), now);
      thrown := board.SaveScore(entry, now);
      if !thrown {
        screen := EndScreen;
      }
    }

    /** One tick of the interval: one second less, and the run ends when none is left. */
    method Tick(now: int) returns (thrown: bool)
      requires Valid() && ticking
      modifies this, board.storage
      ensures Valid()
      ensures board.storage.available == old(board.storage.available)
      ensures old(remaining) - 1 > 0 ==>
        !thrown && State() == Ticked(old(State())) && board.storage.items == old(board.storage.items)
      ensures old(remaining) - 1 <= 0 ==>
        && thrown == !board.storage.available
        && State() == Stopped(Ticked(old(State())), !thrown)
        && board.storage.items == if thrown then old(board.storage.items)
          else old(board.storage.items)[board.storageKey := Entries(Ranked(
            Load(old(board.storage.items), board.storageKey, true),
            Stamp(RunEntry(old(State()), config.operation, now), now)))]
    {
      remaining := remaining - 1;
      thrown := false;
      if remaining <= 0 {
        thrown := EndRun(now);
      }
    }

    method KeypadClick(b: Button, draws: seq<Draw>) returns (thrown: bool)
      requires Valid() && CanDraw(Rules(), State(), draws)
      modifies this
      ensures Valid()
      ensures State() == Clicked(Rules(), old(State()), b, draws).run
      ensures thrown == Clicked(Rules(), old(State()), b, draws).thrown
    {
      thrown := false;
      match b
      case EnterKey =>
        thrown := SubmitAnswer(draws);
      case BackKey =>
        answer := DropLast(answer);
      case DigitKey(c) =>
        if IsDigit(c) && |answer| < Cap {
          answer := answer + [c];
        }
      case NoKey =>
    }

    /** The document's keydown listener. */
    method Keydown(key: string, draws: seq<Draw>) returns (thrown: bool)
      requires Valid() && CanDraw(Rules(), State(), draws)
      modifies this
      ensures Valid()
      ensures State() == KeyPressed(Rules(), old(State()), key, draws).run
      ensures thrown == KeyPressed(Rules(), old(State()), key, draws).thrown
    {
      thrown := false;
      if screen != GameScreen {
        return;
      }
      if key == "Enter" {
        thrown := SubmitAnswer(draws);
      }
    }

    /** The Reset Leaderboard button. */
    method ResetBoard() returns (thrown: bool)
      requires Valid()
      modifies board.storage
      ensures board.storage.available == old(board.storage.available)
      ensures thrown == !board.storage.available
      ensures board.storage.items == if thrown then old(board.storage.items)
        else old(board.storage.items) - {StorageKey(config.gameId)}
    {
      thrown := board.Clear();
    }

    method Cleanup()
      requires Valid()
      modifies this
      ensures Valid() && State() == Cleaned(old(State()))
    {
      ticking := false;
      running := false;
    }
  }
}
