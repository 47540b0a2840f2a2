/** The legacy single-page game (script.js): the multiplication drill before the games were
    split into modules. It runs the classic engine with three differences: keys are
    remembered as `${a}x${b}`, an empty answer reads as 0 and counts, and the answer is a
    native text field the keyboard types into, with the leaderboard kept directly under the
    legacy storage key. */
module Legacy {
  import opened Js
  import opened Text
  import opened Keypad
  import opened Storage
  import opened Ranking
  import opened LeaderboardStore
  import opened Questions
  import opened Tables
  import opened Engine

  const LegacyRules: Rules := Rules(Standard(Product), 'x', false)

  /** The symbol of the tables label, `${n}×`. */
  const LabelSymbol: char := '\U{D7}'

  /** A stream of draws in which at least two differ in the second factor. */
  predicate Varied(draws: seq<Draw>, size: nat) {
    && DrawsValid(draws, size)
    && exists i, j :: 0 <= i < |draws| && 0 <= j < |draws| && draws[i].second != draws[j].second
  }

  /** The legacy game never gets stuck: whatever the selection and the previous key, a
      stream with two different second factors always holds a fresh question, because
      the two keys differ and at most one can equal the previous one. */
  lemma VariedCanDraw(s: Run, draws: seq<Draw>)
    requires Varied(draws, |s.selectedTables|)
    ensures CanDraw(LegacyRules, s, draws)
    ensures forall lastPair :: !Stuck(LegacyRules, s.selectedTables, lastPair)
  {
    var i, j :| 0 <= i < |draws| && 0 <= j < |draws| && draws[i].second != draws[j].second;
    var cs := Candidates(LegacyRules, s.selectedTables, draws);
    assert cs[i].key.right != cs[j].key.right;
    if Repeats(cs[i], s.lastPair) {
      assert !Repeats(cs[j], s.lastPair);
    }
  }

  /** No legacy question has 0 as its answer: a product of a table in 1..12 with 1..12 is
      positive, and with no table selected it is NaN. */
  lemma NoZeroAnswer(tables: seq<nat>, d: Draw)
    requires InRange(tables) && ValidDraw(d, |tables|)
    ensures Generate(LegacyRules, tables, d).question.result != Whole(0)
  {
    var q := Generate(LegacyRules, tables, d).question;
    if |tables| > 0 {
      assert q.result == Whole(tables[d.index] * d.second);
      assert tables[d.index] * d.second >= 1 * d.second;
    }
  }

  /** The default action of a key in the focused answer field, once the document
      listener has let it through: Backspace deletes the last character and a digit is
      typed; every other key is prevented or types nothing. The caret is taken to be at
      the end of the text. Unlike the on-screen keypad, there is no three-digit cap. */
  function FieldTyped(s: Run, key: string): (r: Run)
    requires Inv(s)
    ensures Inv(r)
    ensures key == "Backspace" ==> r == s.(answer := DropLast(s.answer))
    ensures |key| == 1 && IsDigit(key[0]) ==> r == s.(answer := s.answer + key)
    ensures key != "Backspace" && !(|key| == 1 && IsDigit(key[0])) ==> r == s
  {
    if key == "Backspace" then
      assert IsDigits(DropLast(s.answer));
      s.(answer := DropLast(s.answer))
    else if |key| == 1 && IsDigit(key[0]) then s.(answer := s.answer + key)
    else s
  }

  /** The text after typing the characters of `keys` one key at a time. */
  function FieldTypeAll(s: Run, keys: string): (r: Run)
    requires Inv(s)
    ensures Inv(r) && r.(answer := s.answer) == s
    decreases |keys|
  {
    if keys == [] then s else FieldTypeAll(FieldTyped(s, [keys[0]]), keys[1..])
  }

  /** Typing digits into the field appends all of them, however many: typing the digits
      of any whole number into an empty field reads back that number, four digits and
      more included, where the keypad stops at three. */
  lemma {:induction false} FieldTypesAll(s: Run, keys: string)
    requires Inv(s) && IsDigits(keys)
    ensures FieldTypeAll(s, keys) == s.(answer := s.answer + keys)
    decreases |keys|
  {
    if keys != [] {
      var t := FieldTyped(s, [keys[0]]);
      FieldTypesAll(t, keys[1..]);
      assert s.answer + [keys[0]] + keys[1..] == s.answer + keys;
    }
  }

  lemma FieldReadsBack(s: Run, n: nat)
    requires Inv(s) && s.answer == ""
    ensures FieldTypeAll(s, Decimal(n)).answer == Decimal(n)
    ensures DecimalValue(FieldTypeAll(s, Decimal(n)).answer) == n
  {
    FieldTypesAll(s, Decimal(n));
    DecimalRoundTrip(n);
  }

  /** The answer field's own keydown listener: Enter submits, whatever screen is shown. */
  function FieldListener(s: Run, key: string, draws: seq<Draw>): (st: Step)
    requires Inv(s) && CanDraw(LegacyRules, s, draws)
    ensures Inv(st.run)
    ensures key != "Enter" ==> st == Step(s, false)
  {
    if key == "Enter" then Submitted(LegacyRules, s, draws) else Step(s, false)
  }

  /** Enter pressed in the answer field, as the listeners are written: the field's
      listener submits, then the event bubbles to the document's listener, which submits
      again while the game screen shows. `again` stands for the draws of the second
      submission. */
  function FieldEnter(s: Run, draws: seq<Draw>, again: seq<Draw>): (st: Step)
    requires Inv(s) && CanDraw(LegacyRules, s, draws) && Varied(again, |s.selectedTables|)
    ensures Inv(st.run)
  {
    var first := Submitted(LegacyRules, s, draws);
    VariedCanDraw(first.run, again);
    if first.run.screen == GameScreen then Submitted(LegacyRules, first.run, again) else first
  }

  /** Enter pressed in the answer field, submitted once (the field's listener stopping the
      event from reaching the document's). */
  function FieldEnterOnce(s: Run, draws: seq<Draw>): (st: Step)
    requires Inv(s) && CanDraw(LegacyRules, s, draws)
    ensures Inv(st.run)
  {
    Submitted(LegacyRules, s, draws)
  }

  /** As written, a right answer entered with Enter in the answer field is followed by a
      submission of the cleared field, which reads as 0 and is wrong: the total goes up by
      two, and the new question has lost its first try, so it can no longer score. */
  lemma DoubleEnterSpendsNextQuestion(s: Run, draws: seq<Draw>, again: seq<Draw>, later: seq<Draw>)
    requires Inv(s) && CanDraw(LegacyRules, s, draws) && Varied(again, |s.selectedTables|)
    requires s.running && s.screen == GameScreen
    requires s.current.value.result == Whole(DecimalValue(s.answer))
    ensures var st := FieldEnter(s, draws, again);
      && !st.thrown
      && st.run.total == s.total + 2
      && st.run.score == (if s.correctOnFirstTry then s.score + 1 else s.score)
      && st.run.lastPair != s.lastPair
      && !st.run.correctOnFirstTry
      && (CanDraw(LegacyRules, st.run, later) ==>
            Submitted(LegacyRules, st.run, later).run.score == st.run.score)
  {
    SubmitFacts(LegacyRules, s, draws);
    var first := Submitted(LegacyRules, s, draws);
    var scored := s.(total := s.total + 1, score := if s.correctOnFirstTry then s.score + 1 else s.score);
    NextFacts(LegacyRules, scored, draws);
    var k :| 0 <= k < |draws| && first.run.current == Some(Generate(LegacyRules, s.selectedTables, draws[k]).question);
    NoZeroAnswer(s.selectedTables, draws[k]);
    VariedCanDraw(first.run, again);
    SubmitFacts(LegacyRules, first.run, again);
    var st := Submitted(LegacyRules, first.run, again);
    if CanDraw(LegacyRules, st.run, later) {
      SubmitFacts(LegacyRules, st.run, later);
    }
  }

  /** As written, a wrong answer entered with Enter in the answer field counts as two
      wrong answers. */
  lemma DoubleEnterCountsWrongTwice(s: Run, draws: seq<Draw>, again: seq<Draw>)
    requires Inv(s) && CanDraw(LegacyRules, s, draws) && Varied(again, |s.selectedTables|)
    requires s.running && s.screen == GameScreen
    requires s.current.value.result != Whole(DecimalValue(s.answer))
    ensures FieldEnter(s, draws, again) == Step(s.(total := s.total + 2, correctOnFirstTry := false), false)
  {
    SubmitFacts(LegacyRules, s, draws);
    var first := Submitted(LegacyRules, s, draws);
    VariedCanDraw(first.run, again);
    SubmitFacts(LegacyRules, first.run, again);
  }

  /** Submitted once, a right first answer scores, and the next question starts with its
      first try intact and an empty field; a wrong answer counts once. */
  lemma SingleEnterScores(s: Run, draws: seq<Draw>)
    requires Inv(s) && CanDraw(LegacyRules, s, draws)
    requires s.running
    ensures var st := FieldEnterOnce(s, draws);
      var right := s.current.value.result == Whole(DecimalValue(s.answer));
      && !st.thrown
      && st.run.total == s.total + 1
      && (right ==>
            && st.run.score == (if s.correctOnFirstTry then s.score + 1 else s.score)
            && st.run.correctOnFirstTry && st.run.answer == "" && st.run.lastPair != s.lastPair)
      && (!right ==> st.run == s.(total := s.total + 1, correctOnFirstTry := false))
  {
    SubmitFacts(LegacyRules, s, draws);
  }

  /** `saveScore(entry)` of script.js: the entry keeps its own date, and the list lives
      under the legacy key. */
  function LegacySaved(items: map<string, Stored>, e: Entry): (m: map<string, Stored>)
    ensures forall k :: k != LegacyKey ==> Lookup(m, k) == Lookup(items, k)
    ensures Load(m, LegacyKey, true) == Ranked(Load(items, LegacyKey, true), e)
  {
    items[LegacyKey := Entries(Ranked(Load(items, LegacyKey, true), e))]
  }

  class LegacyGame {
    const storage: LocalStorage

    var timeLimit: int
    var selectedTables: seq<nat>
    var running: bool
    var score: nat
    var total: nat
    var correctOnFirstTry: bool
    var current: Option<Question>
    var lastPair: Option<Key>
    var remaining: int
    /** The one-second interval (`tickHandle`) is running. */
    var ticking: bool
    var startedAt: int
    /** The value of the answer field. */
    var answer: string
    var screen: Screen

    function State(): Run
      reads this
    {
      Run(timeLimit, selectedTables, running, score, total, correctOnFirstTry, current, lastPair,
          remaining, ticking, startedAt, answer, screen)
    }

    predicate Valid()
      reads this
    {
      Inv(State())
    }

    /** `STATE` as declared, then `init()`: `selectTime(60)` and the start screen. */
    constructor (storage: LocalStorage)
      ensures Valid() && State() == Initial() && this.storage == storage
    {
      this.storage := storage;
      timeLimit := 60;
      selectedTables := SetAll(true);
      running := false;
      score := 0;
      total := 0;
      correctOnFirstTry := true;
      current := None;
      lastPair := None;
      remaining := 60;
      ticking := false;
      startedAt := 0;
      answer := "";
      screen := StartScreen;
    }

    /** `loadAll()` */
    method LoadAll() returns (data: seq<Entry>)
      ensures data == Load(storage.items, LegacyKey, storage.available)
    {
      var thrown, raw := storage.GetItem(LegacyKey);
      if thrown {
        return [];
      }
      match raw
      case Entries(list) => data := list;
      case _ => data := [];
    }

    /** `saveScore(entry)`: push, sort, keep 25, write; a throwing store makes it throw. */
    method SaveScore(entry: Entry) returns (thrown: bool)
      modifies storage
      ensures storage.available == old(storage.available)
      ensures thrown == !storage.available
      ensures storage.items == if thrown then old(storage.items) else LegacySaved(old(storage.items), entry)
    {
      var data := LoadAll();
      data := data + [entry];
      data := Sort(data);
      thrown := storage.SetItem(LegacyKey, Entries(Top(data)));
    }

    /** `clearScores()`, behind the Reset Leaderboard button. */
    method ClearScores() returns (thrown: bool)
      modifies storage
      ensures storage.available == old(storage.available)
      ensures thrown == !storage.available
      ensures storage.items == if thrown then old(storage.items) else old(storage.items) - {LegacyKey}
    {
      thrown := storage.RemoveItem(LegacyKey);
    }

    method ToggleTable(n: nat)
      requires Valid() && 1 <= n <= 12
      modifies this
      ensures State() == Toggled(old(State()), n) && Valid()
    {
      if n in selectedTables {
        selectedTables := Remove(selectedTables, n);
      } else {
        selectedTables := selectedTables + [n];
      }
      if |selectedTables| == 0 {
        selectedTables := selectedTables + [n];
      }
    }

    method SetAllTables(on: bool)
      requires Valid()
      modifies this
      ensures Valid() && State() == AllSelected(old(State()), on)
    {
      selectedTables := SetAll(on);
    }

    method SelectTime(seconds: int)
      requires Valid()
      modifies this
      ensures Valid() && State() == TimeSelected(old(State()), seconds)
    {
      timeLimit := seconds;
      remaining := seconds;
    }

    /** The change listener of the custom-seconds field. */
    method CommitCustomSeconds(x: JsNumber) returns (accepted: bool)
      requires Valid()
      modifies this
      ensures Valid() && State() == CustomSeconds(old(State()), x)
      ensures accepted == AcceptsSeconds(x)
    {
      accepted := IsInteger(x) && 10.0 <= x.value <= 600.0;
      if accepted {
        SelectTime(x.value.Floor);
      }
    }

    /** `nextQuestion()`, recursing while the draw repeats the previous key. */
    method NextQuestion(draws: seq<Draw>)
      requires Settled(State()) && CanDraw(LegacyRules, State(), draws)
      modifies this
      ensures State() == Next(LegacyRules, old(State()), draws).run
      ensures !Next(LegacyRules, old(State()), draws).thrown
      decreases |draws|
    {
      var c := Generate(LegacyRules, selectedTables, draws[0]);
      if Repeats(c, lastPair) {
        RedrawStep(LegacyRules, State(), draws);
        NextQuestion(draws[1..]);
        return;
      }
      lastPair := Some(c.key);
      current := Some(c.question);
      correctOnFirstTry := true;
      answer := "";
    }

    /** The first half of `startRun()`: counters, countdown and screen. */
    method Reset(now: int)
      modifies this
      ensures State() == old(State()).(running := true, score := 0, total := 0,
        remaining := timeLimit, startedAt := now, screen := GameScreen)
    {
      running := true;
      score := 0;
      total := 0;
      remaining := timeLimit;
      startedAt := now;
      screen := GameScreen;
    }

    /** `submitAnswer()`: the field's text, trimmed, as a number; an empty field is 0. */
    method SubmitAnswer(draws: seq<Draw>)
      requires Valid() && CanDraw(LegacyRules, State(), draws)
      modifies this
      ensures Valid()
      ensures State() == Submitted(LegacyRules, old(State()), draws).run
      ensures !Submitted(LegacyRules, old(State()), draws).thrown
    {
      if !running {
        return;
      }
      var correct := current.value.result == Whole(DecimalValue(answer));
      total := total + 1;
      if correct {
        if correctOnFirstTry {
          score := score + 1;
        }
        NextQuestion(draws);
      } else {
        correctOnFirstTry := false;
      }
    }

    method StartRun(draws: seq<Draw>, now: int)
      requires Valid() && CanDraw(LegacyRules, State(), draws)
      modifies this
      ensures Valid()
      ensures State() == Started(LegacyRules, old(State()), draws, now).run
      ensures !Started(LegacyRules, old(State()), draws, now).thrown
    {
      Reset(now);
      NextQuestion(draws);
      ticking := true;
    }

    /** `endRun()`: saves the run's entry, dated `now`, under the legacy key and shows the
        end screen; a throwing store leaves the game screen up. */
    method EndRun(now: int) returns (thrown: bool)
      requires Valid()
      modifies this, storage
      ensures Valid()
      ensures storage.available == old(storage.available)
      ensures !old(running) ==> !thrown && State() == old(State()) && storage.items == old(storage.items)
      ensures old(running) ==> thrown == !storage.available
      ensures old(running) ==> State() == Stopped(old(State()), !thrown)
      ensures old(running) ==> storage.items == if thrown then old(storage.items)
        else LegacySaved(old(storage.items), RunEntry(old(State()), LabelSymbol, now))
    {
      if !running {
        return false;
      }
      running := false;
      ticking := false;
      var entry := Classic(score, total, Percent(score, total), timeLimit, Label(selectedTables, LabelSymbol), now);
      thrown := SaveScore(entry);
      if !thrown {
        screen := EndScreen;
      }
    }

    /** One tick of the interval: one second less, and the run ends when none is left. */
    method Tick(now: int) returns (thrown: bool)
      requires Valid() && ticking
      modifies this, storage
      ensures Valid()
      ensures storage.available == old(storage.available)
      ensures old(remaining) - 1 > 0 ==>
        !thrown && State() == Ticked(old(State())) && storage.items == old(storage.items)
      ensures old(remaining) - 1 <= 0 ==>
        && thrown == !storage.available
        && State() == Stopped(Ticked(old(State())), !thrown)
        && storage.items == if thrown then old(storage.items)
          else LegacySaved(old(storage.items), RunEntry(old(State()), LabelSymbol, now))
    {
      remaining := remaining - 1;
      thrown := false;
      if remaining <= 0 {
        thrown := EndRun(now);
      }
    }

    /** A click on the on-screen keypad, which writes into the answer field. */
    method KeypadClick(b: Button, draws: seq<Draw>)
      requires Valid() && CanDraw(LegacyRules, State(), draws)
      modifies this
      ensures Valid()
      ensures State() == Clicked(LegacyRules, old(State()), b, draws).run
    {
      match b
      case EnterKey =>
        SubmitAnswer(draws);
      case BackKey =>
        answer := DropLast(answer);
      case DigitKey(c) =>
        if IsDigit(c) && |answer| < Cap {
          answer := answer + [c];
        }
      case NoKey =>
    }

    /** The document's keydown listener: on the game screen Enter submits. */
    method DocumentKeydown(key: string, draws: seq<Draw>)
      requires Valid() && CanDraw(LegacyRules, State(), draws)
      modifies this
      ensures Valid()
      ensures State() == KeyPressed(LegacyRules, old(State()), key, draws).run
    {
      if screen != GameScreen {
        return;
      }
      if key == "Enter" {
        SubmitAnswer(draws);
      }
    }

    /** The answer field's keydown listener. */
    method FieldKeydown(key: string, draws: seq<Draw>)
      requires Valid() && CanDraw(LegacyRules, State(), draws)
      modifies this
      ensures Valid()
      ensures State() == FieldListener(old(State()), key, draws).run
    {
      if key == "Enter" {
        SubmitAnswer(draws);
      }
    }

    /** The browser's default action for a key reaching the focused answer field. */
    method TypeInField(key: string)
      requires Valid()
      modifies this
      ensures Valid() && State() == FieldTyped(old(State()), key)
    {
      if key == "Backspace" {
        answer := DropLast(answer);
      } else if |key| == 1 && IsDigit(key[0]) {
        answer := answer + key;
      }
    }

    /** The Home button on the end screen. */
    method ShowStart()
      requires Valid()
      modifies this
      ensures Valid() && State() == old(State()).(screen := StartScreen)
    {
      screen := StartScreen;
    }
  }
}
