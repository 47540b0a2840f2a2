/** Times Table Sprint (games/times-table-sprint.js): the twelve products of one chosen
    factor answered in order, timed from the start of the run to the last right answer.
    As for the classic engine, the game is first stated as transitions between values of
    its state, and the class is proved to update its fields exactly as they say. */
module SprintGame {
  import opened Js
  import opened Text
  import opened Keypad
  import opened Storage
  import opened Ranking
  import opened LeaderboardStore
  import opened Engine

  const GameId: string := "times-table-sprint"

  /** One row of the problems grid: `a × b = result`, whether it was answered, and when
      (milliseconds after the start of the run). */
  datatype Problem = Problem(a: nat, b: nat, result: nat, completed: bool, timeMs: int)

  /** The sprint's state: the source's `state` (with `ticking` for "the 100 ms interval
      is running"), `currentAnswer`, whether the keydown listener is bound, and the
      visible screen. */
  datatype SprintRun = SprintRun(
    selectedFactor: Option<nat>,
    running: bool,
    currentIndex: nat,
    problems: seq<Problem>,
    startTime: Option<int>,
    elapsedMs: int,
    ticking: bool,
    currentAnswer: string,
    listening: bool,
    screen: Screen)

  /** The problems `startRun()` builds for factor `f`: 1×f, 2×f, ..., 12×f, none answered. */
  function TableOf(f: nat): (r: seq<Problem>)
    ensures 1 <= f <= 12 ==> IsTable(r) && r[0].b == f
    ensures DoneBefore(r, 0)
  {
    seq(12, i requires 0 <= i < 12 => Problem(i + 1, f, (i + 1) * f, false, 0))
  }

  /** The rows are the times table of one factor from 1 to 12. */
  predicate IsTable(ps: seq<Problem>) {
    && |ps| == 12
    && 1 <= ps[0].b <= 12
    && forall i :: 0 <= i < 12 ==> ps[i].a == i + 1 && ps[i].b == ps[0].b && ps[i].result == (i + 1) * ps[0].b
  }

  /** Exactly the rows before the current one are answered. */
  predicate DoneBefore(ps: seq<Problem>, k: nat) {
    forall i :: 0 <= i < |ps| ==> (ps[i].completed <==> i < k)
  }

  predicate SprintInv(s: SprintRun) {
    && (s.selectedFactor.Some? ==> 1 <= s.selectedFactor.value <= 12)
    && (|s.problems| == 0 || IsTable(s.problems))
    && WellFormed(s.currentAnswer)
    && (s.ticking ==> s.running)
    && (s.running ==>
      && s.selectedFactor.Some?
      && IsTable(s.problems)
      && s.currentIndex < 12
      && s.startTime.Some?
      && DoneBefore(s.problems, s.currentIndex))
  }

  /** Every answer of a table of a factor from 1 to 12 (at most 144) fits the three-digit
      buffer, and the answers grow row by row. */
  lemma TableOfFacts(f: nat)
    requires 1 <= f <= 12
    ensures forall i :: 0 <= i < 12 ==> TableOf(f)[i].result <= 144
    ensures forall i, j :: 0 <= i < j < 12 ==> TableOf(f)[i].result < TableOf(f)[j].result
  {
    var ps := TableOf(f);
    forall i | 0 <= i < 12 ensures ps[i].result <= 144 {
      ProductBound(i + 1, f);
    }
    forall i, j | 0 <= i < j < 12 ensures ps[i].result < ps[j].result {
      ProductGrows(i + 1, j + 1, f);
    }
  }

  lemma ProductBound(x: nat, f: nat)
    requires x <= 12 && f <= 12
    ensures x * f <= 144
  {
    assert x * f <= 12 * f;
  }

  lemma ProductGrows(x: nat, y: nat, f: nat)
    requires x < y && 1 <= f
    ensures x * f < y * f
  {
    assert y * f == x * f + (y - x) * f;
  }

  /** The constructor followed by `init()`: no factor, no run, the start screen, and the
      keydown listener bound. */
  function SprintInitial(): (s: SprintRun)
    ensures SprintInv(s) && s.selectedFactor.None? && !s.running && s.listening && s.screen == StartScreen
  {
    SprintRun(None, false, 0, [], None, 0, false, "", true, StartScreen)
  }

  function FactorSelected(s: SprintRun, n: nat): (r: SprintRun)
    requires SprintInv(s) && 1 <= n <= 12
    ensures SprintInv(r) && r.selectedFactor == Some(n)
    ensures r.(selectedFactor := s.selectedFactor) == s
  {
    s.(selectedFactor := Some(n))
  }

  /** `startRun()`: nothing without a factor; otherwise a fresh table for the factor, the
      first row current, the clock started and the game screen shown. The answer buffer
      is left as it was. */
  function SprintStarted(s: SprintRun, now: int): (r: SprintRun)
    requires SprintInv(s)
    ensures SprintInv(r)
  {
    if s.selectedFactor.None? then s
    else
      TableOfFacts(s.selectedFactor.value);
      s.(problems := TableOf(s.selectedFactor.value), running := true, currentIndex := 0,
         startTime := Some(now), elapsedMs := 0, ticking := true, screen := GameScreen)
  }

  lemma StartFacts(s: SprintRun, now: int)
    requires SprintInv(s)
    ensures s.selectedFactor.None? ==> SprintStarted(s, now) == s
    ensures s.selectedFactor.Some? ==>
      var r := SprintStarted(s, now);
      && r.running && r.ticking && r.currentIndex == 0 && r.startTime == Some(now) && r.elapsedMs == 0
      && r.screen == GameScreen && r.currentAnswer == s.currentAnswer
      && |r.problems| == 12
      && (forall i :: 0 <= i < 12 ==>
            !r.problems[i].completed && r.problems[i].a == i + 1
            && r.problems[i].b == s.selectedFactor.value
            && r.problems[i].result == (i + 1) * s.selectedFactor.value)
  {
  }

  /** One tick of the interval: the clock shows the time since the start. */
  function SprintTicked(s: SprintRun, now: int): (r: SprintRun)
    requires SprintInv(s) && s.ticking
    ensures SprintInv(r) && r.elapsedMs == now - s.startTime.value
    ensures r.(elapsedMs := s.elapsedMs) == s
  {
    s.(elapsedMs := now - s.startTime.value)
  }

  /** The buffer holds the answer to the current row. */
  predicate Solves(s: SprintRun)
    requires SprintInv(s)
  {
    s.running && s.currentAnswer != "" && DecimalValue(s.currentAnswer) == s.problems[s.currentIndex].result
  }

  /** The right answer to the last row ends the run. */
  predicate Finishes(s: SprintRun)
    requires SprintInv(s)
  {
    Solves(s) && s.currentIndex == |s.problems| - 1
  }

  /** A right answer: the row is marked done at the time since the start, the buffer is
      cleared, and the next row becomes current unless this was the last. */
  function Marked(s: SprintRun, now: int): (r: SprintRun)
    requires SprintInv(s) && Solves(s)
    ensures |r.problems| == 12 && r.currentAnswer == ""
    ensures r.problems[s.currentIndex].completed
    ensures r.problems[s.currentIndex].timeMs == now - s.startTime.value
    ensures forall i :: 0 <= i < 12 && i != s.currentIndex ==> r.problems[i] == s.problems[i]
  {
    var i := s.currentIndex;
    s.(problems := s.problems[i := s.problems[i].(completed := true, timeMs := now - s.startTime.value)],
       currentAnswer := "",
       currentIndex := if i < |s.problems| - 1 then i + 1 else i)
  }

  /** A right answer below the last row moves to the next row and keeps the invariant;
      one on the last row leaves every row done. */
  lemma MarkFacts(s: SprintRun, now: int)
    requires SprintInv(s) && Solves(s)
    ensures var r := Marked(s, now);
      && (!Finishes(s) ==> SprintInv(r) && r.currentIndex == s.currentIndex + 1)
      && (Finishes(s) ==> forall i :: 0 <= i < 12 ==> r.problems[i].completed)
  {
  }

  /** The state side of `endRun()`: the clock is read one last time and stopped; the end
      screen shows only if the entry was saved. */
  function SprintStopped(s: SprintRun, now: int, saved: bool): (r: SprintRun)
    requires s.running ==> s.startTime.Some?
    ensures !r.running && (s.running ==> !r.ticking)
    ensures !s.running ==> r == s
    ensures s.running ==> r.elapsedMs == now - s.startTime.value
  {
    if !s.running then s
    else s.(running := false, elapsedMs := now - s.startTime.value, ticking := false,
            screen := if saved then EndScreen else s.screen)
  }

  /** The entry `endRun()` saves: the factor and the elapsed time rounded to tenths of a
      second, as `(elapsedMs / 1000).toFixed(1)` prints it. */
  function SprintEntry(s: SprintRun, now: int): (e: Entry)
    requires s.selectedFactor.Some? && s.startTime.Some?
    ensures e.Sprint? && e.factor == s.selectedFactor.value && e.date == now
    ensures now >= s.startTime.value ==>
      e.time >= 0 && 100 * e.time - 50 <= now - s.startTime.value < 100 * e.time + 50
  {
    Sprint(s.selectedFactor.value, Tenths(now - s.startTime.value), now)
  }

  /** The run ends once: after the last right answer has stopped it, every later
      submission is ignored and can neither mark a row nor save again. */
  lemma EndsOnce(s: SprintRun, now: int, saved: bool, later: int)
    requires SprintInv(s) && Finishes(s)
    ensures var r := SprintStopped(Marked(s, now), now, saved);
      && SprintInv(r) && !r.running && !Solves(r)
      && SprintSubmitted(r, later) == r
      && forall i :: 0 <= i < 12 ==> r.problems[i].completed
  {
    MarkFacts(s, now);
  }

  /** The rows answered so far. */
  function CountDone(ps: seq<Problem>): nat
  {
    if ps == [] then 0 else CountDone(ps[..|ps| - 1]) + (if ps[|ps| - 1].completed then 1 else 0)
  }

  lemma {:induction false} CountDoneBefore(ps: seq<Problem>, k: nat)
    requires DoneBefore(ps, k) && k <= |ps|
    ensures CountDone(ps) == k
  {
    if ps != [] {
      var init := ps[..|ps| - 1];
      if k == |ps| {
        CountDoneBefore(init, k - 1);
      } else {
        CountDoneBefore(init, k);
      }
    }
  }

  /** The progress counter `${completed} / 12` shows the index of the current row. */
  lemma ProgressIsIndex(s: SprintRun)
    requires SprintInv(s) && s.running
    ensures CountDone(s.problems) == s.currentIndex
  {
    CountDoneBefore(s.problems, s.currentIndex);
  }

  /** `submitAnswer()`, state side: nothing unless the buffer holds the right answer. */
  function SprintSubmitted(s: SprintRun, now: int): (r: SprintRun)
    requires SprintInv(s)
    ensures !Finishes(s) ==> SprintInv(r)
    ensures !Solves(s) ==> r == s
  {
    if !s.running || s.currentAnswer == "" then s
    else if DecimalValue(s.currentAnswer) != s.problems[s.currentIndex].result then s
    else Marked(s, now)
  }

  /** A key on the sprint's own keyboard listener. */
  datatype KeyOutcome = Ignored | SubmitKey | EraseKey | TypeKey(c: char) | ExitKey

  /** What `handleKeydown` does with a key: nothing off the game screen or with a
      modifier held; Enter submits; Backspace and Delete erase; a single digit is typed;
      Escape asks to leave the game. */
  function Classify(onGameScreen: bool, key: string, modified: bool): (o: KeyOutcome)
    ensures o.TypeKey? ==> IsDigit(o.c)
  {
    if !onGameScreen || modified then Ignored
    else if key == "Enter" then SubmitKey
    else if key == "Backspace" || key == "Delete" then EraseKey
    else if |key| == 1 && IsDigit(key[0]) then TypeKey(key[0])
    else if key == "Escape" then ExitKey
    else Ignored
  }

  /** On the game screen and without modifiers, the keyboard does what the matching
      on-screen key does, Escape asks to leave, and letters and other named keys (such as
      `ArrowLeft`) do nothing. */
  lemma KeyboardMatchesKeypad(key: string, c: char)
    requires IsDigit(c)
    ensures Classify(true, "Enter", false) == SubmitKey
    ensures Classify(true, "Backspace", false) == EraseKey && Classify(true, "Delete", false) == EraseKey
    ensures Classify(true, [c], false) == TypeKey(c)
    ensures Classify(false, key, false) == Ignored && Classify(true, key, true) == Ignored
    ensures |key| == 1 && !IsDigit(key[0]) ==> Classify(true, key, false) == Ignored
    ensures Classify(true, "Escape", false) == ExitKey
    ensures |key| > 1 && key !in ["Enter", "Backspace", "Delete", "Escape"] ==>
      Classify(true, key, false) == Ignored
  {
  }

  /** `cleanup()`: the clock stops, the run ends without saving, and the listener is
      unbound; a second cleanup changes nothing. */
  function SprintCleaned(s: SprintRun): (r: SprintRun)
    requires SprintInv(s)
    ensures SprintInv(r) && !r.running && !r.ticking && !r.listening
    ensures r.(running := s.running, ticking := s.ticking, listening := s.listening) == s
  {
    s.(running := false, ticking := false, listening := false)
  }

  /** Leaving the game a second time (the exit button after the end screen, say) changes
      nothing. */
  lemma CleanupIdempotent(s: SprintRun)
    requires SprintInv(s)
    ensures SprintCleaned(SprintCleaned(s)) == SprintCleaned(s)
  {
  }

  class TimesTableSprint {
    const board: Leaderboard

    var selectedFactor: Option<nat>
    var running: bool
    var currentIndex: nat
    var problems: seq<Problem>
    var startTime: Option<int>
    var elapsedMs: int
    /** The 100 ms interval (`timerHandle`) is running. */
    var ticking: bool
    var currentAnswer: string
    /** `boundKeydownHandler` is registered on the document. */
    var listening: bool
    var screen: Screen

    function State(): SprintRun
      reads this
    {
      SprintRun(selectedFactor, running, currentIndex, problems, startTime, elapsedMs, ticking,
                currentAnswer, listening, screen)
    }

    predicate Valid()
      reads this
    {
      SprintInv(State()) && board.gameId == GameId && board.storageKey == StorageKey(GameId)
    }

    /** The constructor followed by `init()`. */
    constructor (storage: LocalStorage)
      modifies storage
      ensures Valid() && State() == SprintInitial() && board.storage == storage
      ensures storage.available == old(storage.available)
      ensures storage.items == Migrate(GameId, old(storage.items), old(storage.available))
    {
      board := new Leaderboard(GameId, storage);
      selectedFactor := None;
      running := false;
      currentIndex := 0;
      problems := [];
      startTime := None;
      elapsedMs := 0;
      ticking := false;
      currentAnswer := "";
      listening := true;
      screen := StartScreen;
    }

    method SelectFactor(n: nat)
      requires Valid() && 1 <= n <= 12
      modifies this
      ensures Valid() && State() == FactorSelected(old(State()), n)
    {
      selectedFactor := Some(n);
    }

    method StartRun(now: int)
      requires Valid()
      modifies this
      ensures State() == SprintStarted(old(State()), now) && Valid()
    {
      if selectedFactor.None? {
        return;
      }
      var f := selectedFactor.value;
      var table: seq<Problem> := [];
      var a := 1;
      while a <= 12
        invariant 1 <= a <= 13
        invariant table == TableOf(f)[..a - 1]
      {
        table := table + [Problem(a, f, a * f, false, 0)];
        a := a + 1;
      }
      problems := table;
      running := true;
      currentIndex := 0;
      startTime := Some(now);
      elapsedMs := 0;
      ticking := true;
      screen := GameScreen;
    }

    method Tick(now: int)
      requires Valid() && ticking
      modifies this
      ensures Valid() && State() == SprintTicked(old(State()), now)
    {
      elapsedMs := now - startTime.value;
    }

    /** `endRun()`: saves the factor and the time and shows the end screen; a throwing
        store leaves the game screen up. */
    method EndRun(now: int) returns (thrown: bool)
      requires board.storageKey == StorageKey(board.gameId)
      requires running ==> selectedFactor.Some? && startTime.Some?
      modifies this, board.storage
      ensures board.storage.available == old(board.storage.available)
      ensures !old(running) ==> !thrown && State() == old(State()) && board.storage.items == old(board.storage.items)
      ensures old(running) ==> thrown == !board.storage.available
      ensures old(running) ==> State() == SprintStopped(old(State()), now, !thrown)
      ensures old(running) ==> board.storage.items == if thrown then old(board.storage.items)
        else old(board.storage.items)[board.storageKey := Entries(Ranked(
          Load(old(board.storage.items), board.storageKey, true), Stamp(SprintEntry(old(State()), now), now)))]
    {
      if !running {
        return false;
      }
      running := false;
      elapsedMs := now - startTime.value;
      ticking := false;
      var entry := Sprint(selectedFactor.value, Tenths(elapsedMs), now);
      thrown := board.SaveScore(entry, now);
      if !thrown {
        screen := EndScreen;
      }
    }

    method SubmitAnswer(now: int) returns (thrown: bool)
      requires Valid()
      modifies this, board.storage
      ensures Valid()
      ensures board.storage.available == old(board.storage.available)
      ensures !Finishes(old(State())) ==>
        !thrown && State() == SprintSubmitted(old(State()), now) && board.storage.items == old(board.storage.items)
      ensures Finishes(old(State())) ==>
        && thrown == !board.storage.available
        && State() == SprintStopped(Marked(old(State()), now), now, !thrown)
        && board.storage.items == if thrown then old(board.storage.items)
          else old(board.storage.items)[board.storageKey := Entries(Ranked(
            Load(old(board.storage.items), board.storageKey, true), Stamp(SprintEntry(old(State()), now), now)))]
    {
      if !running || currentAnswer == "" {
        return false;
      }
      if DecimalValue(currentAnswer) != problems[currentIndex].result {
        return false;
      }
      ghost var before := State();
      problems := problems[currentIndex := problems[currentIndex].(completed := true, timeMs := now - startTime.value)];
      currentAnswer := "";
      if currentIndex < |problems| - 1 {
        currentIndex := currentIndex + 1;
        thrown := false;
      } else {
        assert State() == Marked(before, now);
        thrown := EndRun(now);
      }
    }

    method KeypadClick(b: Button, now: int) returns (thrown: bool)
      requires Valid()
      modifies this, board.storage
      ensures Valid()
      ensures board.storage.available == old(board.storage.available)
      ensures b != EnterKey ==> !thrown && board.storage.items == old(board.storage.items)
      ensures b == BackKey ==> State() == old(State()).(currentAnswer := DropLast(old(currentAnswer)))
      ensures b.DigitKey? ==> State() == old(State()).(currentAnswer := Typed(old(currentAnswer), b.face))
      ensures b == NoKey ==> State() == old(State())
      ensures b == EnterKey && !Finishes(old(State())) ==>
        !thrown && State() == SprintSubmitted(old(State()), now) && board.storage.items == old(board.storage.items)
      ensures b == EnterKey && Finishes(old(State())) ==>
        && thrown == !board.storage.available
        && State() == SprintStopped(Marked(old(State()), now), now, !thrown)
        && board.storage.items == if thrown then old(board.storage.items)
          else old(board.storage.items)[board.storageKey := Entries(Ranked(
            Load(old(board.storage.items), board.storageKey, true), Stamp(SprintEntry(old(State()), now), now)))]
    {
      thrown := false;
      match b
      case EnterKey =>
        thrown := SubmitAnswer(now);
      case BackKey =>
        currentAnswer := DropLast(currentAnswer);
      case DigitKey(c) =>
        KeysKeepBuffer(currentAnswer, c);
        if IsDigit(c) && |currentAnswer| < Cap {
          currentAnswer := currentAnswer + [c];
        }
      case NoKey =>
    }

    /** A key press on the document: `handleKeydown(e)` while the listener is bound, with
        `modified` for a held Ctrl, Meta or Alt key; after `cleanup()` has removed the
        listener the press reaches no handler and nothing changes. */
    method Keydown(key: string, modified: bool, now: int) returns (thrown: bool)
      requires Valid()
      modifies this, board.storage
      ensures Valid()
      ensures board.storage.available == old(board.storage.available)
      ensures !old(listening) ==>
        !thrown && State() == old(State()) && board.storage.items == old(board.storage.items)
      ensures var o := Classify(old(screen) == GameScreen, key, modified);
        old(listening) ==>
        && (o != SubmitKey ==> !thrown && board.storage.items == old(board.storage.items))
        && (o == Ignored || o == ExitKey ==> State() == old(State()))
        && (o == EraseKey ==> State() == old(State()).(currentAnswer := DropLast(old(currentAnswer))))
        && (o.TypeKey? ==> State() == old(State()).(currentAnswer := Typed(old(currentAnswer), o.c)))
        && (o == SubmitKey && !Finishes(old(State())) ==>
              && !thrown && State() == SprintSubmitted(old(State()), now)
              && board.storage.items == old(board.storage.items))
        && (o == SubmitKey && Finishes(old(State())) ==>
              && thrown == !board.storage.available
              && State() == SprintStopped(Marked(old(State()), now), now, !thrown)
              && board.storage.items == if thrown then old(board.storage.items)
                else old(board.storage.items)[board.storageKey := Entries(Ranked(
                  Load(old(board.storage.items), board.storageKey, true), Stamp(SprintEntry(old(State()), now), now)))])
    {
      thrown := false;
      if !listening {
        return;
      }
      match Classify(screen == GameScreen, key, modified)
      case SubmitKey =>
        thrown := SubmitAnswer(now);
      case EraseKey =>
        currentAnswer := DropLast(currentAnswer);
      case TypeKey(c) =>
        KeysKeepBuffer(currentAnswer, c);
        if |currentAnswer| < Cap {
          currentAnswer := currentAnswer + [c];
        }
      case ExitKey =>
      case Ignored =>
    }

    /** The play-again button: back to the start screen to pick a factor. */
    method PlayAgain()
      requires Valid()
      modifies this
      ensures Valid() && State() == old(State()).(screen := StartScreen)
    {
      screen := StartScreen;
    }

    method ResetBoard() returns (thrown: bool)
      requires Valid()
      modifies board.storage
      ensures board.storage.available == old(board.storage.available)
      ensures thrown == !board.storage.available
      ensures board.storage.items == if thrown then old(board.storage.items)
        else old(board.storage.items) - {StorageKey(GameId)}
    {
      thrown := board.Clear();
    }

    method Cleanup()
      requires Valid()
      modifies this
      ensures Valid() && State() == SprintCleaned(old(State()))
    {
      ticking := false;
      running := false;
      if listening {
        listening := false;
      }
    }
  }
}
