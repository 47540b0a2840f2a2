/** Addition Sprint (games/addition.js): the classic engine with `+` and the sum. */
module Addition {
  import opened Js
  import opened Text
  import opened Keypad
  import opened Storage
  import opened Questions
  import opened Tables
  import opened LeaderboardStore
  import opened Engine

  const Config: GameConfig := GameConfig("addition", '+', Standard(Sum), 1, 12)

  /** With a table selected, every question asks for the sum of a selected table and a
      number from 1 to 12; the answer, from 2 to 24, can be typed on the keypad. With no
      table selected the answer is NaN, which no typed answer equals. */
  lemma Answers(tables: seq<nat>, d: Draw, typed: nat)
    requires InRange(tables) && ValidDraw(d, |tables|)
    ensures var q := Generate(RulesOf(Config), tables, d).question;
      && (|tables| > 0 ==>
            && q.a.Whole? && q.b.Whole? && q.a.n in tables && 1 <= q.b.n <= 12
            && q.result == Whole(q.a.n + q.b.n) && 2 <= q.result.n <= 24
            && TypeAll("", Decimal(q.result.n)) == Decimal(q.result.n))
      && (|tables| == 0 ==> q.result == NaN && q.result != Whole(typed))
  {
    var q := Generate(RulesOf(Config), tables, d).question;
    StandardOperands(Sum, '+', tables, d);
    if |tables| > 0 {
      assert q.a == Whole(tables[d.index]);
      TypeAnswer(q.result.n);
    }
  }

  /** The addition game keeps its board under `mfacts.leaderboard.addition.v1`, apart from
      every other game, and its migration leaves the store as it is. */
  lemma OwnBoard(other: string, items: map<string, Stored>, available: bool)
    requires other != Config.gameId
    ensures StorageKey(Config.gameId) == "mfacts.leaderboard.addition.v1"
    ensures StorageKey(Config.gameId) != StorageKey(other)
    ensures Migrate(Config.gameId, items, available) == items
  {
    StorageKeyDistinct(Config.gameId, other);
  }
}
