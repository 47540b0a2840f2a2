/** Multiplication Dash (games/multiplication.js): the classic engine with `×` and the
    product, and the game that inherits the legacy leaderboard. */
module Multiplication {
  import opened Js
  import opened Text
  import opened Keypad
  import opened Storage
  import opened Ranking
  import opened Questions
  import opened Tables
  import opened LeaderboardStore
  import opened Engine
  import Legacy

  const Config: GameConfig := GameConfig("multiplication", '\U{D7}', Standard(Product), 1, 12)

  /** With a table selected, every question asks for the product of a selected table and
      a number from 1 to 12; the digits of the answer, from 1 to 144, all fit in the
      keypad's three-digit buffer. */
  lemma Answers(tables: seq<nat>, d: Draw)
    requires InRange(tables) && |tables| > 0 && ValidDraw(d, |tables|)
    ensures var q := Generate(RulesOf(Config), tables, d).question;
      && q.a.Whole? && q.b.Whole? && q.a.n in tables && 1 <= q.b.n <= 12
      && q.result == Whole(q.a.n * q.b.n) && 1 <= q.result.n <= 144
      && TypeAll("", Decimal(q.result.n)) == Decimal(q.result.n)
  {
    var q := Generate(RulesOf(Config), tables, d).question;
    StandardOperands(Product, Config.operation, tables, d);
    assert q.a == Whole(tables[d.index]);
    assert q.a.n * q.b.n <= 12 * q.b.n <= 144;
    assert q.a.n * q.b.n >= 1 * q.b.n;
    TypeAnswer(q.result.n);
  }

  /** The multiplication game and the legacy game draw the same questions; only the key
      they remember them by is spelled differently. */
  lemma SameQuestionsAsLegacy(tables: seq<nat>, d: Draw)
    ensures Generate(RulesOf(Config), tables, d).question == Generate(Legacy.LegacyRules, tables, d).question
    ensures Generate(RulesOf(Config), tables, d).key
         == Generate(Legacy.LegacyRules, tables, d).key.(symbol := Config.operation)
  {
  }

  /** Opening the multiplication game for the first time moves the legacy board to its
      own key: the list is kept as it was and the legacy key is gone. */
  lemma TakesOverLegacyBoard(items: map<string, Stored>)
    requires Lookup(items, LegacyKey).Entries? && Lookup(items, StorageKey(Config.gameId)) == Absent
    ensures var m := Migrate(Config.gameId, items, true);
      && Load(m, StorageKey(Config.gameId), true) == Lookup(items, LegacyKey).list
      && Load(m, LegacyKey, true) == []
      && Lookup(m, LegacyKey) == Absent
  {
    MigrateEffect(Config.gameId, items, true, LegacyKey);
  }

  /** A board saved by the legacy game, new entry included, is the board the
      multiplication game shows once it has migrated, as long as it had none of its own. */
  lemma LegacyRunsCarryOver(items: map<string, Stored>, e: Entry)
    requires Lookup(items, StorageKey(Config.gameId)) == Absent
    ensures Load(Migrate(Config.gameId, Legacy.LegacySaved(items, e), true), StorageKey(Config.gameId), true)
         == Ranked(Load(items, LegacyKey, true), e)
  {
    StorageKeyDistinct(Config.gameId, Config.gameId);
    var saved := Legacy.LegacySaved(items, e);
    assert Lookup(saved, StorageKey(Config.gameId)) == Absent;
    TakesOverLegacyBoard(saved);
  }

  /** Once the multiplication game has a board of its own, the legacy data is left where
      it is. */
  lemma KeepsOwnBoard(items: map<string, Stored>, available: bool)
    requires Lookup(items, StorageKey(Config.gameId)) != Absent
    ensures Migrate(Config.gameId, items, available) == items
  {
  }
}
