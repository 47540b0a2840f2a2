/** The per-game leaderboard store (`modules/leaderboard.js`): one list of entries per game
    id under its own namespaced key, and a one-time move of the legacy key's data into the
    multiplication game's key. */
module LeaderboardStore {
  import opened Storage
  import opened Ranking

  /** The single key the legacy game wrote to. */
  const LegacyKey: string := "mfacts.leaderboard.v1"

  const Prefix: string := "mfacts.leaderboard."
  const Suffix: string := ".v1"

  /** `mfacts.leaderboard.<gameId>.v1` */
  function StorageKey(gameId: string): (r: string)
    ensures |r| == |Prefix| + |gameId| + |Suffix|
    ensures r[..|Prefix|] == Prefix && r[|Prefix|..|r| - |Suffix|] == gameId && r[|r| - |Suffix|..] == Suffix
    ensures r != LegacyKey
  {
    Prefix + gameId + Suffix
  }

  /** Different games never share a key, and no game uses the legacy key. */
  lemma StorageKeyDistinct(g1: string, g2: string)
    ensures StorageKey(g1) == StorageKey(g2) ==> g1 == g2
    ensures StorageKey(g1) != LegacyKey
  {
    var k := StorageKey(g1);
    assert |k| == |Prefix| + |g1| + |Suffix|;
    if StorageKey(g1) == StorageKey(g2) {
      assert g1 == k[|Prefix|..|k| - |Suffix|];
      assert g2 == StorageKey(g2)[|Prefix|..|k| - |Suffix|];
    }
  }

  /** `loadAll()`: the stored list, or the empty list when the key is absent, its text does
      not parse, or storage throws. */
  function Load(items: map<string, Stored>, key: string, available: bool): (r: seq<Entry>)
    ensures available && Lookup(items, key).Entries? ==> r == Lookup(items, key).list
    ensures |r| > 0 ==> available && Lookup(items, key) == Entries(r)
  {
    if !available then []
    else match Lookup(items, key)
      case Entries(list) => list
      case _ => []
  }

  /** `{...entry, date: now}`: the save instant overrides any date the caller put in. */
  function Stamp(e: Entry, now: int): (r: Entry)
    ensures r.date == now
    ensures r.Classic? <==> e.Classic?
    ensures r.Classic? ==> r == Classic(e.score, e.total, e.accuracy, e.time, e.tables, now)
    ensures r.Sprint? ==> r == Sprint(e.factor, e.time, now)
  {
    e.(date := now)
  }

  /** The store after `migrateOldData()` for `gameId`: only the multiplication game moves
      the legacy value, and only when the legacy key holds something and its own key
      holds nothing. */
  function Migrate(gameId: string, items: map<string, Stored>, available: bool): (r: map<string, Stored>)
    ensures gameId != "multiplication" || !available ==> r == items
    ensures forall k :: k != LegacyKey && k != StorageKey(gameId) ==> Lookup(r, k) == Lookup(items, k)
    ensures Lookup(items, StorageKey(gameId)) != Absent ==> r == items
  {
    var key := StorageKey(gameId);
    if gameId == "multiplication" && available
      && Lookup(items, LegacyKey) != Absent && Lookup(items, key) == Absent
    then items[key := Lookup(items, LegacyKey)] - {LegacyKey}
    else items
  }

  /** Migration copies the legacy value to the multiplication key, removes the legacy key,
      touches no other key, and does nothing for any other game. */
  lemma MigrateEffect(gameId: string, items: map<string, Stored>, available: bool, k: string)
    ensures var m := Migrate(gameId, items, available);
      if gameId == "multiplication" && available
        && Lookup(items, LegacyKey) != Absent && Lookup(items, StorageKey(gameId)) == Absent
      then
        && Lookup(m, StorageKey(gameId)) == Lookup(items, LegacyKey)
        && Lookup(m, LegacyKey) == Absent
        && (k != LegacyKey && k != StorageKey(gameId) ==> Lookup(m, k) == Lookup(items, k))
      else m == items
  {
    StorageKeyDistinct(gameId, gameId);
  }

  /** A second migration finds nothing left to move. */
  lemma MigrateIdempotent(gameId: string, items: map<string, Stored>, available: bool)
    ensures Migrate(gameId, Migrate(gameId, items, available), available)
         == Migrate(gameId, items, available)
  {
    StorageKeyDistinct(gameId, gameId);
  }

  /** A leaderboard bound to one game id. */
  class Leaderboard {
    const gameId: string
    const storageKey: string
    const storage: LocalStorage

    /** `new Leaderboard(gameId)`: derives the key and runs the migration. */
    constructor (gameId: string, storage: LocalStorage)
      modifies storage
      ensures this.gameId == gameId && this.storage == storage
      ensures storageKey == StorageKey(gameId)
      ensures storage.available == old(storage.available)
      ensures storage.items == Migrate(gameId, old(storage.items), old(storage.available))
    {
      this.gameId := gameId;
      this.storageKey := StorageKey(gameId);
      this.storage := storage;
      new;
      MigrateOldData();
    }

    method MigrateOldData()
      requires storageKey == StorageKey(gameId)
      modifies storage
      ensures storage.available == old(storage.available)
      ensures storage.items == Migrate(gameId, old(storage.items), old(storage.available))
    {
      if gameId == "multiplication" {
        var thrown, oldData := storage.GetItem(LegacyKey);
        if !thrown && oldData != Absent {
          var thrown', current := storage.GetItem(storageKey);
          if current == Absent {
            thrown' := storage.SetItem(storageKey, oldData);
            thrown' := storage.RemoveItem(LegacyKey);
          }
        }
      }
    }

    /** Never throws: a missing key, unparseable text or a throwing store all read as []. */
    method LoadAll() returns (data: seq<Entry>)
      requires storageKey == StorageKey(gameId)
      ensures data == Load(storage.items, storageKey, storage.available)
      ensures storage.available && Lookup(storage.items, storageKey).Entries? ==>
        data == Lookup(storage.items, storageKey).list
      ensures !(storage.available && Lookup(storage.items, storageKey).Entries?) ==> data == []
    {
      var thrown, raw := storage.GetItem(storageKey);
      if thrown {
        return [];
      }
      match raw
      case Entries(list) => data := list;
      case _ => data := [];
    }

    /** Pushes the stamped entry, sorts, keeps the top 25 and writes them back; the write
        is not guarded, so a throwing store makes the call throw with nothing written. */
    method SaveScore(entry: Entry, now: int) returns (thrown: bool)
      requires storageKey == StorageKey(gameId)
      modifies storage
      ensures storage.available == old(storage.available)
      ensures thrown == !storage.available
      ensures storage.items == if thrown then old(storage.items)
        else old(storage.items)[storageKey :=
          Entries(Ranked(Load(old(storage.items), storageKey, true), Stamp(entry, now)))]
    {
      var data := LoadAll();
      data := data + [entry.(date := now)];
      data := Sort(data);
      thrown := storage.SetItem(storageKey, Entries(Top(data)));
    }

    /** Removes this game's key only; a throwing store makes the call throw. */
    method Clear() returns (thrown: bool)
      modifies storage
      ensures storage.available == old(storage.available)
      ensures thrown == !storage.available
      ensures storage.items == if thrown then old(storage.items) else old(storage.items) - {storageKey}
    {
      thrown := storage.RemoveItem(storageKey);
    }
  }

  /** Saving under one game changes only that game's key; the new list has the shape
      `RankedShape` describes and holds the save instant as the new entry's date. */
  lemma SaveIsolated(gameId: string, other: string, items: map<string, Stored>, e: Entry, now: int)
    requires other != gameId
    ensures var after := items[StorageKey(gameId) :=
        Entries(Ranked(Load(items, StorageKey(gameId), true), Stamp(e, now)))];
      && Lookup(after, StorageKey(other)) == Lookup(items, StorageKey(other))
      && Lookup(after, LegacyKey) == Lookup(items, LegacyKey)
      && Load(after, StorageKey(other), true) == Load(items, StorageKey(other), true)
  {
    StorageKeyDistinct(gameId, other);
    StorageKeyDistinct(other, gameId);
  }

  /** `clear()` then `loadAll()` yields the empty list, and other games keep their lists. */
  lemma ClearThenLoad(gameId: string, other: string, items: map<string, Stored>, available: bool)
    requires other != gameId
    ensures Load(items - {StorageKey(gameId)}, StorageKey(gameId), available) == []
    ensures Load(items - {StorageKey(gameId)}, StorageKey(other), available)
         == Load(items, StorageKey(other), available)
  {
    StorageKeyDistinct(other, gameId);
  }

  /** After a successful save the board holds min(n + 1, 25) entries, where n is what
      `loadAll()` returned before. */
  lemma SaveLength(items: map<string, Stored>, key: string, e: Entry, now: int)
    ensures var n := |Load(items, key, true)|;
      |Load(items[key := Entries(Ranked(Load(items, key, true), Stamp(e, now)))], key, true)|
        == if n + 1 <= Capacity then n + 1 else Capacity
  {
    RankedShape(Load(items, key, true), Stamp(e, now));
  }
}
