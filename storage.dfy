/** The browser's localStorage as the games see it: string keys mapped to JSON text, read
    back either as a list of score entries or as text that does not parse. */
module Storage {

  /** One row of a leaderboard. Classic runs (and the legacy game) save `score`, `total`,
      `accuracy`, `time` (the selected run length in seconds) and `tables` (the label of
      the selected operands); sprint runs save `factor` and `time`, here in tenths of a
      second. `date` is the save instant. */
  datatype Entry =
    | Classic(score: nat, total: nat, accuracy: nat, time: int, tables: string, date: int)
    | Sprint(factor: nat, time: int, date: int)

  /** What `getItem` returns under a key: nothing, non-empty text that `JSON.parse`
      rejects, or the text of a list of entries. */
  datatype Stored = Absent | Corrupt | Entries(list: seq<Entry>)

  function Lookup(items: map<string, Stored>, key: string): Stored
  {
    if key in items then items[key] else Absent
  }

  /** The key/value store. When `available` is false every call throws (storage disabled
      by the browser); a throw is reported as `thrown`. */
  class LocalStorage {
    var items: map<string, Stored>
    var available: bool

    constructor (items: map<string, Stored>, available: bool)
      ensures this.items == items && this.available == available
    {
      this.items := items;
      this.available := available;
    }

    method GetItem(key: string) returns (thrown: bool, value: Stored)
      ensures thrown == !available
      ensures value == if thrown then Absent else Lookup(items, key)
    {
      thrown := !available;
      value := if thrown then Absent else Lookup(items, key);
    }

    method SetItem(key: string, value: Stored) returns (thrown: bool)
      modifies this
      ensures available == old(available) && thrown == !available
      ensures items == if thrown then old(items) else old(items)[key := value]
    {
      thrown := !available;
      if !thrown {
        items := items[key := value];
      }
    }

    method RemoveItem(key: string) returns (thrown: bool)
      modifies this
      ensures available == old(available) && thrown == !available
      ensures items == if thrown then old(items) else old(items) - {key}
    {
      thrown := !available;
      if !thrown {
        items := items - {key};
      }
    }
  }
}
