/** The browser's key-value store as the board uses it. Values are kept as
    task lists: the JSON text the application writes, and its parsing back,
    are abstracted away. */
module Storage {

  import opened Wrappers
  import opened Tasks

  /** The single key under which the board keeps its tasks. */
  const StorageKey: string := "taskItems"

  class LocalStorage {
    var items: map<string, seq<Task>>

    constructor (items: map<string, seq<Task>>)
      ensures this.items == items
    {
      this.items := items;
    }

    /** `getItem`: the stored value, or nothing for an absent key. */
    method GetItem(key: string) returns (v: Option<seq<Task>>)
      ensures v.Some? <==> key in items
      ensures v.Some? ==> v.value == items[key]
    {
      v := if key in items then Some(items[key]) else None;
    }

    /** `setItem`: replaces the value under `key`, leaving other keys alone. */
    method SetItem(key: string, value: seq<Task>)
      modifies this
      ensures items == old(items)[key := value]
    {
      items := items[key := value];
    }

    /** The stored board entry is exactly `tasks`. */
    predicate Mirrors(tasks: seq<Task>)
      reads this
    {
      StorageKey in items && items[StorageKey] == tasks
    }
  }

  /** The list the board starts from: the saved list, or the empty list when
      nothing is saved. */
  function SavedTasks(items: map<string, seq<Task>>): (r: seq<Task>)
    ensures StorageKey !in items ==> r == []
    ensures StorageKey in items ==> r == items[StorageKey]
  {
    if StorageKey in items then items[StorageKey] else []
  }
}
