/** The browser's `localStorage`, reduced to what the app uses of it: a map from
    keys to stored values. The JSON text is abstracted to the sequence of
    records it encodes. */
module Storage {
  import opened JsValues
  import opened Workouts

  class LocalStorage {
    var items: map<string, seq<Workout>>

    constructor(items: map<string, seq<Workout>>)
      ensures this.items == items
    {
      this.items := items;
    }

    /** `localStorage.setItem(key, value)`: the key now holds the value. */
    method SetItem(key: string, value: seq<Workout>)
      modifies this
      ensures items == old(items)[key := value]
    {
      items := items[key := value];
    }

    /** `localStorage.getItem(key)`: the stored value, or `null` (None) when the key is absent. */
    method GetItem(key: string) returns (value: Option<seq<Workout>>)
      ensures value.Some? <==> key in items
      ensures value.Some? ==> value.value == items[key]
    {
      value := if key in items then Some(items[key]) else None;
    }

    /** `localStorage.removeItem(key)`: the key is gone, every other key is kept. */
    method RemoveItem(key: string)
      modifies this
      ensures items == old(items) - {key}
    {
      items := items - {key};
    }
  }
}
