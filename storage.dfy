/**
 * The browser's `localStorage`, as a key-value store updated in place.
 * JSON (de)serialisation is not modelled: each page keeps its own kind of
 * value under its own keys, so a store is typed by the kind of value it holds.
 */
module Storage {

  class LocalStorage<V> {
    var entries: map<string, V>

    constructor (initial: map<string, V>)
      ensures entries == initial
    {
      entries := initial;
    }
  }
}
