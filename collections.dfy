/**
 * toArrayObject: turns the rows of a result set into the PHP array the
 * getters return, either a list in row order or an array keyed by one
 * field of the row, where a later row overwrites an earlier one with the
 * same key.
 */
module Collections {
  import opened Rows

  /** The two shapes of PHP array toArrayObject builds. */
  datatype PhpArray<K, T> = Keyed(entries: map<K, T>) | List(items: seq<T>)

  /** Without a key field every row is appended (`$return[] = ...`); with one,
      row `d` is stored under `keyField(d)` (`$return[$obj->get($keyField)] = ...`). */
  method ToArrayObject<K(==), T>(dataArray: seq<T>, keyField: Option<T -> K>) returns (r: PhpArray<K, T>)
    ensures keyField.None? ==> r == List(dataArray)
    ensures keyField.Some? ==> r.Keyed?
    ensures keyField.Some? ==>
      forall i :: 0 <= i < |dataArray| ==> keyField.value(dataArray[i]) in r.entries
    ensures keyField.Some? ==>
      forall k :: k in r.entries ==>
        exists i :: 0 <= i < |dataArray| && keyField.value(dataArray[i]) == k && r.entries[k] == dataArray[i] &&
          forall j :: i < j < |dataArray| ==> keyField.value(dataArray[j]) != k
  {
    match keyField
    case None =>
      var items: seq<T> := [];
      for n := 0 to |dataArray|
        invariant items == dataArray[..n]
      {
        items := items + [dataArray[n]];
      }
      r := List(items);
    case Some(key) =>
      var entries: map<K, T> := map[];
      ghost var from: map<K, nat> := map[];  // the row each entry was last written from
      for n := 0 to |dataArray|
        invariant entries.Keys == from.Keys
        invariant forall i :: 0 <= i < n ==> key(dataArray[i]) in entries
        invariant forall k :: k in entries ==>
          from[k] < n && key(dataArray[from[k]]) == k && entries[k] == dataArray[from[k]] &&
          forall j :: from[k] < j < n ==> key(dataArray[j]) != k
      {
        entries := entries[key(dataArray[n]) := dataArray[n]];
        from := from[key(dataArray[n]) := n];
      }
      r := Keyed(entries);
  }
}
