/**
 * The encoding of a string-to-string map as the `TabularData` the
 * FlightRecorderMXBean takes: one `CompositeData` row with items `key` and
 * `value` per entry, indexed by `key`.
 */
module OpenDataUtils {
  import opened Wrappers

  /** A `CompositeData` row of the fixed row type: items `key` and `value`. */
  datatype Row = Row(key: string, value: string)

  /** A `TabularData` whose index is the `key` item: each index value maps to its row. */
  type Table = map<string, Row>

  /**
   * `TabularDataSupport.put`: the row is filed under its `key` item; a row
   * whose index is already present is refused (KeyAlreadyExistsException).
   */
  function Put(table: Table, row: Row): (r: Option<Table>)
    ensures r.Some? <==> row.key !in table
    ensures r.Some? ==> r.value.Keys == table.Keys + {row.key} && r.value[row.key] == row
    ensures r.Some? ==> forall k :: k in table ==> r.value[k] == table[k]
  {
    if row.key in table then None else Some(table[row.key := row])
  }

  /** The table `makeOpenData` builds from a map: each entry filed under its key. */
  function OpenData(options: map<string, string>): Table
  {
    map k | k in options :: Row(k, options[k])
  }

  /** Reads the key/value mapping back out of a table: the inverse of `MakeOpenData`. */
  function ToMap(table: Table): map<string, string>
  {
    map k | k in table :: table[k].value
  }

  /**
   * `makeOpenData`: one row per entry, filed under the entry's key, with the
   * entry's value; the refusal of a duplicate index never happens because map
   * keys are distinct.
   */
  method MakeOpenData(options: map<string, string>) returns (table: Table)
    ensures table.Keys == options.Keys
    ensures forall k :: k in table ==> table[k] == Row(k, options[k])
    ensures ToMap(table) == options
    ensures table == OpenData(options)
  {
    table := map[];
    var remaining := options.Keys;
    while remaining != {}
      invariant remaining <= options.Keys
      invariant table.Keys == options.Keys - remaining
      invariant forall k :: k in table ==> table[k] == Row(k, options[k])
      decreases remaining
    {
      var key :| key in remaining;
      table := Put(table, Row(key, options[key])).value;
      remaining := remaining - {key};
    }
    assert ToMap(table).Keys == options.Keys;
  }
}
