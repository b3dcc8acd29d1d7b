/** A dimension table keyed by a primary key, and the
    `INSERT ... SELECT DISTINCT ... ON CONFLICT (key) DO NOTHING` upsert
    that both dimension tables of the warehouse receive. */
module Dimension {

  /** One row of a dimension: its primary key and the other columns. */
  datatype Row<K, V> = Row(key: K, attrs: V)

  /** The primary keys present in a table. */
  function Keys<K(==), V>(t: seq<Row<K, V>>): set<K> {
    set i | 0 <= i < |t| :: t[i].key
  }

  /** The PRIMARY KEY constraint: no key occurs on two rows. */
  predicate UniqueKeys<K(==), V>(t: seq<Row<K, V>>) {
    forall i, j | 0 <= i < j < |t| :: t[i].key != t[j].key
  }

  /** The set of values occurring in a sequence. */
  function Elems<K(==)>(s: seq<K>): set<K> {
    set k | k in s
  }

  /** Inserts `Row(k, make(k))` for every `k` of `keys` that is not yet a
      key of the table, leaving every existing row as it is. Keys are taken
      in order of first occurrence, so repeated keys insert once: at most
      one row per selected key. */
  function InsertMissing<K(==), V>(t: seq<Row<K, V>>, keys: seq<K>, make: K -> V): (r: seq<Row<K, V>>)
    ensures |r| <= |t| + |keys|
    decreases |keys|
  {
    if keys == [] then t
    else
      var before := InsertMissing(t, keys[..|keys| - 1], make);
      var k := keys[|keys| - 1];
      if k in Keys(before) then before else before + [Row(k, make(k))]
  }

  lemma KeysAppend<K, V>(t: seq<Row<K, V>>, row: Row<K, V>)
    ensures Keys(t + [row]) == Keys(t) + {row.key}
  {
    var u := t + [row];
    assert u[|t|].key == row.key;
    forall k | k in Keys(t) ensures k in Keys(u) {
      var i :| 0 <= i < |t| && t[i].key == k;
      assert u[i] == t[i];
    }
  }

  /** Existing rows, with all their columns, stay where they were: the
      upsert only appends. */
  lemma {:induction false} InsertMissingKeepsRows<K, V>(t: seq<Row<K, V>>, keys: seq<K>, make: K -> V)
    ensures |t| <= |InsertMissing(t, keys, make)|
    ensures InsertMissing(t, keys, make)[..|t|] == t
    decreases |keys|
  {
    if keys != [] {
      InsertMissingKeepsRows(t, keys[..|keys| - 1], make);
    }
  }

  /** After the upsert the keys are the old keys plus every selected key. */
  lemma {:induction false} InsertMissingKeys<K, V>(t: seq<Row<K, V>>, keys: seq<K>, make: K -> V)
    ensures Keys(InsertMissing(t, keys, make)) == Keys(t) + Elems(keys)
    decreases |keys|
  {
    if keys != [] {
      var init := keys[..|keys| - 1];
      var k := keys[|keys| - 1];
      InsertMissingKeys(t, init, make);
      assert keys == init + [k];
      assert Elems(keys) == Elems(init) + {k};
      var before := InsertMissing(t, init, make);
      if k !in Keys(before) {
        KeysAppend(before, Row(k, make(k)));
      }
    }
  }

  /** Every appended row carries a selected key that was absent before,
      with the columns `make` derives from that key. */
  lemma {:induction false} InsertMissingNewRows<K, V>(t: seq<Row<K, V>>, keys: seq<K>, make: K -> V)
    ensures var r := InsertMissing(t, keys, make);
      forall i | |t| <= i < |r| ::
        r[i].attrs == make(r[i].key) && r[i].key in keys && r[i].key !in Keys(t)
    decreases |keys|
  {
    if keys != [] {
      var init := keys[..|keys| - 1];
      var k := keys[|keys| - 1];
      InsertMissingNewRows(t, init, make);
      InsertMissingKeys(t, init, make);
      var before := InsertMissing(t, init, make);
      InsertMissingKeepsRows(t, init, make);
      if k !in Keys(before) {
        assert Keys(t) <= Keys(before);
      }
    }
  }

  /** The upsert never breaks the PRIMARY KEY constraint. */
  lemma {:induction false} InsertMissingUnique<K, V>(t: seq<Row<K, V>>, keys: seq<K>, make: K -> V)
    requires UniqueKeys(t)
    ensures UniqueKeys(InsertMissing(t, keys, make))
    decreases |keys|
  {
    if keys != [] {
      var init := keys[..|keys| - 1];
      var k := keys[|keys| - 1];
      InsertMissingUnique(t, init, make);
      var before := InsertMissing(t, init, make);
      if k !in Keys(before) {
        var r := before + [Row(k, make(k))];
        forall i, j | 0 <= i < j < |r| ensures r[i].key != r[j].key {
          if j == |before| {
            assert r[i] == before[i];
          } else {
            assert r[i] == before[i] && r[j] == before[j];
          }
        }
      }
    }
  }

  /** When every selected key is already present, nothing is inserted. */
  lemma {:induction false} InsertMissingNoop<K, V>(t: seq<Row<K, V>>, keys: seq<K>, make: K -> V)
    requires Elems(keys) <= Keys(t)
    ensures InsertMissing(t, keys, make) == t
    decreases |keys|
  {
    if keys != [] {
      var init := keys[..|keys| - 1];
      assert keys == init + [keys[|keys| - 1]];
      assert Elems(init) <= Elems(keys);
      InsertMissingNoop(t, init, make);
    }
  }

  /** Running the upsert again with the same selection changes nothing. */
  lemma InsertMissingIdempotent<K, V>(t: seq<Row<K, V>>, keys: seq<K>, make: K -> V)
    ensures InsertMissing(InsertMissing(t, keys, make), keys, make) == InsertMissing(t, keys, make)
  {
    InsertMissingKeys(t, keys, make);
    InsertMissingNoop(InsertMissing(t, keys, make), keys, make);
  }
}
