// A table with a UNIQUE key: rows in insertion order, the row id being the
// position counted from one. UPDATE, then INSERT when it changed nothing.

module KeyedTable {
  datatype Row<K, V> = Row(key: K, val: V)

  ghost predicate Unique<K, V>(t: seq<Row<K, V>>) {
    forall i, j :: 0 <= i < j < |t| ==> t[i].key != t[j].key
  }

  function AsMap<K, V>(t: seq<Row<K, V>>): map<K, V> {
    if t == [] then map[] else AsMap(t[..|t| - 1])[t[|t| - 1].key := t[|t| - 1].val]
  }

  function Keys<K, V>(t: seq<Row<K, V>>): seq<K> {
    seq(|t|, i requires 0 <= i < |t| => t[i].key)
  }

  // UPDATE ... SET val = v WHERE key = k
  function UpdateWhere<K(==), V>(t: seq<Row<K, V>>, k: K, v: V): seq<Row<K, V>> {
    seq(|t|, i requires 0 <= i < |t| => if t[i].key == k then Row(k, v) else t[i])
  }

  // sqldb_changes after that update
  function Changes<K(==), V>(t: seq<Row<K, V>>, k: K): nat {
    if t == [] then 0 else Changes(t[..|t| - 1], k) + if t[|t| - 1].key == k then 1 else 0
  }

  // SELECT id ... WHERE key = k; zero when there is no such row.
  function IdOf<K(==), V>(t: seq<Row<K, V>>, k: K): (id: nat)
    ensures id <= |t|
    ensures id != 0 ==> t[id - 1].key == k
    ensures id == 0 ==> forall i :: 0 <= i < |t| ==> t[i].key != k
  {
    if t == [] then 0
    else if t[|t| - 1].key == k then |t|
    else IdOf(t[..|t| - 1], k)
  }

  lemma {:induction false} MapHolds<K, V>(t: seq<Row<K, V>>, k: K)
    requires Unique(t)
    ensures k in AsMap(t) <==> IdOf(t, k) != 0
    ensures k in AsMap(t) ==> AsMap(t)[k] == t[IdOf(t, k) - 1].val
    ensures Changes(t, k) == if k in AsMap(t) then 1 else 0
  {
    if t != [] {
      MapHolds(t[..|t| - 1], k);
    }
  }

  lemma {:induction false} UpdatedMap<K, V>(t: seq<Row<K, V>>, k: K, v: V)
    requires Unique(t)
    ensures Unique(UpdateWhere(t, k, v))
    ensures AsMap(UpdateWhere(t, k, v)) == if k in AsMap(t) then AsMap(t)[k := v] else AsMap(t)
  {
    if t != [] {
      var n := |t| - 1;
      UpdatedMap(t[..n], k, v);
      assert UpdateWhere(t, k, v)[..n] == UpdateWhere(t[..n], k, v);
      MapHolds(t[..n], t[n].key);
    }
  }

  function Upserted<K(==), V>(t: seq<Row<K, V>>, k: K, v: V): seq<Row<K, V>> {
    if Changes(t, k) == 0 then t + [Row(k, v)] else UpdateWhere(t, k, v)
  }

  lemma UpsertedMap<K, V>(t: seq<Row<K, V>>, k: K, v: V)
    requires Unique(t)
    ensures Unique(Upserted(t, k, v))
    ensures AsMap(Upserted(t, k, v)) == AsMap(t)[k := v]
    ensures IdOf(Upserted(t, k, v), k) != 0
  {
    MapHolds(t, k);
    if Changes(t, k) == 0 {
      assert (t + [Row(k, v)])[..|t|] == t;
    } else {
      UpdatedMap(t, k, v);
      MapHolds(UpdateWhere(t, k, v), k);
    }
  }

  // The rows that were there keep their ids.
  lemma UpsertKeepsIds<K, V>(t: seq<Row<K, V>>, k: K, v: V)
    ensures |Upserted(t, k, v)| >= |t|
    ensures forall i :: 0 <= i < |t| ==> Upserted(t, k, v)[i].key == t[i].key
  {
  }

  // The way every _index_* step stores a row: update, and insert if that
  // changed no row.
  method Upsert<K(==), V>(t: seq<Row<K, V>>, k: K, v: V) returns (t': seq<Row<K, V>>)
    requires Unique(t)
    ensures t' == Upserted(t, k, v)
    ensures Unique(t') && AsMap(t') == AsMap(t)[k := v]
    ensures IdOf(t', k) != 0
  {
    t' := UpdateWhere(t, k, v);
    if Changes(t, k) == 0 {
      MapHolds(t, k);
      assert t' == t;
      t' := t' + [Row(k, v)];
    }
    UpsertedMap(t, k, v);
  }

  // UPDATE ... SET val = f(val), for f that leaves the rows it is not meant for
  function MapRows<K, V>(t: seq<Row<K, V>>, f: V -> V): seq<Row<K, V>> {
    seq(|t|, i requires 0 <= i < |t| => Row(t[i].key, f(t[i].val)))
  }

  lemma {:induction false} MapRowsMap<K, V>(t: seq<Row<K, V>>, f: V -> V)
    requires Unique(t)
    ensures Unique(MapRows(t, f))
    ensures AsMap(MapRows(t, f)) == map k | k in AsMap(t) :: f(AsMap(t)[k])
  {
    if t != [] {
      MapRowsMap(t[..|t| - 1], f);
      assert MapRows(t, f)[..|t| - 1] == MapRows(t[..|t| - 1], f);
    }
  }
}
