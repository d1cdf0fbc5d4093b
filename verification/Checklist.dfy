// A list of rows with a hash of its nodes by key: what the link check strikes
// rows from. Of rows with the same key the hash knows the last.

module Checklist {
  import opened LinkedList

  ghost predicate LastOfKey<K, V>(keyOf: V -> K, rows: seq<V>, i: nat)
    requires i < |rows|
  {
    forall j :: i < j < |rows| ==> keyOf(rows[j]) != keyOf(rows[i])
  }

  // The hash leads to a row exactly if it is unstruck and the last of its key.
  ghost predicate IndexOk<K, V(!new)>(
    keyOf: V -> K, rows: seq<V>, all: seq<Node<V>>, index: map<K, Node<V>>, struck: set<nat>)
  {
    && |all| == |rows|
    && (forall i :: 0 <= i < |all| ==> all[i].val == rows[i])
    && (forall i, j :: 0 <= i < j < |all| ==> all[i] != all[j])
    && (forall k :: k in index ==> index[k] in all && keyOf(index[k].val) == k)
    && (forall i: nat :: i < |all| ==>
          (keyOf(rows[i]) in index && index[keyOf(rows[i])] == all[i] <==>
           i !in struck && LastOfKey(keyOf, rows, i)))
    && (forall i :: i in struck ==> i < |all| && LastOfKey(keyOf, rows, i))
  }

  lemma LastOfKeyAfter<K, V>(keyOf: V -> K, rows: seq<V>, row: V, i: nat)
    requires i <= |rows|
    ensures LastOfKey(keyOf, rows + [row], i) <==>
      i == |rows| || (LastOfKey(keyOf, rows, i) && keyOf(row) != keyOf(rows[i]))
  {
    var more := rows + [row];
    if i < |rows| {
      assert more[|rows|] == row;
      assert forall j :: 0 <= j < |rows| ==> more[j] == rows[j];
    }
  }

  lemma IndexAdded<K, V(!new)>(keyOf: V -> K, rows: seq<V>, all: seq<Node<V>>, index: map<K, Node<V>>, node: Node<V>)
    requires IndexOk(keyOf, rows, all, index, {}) && node !in all
    ensures IndexOk(keyOf, rows + [node.val], all + [node], index[keyOf(node.val) := node], {})
  {
    var rows', all', index' := rows + [node.val], all + [node], index[keyOf(node.val) := node];
    forall i: nat | i < |all'|
      ensures keyOf(rows'[i]) in index' && index'[keyOf(rows'[i])] == all'[i] <==> LastOfKey(keyOf, rows', i)
    {
      LastOfKeyAfter(keyOf, rows, node.val, i);
    }
  }

  lemma IndexStruck<K, V(!new)>(
    keyOf: V -> K, rows: seq<V>, all: seq<Node<V>>, index: map<K, Node<V>>, struck: set<nat>, i: nat)
    requires IndexOk(keyOf, rows, all, index, struck)
    requires i < |all| && i !in struck && LastOfKey(keyOf, rows, i)
    ensures IndexOk(keyOf, rows, all, index - {keyOf(rows[i])}, struck + {i})
  {
    hide LastOfKey;
    forall j: nat | j < |all| && j != i && keyOf(rows[j]) == keyOf(rows[i])
      ensures j in struck || !LastOfKey(keyOf, rows, j)
    {
      assert index[keyOf(rows[i])] == all[i];
    }
  }

  class Checklist<K(==, !new), V(!new)> {
    const keyOf: V -> K
    const list: List<V>
    var index: map<K, Node<V>>
    ghost var rows: seq<V>
    ghost var all: seq<Node<V>>
    ghost var struck: set<nat>

    // The list holds the nodes of the rows that are not struck.
    ghost predicate Valid()
      reads this, list, list.nodes
    {
      && list.Valid()
      && IndexOk(keyOf, rows, all, index, struck)
      && (forall i :: 0 <= i < |list.nodes| ==> list.nodes[i] in all)
      && (forall i: nat :: i < |all| ==> (all[i] in list.nodes <==> i !in struck))
    }

    constructor (keyOf: V -> K)
      ensures Valid() && rows == [] && struck == {} && list.nodes == all && this.keyOf == keyOf
      ensures fresh(list) && fresh(list.nodes)
    {
      this.keyOf := keyOf;
      list := new List<V>();
      index := map[];
      rows, all, struck := [], [], {};
    }

    // list_add and hash_insert, which replaces the row of an equal key.
    method AddRow(row: V)
      requires Valid() && struck == {} && list.nodes == all
      modifies this, list, list.nodes
      ensures Valid() && rows == old(rows) + [row] && struck == {} && list.nodes == all
      ensures |list.nodes| == |old(list.nodes)| + 1 && fresh(list.nodes[|old(list.nodes)|])
      ensures forall i :: 0 <= i < |old(list.nodes)| ==> list.nodes[i] == old(list.nodes)[i]
    {
      hide IndexOk;
      var node := new Node(row);
      IndexAdded(keyOf, rows, all, index, node);
      list.Add(node);
      index := index[keyOf(row) := node];
      all := all + [node];
      rows := rows + [row];
      IndexAligned(keyOf, rows, all, index, struck);
    }

    // hash_lookup: the row, and where it is.
    method Lookup(k: K) returns (node: Node?<V>, ghost i: nat)
      requires Valid()
      ensures node != null ==>
        && i < |rows| && i !in struck && LastOfKey(keyOf, rows, i)
        && all[i] == node && node.val == rows[i] && keyOf(rows[i]) == k
      ensures node == null ==>
        forall j: nat :: j < |rows| && keyOf(rows[j]) == k && LastOfKey(keyOf, rows, j) ==> j in struck
    {
      hide LastOfKey;
      i := 0;
      if k in index {
        node := index[k];
        i :| i < |all| && all[i] == node;
      } else {
        node := null;
      }
    }

    // list_remove and hash_del
    method Strike(node: Node<V>, ghost i: nat)
      requires Valid() && i < |rows| && i !in struck && LastOfKey(keyOf, rows, i)
      requires all[i] == node && node.val == rows[i]
      modifies this, list, all
      ensures Valid() && rows == old(rows) && all == old(all) && struck == old(struck) + {i}
    {
      hide LastOfKey, IndexOk, List.Valid;
      IndexAligned(keyOf, rows, all, index, struck);
      IndexStruck(keyOf, rows, all, index, struck, i);
      var _ := list.Remove(node);
      index := index - {keyOf(node.val)};
      struck := struck + {i};
    }
  }

  lemma IndexAligned<K, V(!new)>(
    keyOf: V -> K, rows: seq<V>, all: seq<Node<V>>, index: map<K, Node<V>>, struck: set<nat>)
    requires IndexOk(keyOf, rows, all, index, struck)
    ensures |all| == |rows|
    ensures forall i, j :: 0 <= i < j < |all| ==> all[i] != all[j]
  {
  }

  // Nothing is left on the list exactly when every row is struck.
  lemma EmptyWhenAllStruck<K(!new), V(!new)>(cl: Checklist<K, V>)
    requires cl.Valid()
    ensures cl.list.count == 0 <==> forall i: nat :: i < |cl.rows| ==> i in cl.struck
  {
    hide LastOfKey;
    if cl.list.count != 0 {
      assert cl.list.nodes[0] in cl.all;
      var i: nat :| i < |cl.all| && cl.all[i] == cl.list.nodes[0];
      assert i !in cl.struck;
    }
  }
}
