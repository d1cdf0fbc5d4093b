// The singly linked lists with head, tail and count that rows are read into.

module LinkedList {
  class Node<T> {
    const val: T
    var next: Node?<T>

    constructor (val: T)
      ensures this.val == val && next == null
    {
      this.val := val;
      next := null;
    }
  }

  ghost function Without<T>(s: seq<T>, k: nat): seq<T>
    requires k < |s|
  {
    s[..k] + s[k + 1..]
  }

  class List<T> {
    var head: Node?<T>
    var tail: Node?<T>
    var count: nat
    ghost var nodes: seq<Node<T>>

    // head, tail, count and the next pointers all describe the same sequence.
    ghost predicate Valid()
      reads this, nodes
    {
      && count == |nodes|
      && (forall i, j :: 0 <= i < j < |nodes| ==> nodes[i] != nodes[j])
      && (forall i :: 0 <= i < |nodes| - 1 ==> nodes[i].next == nodes[i + 1])
      && (if nodes == [] then head == null && tail == null
          else head == nodes[0] && tail == nodes[|nodes| - 1] && tail.next == null)
    }

    ghost function Values(): seq<T>
      reads this
    {
      seq(|nodes|, i requires 0 <= i < |nodes| reads this => nodes[i].val)
    }

    constructor ()
      ensures Valid() && nodes == []
    {
      head, tail, count, nodes := null, null, 0, [];
    }

    method Add(node: Node<T>)
      requires Valid() && node !in nodes
      modifies this, node, tail
      ensures Valid() && nodes == old(nodes) + [node]
    {
      node.next := null;
      if head == null {
        head := node;
      }
      if tail != null {
        tail.next := node;
      }
      tail := node;
      count := count + 1;
      nodes := nodes + [node];
    }

    // Unlinks the node if it is in the list, and says whether it was.
    method Remove(target: Node<T>) returns (found: bool)
      requires Valid()
      modifies this, nodes
      ensures Valid()
      ensures found <==> target in old(nodes)
      ensures !found ==> nodes == old(nodes)
      ensures found ==> exists k :: 0 <= k < |old(nodes)| && old(nodes)[k] == target && nodes == Without(old(nodes), k)
      ensures found ==> target !in nodes && forall n :: n in nodes <==> n in old(nodes) && n != target
    {
      var prev: Node?<T> := null;
      var node := head;
      ghost var k := 0;
      while node != null && node != target
        invariant 0 <= k <= |nodes|
        invariant node == if k < |nodes| then nodes[k] else null
        invariant prev == if k > 0 then nodes[k - 1] else null
        invariant forall i :: 0 <= i < k ==> nodes[i] != target
        decreases |nodes| - k
      {
        prev := node;
        node := node.next;
        k := k + 1;
      }
      if node == null {
        return false;
      }
      assert k < |nodes| - 1 ==> nodes[k].next == nodes[k + 1];
      ghost var rest := Without(nodes, k);
      assert k < |nodes| - 1 ==> rest[|rest| - 1] == nodes[|nodes| - 1];
      assert 0 < k == |nodes| - 1 ==> rest[|rest| - 1] == nodes[k - 1];
      if prev != null {
        prev.next := node.next;
      } else {
        head := node.next;
      }
      if node.next == null {
        tail := prev;
      }
      node.next := null;
      count := count - 1;
      nodes := rest;
      found := true;
    }

    // Takes over all the nodes of the other list.
    method Splice(other: List<T>)
      requires Valid() && other.Valid() && other != this
      requires forall i, j :: 0 <= i < |nodes| && 0 <= j < |other.nodes| ==> nodes[i] != other.nodes[j]
      modifies this, other, tail
      ensures Valid() && nodes == old(nodes) + old(other.nodes)
      ensures other.Valid() && other.nodes == []
    {
      if other.head == null {
        return;
      }
      if head == null {
        head, tail, count := other.head, other.tail, other.count;
      } else {
        tail.next := other.head;
        tail := other.tail;
        count := count + other.count;
      }
      nodes := nodes + other.nodes;
      other.head, other.tail, other.count, other.nodes := null, null, 0, [];
    }
  }
}
