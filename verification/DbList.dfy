// The open annotation databases as the linked list they are kept in.

module DbList {
  import opened Options
  import opened OpenDbs

  class Db {
    const key: Key
    var refs: nat
    var next: Db?

    constructor (key: Key)
      ensures this.key == key && refs == 1 && next == null
    {
      this.key, refs, next := key, 1, null;
    }
  }

  class List {
    var head: Db?
    var tail: Db?
    ghost var nodes: seq<Db>

    // head, tail and the next pointers describe the nodes; keys are unique.
    ghost predicate Valid()
      reads this, nodes
    {
      && (forall i, j :: 0 <= i < j < |nodes| ==> nodes[i] != nodes[j] && nodes[i].key != nodes[j].key)
      && (forall i :: 0 <= i < |nodes| - 1 ==> nodes[i].next == nodes[i + 1])
      && (if nodes == [] then head == null && tail == null
          else head == nodes[0] && tail == nodes[|nodes| - 1] && tail.next == null)
    }

    ghost function Contents(): seq<Held>
      reads this, nodes
    {
      seq(|nodes|, i requires 0 <= i < |nodes| reads this, nodes => Held(nodes[i].key, nodes[i].refs))
    }

    constructor ()
      ensures Valid() && nodes == []
    {
      head, tail, nodes := null, null, [];
    }

    // detach_db; prev is the node in front of d.
    method Detach(prev: Db?, d: Db, ghost i: nat)
      requires Valid() && i < |nodes| && nodes[i] == d && prev == if i > 0 then nodes[i - 1] else null
      modifies this, prev
      ensures Valid() && nodes == old(nodes)[..i] + old(nodes)[i + 1..]
      ensures forall n :: n in nodes ==> n.refs == old(n.refs)
    {
      assert i < |nodes| - 1 ==> nodes[i].next == nodes[i + 1];
      ghost var rest := nodes[..i] + nodes[i + 1..];
      assert i < |nodes| - 1 ==> rest[|rest| - 1] == nodes[|nodes| - 1];
      assert 0 < i == |nodes| - 1 ==> rest[|rest| - 1] == nodes[i - 1];
      if prev != null {
        prev.next := d.next;
      } else {
        head := d.next;
      }
      if tail == d {
        tail := prev;
      }
      nodes := rest;
    }

    // append_db
    method Append(d: Db)
      requires Valid() && forall i :: 0 <= i < |nodes| ==> nodes[i] != d && nodes[i].key != d.key
      modifies this, tail, d
      ensures Valid() && nodes == old(nodes) + [d]
      ensures d.refs == old(d.refs) && forall n :: n in nodes ==> n.refs == old(n.refs)
    {
      if tail != null {
        tail.next := d;
      } else {
        head := d;
      }
      tail := d;
      d.next := null;
      nodes := nodes + [d];
    }

    lemma FindIs(key: Key, i: nat)
      requires i <= |nodes| && (i < |nodes| ==> nodes[i].key == key)
      requires forall j :: 0 <= j < i ==> nodes[j].key != key
      ensures Find(Contents(), key) == i
    {
      assert forall j :: 0 <= j < |nodes| ==> Contents()[j].key == nodes[j].key;
    }

    // One more reference, and to the end of the list.
    method Splay(prev: Db?, d: Db, ghost i: nat)
      requires Valid() && i < |nodes| && nodes[i] == d && prev == if i > 0 then nodes[i - 1] else null
      modifies this, nodes
      ensures Valid() && nodes != [] && d == nodes[|nodes| - 1]
      ensures Contents() == old(Contents())[..i] + old(Contents())[i + 1..] + [Held(d.key, old(d.refs) + 1)]
    {
      d.refs := d.refs + 1;
      Detach(prev, d, i);
      Append(d);
    }

    // Lookup by key, with the node in front.
    method Locate(key: Key) returns (prev: Db?, d: Db?, ghost i: nat)
      requires Valid()
      ensures i == Find(Contents(), key)
      ensures d == if i < |nodes| then nodes[i] else null
      ensures prev == if i > 0 then nodes[i - 1] else null
    {
      i := 0;
      prev, d := null, head;
      while d != null && d.key != key
        invariant 0 <= i <= |nodes|
        invariant d == if i < |nodes| then nodes[i] else null
        invariant prev == if i > 0 then nodes[i - 1] else null
        invariant forall j :: 0 <= j < i ==> nodes[j].key != key
        decreases |nodes| - i
      {
        assert i < |nodes| - 1 ==> nodes[i].next == nodes[i + 1];
        prev := d;
        d := d.next;
        i := i + 1;
      }
      FindIs(key, i);
    }

    // _annotate_getdb; opens says whether a database that is not on the list
    // can be opened.
    method GetDb(mboxname: Option<string>, uid: nat, opens: bool) returns (d: Db?)
      requires Valid()
      modifies this, nodes
      ensures Valid()
      ensures d == null <==> !opens && Find(old(Contents()), KeyFor(mboxname, uid)) == |old(nodes)|
      ensures d == null ==> Contents() == old(Contents())
      ensures d != null ==> nodes != [] && d == nodes[|nodes| - 1] && d.key == KeyFor(mboxname, uid)
      ensures d != null ==> Contents() == Get(old(Contents()), KeyFor(mboxname, uid))
    {
      hide KeyFor, Find;
      var key := KeyFor(mboxname, uid);
      var prev;
      ghost var i;
      prev, d, i := Locate(key);
      assert forall j :: 0 <= j < |nodes| ==> Contents()[j].key == nodes[j].key;
      if d != null {
        Splay(prev, d, i);
      } else if opens {
        d := new Db(key);
        Append(d);
      }
    }

    // annotate_closedb: out of the list
    method Close(d: Db)
      requires Valid() && d in nodes
      modifies this, nodes
      ensures Valid() && d !in nodes
      ensures var i := Find(old(Contents()), d.key);
        && i < |old(Contents())|
        && Contents() == old(Contents())[..i] + old(Contents())[i + 1..]
    {
      var prev: Db?, dx := null, head;
      ghost var i := 0;
      while dx != null && dx != d
        invariant 0 <= i <= |nodes|
        invariant dx == if i < |nodes| then nodes[i] else null
        invariant prev == if i > 0 then nodes[i - 1] else null
        invariant forall j :: 0 <= j < i ==> nodes[j] != d
        decreases |nodes| - i
      {
        assert i < |nodes| - 1 ==> nodes[i].next == nodes[i + 1];
        prev := dx;
        dx := dx.next;
        i := i + 1;
      }
      FindIs(d.key, i);
      Detach(prev, d, i);
    }

    // annotate_putdb of a handle
    method PutDb(d: Db)
      requires Valid() && d in nodes && d.refs > 0
      modifies this, nodes
      ensures Valid()
      ensures Contents() == Put(old(Contents()), d.key)
      ensures d in nodes <==> old(d.refs) > 1
    {
      ghost var k :| 0 <= k < |nodes| && nodes[k] == d;
      FindIs(d.key, k);
      ghost var before := Contents();
      d.refs := d.refs - 1;
      assert Contents() == before[k := Held(d.key, d.refs)];
      if d.refs == 0 {
        FindIs(d.key, k);
        Close(d);
      }
    }
  }
}
