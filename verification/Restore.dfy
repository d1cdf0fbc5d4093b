// The lists a restore builds up: mailboxes with linked lists of records, which
// are cloned, filtered in place and spliced together.

module Restore {
  import opened Options
  import opened Log
  import opened LinkedList
  import opened RestorePlan

  // A copy of a list of records.
  method CloneList(list: List<Rec>) returns (copy: List<Rec>)
    requires list.Valid()
    ensures copy.Valid() && fresh(copy) && (forall i :: 0 <= i < |copy.nodes| ==> fresh(copy.nodes[i]))
    ensures copy.Values() == list.Values()
  {
    copy := new List();
    var iter := list.head;
    ghost var k := 0;
    while iter != null
      invariant 0 <= k <= |list.nodes| && iter == (if k < |list.nodes| then list.nodes[k] else null)
      invariant list.Valid() && copy.Valid() && fresh(copy)
      invariant forall i :: 0 <= i < |copy.nodes| ==> fresh(copy.nodes[i])
      invariant copy.Values() == list.Values()[..k]
      decreases |list.nodes| - k
    {
      var node := new Node(iter.val);
      copy.Add(node);
      iter := iter.next;
      k := k + 1;
    }
  }

  // The nodes whose records are kept.
  ghost function KeptNodes(mode: ExpungedMode, nodes: seq<Node<Rec>>): seq<Node<Rec>> {
    if nodes == [] then []
    else
      KeptNodes(mode, nodes[..|nodes| - 1])
      + if Keeps(mode, nodes[|nodes| - 1].val) then [nodes[|nodes| - 1]] else []
  }

  ghost function Vals(nodes: seq<Node<Rec>>): seq<Rec> {
    seq(|nodes|, i requires 0 <= i < |nodes| => nodes[i].val)
  }

  lemma {:induction false} KeptVals(mode: ExpungedMode, nodes: seq<Node<Rec>>)
    ensures Vals(KeptNodes(mode, nodes)) == Kept(mode, Vals(nodes))
  {
    if nodes != [] {
      var front := nodes[..|nodes| - 1];
      KeptVals(mode, front);
      assert Vals(nodes)[..|nodes| - 1] == Vals(front);
    }
  }

  lemma {:induction false} KeptNodesIn(mode: ExpungedMode, nodes: seq<Node<Rec>>, n: Node<Rec>)
    requires n in KeptNodes(mode, nodes)
    ensures n in nodes
  {
    if n in KeptNodes(mode, nodes[..|nodes| - 1]) {
      KeptNodesIn(mode, nodes[..|nodes| - 1], n);
    }
  }

  method DropNode(list: List<Rec>, node: Node<Rec>, ghost k: nat)
    requires list.Valid() && k < |list.nodes| && list.nodes[k] == node
    modifies list, list.nodes
    ensures list.Valid() && list.nodes == old(list.nodes[..k] + list.nodes[k + 1..])
  {
    var found := list.Remove(node);
  }

  // The nodes when the walk has come to the k-th.
  ghost function Progress(mode: ExpungedMode, all: seq<Node<Rec>>, k: nat): seq<Node<Rec>>
    requires k <= |all|
  {
    KeptNodes(mode, all[..k]) + all[k..]
  }

  lemma ProgressEnds(mode: ExpungedMode, all: seq<Node<Rec>>)
    ensures Progress(mode, all, 0) == all && Progress(mode, all, |all|) == KeptNodes(mode, all)
  {
    assert all[..|all|] == all;
  }

  lemma NextNode(mode: ExpungedMode, all: seq<Node<Rec>>, k: nat)
    requires k < |all|
    ensures var kept := KeptNodes(mode, all[..k]);
      var nodes := kept + all[k..];
      && nodes[|kept|] == all[k]
      && (k + 1 < |all| ==> |kept| + 1 < |nodes| && nodes[|kept| + 1] == all[k + 1])
      && Progress(mode, all, k) == nodes
      && Progress(mode, all, k + 1)
         == if Keeps(mode, all[k].val) then nodes else nodes[..|kept|] + nodes[|kept| + 1..]
  {
    assert all[..k + 1][..k] == all[..k];
    var kept := KeptNodes(mode, all[..k]);
    if Keeps(mode, all[k].val) {
      assert (kept + [all[k]]) + all[k + 1..] == kept + all[k..];
    } else {
      assert kept + [] == kept;
      assert (kept + all[k..])[|kept| + 1..] == all[k + 1..];
    }
  }

  // Removes the records that are not kept, while walking the list.
  method FilterNodes(list: List<Rec>, mode: ExpungedMode, ghost all: seq<Node<Rec>>, ghost own: set<Node<Rec>>)
    requires list.Valid() && list.nodes == all && forall i :: 0 <= i < |all| ==> all[i] in own
    modifies list, own
    ensures list.Valid() && list.nodes == KeptNodes(mode, all)
  {
    hide Progress;
    var next := list.head;
    ghost var k := 0;
    assert next == if k < |all| then all[k] else null;
    ProgressEnds(mode, all);
    hide List.Valid;
    while next != null
      invariant 0 <= k <= |all| && next == (if k < |all| then all[k] else null)
      invariant list.Valid() && list.nodes == Progress(mode, all, k)
      invariant forall i :: 0 <= i < |list.nodes| ==> list.nodes[i] in own
      decreases |all| - k
    {
      next := FilterStep(list, mode, all, own, k, next);
      k := k + 1;
    }
  }

  method FilterStep(list: List<Rec>, mode: ExpungedMode, ghost all: seq<Node<Rec>>, ghost own: set<Node<Rec>>,
                    ghost k: nat, iter: Node<Rec>) returns (next: Node?<Rec>)
    requires list.Valid() && k < |all| && iter == all[k] && list.nodes == Progress(mode, all, k)
    requires forall i :: 0 <= i < |list.nodes| ==> list.nodes[i] in own
    modifies list, own
    ensures list.Valid() && list.nodes == Progress(mode, all, k + 1)
    ensures forall i :: 0 <= i < |list.nodes| ==> list.nodes[i] in own
    ensures next == if k + 1 < |all| then all[k + 1] else null
  {
    hide KeptNodes, Progress;
    NextNode(mode, all, k);
    next := iter.next;
    if !Keeps(mode, iter.val) {
      DropNode(list, iter, |KeptNodes(mode, all[..k])|);
    }
  }

  method FilterList(list: List<Rec>, mode: ExpungedMode)
    requires list.Valid()
    modifies list, list.nodes
    ensures list.Valid() && list.Values() == Kept(mode, old(list.Values()))
    ensures forall i :: 0 <= i < |list.nodes| ==> list.nodes[i] in old(list.nodes)
  {
    ghost var all := list.nodes;
    FilterNodes(list, mode, all, set n | n in all);
    KeptVals(mode, all);
    assert list.Values() == Vals(KeptNodes(mode, all));
    assert old(list.Values()) == Vals(all);
    forall i | 0 <= i < |list.nodes|
      ensures list.nodes[i] in all
    {
      KeptNodesIn(mode, all, list.nodes[i]);
    }
  }

  class Mailbox {
    var mboxname: string
    var partition: Option<string>
    var acl: Option<string>
    var uniqueid: Option<string>
    var highestmodseq: nat
    var uidvalidity: nat
    var records: List?<Rec>

    constructor (e: Entry, records: List?<Rec>)
      ensures this.mboxname == e.mboxname && this.partition == e.partition && this.acl == e.acl
      ensures this.uniqueid == e.uniqueid && this.highestmodseq == e.highestmodseq && this.uidvalidity == e.uidvalidity
      ensures this.records == records
    {
      mboxname, partition, acl, uniqueid := e.mboxname, e.partition, e.acl, e.uniqueid;
      highestmodseq, uidvalidity, this.records := e.highestmodseq, e.uidvalidity, records;
    }

    ghost function Nodes(): seq<Node<Rec>>
      reads this, records
    {
      if records == null then [] else records.nodes
    }

    ghost predicate Valid()
      reads this, records, Nodes()
    {
      records != null ==> records.Valid()
    }

    ghost function Contents(): Entry
      reads this, records
    {
      Entry(mboxname, partition, acl, uniqueid, highestmodseq, uidvalidity,
            if records == null then [] else records.Values())
    }

    // No list or node of records belongs to both.
    ghost predicate Apart(other: Mailbox)
      reads this, records, other, other.records
    {
      && this != other
      && (records != null ==> records != other.records)
      && (forall i, j :: 0 <= i < |Nodes()| && 0 <= j < |other.Nodes()| ==> Nodes()[i] != other.Nodes()[j])
    }

    // backup_mailbox_clone
    method Clone() returns (clone: Mailbox)
      requires Valid()
      ensures clone.Valid() && fresh(clone) && clone.Contents() == Contents()
      ensures clone.records == null <==> records == null
      ensures clone.records != null ==> fresh(clone.records)
      ensures forall i :: 0 <= i < |clone.Nodes()| ==> fresh(clone.Nodes()[i])
    {
      var copy: List?<Rec> := null;
      if records != null {
        copy := CloneList(records);
      }
      clone := new Mailbox(Entry(mboxname, partition, acl, uniqueid, highestmodseq, uidvalidity, []), copy);
    }

    // Excludes or selects the expunged records; fails if there is no list of
    // records to look through.
    method ApplyMode(mode: ExpungedMode) returns (ok: bool)
      requires Valid()
      modifies records, Nodes()
      ensures Valid()
      ensures ok <==> mode == Okay || records != null
      ensures Contents() == old(Contents()).(records := Kept(mode, old(Contents()).records))
      ensures forall i :: 0 <= i < |Nodes()| ==> Nodes()[i] in old(Nodes())
    {
      ghost var before := Contents().records;
      AllKept(before);
      if mode != Okay {
        if records == null {
          return false;
        }
        FilterList(records, mode);
      }
      return true;
    }

    method ApplyOverrides(o: RestoreOptions, undeleted: string -> string)
      modifies this`mboxname, this`partition, this`acl, this`uniqueid, this`highestmodseq, this`uidvalidity
      ensures Contents().(records := []) == Applied(o, undeleted, old(Contents()).(records := []))
    {
      hide List.Valid, List.Values;
      if o.overrideMboxname.Some? {
        mboxname := o.overrideMboxname.value;
      }
      if o.overridePartition.Some? {
        partition := o.overridePartition;
      }
      if o.overrideAcl.Some? {
        acl := if o.overrideAcl.value != "" then o.overrideAcl else None;
      }
      if !o.keepUidvalidity {
        uniqueid, highestmodseq, uidvalidity := None, 0, 0;
      }
      if o.trimDeleted {
        mboxname := undeleted(mboxname);
      }
    }

    // apply_mailbox_options
    method ApplyOptions(o: RestoreOptions, undeleted: string -> string) returns (ok: bool)
      requires Valid()
      modifies this, records, Nodes()
      ensures Valid() && records == old(records)
      ensures ok <==> o.mode == Okay || records != null
      ensures Contents() == Applied(o, undeleted, old(Contents()))
      ensures forall i :: 0 <= i < |Nodes()| ==> Nodes()[i] in old(Nodes())
    {
      hide List.Valid, Kept, List.Values;
      ApplyOverrides(o, undeleted);
      assert Contents().records == old(Contents()).records;
      ok := ApplyMode(o.mode);
    }

    method SpliceRecords(mailbox: Mailbox)
      requires Valid() && mailbox.Valid() && Apart(mailbox) && records != null && mailbox.records != null
      modifies records, mailbox.records, Nodes()
      ensures Valid() && mailbox.Valid()
      ensures records.Values() == old(records.Values()) + old(mailbox.records.Values())
      ensures Nodes() == old(Nodes()) + old(mailbox.Nodes())
    {
      assert Nodes() == records.nodes && mailbox.Nodes() == mailbox.records.nodes;
      hide List.Valid;
      records.Splice(mailbox.records);
    }

    // A list with nothing on it.
    lemma EmptyRecords()
      requires Valid() && (records == null || records.count == 0)
      ensures Contents().records == [] && Nodes() == []
    {
    }

    // Takes over the list of the other mailbox.
    method TakeList(mailbox: Mailbox)
      requires Valid() && mailbox.Valid() && this != mailbox && records == null && mailbox.records != null
      modifies this`records, mailbox`records
      ensures Valid() && records == old(mailbox.records)
      ensures Contents() == old(Contents()).(records := old(mailbox.Contents()).records)
      ensures Nodes() == old(mailbox.Nodes())
    {
      hide List.Valid, List.Values;
      records := mailbox.records;
      mailbox.records := null;
    }

    // The first half of my_mailbox_list_add: takes over the records of a
    // mailbox with the same name.
    method TakeRecords(mailbox: Mailbox)
      requires Valid() && mailbox.Valid() && Apart(mailbox)
      modifies this`records, mailbox`records, records, mailbox.records, Nodes()
      ensures Valid()
      ensures Contents() == old(Contents()).(records := old(Contents()).records + old(mailbox.Contents()).records)
      ensures records == old(records) || (old(records) == null && records == old(mailbox.records))
      ensures Nodes() == old(Nodes()) + old(mailbox.Nodes())
    {
      hide List.Valid, List.Values;
      ghost var mine, others := Contents().records, mailbox.Contents().records;
      assert mine + [] == mine && [] + others == others;
      if mailbox.records == null || mailbox.records.count == 0 {
        mailbox.EmptyRecords();
        return;
      }
      if records == null {
        EmptyRecords();
        TakeList(mailbox);
      } else {
        SpliceRecords(mailbox);
      }
    }
  }
}
