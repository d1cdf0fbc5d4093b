// my_mailbox_list_add and what fills the lists with it.

module RestoreLists {
  import opened Options
  import opened Log
  import opened LinkedList
  import opened RestorePlan
  import opened Restore

  // The objects of a mailbox, at some moment.
  datatype View = View(mb: Mailbox, records: List?<Rec>, nodes: seq<Node<Rec>>)

  ghost function ViewOf(mb: Mailbox): View
    reads mb, mb.records
  {
    View(mb, mb.records, mb.Nodes())
  }

  ghost predicate Apart(a: View, b: View) {
    && a.mb != b.mb
    && (a.records != null ==> a.records != b.records)
    && (forall i, j :: 0 <= i < |a.nodes| && 0 <= j < |b.nodes| ==> a.nodes[i] != b.nodes[j])
  }

  ghost predicate Owns(repr: set<object>, v: View) {
    && v.mb in repr
    && (v.records != null ==> v.records in repr)
    && (forall i :: 0 <= i < |v.nodes| ==> v.nodes[i] in repr)
  }

  // Nothing of the mailbox is owned.
  ghost predicate Foreign(repr: set<object>, v: View) {
    && v.mb !in repr
    && (v.records != null ==> v.records !in repr)
    && (forall i :: 0 <= i < |v.nodes| ==> v.nodes[i] !in repr)
  }

  ghost function Foot(v: View): set<object> {
    {v.mb} + (if v.records == null then {} else {v.records}) + set n | n in v.nodes :: n as object
  }

  lemma OwnsIs(repr: set<object>, mb: Mailbox)
    requires Owns(repr, ViewOf(mb))
    ensures mb in repr && (mb.records != null ==> mb.records in repr)
    ensures forall j :: 0 <= j < |mb.Nodes()| ==> mb.Nodes()[j] in repr
  {
  }

  // All is owned, and nothing is shared.
  ghost predicate Separate(views: seq<View>, repr: set<object>) {
    && (forall i :: 0 <= i < |views| ==> Owns(repr, views[i]))
    && (forall i, j :: 0 <= i < |views| && 0 <= j < |views| && i != j ==> Apart(views[i], views[j]))
  }

  lemma FootOwns(v: View)
    ensures Owns(Foot(v), v)
  {
    forall i | 0 <= i < |v.nodes|
      ensures v.nodes[i] in Foot(v)
    {
      assert v.nodes[i] in v.nodes;
    }
  }

  lemma ForeignIsApart(repr: set<object>, a: View, v: View)
    requires Owns(repr, a) && Foreign(repr, v)
    ensures Apart(a, v) && Apart(v, a)
  {
  }

  lemma SeparateWithOneMore(views: seq<View>, repr: set<object>, v: View)
    requires Separate(views, repr) && Foreign(repr, v)
    ensures Separate(views + [v], repr + Foot(v))
  {
    hide Foot;
    FootOwns(v);
    forall i | 0 <= i < |views|
      ensures Apart(views[i], v) && Apart(v, views[i])
    {
      ForeignIsApart(repr, views[i], v);
    }
  }

  lemma ApartFromMerged(a: View, before: View, v: View, after: View)
    requires Apart(a, before) && Apart(before, a) && Apart(a, v) && Apart(v, a)
    requires after.mb == before.mb && after.nodes == before.nodes + v.nodes
    requires after.records == before.records || (before.records == null && after.records == v.records)
    ensures Apart(a, after) && Apart(after, a)
  {
  }

  lemma OwnsMerged(repr: set<object>, before: View, v: View, after: View)
    requires Owns(repr, before)
    requires after.mb == before.mb && after.nodes == before.nodes + v.nodes
    requires after.records == before.records || (before.records == null && after.records == v.records)
    ensures Owns(repr + Foot(v), after)
  {
    hide Foot;
    FootOwns(v);
  }

  lemma SeparateAfterMerge(views: seq<View>, repr: set<object>, k: nat, v: View, after: View)
    requires Separate(views, repr) && Foreign(repr, v) && k < |views|
    requires after.mb == views[k].mb && after.nodes == views[k].nodes + v.nodes
    requires after.records == views[k].records || (views[k].records == null && after.records == v.records)
    ensures Separate(views[k := after], repr + Foot(v))
  {
    hide Foot, Owns, Foreign, Apart;
    var views' := views[k := after];
    OwnsMerged(repr, views[k], v, after);
    forall i | 0 <= i < |views| && i != k
      ensures Apart(views[i], after) && Apart(after, views[i]) && Owns(repr + Foot(v), views[i])
    {
      ForeignIsApart(repr, views[i], v);
      ApartFromMerged(views[i], views[k], v, after);
      OwnsMore(repr, Foot(v), views[i]);
    }
  }

  lemma OwnsMore(repr: set<object>, more: set<object>, v: View)
    requires Owns(repr, v)
    ensures Owns(repr + more, v)
  {
  }

  class MailboxList {
    const list: List<Mailbox>
    ghost var Repr: set<object>

    ghost predicate Owned()
      reads this, list, list.nodes, Repr
    {
      && this !in Repr && list !in Repr
      && forall i :: 0 <= i < |list.nodes| ==>
           var mb := list.nodes[i].val;
           && list.nodes[i] !in Repr && mb in Repr
           && (mb.records != null ==> mb.records in Repr)
           && (forall j :: 0 <= j < |mb.Nodes()| ==> mb.Nodes()[j] in Repr)
    }

    ghost predicate Valid()
      reads this, list, list.nodes, Repr
    {
      && list.Valid() && Owned()
      && (forall i :: 0 <= i < |list.nodes| ==> list.nodes[i].val.Valid())
      && Separate(Views(), Repr)
    }

    ghost function Views(): seq<View>
      requires Owned()
      reads this, list, list.nodes, Repr
    {
      seq(|list.nodes|, i requires 0 <= i < |list.nodes| && Owned() reads this, list, list.nodes, Repr =>
        ViewOf(list.nodes[i].val))
    }

    ghost function Contents(): Plan
      requires Owned()
      reads this, list, list.nodes, Repr
    {
      seq(|list.nodes|, i requires 0 <= i < |list.nodes| && Owned() reads this, list, list.nodes, Repr =>
        list.nodes[i].val.Contents())
    }

    constructor ()
      ensures Valid() && Contents() == [] && fresh(list) && Repr == {}
    {
      list := new List();
      Repr := {};
    }

    // The first node with a mailbox of that name.
    method Locate(name: string) returns (tmp: Node?<Mailbox>, ghost k: nat)
      requires Valid()
      ensures k == Find(Contents(), name)
      ensures tmp == if k < |list.nodes| then list.nodes[k] else null
    {
      tmp := list.head;
      k := 0;
      while tmp != null && tmp.val.mboxname != name
        invariant 0 <= k <= |list.nodes| && tmp == (if k < |list.nodes| then list.nodes[k] else null)
        invariant forall j :: 0 <= j < k ==> list.nodes[j].val.mboxname != name
        decreases |list.nodes| - k
      {
        tmp := tmp.next;
        k := k + 1;
      }
      assert forall j :: 0 <= j < |list.nodes| ==> Contents()[j].mboxname == list.nodes[j].val.mboxname;
      FindIs(Contents(), name, k);
    }

    // The mailbox, its records and their nodes are none of the list's.
    ghost predicate Outside(v: View)
      reads this, list
    {
      && Foreign(Repr, v)
      && this !in Foot(v) && list !in Foot(v)
      && forall i :: 0 <= i < |list.nodes| ==> list.nodes[i] !in Foot(v)
    }

    lemma IsOutside(mailbox: Mailbox, foot: set<object>)
      requires Valid() && foot == Foot(ViewOf(mailbox))
      requires foot !! Repr + {this, list} && forall i :: 0 <= i < |list.nodes| ==> list.nodes[i] !in foot
      ensures Owned() && Outside(ViewOf(mailbox))
    {
      hide List.Valid, Separate, Mailbox.Valid;
      FootOwns(ViewOf(mailbox));
    }

    method TakeInto(tmp: Mailbox, ghost k: nat, mailbox: Mailbox)
      requires Valid() && k < |list.nodes| && tmp == list.nodes[k].val
      requires mailbox.Valid() && Outside(ViewOf(mailbox))
      modifies Repr, Foot(ViewOf(mailbox))
      ensures list.Valid() && list.nodes == old(list.nodes) && Repr == old(Repr)
      ensures forall j :: 0 <= j < |list.nodes| && j != k ==>
        var x := list.nodes[j].val;
        x.Valid() && x.Contents() == old(x.Contents()) && ViewOf(x) == old(ViewOf(x))
      ensures tmp.Valid() && tmp.Nodes() == old(tmp.Nodes()) + old(mailbox.Nodes())
      ensures tmp.records == old(tmp.records) || (old(tmp.records) == null && tmp.records == old(mailbox.records))
      ensures tmp.Contents() == old(tmp.Contents()).(records :=
        old(tmp.Contents()).records + old(mailbox.Contents()).records)
    {
      hide List.Valid, List.Values;
      ghost var v := ViewOf(mailbox);
      forall j | 0 <= j < |list.nodes|
        ensures list.nodes[j].val.Apart(mailbox)
        ensures j != k ==> list.nodes[j].val.Apart(tmp)
      {
        ForeignIsApart(Repr, Views()[j], v);
        assert j != k ==> Apart(Views()[j], Views()[k]);
      }
      assert tmp.Apart(mailbox);
      FootOwns(v);
      tmp.TakeRecords(mailbox);
    }

    method Merge(tmp: Mailbox, ghost k: nat, mailbox: Mailbox)
      requires Valid() && k < |list.nodes| && tmp == list.nodes[k].val
      requires mailbox.Valid() && Outside(ViewOf(mailbox))
      modifies this`Repr, Repr, Foot(ViewOf(mailbox))
      ensures Valid() && list.nodes == old(list.nodes) && Repr == old(Repr + Foot(ViewOf(mailbox)))
      ensures Contents() == old(Contents())[k := old(Contents())[k].(records :=
        old(Contents())[k].records + old(mailbox.Contents()).records)]
    {
      hide List.Valid, List.Values, Mailbox.Contents, Mailbox.Valid;
      ghost var views, v := Views(), ViewOf(mailbox);
      TakeInto(tmp, k, mailbox);
      SeparateAfterMerge(views, Repr, k, v, ViewOf(tmp));
      OwnsMerged(Repr, views[k], v, ViewOf(tmp));
      Repr := Repr + Foot(v);
      assert Owned();
      assert Views() == views[k := ViewOf(tmp)];
    }

    method AppendNode(mailbox: Mailbox) returns (node: Node<Mailbox>)
      requires list.Valid()
      modifies list, list.nodes
      ensures list.Valid() && list.nodes == old(list.nodes) + [node] && fresh(node) && node.val == mailbox
    {
      node := new Node(mailbox);
      list.Add(node);
    }

    method AppendOwned(mailbox: Mailbox, ghost foot: set<object>)
      requires Owned() && list.Valid() && Owns(foot, ViewOf(mailbox))
      requires this !in foot && list !in foot && mailbox in foot
      requires forall i :: 0 <= i < |list.nodes| ==> list.nodes[i] !in foot
      modifies this`Repr, list, list.nodes
      ensures Owned() && list.Valid() && Repr == old(Repr) + foot
      ensures |list.nodes| == |old(list.nodes)| + 1 && list.nodes[|list.nodes| - 1].val == mailbox
      ensures forall i :: 0 <= i < |old(list.nodes)| ==> list.nodes[i] == old(list.nodes)[i]
      ensures fresh(list.nodes[|list.nodes| - 1])
      ensures forall o :: o in old(Repr) ==> o !in old(list.nodes)
    {
      hide List.Values, List.Valid, Owns;
      assert Owns(foot, ViewOf(mailbox));
      OwnsIs(foot, mailbox);
      var node := AppendNode(mailbox);
      Repr := Repr + foot;
    }

    method AppendNew(mailbox: Mailbox)
      requires Valid() && mailbox.Valid() && Outside(ViewOf(mailbox))
      modifies this`Repr, list, list.nodes
      ensures Valid() && Repr == old(Repr) + Foot(ViewOf(mailbox))
      ensures forall i :: 0 <= i < |list.nodes| ==> list.nodes[i] in old(list.nodes) || fresh(list.nodes[i])
      ensures Contents() == old(Contents()) + [mailbox.Contents()]
    {
      hide List.Values, Mailbox.Contents, Mailbox.Valid, List.Valid, Foot, Separate, Foreign, Owns;
      ghost var views, v := Views(), ViewOf(mailbox);
      FootOwns(v);
      OwnsIs(Foot(v), mailbox);
      SeparateWithOneMore(views, Repr, v);
      AppendOwned(mailbox, Foot(v));
      assert Views() == views + [v];
    }

    // my_mailbox_list_add
    method AddMailbox(mailbox: Mailbox)
      requires Valid() && mailbox.Valid() && Outside(ViewOf(mailbox))
      modifies this`Repr, Repr, list, list.nodes, Foot(ViewOf(mailbox))
      ensures Valid() && Repr == old(Repr + Foot(ViewOf(mailbox)))
      ensures forall i :: 0 <= i < |list.nodes| ==> list.nodes[i] in old(list.nodes) || fresh(list.nodes[i])
      ensures Contents() == Add(old(Contents()), old(mailbox.Contents()))
    {
      hide List.Values, List.Valid, Mailbox.Contents, Mailbox.Valid, Foot;
      var tmp, k := Locate(mailbox.mboxname);
      NameOf(mailbox);
      if tmp != null {
        Merge(tmp.val, k, mailbox);
      } else {
        AppendNew(mailbox);
      }
    }
  }

  lemma NameOf(mb: Mailbox)
    ensures mb.Contents().mboxname == mb.mboxname
  {
  }

  lemma {:induction false} FindIs(plan: Plan, name: string, k: nat)
    requires k <= |plan| && (k < |plan| ==> plan[k].mboxname == name)
    requires forall j :: 0 <= j < k ==> plan[j].mboxname != name
    ensures Find(plan, name) == k
  {
  }
}
