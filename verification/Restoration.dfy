// restore_add_mailbox and restore_add_message.

module Restoration {
  import opened Options
  import opened Log
  import opened LinkedList
  import opened RestorePlan
  import opened Restore
  import opened RestoreLists

  // The GUIDs of the records, put on the list of a partition one at a time.
  method ReserveRecords(rv: Reserves, list: List<Rec>, partition: string) returns (rv': Reserves)
    requires list.Valid()
    ensures rv' == ReserveAt(rv, partition, GuidsOf(list.Values()))
  {
    rv' := ReserveAt(rv, partition, {});
    var record := list.head;
    ghost var k := 0;
    assert GuidsOf(list.Values()[..0]) == {};
    while record != null
      invariant 0 <= k <= |list.nodes| && record == (if k < |list.nodes| then list.nodes[k] else null)
      invariant rv' == ReserveAt(rv, partition, GuidsOf(list.Values()[..k]))
      decreases |list.nodes| - k
    {
      assert list.Values()[k] == record.val;
      OneMoreGuid(list.Values(), k);
      ReserveMore(rv, partition, GuidsOf(list.Values()[..k]), {record.val.guid});
      rv' := ReserveAt(rv', partition, {record.val.guid});
      record := record.next;
      k := k + 1;
    }
    assert list.Values()[..k] == list.Values();
  }

  lemma OneMoreGuid(rs: seq<Rec>, k: nat)
    requires k < |rs|
    ensures GuidsOf(rs[..k + 1]) == GuidsOf(rs[..k]) + {rs[k].guid}
  {
    assert rs[..k + 1] == rs[..k] + [rs[k]];
  }

  lemma ReserveMore(rv: Reserves, partition: string, a: set<Guid>, b: set<Guid>)
    ensures ReserveAt(ReserveAt(rv, partition, a), partition, b) == ReserveAt(rv, partition, a + b)
  {
    var once, twice := ReserveAt(rv, partition, a + b), ReserveAt(ReserveAt(rv, partition, a), partition, b);
    assert once[partition] == twice[partition];
  }

  class Restorer {
    const options: RestoreOptions
    const undeleted: string -> string
    const mailboxes: MailboxList
    var reserves: Reserves
    ghost var asked: seq<Request>

    ghost predicate Valid()
      reads mailboxes, mailboxes.list, mailboxes.list.nodes, mailboxes.Repr
    {
      this !in mailboxes.Repr && mailboxes.Valid()
    }

    ghost function Plan(): RestorePlan.Plan
      requires Valid()
      reads mailboxes, mailboxes.list, mailboxes.list.nodes, mailboxes.Repr
    {
      mailboxes.Contents()
    }

    // Plan and reserve lists are those of all the requests so far.
    ghost predicate Follows()
      requires Valid()
      reads this, mailboxes, mailboxes.list, mailboxes.list.nodes, mailboxes.Repr
    {
      Plan() == AddAll([], Requested(options, undeleted, asked)) && reserves == ReservingAll(options, undeleted, asked)
    }

    constructor (options: RestoreOptions, undeleted: string -> string)
      ensures this.options == options && this.undeleted == undeleted
      ensures fresh(mailboxes) && fresh(mailboxes.list)
      ensures Valid() && mailboxes.Repr == {} && Follows() && asked == []
    {
      this.options, this.undeleted, reserves, asked := options, undeleted, map[], [];
      mailboxes := new MailboxList();
    }

    // A clone of the mailbox, with the options applied.
    method Prepare(mailbox: Mailbox) returns (clone: Mailbox)
      requires mailbox.Valid() && (mailbox.records != null || options.mode == Okay)
      ensures clone.Valid() && (clone.records != null <==> mailbox.records != null)
      ensures clone.Contents() == Applied(options, undeleted, mailbox.Contents())
      ensures fresh(Foot(ViewOf(clone)))
    {
      hide List.Valid, List.Values, Applied;
      clone := mailbox.Clone();
      var ok := clone.ApplyOptions(options, undeleted);
    }

    // Takes the reserve lists, and a mailbox made for the plan.
    method AddFresh(rv: Reserves, mailbox: Mailbox, ghost foot: set<object>)
      requires Valid() && mailbox.Valid() && foot == Foot(ViewOf(mailbox))
      requires foot !! mailboxes.Repr + {this, mailboxes, mailboxes.list}
      requires forall i :: 0 <= i < |mailboxes.list.nodes| ==> mailboxes.list.nodes[i] !in foot
      modifies this`reserves, mailboxes, mailboxes.list, mailboxes.list.nodes, mailboxes.Repr, foot
      ensures Valid() && mailboxes.Repr == old(mailboxes.Repr) + foot && reserves == rv
      ensures forall i :: 0 <= i < |mailboxes.list.nodes| ==>
        mailboxes.list.nodes[i] in old(mailboxes.list.nodes) || fresh(mailboxes.list.nodes[i])
      ensures Plan() == Add(old(Plan()), old(mailbox.Contents()))
    {
      hide MailboxList.Valid, MailboxList.Owned, MailboxList.Contents, Mailbox.Contents, Mailbox.Valid, Add,
           MailboxList.Outside, List.Valid, List.Values, Foot, ViewOf;
      mailboxes.IsOutside(mailbox, foot);
      mailboxes.AddMailbox(mailbox);
      reserves := rv;
    }

    // restore_add_mailbox, of a mailbox with records
    method AddWithRecords(mailbox: Mailbox)
      requires Valid() && mailbox.Valid() && mailbox.records != null && mailbox.partition.Some?
      modifies this`reserves, mailboxes, mailboxes.list, mailboxes.list.nodes, mailboxes.Repr
      ensures Valid() && fresh(mailboxes.Repr - old(mailboxes.Repr))
      ensures forall i :: 0 <= i < |mailboxes.list.nodes| ==>
        mailboxes.list.nodes[i] in old(mailboxes.list.nodes) || fresh(mailboxes.list.nodes[i])
      ensures var q := Request.AddMailbox(old(mailbox.Contents()));
        && Plan() == AddAll(old(Plan()), Entries(options, undeleted, q))
        && reserves == Reserving(options, undeleted, old(reserves), q)
    {
      hide Restorer.Valid, Restorer.Plan, List.Valid, List.Values, Foot, ReserveAt, Add,
           Entries, Reserving, Applied, ViewOf;
      MailboxRequest(options, undeleted, reserves, mailbox.Contents());
      var clone := Prepare(mailbox);
      ghost var e := clone.Contents();
      assert e.partition == clone.partition && e.records == clone.records.Values();
      hide Mailbox.Contents, GuidsOf;
      AddOne(Plan(), e);
      var rv := ReserveRecords(reserves, clone.records, GetOr(clone.partition, ""));
      AddFresh(rv, clone, Foot(ViewOf(clone)));
    }

    // A mailbox made for one message; fails where the filter would look at the
    // records it does not have yet.
    method MakeSingle(msg: Message) returns (ok: bool, mailbox: Mailbox)
      ensures ok <==> options.mode == Okay
      ensures ok ==> mailbox.Valid() && fresh(Foot(ViewOf(mailbox))) && mailbox.partition.Some?
      ensures ok ==> mailbox.Contents() == Single(options, undeleted, msg)
    {
      hide Kept;
      mailbox := new Mailbox(NO_MAILBOX, null);
      ok := mailbox.ApplyOptions(options, undeleted);
      if ok {
        hide Applied;
        if mailbox.partition.None? {
          mailbox.partition := Some(msg.partition);
        }
        mailbox.records := OneRecord(Rec(msg.guid, 0, msg.length, 0, 0));
      }
    }

    method OneRecord(r: Rec) returns (list: List<Rec>)
      ensures list.Valid() && fresh(list) && (forall i :: 0 <= i < |list.nodes| ==> fresh(list.nodes[i]))
      ensures list.Values() == [r]
    {
      list := new List();
      var node := new Node(r);
      list.Add(node);
    }

    // restore_add_message, to a mailbox of the user's choice
    method AddSingle(msg: Message) returns (ok: bool)
      requires Valid() && options.overrideMboxname.Some?
      modifies this`reserves, mailboxes, mailboxes.list, mailboxes.list.nodes, mailboxes.Repr
      ensures ok <==> options.mode == Okay
      ensures Valid() && fresh(mailboxes.Repr - old(mailboxes.Repr))
      ensures forall i :: 0 <= i < |mailboxes.list.nodes| ==>
        mailboxes.list.nodes[i] in old(mailboxes.list.nodes) || fresh(mailboxes.list.nodes[i])
      ensures !ok ==> Plan() == old(Plan()) && reserves == old(reserves)
      ensures ok ==>
        && Plan() == AddAll(old(Plan()), [Single(options, undeleted, msg)])
        && reserves == ReserveEach(old(reserves), [Single(options, undeleted, msg)], msg.guid)
    {
      hide Restorer.Valid, Restorer.Plan, List.Valid, List.Values, Foot, ReserveAt, Add,
           Mailbox.Valid, ViewOf, Single, ReserveEach;
      var mailbox: Mailbox;
      ok, mailbox := MakeSingle(msg);
      if ok {
        ghost var e := mailbox.Contents();
        assert e.partition == mailbox.partition;
        hide Mailbox.Contents;
        ReserveOne(reserves, e, msg.guid);
        AddOne(Plan(), e);
        AddFresh(ReserveAt(reserves, mailbox.partition.value, {msg.guid}), mailbox, Foot(ViewOf(mailbox)));
      }
    }

    // restore_add_message, for one of the mailboxes the message is in
    method AddCopy(msg: Message, mailbox: Mailbox)
      requires Valid() && mailbox.Valid() && mailbox.records != null && mailbox.partition.Some?
      modifies this`reserves, mailboxes, mailboxes.list, mailboxes.list.nodes, mailboxes.Repr
      ensures Valid() && fresh(mailboxes.Repr - old(mailboxes.Repr))
      ensures forall i :: 0 <= i < |mailboxes.list.nodes| ==>
        mailboxes.list.nodes[i] in old(mailboxes.list.nodes) || fresh(mailboxes.list.nodes[i])
      ensures var e := Applied(options, undeleted, old(mailbox.Contents()));
        && Plan() == Add(old(Plan()), e)
        && reserves == ReserveAt(old(reserves), GetOr(e.partition, ""), {msg.guid})
    {
      hide Restorer.Valid, Restorer.Plan, List.Valid, List.Values, Foot, ReserveAt, Add,
           Applied, Mailbox.Valid, ViewOf;
      var clone := Prepare(mailbox);
      assert clone.Contents().partition == clone.partition;
      hide Mailbox.Contents;
      AddFresh(ReserveAt(reserves, GetOr(clone.partition, ""), {msg.guid}), clone, Foot(ViewOf(clone)));
    }

    // A mailbox of someone else's, with its records.
    ghost predicate Given(mb: Mailbox)
      reads mailboxes, mb, mb.records, mb.Nodes()
    {
      mb.Valid() && mb.records != null && mb.partition.Some? && Foreign(mailboxes.Repr, ViewOf(mb))
    }

    // AddCopy leaves another given mailbox as it is.
    method AddCopyBeside(msg: Message, mailbox: Mailbox, ghost ms: seq<Mailbox>)
      requires Valid() && Given(mailbox) && forall i :: 0 <= i < |ms| ==> Given(ms[i])
      modifies this`reserves, mailboxes, mailboxes.list, mailboxes.list.nodes, mailboxes.Repr
      ensures Valid() && fresh(mailboxes.Repr - old(mailboxes.Repr))
      ensures forall i :: 0 <= i < |mailboxes.list.nodes| ==>
        mailboxes.list.nodes[i] in old(mailboxes.list.nodes) || fresh(mailboxes.list.nodes[i])
      ensures var e := Applied(options, undeleted, old(mailbox.Contents()));
        && Plan() == Add(old(Plan()), e)
        && reserves == ReserveAt(old(reserves), GetOr(e.partition, ""), {msg.guid})
      ensures forall i :: 0 <= i < |ms| ==> Given(ms[i]) && ms[i].Contents() == old(ms[i].Contents())
    {
      hide Restorer.Valid, Restorer.Plan, List.Valid, List.Values, ReserveAt, Add, Applied;
      AddCopy(msg, mailbox);
    }

    method AddCopies(msg: Message, ms: seq<Mailbox>, ghost es: seq<Entry>)
      requires Valid() && |es| == |ms|
      requires forall i :: 0 <= i < |ms| ==> Given(ms[i]) && ms[i].Contents() == es[i]
      modifies this`reserves, mailboxes, mailboxes.list, mailboxes.list.nodes, mailboxes.Repr
      ensures Valid() && fresh(mailboxes.Repr - old(mailboxes.Repr))
      ensures forall i :: 0 <= i < |mailboxes.list.nodes| ==>
        mailboxes.list.nodes[i] in old(mailboxes.list.nodes) || fresh(mailboxes.list.nodes[i])
      ensures Plan() == AddAll(old(Plan()), AppliedAll(options, undeleted, es))
      ensures reserves == ReserveEach(old(reserves), AppliedAll(options, undeleted, es), msg.guid)
    {
      hide Restorer.Valid, Restorer.Plan, Restorer.Given, List.Valid, List.Values, ReserveAt, Add, Applied,
           Mailbox.Contents, ReserveEach, AddAll, AppliedAll;
      var i := 0;
      ghost var plan, rv := Plan(), reserves;
      CopiesStart(plan, rv, AppliedAll(options, undeleted, es), msg.guid);
      while i < |ms|
        invariant 0 <= i <= |ms| == |AppliedAll(options, undeleted, es)|
        invariant Valid() && fresh(mailboxes.Repr - old(mailboxes.Repr))
        invariant forall k :: 0 <= k < |mailboxes.list.nodes| ==>
          mailboxes.list.nodes[k] in old(mailboxes.list.nodes) || fresh(mailboxes.list.nodes[k])
        invariant forall k :: 0 <= k < |ms| ==> Given(ms[k]) && ms[k].Contents() == es[k]
        invariant Plan() == AddAll(plan, AppliedAll(options, undeleted, es)[..i])
        invariant reserves == ReserveEach(rv, AppliedAll(options, undeleted, es)[..i], msg.guid)
      {
        CopiesStep(plan, rv, options, undeleted, es, i, msg.guid);
        AddCopyBeside(msg, ms[i], ms);
        i := i + 1;
      }
      assert AppliedAll(options, undeleted, es)[..i] == AppliedAll(options, undeleted, es);
    }

    method AddOneMessage(msg: Message, ms: seq<Mailbox>, ghost es: seq<Entry>) returns (ok: bool)
      requires Valid() && |es| == |ms|
      requires forall i :: 0 <= i < |ms| ==> Given(ms[i]) && ms[i].Contents() == es[i]
      modifies this`reserves, mailboxes, mailboxes.list, mailboxes.list.nodes, mailboxes.Repr
      ensures ok <==> !Faults(options, Request.AddMessage(msg, es))
      ensures Valid() && fresh(mailboxes.Repr - old(mailboxes.Repr))
      ensures forall i :: 0 <= i < |mailboxes.list.nodes| ==>
        mailboxes.list.nodes[i] in old(mailboxes.list.nodes) || fresh(mailboxes.list.nodes[i])
      ensures ok ==> var q := Request.AddMessage(msg, es);
        && Plan() == AddAll(old(Plan()), Entries(options, undeleted, q))
        && reserves == Reserving(options, undeleted, old(reserves), q)
    {
      hide Restorer.Valid, Restorer.Plan, Restorer.Given, List.Valid, List.Values, ReserveAt, Add, Applied,
           Mailbox.Contents, ReserveEach, AddAll, AppliedAll, Single;
      if options.overrideMboxname.Some? {
        ok := AddSingle(msg);
      } else {
        AddCopies(msg, ms, es);
        ok := true;
      }
    }

    // restore_add_mailbox, of a mailbox without a list of records
    method AddBare(mailbox: Mailbox)
      requires Valid() && mailbox.Valid() && mailbox.records == null && options.mode == Okay
      modifies this`reserves, mailboxes, mailboxes.list, mailboxes.list.nodes, mailboxes.Repr
      ensures Valid() && fresh(mailboxes.Repr - old(mailboxes.Repr))
      ensures forall i :: 0 <= i < |mailboxes.list.nodes| ==>
        mailboxes.list.nodes[i] in old(mailboxes.list.nodes) || fresh(mailboxes.list.nodes[i])
      ensures Plan() == AddAll(old(Plan()), [Applied(options, undeleted, old(mailbox.Contents()))])
      ensures reserves == old(reserves)
    {
      hide Restorer.Valid, Restorer.Plan, List.Valid, List.Values, Foot, Add, Applied, Mailbox.Valid, Mailbox.Contents,
           ViewOf;
      var clone := Prepare(mailbox);
      AddOne(Plan(), clone.Contents());
      AddFresh(reserves, clone, Foot(ViewOf(clone)));
    }

    ghost function MailboxAsked(mailbox: Mailbox): Request
      reads mailbox, mailbox.records
    {
      if mailbox.records == null then Request.AddBare(mailbox.Contents()) else Request.AddMailbox(mailbox.Contents())
    }

    // The plan goes on following the requests.
    lemma FollowsNext(plan: RestorePlan.Plan, rv: Reserves, before: seq<Request>, q: Request)
      requires Valid() && asked == before + [q]
      requires plan == AddAll([], Requested(options, undeleted, before))
      requires rv == ReservingAll(options, undeleted, before)
      requires Plan() == AddAll(plan, Entries(options, undeleted, q))
      requires reserves == Reserving(options, undeleted, rv, q)
      ensures Follows()
    {
      OneMoreRequest(options, undeleted, before, q);
    }

    // restore_add_mailbox; it does not come back where it would look for the
    // records of a mailbox without any.
    method AddMailbox(mailbox: Mailbox) returns (ok: bool)
      requires Valid() && Follows() && mailbox.Valid()
      requires mailbox.records != null ==> mailbox.partition.Some?
      modifies this`reserves, this`asked, mailboxes, mailboxes.list, mailboxes.list.nodes, mailboxes.Repr
      ensures ok <==> !Faults(options, old(MailboxAsked(mailbox)))
      ensures Valid() && fresh(mailboxes.Repr - old(mailboxes.Repr))
      ensures forall i :: 0 <= i < |mailboxes.list.nodes| ==>
        mailboxes.list.nodes[i] in old(mailboxes.list.nodes) || fresh(mailboxes.list.nodes[i])
      ensures ok ==> Follows() && asked == old(asked) + [old(MailboxAsked(mailbox))]
    {
      hide MailboxList.Valid, MailboxList.Contents, List.Valid, List.Values, Applied, Mailbox.Valid, Mailbox.Contents,
           AddAll, Requested, ReservingAll, ReserveAt;
      ghost var plan, rv, before, q := Plan(), reserves, asked, MailboxAsked(mailbox);
      if mailbox.records == null {
        if options.mode != Okay {
          return false;
        }
        AddBare(mailbox);
      } else {
        AddWithRecords(mailbox);
      }
      asked := asked + [q];
      FollowsNext(plan, rv, before, q);
      ok := true;
    }

    // restore_add_message; it does not come back where it would look for the
    // records of a mailbox without any.
    method AddMessage(msg: Message, ms: seq<Mailbox>, ghost es: seq<Entry>) returns (ok: bool)
      requires Valid() && Follows() && |es| == |ms|
      requires forall i :: 0 <= i < |ms| ==> Given(ms[i]) && ms[i].Contents() == es[i]
      modifies this`reserves, this`asked, mailboxes, mailboxes.list, mailboxes.list.nodes, mailboxes.Repr
      ensures ok <==> !Faults(options, Request.AddMessage(msg, es))
      ensures Valid() && fresh(mailboxes.Repr - old(mailboxes.Repr))
      ensures forall i :: 0 <= i < |mailboxes.list.nodes| ==>
        mailboxes.list.nodes[i] in old(mailboxes.list.nodes) || fresh(mailboxes.list.nodes[i])
      ensures ok ==> Follows() && asked == old(asked) + [Request.AddMessage(msg, es)]
    {
      hide MailboxList.Valid, MailboxList.Contents, Restorer.Given, List.Valid, List.Values, Mailbox.Contents,
           AddAll, Requested, ReservingAll, Entries, Reserving;
      ghost var plan, rv, before := Plan(), reserves, asked;
      ok := AddOneMessage(msg, ms, es);
      if ok {
        asked := asked + [Request.AddMessage(msg, es)];
        FollowsNext(plan, rv, before, Request.AddMessage(msg, es));
      }
    }
  }

  lemma MailboxRequest(o: RestoreOptions, undeleted: string -> string, rv: Reserves, m: Entry)
    ensures var q, e := Request.AddMailbox(m), Applied(o, undeleted, m);
      && Entries(o, undeleted, q) == [e]
      && Reserving(o, undeleted, rv, q) == ReserveAt(rv, GetOr(e.partition, ""), GuidsOf(e.records))
  {
  }

  lemma ReserveOne(rv: Reserves, e: Entry, guid: Guid)
    ensures ReserveEach(rv, [e], guid) == ReserveAt(rv, GetOr(e.partition, ""), {guid})
  {
    hide ReserveAt;
    assert [e][..0] == [];
  }

  lemma CopiesStart(plan: Plan, rv: Reserves, es: seq<Entry>, guid: Guid)
    ensures AddAll(plan, es[..0]) == plan && ReserveEach(rv, es[..0], guid) == rv
  {
  }

  lemma CopiesStep(plan: Plan, rv: Reserves, o: RestoreOptions, undeleted: string -> string, es: seq<Entry>, i: nat,
                   guid: Guid)
    requires i < |es|
    ensures var all, e := AppliedAll(o, undeleted, es), Applied(o, undeleted, es[i]);
      && |all| == |es|
      && AddAll(plan, all[..i + 1]) == Add(AddAll(plan, all[..i]), e)
      && ReserveEach(rv, all[..i + 1], guid)
         == ReserveAt(ReserveEach(rv, all[..i], guid), GetOr(e.partition, ""), {guid})
  {
    hide Add, Applied, ReserveAt;
    var all := AppliedAll(o, undeleted, es);
    assert all[..i + 1][..i] == all[..i];
  }

  lemma AddOne(plan: Plan, e: Entry)
    ensures AddAll(plan, [e]) == Add(plan, e)
  {
    hide Add;
    assert [e][..0] == [];
  }
}
