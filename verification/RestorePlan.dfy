// What a restore is going to put back: the mailboxes with their records, and
// the messages to be reserved at the server, by partition.

module RestorePlan {
  import opened Options
  import opened Log

  datatype Rec = Rec(guid: Guid, uid: nat, size: nat, internaldate: int, expunged: int)

  datatype ExpungedMode = Okay | Exclude | Only

  datatype RestoreOptions = RestoreOptions(
    overrideMboxname: Option<string>, overridePartition: Option<string>, overrideAcl: Option<string>,
    keepUidvalidity: bool, trimDeleted: bool, mode: ExpungedMode)

  // A mailbox of the plan. A message without mailboxes makes one that has no
  // partition before it is given one.
  datatype Entry = Entry(mboxname: string, partition: Option<string>, acl: Option<string>,
                         uniqueid: Option<string>, highestmodseq: nat, uidvalidity: nat, records: seq<Rec>)

  predicate Keeps(mode: ExpungedMode, r: Rec) {
    match mode
    case Okay => true
    case Exclude => r.expunged == 0
    case Only => r.expunged != 0
  }

  function Kept(mode: ExpungedMode, rs: seq<Rec>): seq<Rec> {
    if rs == [] then []
    else Kept(mode, rs[..|rs| - 1]) + if Keeps(mode, rs[|rs| - 1]) then [rs[|rs| - 1]] else []
  }

  // apply_mailbox_options; undeleted takes the prefix off the name of a
  // deleted mailbox and leaves other names alone.
  function Applied(o: RestoreOptions, undeleted: string -> string, e: Entry): Entry {
    var name := GetOr(o.overrideMboxname, e.mboxname);
    Entry(
      if o.trimDeleted then undeleted(name) else name,
      if o.overridePartition.Some? then o.overridePartition else e.partition,
      if o.overrideAcl.Some? then (if o.overrideAcl.value == "" then None else o.overrideAcl) else e.acl,
      if o.keepUidvalidity then e.uniqueid else None,
      if o.keepUidvalidity then e.highestmodseq else 0,
      if o.keepUidvalidity then e.uidvalidity else 0,
      Kept(o.mode, e.records))
  }

  const ANYTHING := RestoreOptions(None, None, None, true, false, Okay)

  lemma {:induction false} AllKept(rs: seq<Rec>)
    ensures Kept(Okay, rs) == rs
  {
    hide Keeps;
    if rs != [] {
      var n := |rs| - 1;
      AllKept(rs[..n]);
      OkayKeeps(rs[n]);
      assert rs == rs[..n] + [rs[n]];
    }
  }

  lemma OkayKeeps(r: Rec)
    ensures Keeps(Okay, r)
  {
  }

  // Options that ask for nothing change nothing.
  lemma NothingAsked(undeleted: string -> string, e: Entry)
    ensures Applied(ANYTHING, undeleted, e) == e
  {
    AllKept(e.records);
  }

  // An override wins over what the mailbox has, an empty ACL takes its ACL away,
  // and unless uidvalidity is kept nothing of the old identity is left.
  lemma OptionsWin(o: RestoreOptions, undeleted: string -> string, e: Entry)
    ensures var e' := Applied(o, undeleted, e);
      && (o.overridePartition.Some? ==> e'.partition == o.overridePartition)
      && (o.overrideMboxname.Some? && !o.trimDeleted ==> Some(e'.mboxname) == o.overrideMboxname)
      && (o.overrideAcl == Some("") ==> e'.acl == None)
      && (o.overrideAcl.Some? && o.overrideAcl != Some("") ==> e'.acl == o.overrideAcl)
      && (!o.keepUidvalidity ==> e'.uniqueid == None && e'.highestmodseq == 0 && e'.uidvalidity == 0)
  {
  }

  // ---- the list of mailboxes ----

  type Plan = seq<Entry>

  function Find(plan: Plan, name: string): (i: nat)
    ensures i <= |plan|
    ensures i < |plan| ==> plan[i].mboxname == name
    ensures forall j :: 0 <= j < i ==> plan[j].mboxname != name
  {
    if plan == [] || plan[0].mboxname == name then 0 else 1 + Find(plan[1..], name)
  }

  // my_mailbox_list_add: the records go to the mailbox of that name, if there
  // is one, and nothing else of the one given does.
  function Add(plan: Plan, e: Entry): Plan {
    var i := Find(plan, e.mboxname);
    if i < |plan| then plan[i := plan[i].(records := plan[i].records + e.records)] else plan + [e]
  }

  function AddAll(plan: Plan, es: seq<Entry>): Plan {
    if es == [] then plan else Add(AddAll(plan, es[..|es| - 1]), es[|es| - 1])
  }

  ghost predicate NamesDistinct(plan: Plan) {
    forall i, j :: 0 <= i < j < |plan| ==> plan[i].mboxname != plan[j].mboxname
  }

  // The records of all entries with that name, in order.
  function RecordsFor(es: seq<Entry>, name: string): seq<Rec> {
    if es == [] then []
    else RecordsFor(es[..|es| - 1], name) + if es[|es| - 1].mboxname == name then es[|es| - 1].records else []
  }

  ghost predicate HasName(es: seq<Entry>, name: string) {
    exists i :: 0 <= i < |es| && es[i].mboxname == name
  }

  lemma {:induction false} NoRecordsFor(es: seq<Entry>, name: string)
    requires !HasName(es, name)
    ensures RecordsFor(es, name) == []
  {
    if es != [] {
      assert forall i :: 0 <= i < |es| - 1 ==> es[..|es| - 1][i] == es[i];
      NoRecordsFor(es[..|es| - 1], name);
    }
  }

  // In a list with distinct names they are the records of one entry.
  lemma {:induction false} RecordsOfOne(plan: Plan, i: nat)
    requires NamesDistinct(plan) && i < |plan|
    ensures RecordsFor(plan, plan[i].mboxname) == plan[i].records
  {
    var n := |plan| - 1;
    if i == n {
      NoRecordsFor(plan[..n], plan[n].mboxname);
    } else {
      RecordsOfOne(plan[..n], i);
    }
  }

  lemma AddKeeps(plan: Plan, e: Entry, name: string)
    requires NamesDistinct(plan)
    ensures NamesDistinct(Add(plan, e))
    ensures RecordsFor(Add(plan, e), name) == RecordsFor(plan + [e], name)
    ensures HasName(Add(plan, e), name) <==> HasName(plan + [e], name)
  {
    var i := Find(plan, e.mboxname);
    var after := Add(plan, e);
    assert (plan + [e])[..|plan|] == plan;
    if i < |plan| {
      forall j | 0 <= j < |plan|
        ensures after[j].mboxname == plan[j].mboxname
      {
      }
      if HasName(plan, name) {
        var j :| 0 <= j < |plan| && plan[j].mboxname == name;
        RecordsOfOne(plan, j);
        RecordsOfOne(after, j);
        assert after[j].mboxname == name && (plan + [e])[j] == plan[j];
      } else {
        assert !HasName(after, name);
        assert name != e.mboxname;
        NoRecordsFor(plan, name);
        NoRecordsFor(after, name);
      }
    }
  }

  lemma {:induction false} ExtendedNames(es: seq<Entry>, e: Entry, name: string)
    ensures HasName(es + [e], name) <==> HasName(es, name) || e.mboxname == name
  {
    assert (es + [e])[|es|] == e;
    if i :| 0 <= i < |es| && es[i].mboxname == name {
      assert (es + [e])[i].mboxname == name;
    }
  }

  // After any additions the names are distinct, they are the names that were
  // added, and under each name are the records added under it, in order.
  lemma {:induction false} PlanConserves(es: seq<Entry>, name: string)
    ensures NamesDistinct(AddAll([], es))
    ensures HasName(AddAll([], es), name) <==> HasName(es, name)
    ensures RecordsFor(AddAll([], es), name) == RecordsFor(es, name)
  {
    hide Add, NamesDistinct, HasName;
    if es == [] {
      assert NamesDistinct([]) by {
        Empty();
      }
    } else {
      var front, last := es[..|es| - 1], es[|es| - 1];
      var plan := AddAll([], front);
      PlanConserves(front, name);
      AddKeeps(plan, last, name);
      ExtendedNames(plan, last, name);
      ExtendedNames(front, last, name);
      assert es == front + [last] && (plan + [last])[..|plan|] == plan;
    }
  }

  lemma Empty()
    ensures NamesDistinct([])
  {
  }

  function AllRecords(es: seq<Entry>): multiset<Rec> {
    if es == [] then multiset{} else AllRecords(es[..|es| - 1]) + multiset(es[|es| - 1].records)
  }

  lemma {:induction false} AllRecordsUpdated(plan: Plan, i: nat, more: seq<Rec>)
    requires i < |plan|
    ensures AllRecords(plan[i := plan[i].(records := plan[i].records + more)]) == AllRecords(plan) + multiset(more)
  {
    var n := |plan| - 1;
    var plan' := plan[i := plan[i].(records := plan[i].records + more)];
    if i == n {
      assert plan'[..n] == plan[..n];
    } else {
      AllRecordsUpdated(plan[..n], i, more);
      assert plan'[..n] == plan[..n][i := plan[i].(records := plan[i].records + more)];
    }
  }

  // No record is lost or planned twice.
  lemma {:induction false} PlanKeepsRecords(es: seq<Entry>)
    ensures AllRecords(AddAll([], es)) == AllRecords(es)
  {
    if es != [] {
      var plan, e := AddAll([], es[..|es| - 1]), es[|es| - 1];
      PlanKeepsRecords(es[..|es| - 1]);
      if Find(plan, e.mboxname) < |plan| {
        AllRecordsUpdated(plan, Find(plan, e.mboxname), e.records);
      } else {
        assert (plan + [e])[..|plan|] == plan;
      }
    }
  }

  // The filtering of a mailbox is the filtering of its records.
  lemma {:induction false} KeptAre(mode: ExpungedMode, rs: seq<Rec>, r: Rec)
    ensures multiset(Kept(mode, rs))[r]
         == if (mode == Exclude && r.expunged != 0) || (mode == Only && r.expunged == 0) then 0 else multiset(rs)[r]
  {
    if rs != [] {
      var front, last := rs[..|rs| - 1], rs[|rs| - 1];
      KeptAre(mode, front, r);
      assert rs == front + [last];
      assert multiset(rs) == multiset(front) + multiset{last};
      assert multiset(Kept(mode, rs))
          == multiset(Kept(mode, front)) + if Keeps(mode, last) then multiset{last} else multiset{};
    }
  }

  // ---- the reserve lists ----

  type Reserves = map<string, set<Guid>>

  // sync_reserve_partlist and sync_msgid_insert, which ignores the null GUID
  function ReserveAt(rv: Reserves, partition: string, guids: set<Guid>): Reserves {
    rv[partition := (if partition in rv then rv[partition] else {}) + (guids - {NULL_GUID})]
  }

  function GuidsOf(rs: seq<Rec>): set<Guid> {
    set r | r in rs :: r.guid
  }

  datatype Message = Message(guid: Guid, length: nat, partition: string)

  // What a restore is asked for. A mailbox comes with its records or, bare,
  // without a list of them; a message with the mailboxes it is in, and of those
  // with its own records.
  datatype Request =
    | AddMailbox(mailbox: Entry)
    | AddBare(mailbox: Entry)
    | AddMessage(message: Message, mailboxes: seq<Entry>)

  predicate Askable(q: Request) {
    match q
    case AddMailbox(m) => m.partition.Some?
    case AddBare(m) => m.records == []
    case AddMessage(msg, ms) =>
      forall i :: 0 <= i < |ms| ==> ms[i].partition.Some? && forall r :: r in ms[i].records ==> r.guid == msg.guid
  }

  const NO_MAILBOX := Entry("", None, None, None, 0, 0, [])

  function Single(o: RestoreOptions, undeleted: string -> string, msg: Message): Entry {
    var e := Applied(o, undeleted, NO_MAILBOX);
    e.(partition := Some(GetOr(e.partition, msg.partition)), records := [Rec(msg.guid, 0, msg.length, 0, 0)])
  }

  // The filter looks at the records of a mailbox that has none yet.
  predicate Faults(o: RestoreOptions, q: Request) {
    o.mode != Okay && (q.AddBare? || (q.AddMessage? && o.overrideMboxname.Some?))
  }

  function AppliedAll(o: RestoreOptions, undeleted: string -> string, ms: seq<Entry>): (es: seq<Entry>)
    ensures |es| == |ms|
  {
    seq(|ms|, i requires 0 <= i < |ms| => Applied(o, undeleted, ms[i]))
  }

  // The mailboxes a request adds.
  function Entries(o: RestoreOptions, undeleted: string -> string, q: Request): seq<Entry> {
    match q
    case AddMailbox(m) => [Applied(o, undeleted, m)]
    case AddBare(m) => [Applied(o, undeleted, m)]
    case AddMessage(msg, ms) =>
      if o.overrideMboxname.Some? then [Single(o, undeleted, msg)] else AppliedAll(o, undeleted, ms)
  }

  // A message restored to a mailbox of the user's choice is planned there, once,
  // on the partition asked for or else on its own.
  lemma MessageToChosenMailbox(o: RestoreOptions, undeleted: string -> string, msg: Message, ms: seq<Entry>)
    requires o.overrideMboxname.Some? && !o.trimDeleted
    ensures var es := Entries(o, undeleted, AddMessage(msg, ms));
      && |es| == 1 && Some(es[0].mboxname) == o.overrideMboxname
      && es[0].partition == (if o.overridePartition.Some? then o.overridePartition else Some(msg.partition))
      && |es[0].records| == 1 && es[0].records[0].guid == msg.guid && es[0].records[0].size == msg.length
  {
  }

  function ReserveEach(rv: Reserves, es: seq<Entry>, guid: Guid): Reserves {
    if es == [] then rv
    else ReserveAt(ReserveEach(rv, es[..|es| - 1], guid), GetOr(es[|es| - 1].partition, ""), {guid})
  }

  function Reserving(o: RestoreOptions, undeleted: string -> string, rv: Reserves, q: Request): Reserves {
    var es := Entries(o, undeleted, q);
    match q
    case AddMailbox(_) => ReserveAt(rv, GetOr(es[0].partition, ""), GuidsOf(es[0].records))
    case AddBare(_) => rv
    case AddMessage(msg, _) => ReserveEach(rv, es, msg.guid)
  }

  predicate ReservedAt(rv: Reserves, partition: string, guid: Guid) {
    partition in rv && guid in rv[partition]
  }

  function Requested(o: RestoreOptions, undeleted: string -> string, qs: seq<Request>): seq<Entry> {
    if qs == [] then []
    else Requested(o, undeleted, qs[..|qs| - 1]) + Entries(o, undeleted, qs[|qs| - 1])
  }

  function ReservingAll(o: RestoreOptions, undeleted: string -> string, qs: seq<Request>): Reserves {
    if qs == [] then map[] else Reserving(o, undeleted, ReservingAll(o, undeleted, qs[..|qs| - 1]), qs[|qs| - 1])
  }

  lemma {:induction false} AddAllConcat(plan: Plan, a: seq<Entry>, b: seq<Entry>)
    ensures AddAll(plan, a + b) == AddAll(AddAll(plan, a), b)
  {
    hide Add;
    if b == [] {
      assert a + b == a;
    } else {
      AddAllConcat(plan, a, b[..|b| - 1]);
      assert (a + b)[..|a + b| - 1] == a + b[..|b| - 1];
    }
  }

  // One more request, after those so far.
  lemma OneMoreRequest(o: RestoreOptions, undeleted: string -> string, qs: seq<Request>, q: Request)
    ensures AddAll([], Requested(o, undeleted, qs + [q]))
         == AddAll(AddAll([], Requested(o, undeleted, qs)), Entries(o, undeleted, q))
    ensures ReservingAll(o, undeleted, qs + [q]) == Reserving(o, undeleted, ReservingAll(o, undeleted, qs), q)
  {
    hide AddAll, Entries, Reserving;
    assert (qs + [q])[..|qs|] == qs;
    AddAllConcat([], Requested(o, undeleted, qs), Entries(o, undeleted, q));
  }

  // The request asks for the message on the partition.
  ghost predicate AsksFor(o: RestoreOptions, undeleted: string -> string, q: Request, p: string, g: Guid) {
    exists e :: e in Entries(o, undeleted, q) && GetOr(e.partition, "") == p &&
      match q
      case AddMailbox(_) => g in GuidsOf(e.records)
      case AddBare(_) => false
      case AddMessage(msg, _) => g == msg.guid
  }

  lemma {:induction false} ReserveEachIs(rv: Reserves, es: seq<Entry>, guid: Guid, p: string, g: Guid)
    ensures ReservedAt(ReserveEach(rv, es, guid), p, g) <==>
      || ReservedAt(rv, p, g)
      || (g == guid && g != NULL_GUID && exists e :: e in es && GetOr(e.partition, "") == p)
  {
    if es != [] {
      var front, last := es[..|es| - 1], es[|es| - 1];
      ReserveEachIs(rv, front, guid, p, g);
      assert es == front + [last];
      assert forall e :: e in es <==> e in front || e == last;
    }
  }

  lemma RequestReserves(o: RestoreOptions, undeleted: string -> string, rv: Reserves, q: Request, p: string, g: Guid)
    ensures ReservedAt(Reserving(o, undeleted, rv, q), p, g) <==>
      ReservedAt(rv, p, g) || (g != NULL_GUID && AsksFor(o, undeleted, q, p, g))
  {
    hide Applied, Single;
    var es := Entries(o, undeleted, q);
    if q.AddMessage? {
      ReserveEachIs(rv, es, q.message.guid, p, g);
    } else {
      assert es == [es[0]];
    }
  }

  // A message is reserved on a partition exactly if some request added it to a
  // mailbox there.
  lemma {:induction false} ReservedExactly(o: RestoreOptions, undeleted: string -> string, qs: seq<Request>,
                                           p: string, g: Guid)
    ensures ReservedAt(ReservingAll(o, undeleted, qs), p, g) <==>
      g != NULL_GUID && exists q :: q in qs && AsksFor(o, undeleted, q, p, g)
  {
    hide AsksFor, Reserving;
    if qs != [] {
      var front, q := qs[..|qs| - 1], qs[|qs| - 1];
      ReservedExactly(o, undeleted, front, p, g);
      RequestReserves(o, undeleted, ReservingAll(o, undeleted, front), q, p, g);
      assert forall q' :: q' in qs <==> q' in front || q' == q;
    }
  }

  lemma {:induction false} KeptFrom(mode: ExpungedMode, rs: seq<Rec>, r: Rec)
    requires r in Kept(mode, rs)
    ensures r in rs
  {
    if r !in Kept(mode, rs[..|rs| - 1]) {
      assert r == rs[|rs| - 1];
    } else {
      KeptFrom(mode, rs[..|rs| - 1], r);
    }
  }

  // Every record that is added has its message reserved on the partition of the
  // mailbox it is added with.
  lemma {:induction false} AddedIsReserved(o: RestoreOptions, undeleted: string -> string, qs: seq<Request>,
                                           e: Entry, r: Rec)
    requires forall q :: q in qs ==> Askable(q)
    requires e in Requested(o, undeleted, qs) && r in e.records && r.guid != NULL_GUID
    ensures ReservedAt(ReservingAll(o, undeleted, qs), GetOr(e.partition, ""), r.guid)
  {
    hide Askable, Entries, Reserving, AsksFor;
    var front, q := qs[..|qs| - 1], qs[|qs| - 1];
    assert q in qs && forall q' :: q' in front ==> q' in qs;
    RequestReserves(o, undeleted, ReservingAll(o, undeleted, front), q, GetOr(e.partition, ""), r.guid);
    if e in Requested(o, undeleted, front) {
      AddedIsReserved(o, undeleted, front, e, r);
    } else {
      EntryReserves(o, undeleted, q, e, r);
    }
  }

  lemma EntryReserves(o: RestoreOptions, undeleted: string -> string, q: Request, e: Entry, r: Rec)
    requires Askable(q) && e in Entries(o, undeleted, q) && r in e.records
    ensures AsksFor(o, undeleted, q, GetOr(e.partition, ""), r.guid)
  {
    var es := Entries(o, undeleted, q);
    if q.AddMailbox? {
      assert r.guid in GuidsOf(e.records);
    } else if q.AddBare? {
      NothingKept(o.mode);
    } else if o.overrideMboxname.None? {
      var i :| 0 <= i < |es| && es[i] == e;
      KeptFrom(o.mode, q.mailboxes[i].records, r);
    }
  }

  lemma NothingKept(mode: ExpungedMode)
    ensures Kept(mode, []) == []
  {
  }

  lemma {:induction false} RecordFrom(es: seq<Entry>, name: string, r: Rec) returns (e: Entry)
    requires r in RecordsFor(es, name)
    ensures e in es && e.mboxname == name && r in e.records
  {
    e := es[|es| - 1];
    if e.mboxname != name || r !in e.records {
      e := RecordFrom(es[..|es| - 1], name, r);
    }
  }

  // Every record of the plan has its message reserved on the partition of some
  // mailbox of the same name that it was added with.
  lemma PlanIsReserved(o: RestoreOptions, undeleted: string -> string, qs: seq<Request>, e: Entry, r: Rec)
      returns (added: Entry)
    requires forall q :: q in qs ==> Askable(q)
    requires e in AddAll([], Requested(o, undeleted, qs)) && r in e.records && r.guid != NULL_GUID
    ensures added in Requested(o, undeleted, qs) && added.mboxname == e.mboxname && r in added.records
    ensures ReservedAt(ReservingAll(o, undeleted, qs), GetOr(added.partition, ""), r.guid)
  {
    hide Askable, Entries, Reserving, ReservedAt, Requested, Add;
    var es := Requested(o, undeleted, qs);
    var plan := AddAll([], es);
    PlanConserves(es, e.mboxname);
    var i :| 0 <= i < |plan| && plan[i] == e;
    RecordsOfOne(plan, i);
    added := RecordFrom(es, e.mboxname, r);
    AddedIsReserved(o, undeleted, qs, added, r);
  }

  // Entry k is the first of its name.
  ghost predicate FirstOfName(es: seq<Entry>, k: nat) {
    k < |es| && forall j :: 0 <= j < k ==> es[j].mboxname != es[k].mboxname
  }

  // The records aside, a mailbox of the plan is as the first that was added under
  // its name; in particular it has the partition of that one.
  lemma {:induction false} PlanHasTheFirst(es: seq<Entry>, i: nat) returns (k: nat)
    requires i < |AddAll([], es)|
    ensures FirstOfName(es, k) && AddAll([], es)[i].(records := []) == es[k].(records := [])
  {
    var n := |es| - 1;
    var plan, e := AddAll([], es[..n]), es[n];
    if i < |plan| {
      k := PlanHasTheFirst(es[..n], i);
    } else {
      k := n;
      PlanConserves(es[..n], e.mboxname);
      assert forall j :: 0 <= j < n ==> es[..n][j] == es[j];
      assert !HasName(plan, e.mboxname);
    }
  }

  // So if all the mailboxes of a name that are added are on one partition, the
  // messages planned for it are reserved there.
  lemma PlanIsReservedThere(o: RestoreOptions, undeleted: string -> string, qs: seq<Request>, i: nat, r: Rec)
    requires forall q :: q in qs ==> Askable(q)
    requires i < |AddAll([], Requested(o, undeleted, qs))|
    requires r in AddAll([], Requested(o, undeleted, qs))[i].records && r.guid != NULL_GUID
    requires var es, e := Requested(o, undeleted, qs), AddAll([], Requested(o, undeleted, qs))[i];
      forall a, b :: a in es && b in es && a.mboxname == e.mboxname && b.mboxname == e.mboxname ==>
        a.partition == b.partition
    ensures ReservedAt(ReservingAll(o, undeleted, qs),
                       GetOr(AddAll([], Requested(o, undeleted, qs))[i].partition, ""), r.guid)
  {
    hide Askable, Entries, Reserving, ReservedAt, Requested, Add, AddAll;
    var es := Requested(o, undeleted, qs);
    var plan := AddAll([], es);
    var added := PlanIsReserved(o, undeleted, qs, plan[i], r);
    var k := PlanHasTheFirst(es, i);
    assert es[k] in es && plan[i].(records := []).partition == es[k].(records := []).partition;
    assert plan[i].(records := []).mboxname == es[k].(records := []).mboxname;
  }

  // ---- and if they are not ----

  const ON_P := Entry("n", Some("p"), None, None, 0, 0, [])
  const ON_Q := Entry("n", Some("q"), None, None, 0, 0, [Rec("g", 1, 5, 0, 0)])

  const TWO_MAILBOXES := [AddMailbox(ON_P), AddMailbox(ON_Q)]

  lemma AskedForAsTheyAre(undeleted: string -> string)
    ensures Entries(ANYTHING, undeleted, AddMailbox(ON_P)) == [ON_P]
    ensures Entries(ANYTHING, undeleted, AddMailbox(ON_Q)) == [ON_Q]
  {
    assert Kept(Okay, ON_Q.records) == ON_Q.records by {
      assert ON_Q.records[..0] == [];
    }
  }

  lemma BothRequested(undeleted: string -> string)
    ensures Requested(ANYTHING, undeleted, TWO_MAILBOXES) == [ON_P, ON_Q]
  {
    hide Entries;
    AskedForAsTheyAre(undeleted);
    assert TWO_MAILBOXES[..1] == [AddMailbox(ON_P)] && [AddMailbox(ON_P)][..0] == [];
    assert Requested(ANYTHING, undeleted, [AddMailbox(ON_P)]) == [] + [ON_P];
  }

  lemma BothPlanned()
    ensures AddAll([], [ON_P, ON_Q]) == [ON_P.(records := ON_Q.records)]
  {
    assert [ON_P, ON_Q][..1] == [ON_P] && [ON_P][..0] == [];
    assert AddAll([], [ON_P]) == [ON_P];
    assert ON_P.records + ON_Q.records == ON_Q.records;
    assert Add([ON_P], ON_Q) == [ON_P.(records := ON_Q.records)];
    assert [ON_P, ON_Q][1] == ON_Q;
  }

  // Two mailboxes of one name on two partitions become one, on that of the first;
  // the message of the second is reserved on the other.
  lemma ReservedElsewhere(undeleted: string -> string)
    ensures var plan := AddAll([], Requested(ANYTHING, undeleted, TWO_MAILBOXES));
      var rv := ReservingAll(ANYTHING, undeleted, TWO_MAILBOXES);
      && plan == [ON_P.(records := ON_Q.records)]
      && !ReservedAt(rv, "p", "g") && ReservedAt(rv, "q", "g")
  {
    hide Entries, AddAll, Requested, ReservingAll, ReservedAt;
    BothRequested(undeleted);
    BothPlanned();
    AskedForAsTheyAre(undeleted);
    ReservedExactly(ANYTHING, undeleted, TWO_MAILBOXES, "p", "g");
    ReservedExactly(ANYTHING, undeleted, TWO_MAILBOXES, "q", "g");
    assert ON_Q.records[0] in ON_Q.records && ON_Q in [ON_Q];
    assert AsksFor(ANYTHING, undeleted, TWO_MAILBOXES[1], "q", "g");
  }
}
