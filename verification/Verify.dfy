// backup_verify: checking the index against the lines of a chunk.

module Verify {
  import opened Options
  import opened Log
  import opened Index
  import opened LinkedList
  import opened Checklist

  datatype MailboxEntry = MailboxEntry(uniqueid: string, row: MailboxRow)

  // A mailbox_message row joined with its mailbox and its message.
  datatype LinkEntry = LinkEntry(uniqueid: string, guid: Guid, size: nat, row: LinkRow)

  predicate MailboxMatches(row: MailboxRow, m: MailboxDlist) {
    && m.mboxname == Some(row.mboxname)
    && m.lastUid == Some(row.lastUid)
    && m.highestModseq == Some(row.highestModseq)
    && m.recentUid == Some(row.recentUid)
    && m.recentTime == Some(row.recentTime)
    && m.lastAppendDate == Some(row.lastAppendDate)
    && m.uidvalidity == Some(row.uidvalidity)
    && m.partition == Some(row.partition)
    && m.acl == Some(row.acl)
    && m.options == Some(row.options)
    && GetOr(m.xconvmodseq, 0) == row.xconvmodseq
    && GetOr(m.syncCrc, 0) == row.syncCrc
    && GetOr(m.syncCrcAnnot, 0) == row.syncCrcAnnot
  }

  predicate LinkMatches(e: LinkEntry, r: Record) {
    && r.modseq == Some(e.row.modseq)
    && r.lastUpdated == Some(e.row.lastUpdated)
    && r.internaldate == Some(e.row.internaldate)
    && r.size == Some(e.size)
    && r.guid == Some(e.guid)
  }

  // ---- what a line accounts for ----

  ghost predicate LineHasMailbox(line: Line, e: MailboxEntry) {
    && line.dl.Mailbox?
    && line.dl.mbox.uniqueid == Some(e.uniqueid)
    && MailboxMatches(e.row, line.dl.mbox)
  }

  ghost predicate RecordHasLink(r: Record, e: LinkEntry) {
    r.uid == Some(e.row.uid) && LinkMatches(e, r)
  }

  ghost predicate LineHasLink(line: Line, e: LinkEntry) {
    && line.dl.Mailbox?
    && line.dl.mbox.uniqueid == Some(e.uniqueid)
    && line.dl.mbox.records.Some?
    && exists r :: r in line.dl.mbox.records.value && RecordHasLink(r, e)
  }

  ghost predicate MailboxFound(lines: seq<Line>, e: MailboxEntry) {
    exists line :: line in lines && LineHasMailbox(line, e)
  }

  ghost predicate LinkFound(lines: seq<Line>, e: LinkEntry) {
    exists line :: line in lines && LineHasLink(line, e)
  }

  // ---- what that means ----

  // The line with the fields filled in that a comparison does not ask for.
  function Filled(m: MailboxDlist): MailboxDlist {
    m.(pop3LastLogin := Some(GetOr(m.pop3LastLogin, 0)), records := Some(GetOr(m.records, [])))
  }

  // The row is the one that indexing a MAILBOX line would set, but for the type,
  // the POP3 times and the annotations, and whether it has been deleted since.
  ghost predicate MailboxStated(lines: seq<Line>, e: MailboxEntry) {
    exists line :: line in lines && line.dl.Mailbox? &&
      var m := Filled(line.dl.mbox);
      && MailboxComplete(m) && m.uniqueid == Some(e.uniqueid)
      && MailboxRowOf(m, e.row.lastChunk)
         == e.row.(mboxtype := m.mboxtype, pop3LastLogin := m.pop3LastLogin.value,
                   pop3ShowAfter := GetOr(m.pop3ShowAfter, 0), annotations := m.annotations, deleted := None)
  }

  // The row is the one that indexing a record would set, but for the flags, the
  // annotations and the expunge time; and the record states GUID and size.
  ghost predicate RecordStates(line: Line, r: Record, e: LinkEntry) {
    && r.guid == Some(e.guid) && r.size == Some(e.size)
    && RecordComplete(r)
    && var row := LinkRowOf(r, Place(e.row.lastChunk, 0, line.ts), None);
       row == e.row.(flags := row.flags, annotations := row.annotations, expunged := None)
  }

  ghost predicate LinkStated(lines: seq<Line>, e: LinkEntry) {
    exists line, r :: line in lines && r in RecordsOf(line, e.uniqueid) && RecordStates(line, r, e)
  }

  // The records of a MAILBOX line for a mailbox.
  function RecordsOf(line: Line, u: string): seq<Record> {
    if line.dl.Mailbox? && line.dl.mbox.uniqueid == Some(u) then GetOr(line.dl.mbox.records, []) else []
  }

  lemma MailboxFoundIsStated(lines: seq<Line>, e: MailboxEntry)
    ensures MailboxFound(lines, e) <==> MailboxStated(lines, e)
  {
    if line :| line in lines && LineHasMailbox(line, e) {
      assert MailboxStated(lines, e);
    }
  }

  lemma RecordHasMeansStates(line: Line, r: Record, e: LinkEntry)
    ensures RecordHasLink(r, e) <==> RecordStates(line, r, e)
  {
    hide StripExpunged;
  }

  lemma LinkFoundIsStated(lines: seq<Line>, e: LinkEntry)
    ensures LinkFound(lines, e) <==> LinkStated(lines, e)
  {
    hide RecordHasLink, RecordStates;
    if line :| line in lines && LineHasLink(line, e) {
      var r :| r in line.dl.mbox.records.value && RecordHasLink(r, e);
      RecordHasMeansStates(line, r, e);
      assert r in RecordsOf(line, e.uniqueid);
    }
    if line, r :| line in lines && r in RecordsOf(line, e.uniqueid) && RecordStates(line, r, e) {
      RecordHasMeansStates(line, r, e);
      assert LineHasLink(line, e);
    }
  }

  const MAILBOX_KEY: MailboxEntry -> string := (e: MailboxEntry) => e.uniqueid
  const LINK_KEY: LinkEntry -> (string, nat) := (e: LinkEntry) => (e.uniqueid, e.row.uid)

  ghost predicate Distinct<K, V>(keyOf: V -> K, rows: seq<V>) {
    forall i, j :: 0 <= i < j < |rows| ==> keyOf(rows[i]) != keyOf(rows[j])
  }

  // ---- striking ----

  method StrikeMailbox(cl: Checklist<string, MailboxEntry>, m: MailboxDlist)
    requires cl.Valid() && cl.keyOf == MAILBOX_KEY && m.uniqueid.Some?
    modifies cl, cl.list, cl.all
    ensures cl.Valid() && cl.rows == old(cl.rows) && cl.all == old(cl.all)
    ensures forall i: nat :: i < |cl.rows| ==>
      (i in cl.struck <==>
        || i in old(cl.struck)
        || (LastOfKey(cl.keyOf, cl.rows, i)
            && cl.rows[i].uniqueid == m.uniqueid.value && MailboxMatches(cl.rows[i].row, m)))
  {
    hide MailboxMatches, IndexOk, List.Valid;
    var node, i := cl.Lookup(m.uniqueid.value);
    if node != null && MailboxMatches(node.val.row, m) {
      cl.Strike(node, i);
    }
  }

  method StrikeLink(cl: Checklist<(string, nat), LinkEntry>, u: string, r: Record)
    requires cl.Valid() && cl.keyOf == LINK_KEY
    modifies cl, cl.list, cl.all
    ensures cl.Valid() && cl.rows == old(cl.rows) && cl.all == old(cl.all)
    ensures forall i: nat :: i < |cl.rows| ==>
      (i in cl.struck <==>
        || i in old(cl.struck)
        || (LastOfKey(cl.keyOf, cl.rows, i) && cl.rows[i].uniqueid == u && RecordHasLink(r, cl.rows[i])))
  {
    hide LinkMatches, IndexOk, List.Valid;
    if r.uid.None? {
      return;
    }
    var node, i := cl.Lookup((u, r.uid.value));
    if node != null && LinkMatches(node.val, r) {
      cl.Strike(node, i);
    }
  }

  method StrikeLinks(cl: Checklist<(string, nat), LinkEntry>, u: string, records: seq<Record>)
    requires cl.Valid() && cl.keyOf == LINK_KEY
    modifies cl, cl.list, cl.all
    ensures cl.Valid() && cl.rows == old(cl.rows) && cl.all == old(cl.all)
    ensures forall i: nat :: i < |cl.rows| ==>
      (i in cl.struck <==>
        || i in old(cl.struck)
        || (LastOfKey(cl.keyOf, cl.rows, i) && cl.rows[i].uniqueid == u
            && exists r :: r in records && RecordHasLink(r, cl.rows[i])))
  {
    hide RecordHasLink, LastOfKey, IndexOk, List.Valid;
    var k := 0;
    while k < |records|
      invariant 0 <= k <= |records|
      invariant cl.Valid() && cl.rows == old(cl.rows) && cl.all == old(cl.all)
      invariant forall i: nat :: i < |cl.rows| ==>
        (i in cl.struck <==>
          || i in old(cl.struck)
          || (LastOfKey(cl.keyOf, cl.rows, i) && cl.rows[i].uniqueid == u
              && exists r :: r in records[..k] && RecordHasLink(r, cl.rows[i])))
    {
      StrikeLink(cl, u, records[k]);
      assert records[..k + 1] == records[..k] + [records[k]];
      k := k + 1;
    }
    assert records[..k] == records;
  }

  // The line's effect on both lists.
  method StrikeLine(ms: Checklist<string, MailboxEntry>, ls: Checklist<(string, nat), LinkEntry>, line: Line)
    requires ms.Valid() && ms.keyOf == MAILBOX_KEY && ls.Valid() && ls.keyOf == LINK_KEY
    modifies ms, ms.list, ms.all, ls, ls.list, ls.all
    ensures ms.Valid() && ms.rows == old(ms.rows) && ms.all == old(ms.all)
    ensures ls.Valid() && ls.rows == old(ls.rows) && ls.all == old(ls.all)
    ensures forall i: nat :: i < |ms.rows| ==>
      (i in ms.struck <==>
        i in old(ms.struck) || (LastOfKey(ms.keyOf, ms.rows, i) && LineHasMailbox(line, ms.rows[i])))
    ensures forall i: nat :: i < |ls.rows| ==>
      (i in ls.struck <==>
        i in old(ls.struck) || (LastOfKey(ls.keyOf, ls.rows, i) && LineHasLink(line, ls.rows[i])))
  {
    hide RecordHasLink, LastOfKey, MailboxMatches, IndexOk;
    if !line.dl.Mailbox? || line.dl.mbox.uniqueid.None? {
      return;
    }
    var m := line.dl.mbox;
    StrikeMailbox(ms, m);
    if m.records.Some? {
      StrikeLinks(ls, m.uniqueid.value, m.records.value);
    }
  }

  lemma FoundNext(lines: seq<Line>, n: nat)
    requires n < |lines|
    ensures forall e: MailboxEntry :: MailboxFound(lines[..n + 1], e) <==>
      MailboxFound(lines[..n], e) || LineHasMailbox(lines[n], e)
    ensures forall e: LinkEntry :: LinkFound(lines[..n + 1], e) <==>
      LinkFound(lines[..n], e) || LineHasLink(lines[n], e)
  {
    hide LineHasMailbox, LineHasLink;
    assert lines[..n + 1] == lines[..n] + [lines[n]];
  }

  // Reads the chunk and strikes every row that a line accounts for.
  method StrikeAll(ms: Checklist<string, MailboxEntry>, ls: Checklist<(string, nat), LinkEntry>, lines: seq<Line>)
    requires ms.Valid() && ms.keyOf == MAILBOX_KEY && ls.Valid() && ls.keyOf == LINK_KEY
    requires ms.struck == {} && ls.struck == {}
    modifies ms, ms.list, ms.all, ls, ls.list, ls.all
    ensures ms.Valid() && ms.rows == old(ms.rows) && ls.Valid() && ls.rows == old(ls.rows)
    ensures forall i: nat :: i < |ms.rows| ==>
      (i in ms.struck <==> LastOfKey(ms.keyOf, ms.rows, i) && MailboxFound(lines, ms.rows[i]))
    ensures forall i: nat :: i < |ls.rows| ==>
      (i in ls.struck <==> LastOfKey(ls.keyOf, ls.rows, i) && LinkFound(lines, ls.rows[i]))
  {
    hide LastOfKey, MailboxFound, LinkFound, LineHasMailbox, LineHasLink, Checklist.Valid;
    var n := 0;
    NoneFound(lines);
    while n < |lines|
      invariant 0 <= n <= |lines|
      invariant ms.Valid() && ms.rows == old(ms.rows) && ms.all == old(ms.all)
      invariant ls.Valid() && ls.rows == old(ls.rows) && ls.all == old(ls.all)
      invariant forall i: nat :: i < |ms.rows| ==>
        (i in ms.struck <==> LastOfKey(ms.keyOf, ms.rows, i) && MailboxFound(lines[..n], ms.rows[i]))
      invariant forall i: nat :: i < |ls.rows| ==>
        (i in ls.struck <==> LastOfKey(ls.keyOf, ls.rows, i) && LinkFound(lines[..n], ls.rows[i]))
    {
      FoundNext(lines, n);
      StrikeLine(ms, ls, lines[n]);
      n := n + 1;
    }
    assert lines[..n] == lines;
  }

  lemma NoneFound(lines: seq<Line>)
    ensures forall e: MailboxEntry :: !MailboxFound(lines[..0], e)
    ensures forall e: LinkEntry :: !LinkFound(lines[..0], e)
  {
  }

  lemma DistinctMeansLast<K, V>(keyOf: V -> K, rows: seq<V>)
    ensures Distinct(keyOf, rows) <==> forall i: nat :: i < |rows| ==> LastOfKey(keyOf, rows, i)
  {
    if forall i: nat :: i < |rows| ==> LastOfKey(keyOf, rows, i) {
      forall i, j | 0 <= i < j < |rows|
        ensures keyOf(rows[i]) != keyOf(rows[j])
      {
        assert LastOfKey(keyOf, rows, i);
      }
    }
  }

  ghost predicate MailboxesFound(lines: seq<Line>, rows: seq<MailboxEntry>) {
    forall i :: 0 <= i < |rows| ==> MailboxFound(lines, rows[i])
  }

  ghost predicate LinksFound(lines: seq<Line>, rows: seq<LinkEntry>) {
    forall i :: 0 <= i < |rows| ==> LinkFound(lines, rows[i])
  }

  // The rows have distinct keys, and each has its MAILBOX line, or its record,
  // in the chunk.
  ghost predicate AccountedFor(mailboxes: seq<MailboxEntry>, links: seq<LinkEntry>, lines: seq<Line>) {
    && Distinct(MAILBOX_KEY, mailboxes) && MailboxesFound(lines, mailboxes)
    && Distinct(LINK_KEY, links) && LinksFound(lines, links)
  }

  // Every row is what some line, or record, of the chunk makes of it.
  ghost predicate AllStated(mailboxes: seq<MailboxEntry>, links: seq<LinkEntry>, lines: seq<Line>) {
    && Distinct(MAILBOX_KEY, mailboxes) && (forall e :: e in mailboxes ==> MailboxStated(lines, e))
    && Distinct(LINK_KEY, links) && (forall e :: e in links ==> LinkStated(lines, e))
  }

  // What the check accepts is what indexing the chunk's lines would set.
  lemma AccountedForIsStated(mailboxes: seq<MailboxEntry>, links: seq<LinkEntry>, lines: seq<Line>)
    ensures AccountedFor(mailboxes, links, lines) <==> AllStated(mailboxes, links, lines)
  {
    hide MailboxFound, LinkFound, MailboxStated, LinkStated, Distinct;
    forall e
      ensures MailboxFound(lines, e) <==> MailboxStated(lines, e)
    {
      MailboxFoundIsStated(lines, e);
    }
    forall e
      ensures LinkFound(lines, e) <==> LinkStated(lines, e)
    {
      LinkFoundIsStated(lines, e);
    }
  }

  lemma NothingToFind(lines: seq<Line>)
    ensures AccountedFor([], [], lines)
  {
  }

  lemma AllStruck(mailboxes: seq<MailboxEntry>, links: seq<LinkEntry>, lines: seq<Line>, m: set<nat>, l: set<nat>)
    requires forall i: nat :: i < |mailboxes| ==>
      (i in m <==> LastOfKey(MAILBOX_KEY, mailboxes, i) && MailboxFound(lines, mailboxes[i]))
    requires forall i: nat :: i < |links| ==>
      (i in l <==> LastOfKey(LINK_KEY, links, i) && LinkFound(lines, links[i]))
    ensures AccountedFor(mailboxes, links, lines) <==>
      (forall i: nat :: i < |mailboxes| ==> i in m) && (forall i: nat :: i < |links| ==> i in l)
  {
    hide LastOfKey, MailboxFound, LinkFound, Distinct;
    DistinctMeansLast(MAILBOX_KEY, mailboxes);
    DistinctMeansLast(LINK_KEY, links);
  }

  // verify_chunk_mailbox_links
  method VerifyChunkMailboxLinks(mailboxes: seq<MailboxEntry>, links: seq<LinkEntry>, lines: seq<Line>)
      returns (ok: bool)
    ensures ok <==> AccountedFor(mailboxes, links, lines)
    ensures ok <==> AllStated(mailboxes, links, lines)
  {
    hide LastOfKey, MailboxFound, LinkFound, Checklist.Valid, IndexOk, List.Valid, AccountedFor, AllStated;
    AccountedForIsStated(mailboxes, links, lines);
    if mailboxes == [] && links == [] {
      NothingToFind(lines);
      return true;
    }
    var ms := BuildMailboxes(mailboxes);
    var ls := BuildLinks(links);
    StrikeAll(ms, ls, lines);
    EmptyWhenAllStruck(ms);
    EmptyWhenAllStruck(ls);
    AllStruck(mailboxes, links, lines, ms.struck, ls.struck);
    ok := ms.list.count == 0 && ls.list.count == 0;
  }

  method BuildMailboxes(rows: seq<MailboxEntry>) returns (cl: Checklist<string, MailboxEntry>)
    ensures fresh(cl) && fresh(cl.list) && fresh(cl.all)
    ensures cl.Valid() && cl.rows == rows && cl.struck == {} && cl.keyOf == MAILBOX_KEY
  {
    hide LastOfKey, IndexOk, List.Valid, Checklist.Valid;
    cl := new Checklist(MAILBOX_KEY);
    var n := 0;
    while n < |rows|
      invariant 0 <= n <= |rows|
      invariant cl.Valid() && cl.rows == rows[..n] && cl.struck == {} && cl.list.nodes == cl.all
      invariant forall i :: 0 <= i < |cl.list.nodes| ==> fresh(cl.list.nodes[i])
    {
      cl.AddRow(rows[n]);
      n := n + 1;
    }
  }

  method BuildLinks(rows: seq<LinkEntry>) returns (cl: Checklist<(string, nat), LinkEntry>)
    ensures fresh(cl) && fresh(cl.list) && fresh(cl.all)
    ensures cl.Valid() && cl.rows == rows && cl.struck == {} && cl.keyOf == LINK_KEY
  {
    hide LastOfKey, IndexOk, List.Valid, Checklist.Valid;
    cl := new Checklist(LINK_KEY);
    var n := 0;
    while n < |rows|
      invariant 0 <= n <= |rows|
      invariant cl.Valid() && cl.rows == rows[..n] && cl.struck == {} && cl.list.nodes == cl.all
      invariant forall i :: 0 <= i < |cl.list.nodes| ==> fresh(cl.list.nodes[i])
    {
      cl.AddRow(rows[n]);
      n := n + 1;
    }
  }

  // ---- messages ----

  // The first child of a MESSAGE line with this GUID.
  function FindItem(items: seq<MessageItem>, g: Guid): (r: Option<MessageItem>)
    ensures r.Some? ==> r.value.File? && r.value.guid == g && r.value in items
    ensures r.None? ==> forall item :: item in items && item.File? ==> item.guid != g
  {
    if items == [] then None
    else if items[0].File? && items[0].guid == g then Some(items[0])
    else FindItem(items[1..], g)
  }

  // What _verify_message_cb asks of the line at the message's offset.
  predicate HoldsMessage(guidOf: string -> Guid, checkGuid: bool, line: Line, g: Guid) {
    && line.dl.Message?
    && FindItem(line.dl.items, g).Some?
    && (checkGuid ==> guidOf(FindItem(line.dl.items, g).value.content) == g)
  }

  datatype MessageEntry = MessageEntry(guid: Guid, offset: nat)

  predicate MessageVerified(pr: Printer, guidOf: string -> Guid, checkGuid: bool, lines: seq<Line>, e: MessageEntry) {
    LineAt(pr, lines, e.offset).Some? && HoldsMessage(guidOf, checkGuid, LineAt(pr, lines, e.offset).value, e.guid)
  }

  // Item k is the first of the list with the GUID.
  ghost predicate FirstItem(items: seq<MessageItem>, g: Guid, k: nat) {
    && k < |items| && items[k].File? && items[k].guid == g
    && forall j :: 0 <= j < k && items[j].File? ==> items[j].guid != g
  }

  // A line that starts at the row's offset, or the first one for offset zero,
  // stores the message, and if asked with the contents that hash to its GUID.
  ghost predicate MessageStated(
    pr: Printer, guidOf: string -> Guid, checkGuid: bool, lines: seq<Line>, e: MessageEntry)
  {
    exists n: nat, k: nat ::
      && n < |lines|
      && (e.offset == LineOffset(pr, lines, n) || (n == 0 && e.offset == 0))
      && lines[n].dl.Message? && FirstItem(lines[n].dl.items, e.guid, k)
      && (checkGuid ==> guidOf(lines[n].dl.items[k].content) == e.guid)
  }

  lemma {:induction false} FindItemFirst(items: seq<MessageItem>, g: Guid, k: nat)
    requires FirstItem(items, g, k)
    ensures FindItem(items, g) == Some(items[k])
  {
    if k != 0 {
      assert forall j :: 0 <= j < k - 1 ==> items[1..][j] == items[j + 1];
      FindItemFirst(items[1..], g, k - 1);
    }
  }

  lemma {:induction false} FirstItemFound(items: seq<MessageItem>, g: Guid) returns (k: nat)
    requires FindItem(items, g).Some?
    ensures FirstItem(items, g, k)
  {
    if items[0].File? && items[0].guid == g {
      k := 0;
    } else {
      k := FirstItemFound(items[1..], g);
      assert forall j :: 0 < j < |items| ==> items[j] == items[1..][j - 1];
      k := k + 1;
    }
  }

  lemma {:induction false} LineAtIs(pr: Printer, lines: seq<Line>, offset: nat) returns (n: nat)
    requires LineAt(pr, lines, offset).Some?
    ensures n < |lines| && LineAt(pr, lines, offset) == Some(lines[n])
    ensures offset == LineOffset(pr, lines, n) || (n == 0 && offset == 0)
  {
    hide MemberLength;
    var last := |lines| - 1;
    if offset == 0 {
      n := 0;
    } else if MemberLength(pr, lines[..last]) == offset {
      n := last;
    } else {
      n := LineAtIs(pr, lines[..last], offset);
      assert lines[..last][..n] == lines[..n];
    }
  }

  lemma VerifiedIsStated(pr: Printer, guidOf: string -> Guid, checkGuid: bool, lines: seq<Line>, e: MessageEntry)
    requires PrintsSomething(pr)
    ensures MessageVerified(pr, guidOf, checkGuid, lines, e) <==> MessageStated(pr, guidOf, checkGuid, lines, e)
  {
    hide LineAt, FindItem, LineOffset;
    if MessageVerified(pr, guidOf, checkGuid, lines, e) {
      var n := LineAtIs(pr, lines, e.offset);
      var k := FirstItemFound(lines[n].dl.items, e.guid);
      FindItemFirst(lines[n].dl.items, e.guid, k);
    }
    if MessageStated(pr, guidOf, checkGuid, lines, e) {
      var n: nat, k: nat :|
        && n < |lines|
        && (e.offset == LineOffset(pr, lines, n) || (n == 0 && e.offset == 0))
        && lines[n].dl.Message? && FirstItem(lines[n].dl.items, e.guid, k)
        && (checkGuid ==> guidOf(lines[n].dl.items[k].content) == e.guid);
      LineAtFinds(pr, lines, n);
      FirstLine(pr, lines);
      FindItemFirst(lines[n].dl.items, e.guid, k);
    }
  }

  lemma FirstLine(pr: Printer, lines: seq<Line>)
    requires lines != []
    ensures LineAt(pr, lines, 0) == Some(lines[0])
  {
  }

  method CheckItems(guidOf: string -> Guid, checkGuid: bool, line: Line, g: Guid) returns (ok: bool)
    ensures ok <==> HoldsMessage(guidOf, checkGuid, line, g)
  {
    if !line.dl.Message? {
      return false;
    }
    var items := line.dl.items;
    var k := 0;
    while k < |items|
      invariant 0 <= k <= |items|
      invariant FindItem(items, g) == FindItem(items[k..], g)
    {
      if items[k].File? && items[k].guid == g {
        return !checkGuid || guidOf(items[k].content) == g;
      }
      k := k + 1;
    }
    ok := false;
  }

  // verify_chunk_messages, which keeps the line it read last.
  method VerifyChunkMessages(
    pr: Printer, guidOf: string -> Guid, checkGuid: bool, lines: seq<Line>, rows: seq<MessageEntry>)
      returns (ok: bool)
    ensures ok <==> forall i :: 0 <= i < |rows| ==> MessageVerified(pr, guidOf, checkGuid, lines, rows[i])
    ensures PrintsSomething(pr) ==>
      (ok <==> forall i :: 0 <= i < |rows| ==> MessageStated(pr, guidOf, checkGuid, lines, rows[i]))
  {
    hide HoldsMessage, LineAt, MessageStated, PrintsSomething;
    forall i | 0 <= i < |rows| && PrintsSomething(pr)
      ensures MessageVerified(pr, guidOf, checkGuid, lines, rows[i]) <==>
        MessageStated(pr, guidOf, checkGuid, lines, rows[i])
    {
      VerifiedIsStated(pr, guidOf, checkGuid, lines, rows[i]);
    }
    var cached: Option<Line> := None;
    var cachedOffset := 0;
    var i := 0;
    while i < |rows|
      invariant 0 <= i <= |rows|
      invariant cached.Some? ==> LineAt(pr, lines, cachedOffset) == cached
      invariant forall j :: 0 <= j < i ==> MessageVerified(pr, guidOf, checkGuid, lines, rows[j])
    {
      if cached.None? || cachedOffset != rows[i].offset {
        cached := LineAt(pr, lines, rows[i].offset);
        if cached.None? {
          return false;
        }
        cachedOffset := rows[i].offset;
      }
      var found := CheckItems(guidOf, checkGuid, cached.value, rows[i].guid);
      if !found {
        return false;
      }
      i := i + 1;
    }
    ok := true;
  }
}
