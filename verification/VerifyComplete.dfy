// Verification passes on what appending writes.

module VerifyComplete {
  import opened Options
  import opened Log
  import opened Index
  import opened Effects
  import opened Agreement
  import opened Verify

  // ---- messages ----

  // Every stored message hashes to the GUID it is stored under; the MESSAGE
  // command checks this before it appends the line.
  predicate HonestItems(guidOf: string -> Guid, line: Line) {
    line.dl.Message? ==> forall item :: item in line.dl.items && item.File? ==> guidOf(item.content) == item.guid
  }

  lemma StoredIsFound(guidOf: string -> Guid, line: Line, g: Guid)
    requires line.dl.Message? && StoresGuid(line.dl.items, g) && HonestItems(guidOf, line)
    ensures HoldsMessage(guidOf, true, line, g) && HoldsMessage(guidOf, false, line, g)
  {
  }

  // Every message row passes the check of its chunk, GUIDs included.
  lemma AppendedMessagesVerify(pr: Printer, guidOf: string -> Guid, members: seq<Member>, g: Guid, checkGuid: bool)
    requires g in IndexLog(pr, members).message && PrintsSomething(pr)
    requires forall m, line :: m in members && line in m.lines ==> HonestItems(guidOf, line)
    ensures var row := IndexLog(pr, members).message[g];
      && 1 <= row.chunk <= |members|
      && MessageVerified(pr, guidOf, checkGuid, members[row.chunk - 1].lines, MessageEntry(g, row.offset))
  {
    var i := MessageRowsAddressTheirLine(pr, members, g);
    var row := IndexLog(pr, members).message[g];
    var lines := members[row.chunk - 1].lines;
    hide IndexLog, LineAt;
    LineAtFinds(pr, lines, i);
    assert members[row.chunk - 1] in members && lines[i] in lines;
    StoredIsFound(guidOf, lines[i], g);
  }

  // ---- links ----

  // Every record for the link states its UID and the size of the message.
  predicate SizedRecords(line: Line, key: LinkKey, size: nat) {
    line.dl.Mailbox? && LineOk(line.dl) && line.dl.mbox.uniqueid.value == key.0 ==>
      forall r :: r in line.dl.mbox.records.value && r.guid == Some(key.1) ==> r.size == Some(size)
  }

  function EntryOf(t: Tables, key: LinkKey): LinkEntry
    requires key in t.link && key.1 in t.message
  {
    LinkEntry(key.0, key.1, t.message[key.1].size, t.link[key])
  }

  lemma BackedIsFound(e: Entry, key: LinkKey, row: LinkRow, size: nat)
    requires LinkBackedBy(e, key, row) && SizedRecords(e.line, key, size)
    ensures LineHasLink(e.line, LinkEntry(key.0, key.1, size, row))
  {
    var records := e.line.dl.mbox.records.value;
    var r :| r in records && RecordComplete(r) && r.guid.value == key.1 && row == LinkRowOf(r, At(e), row.expunged);
    assert RecordHasLink(r, LinkEntry(key.0, key.1, size, row));
  }

  // Every link row has its record in the chunk it claims, provided the sizes
  // in the records are right.
  lemma AppendedLinksVerify(pr: Printer, members: seq<Member>, key: LinkKey)
    requires key in IndexLog(pr, members).link && key.1 in IndexLog(pr, members).message
    requires forall m, line :: m in members && line in m.lines ==>
      SizedRecords(line, key, IndexLog(pr, members).message[key.1].size)
    ensures var t := IndexLog(pr, members);
      && 1 <= t.link[key].lastChunk <= |members|
      && LinkFound(members[t.link[key].lastChunk - 1].lines, EntryOf(t, key))
  {
    var t := IndexLog(pr, members);
    var i := LinkRowsHaveTheirRecord(pr, members, key);
    var row := t.link[key];
    var lines := members[row.lastChunk - 1].lines;
    hide IndexLog;
    assert members[row.lastChunk - 1] in members && lines[i] in lines;
    BackedIsFound(Entry(row.lastChunk, LineOffset(pr, lines, i), lines[i]), key, row, t.message[key.1].size);
  }

  // ---- mailboxes ----

  ghost predicate MailboxBackedBy(e: Entry, u: string, row: MailboxRow) {
    && e.chunk == row.lastChunk
    && LineHasMailbox(e.line, MailboxEntry(u, row))
  }

  // The line renames a mailbox of this name.
  predicate Renames(dl: Dlist, name: string) {
    dl.Rename? && LineOk(dl) && dl.rename.oldName.value == name
  }

  // No line has renamed the row of u since a MAILBOX line last set it.
  ghost predicate NotRenamed(es: seq<Entry>, u: string) {
    es != [] ==>
      var last, before := es[|es| - 1], IndexEntries(es[..|es| - 1]);
      if last.line.dl.Mailbox? && LineOk(last.line.dl) && last.line.dl.mbox.uniqueid.value == u then true
      else
        && (u in before.mailbox ==> !Renames(last.line.dl, before.mailbox[u].mboxname))
        && NotRenamed(es[..|es| - 1], u)
  }

  lemma MailboxLineBacks(t: Tables, e: Entry, u: string)
    requires e.line.dl.Mailbox? && LineOk(e.line.dl) && e.line.dl.mbox.uniqueid.value == u
    ensures var after := IndexLine(t, At(e), e.line.dl).mailbox;
      u in after && MailboxBackedBy(e, u, after[u])
  {
  }

  lemma OtherLineOnlyDeletes(t: Tables, e: Entry, u: string)
    requires !(e.line.dl.Mailbox? && LineOk(e.line.dl) && e.line.dl.mbox.uniqueid.value == u)
    requires u in t.mailbox ==> !Renames(e.line.dl, t.mailbox[u].mboxname)
    ensures var after := IndexLine(t, At(e), e.line.dl).mailbox;
      && (u in after <==> u in t.mailbox)
      && (u in after ==> after[u].(deleted := None) == t.mailbox[u].(deleted := None))
  {
    hide IndexRecords, IndexItems, DeleteSieve;
    match e.line.dl
    case Mailbox(m) =>
    case Unmailbox(_) =>
    case Rename(_) =>
    case Message(_) =>
    case _ =>
  }

  lemma DeletedDoesNotMatter(e: Entry, u: string, a: MailboxRow, b: MailboxRow)
    requires a.(deleted := None) == b.(deleted := None) && MailboxBackedBy(e, u, a)
    ensures MailboxBackedBy(e, u, b)
  {
    assert b == a.(deleted := b.deleted);
  }

  lemma {:induction false} MailboxesBacked(es: seq<Entry>, u: string) returns (i: nat)
    requires u in IndexEntries(es).mailbox && NotRenamed(es, u)
    ensures i < |es| && MailboxBackedBy(es[i], u, IndexEntries(es).mailbox[u])
  {
    var n := |es| - 1;
    var t := IndexEntries(es[..n]);
    var e := es[n];
    if e.line.dl.Mailbox? && LineOk(e.line.dl) && e.line.dl.mbox.uniqueid.value == u {
      MailboxLineBacks(t, e, u);
      i := n;
    } else {
      OtherLineOnlyDeletes(t, e, u);
      i := MailboxesBacked(es[..n], u);
      DeletedDoesNotMatter(es[i], u, t.mailbox[u], IndexEntries(es).mailbox[u]);
    }
  }

  // Every mailbox that was not renamed since its last MAILBOX line has a
  // matching line in the chunk it claims.
  lemma AppendedMailboxesVerify(pr: Printer, members: seq<Member>, u: string)
    requires u in IndexLog(pr, members).mailbox && NotRenamed(Entries(pr, members), u)
    ensures var row := IndexLog(pr, members).mailbox[u];
      && 1 <= row.lastChunk <= |members|
      && MailboxFound(members[row.lastChunk - 1].lines, MailboxEntry(u, row))
  {
    var es := Entries(pr, members);
    var k := MailboxesBacked(es, u);
    var i := EntryInLog(pr, members, es[k]);
    var row := IndexLog(pr, members).mailbox[u];
    hide IndexLog;
    assert LineHasMailbox(es[k].line, MailboxEntry(u, row));
  }

  // The rows that the two queries of the link check return for chunk c.
  ghost predicate RowsOfChunk(t: Tables, c: nat, mailboxes: seq<MailboxEntry>, links: seq<LinkEntry>) {
    && (forall e :: e in mailboxes ==>
          e.uniqueid in t.mailbox && e.row == t.mailbox[e.uniqueid] && e.row.lastChunk == c)
    && (forall e :: e in links ==>
          var key := (e.uniqueid, e.guid);
          key in t.link && e.guid in t.message && e == EntryOf(t, key) && e.row.lastChunk == c)
  }

  // No two messages of a mailbox have the same uid.
  ghost predicate DistinctUids(t: Tables) {
    forall a, b :: a in t.link && b in t.link && a != b && a.0 == b.0 ==> t.link[a].uid != t.link[b].uid
  }

  ghost predicate NoRepeats<T>(rows: seq<T>) {
    forall i, j :: 0 <= i < j < |rows| ==> rows[i] != rows[j]
  }

  // The rows of a chunk have distinct keys.
  lemma RowsAreDistinct(t: Tables, c: nat, mailboxes: seq<MailboxEntry>, links: seq<LinkEntry>)
    requires RowsOfChunk(t, c, mailboxes, links) && DistinctUids(t)
    requires NoRepeats(mailboxes) && NoRepeats(links)
    ensures Distinct(MAILBOX_KEY, mailboxes) && Distinct(LINK_KEY, links)
  {
    forall i, j | 0 <= i < j < |mailboxes|
      ensures MAILBOX_KEY(mailboxes[i]) != MAILBOX_KEY(mailboxes[j])
    {
      assert mailboxes[i] in mailboxes && mailboxes[j] in mailboxes;
    }
    forall i, j | 0 <= i < j < |links|
      ensures LINK_KEY(links[i]) != LINK_KEY(links[j])
    {
      assert links[i] in links && links[j] in links;
      var a, b := (links[i].uniqueid, links[i].guid), (links[j].uniqueid, links[j].guid);
      assert links[i] != links[j] && links[i] == EntryOf(t, a) && links[j] == EntryOf(t, b);
      assert a != b;
    }
  }

  // verify_chunk_mailbox_links passes every chunk that was appended, if no
  // mailbox was renamed after its last MAILBOX line, the records state the sizes
  // of their messages, and the uids of a mailbox are distinct.
  lemma AppendedChunksVerify(
    pr: Printer, members: seq<Member>, c: nat, mailboxes: seq<MailboxEntry>, links: seq<LinkEntry>)
    requires 1 <= c <= |members| && RowsOfChunk(IndexLog(pr, members), c, mailboxes, links)
    requires forall e :: e in mailboxes ==> NotRenamed(Entries(pr, members), e.uniqueid)
    requires forall e, m, line :: e in links && m in members && line in m.lines ==>
      SizedRecords(line, (e.uniqueid, e.guid), e.size)
    requires DistinctUids(IndexLog(pr, members)) && NoRepeats(mailboxes) && NoRepeats(links)
    ensures AccountedFor(mailboxes, links, members[c - 1].lines)
  {
    hide IndexLog, NotRenamed, MailboxFound, LinkFound, SizedRecords, Distinct, DistinctUids, NoRepeats;
    forall i | 0 <= i < |mailboxes|
      ensures MailboxFound(members[c - 1].lines, mailboxes[i])
    {
      assert mailboxes[i] in mailboxes;
      AppendedMailboxesVerify(pr, members, mailboxes[i].uniqueid);
    }
    forall i | 0 <= i < |links|
      ensures LinkFound(members[c - 1].lines, links[i])
    {
      assert links[i] in links;
      AppendedLinksVerify(pr, members, (links[i].uniqueid, links[i].guid));
    }
    RowsAreDistinct(IndexLog(pr, members), c, mailboxes, links);
  }
}
