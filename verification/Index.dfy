// The meaning of the index tables: what one dlist line does to them, and what
// a whole log does. Tables with a UNIQUE key are maps from that key; the
// module IndexDb keeps them as rows with ids and refines these functions.

module Index {
  import opened Options
  import opened Log

  datatype MessageRow = MessageRow(partition: string, chunk: nat, offset: nat, size: nat)

  datatype MailboxRow = MailboxRow(
    lastChunk: nat,
    mboxname: string,
    mboxtype: Option<string>,
    lastUid: nat,
    highestModseq: nat,
    recentUid: nat,
    recentTime: int,
    lastAppendDate: int,
    pop3LastLogin: int,
    pop3ShowAfter: int,
    uidvalidity: nat,
    partition: string,
    acl: string,
    options: string,
    syncCrc: nat,
    syncCrcAnnot: nat,
    xconvmodseq: nat,
    annotations: Option<string>,
    deleted: Option<int>)

  // A mailbox_message row: the link of one message into one mailbox.
  datatype LinkRow = LinkRow(
    lastChunk: nat,
    uid: nat,
    modseq: nat,
    lastUpdated: nat,
    flags: Option<seq<string>>,
    internaldate: nat,
    annotations: Option<string>,
    expunged: Option<int>)

  datatype SubRow = SubRow(lastChunk: nat, unsubscribed: Option<int>)

  datatype SeenRow = SeenRow(lastChunk: nat, lastRead: int, lastUid: nat, lastChange: int, seenUids: string)

  datatype SieveRow = SieveRow(
    chunk: nat, lastUpdate: int, filename: string, content: string, offset: nat, deleted: Option<int>)

  type LinkKey = (string, Guid)
  type Messages = map<Guid, MessageRow>
  type Mailboxes = map<string, MailboxRow>
  type Links = map<LinkKey, LinkRow>

  datatype Tables = Tables(
    message: Messages,
    mailbox: Mailboxes,
    link: Links,
    subscription: map<string, SubRow>,
    seen: map<string, SeenRow>,
    sieve: seq<SieveRow>)

  const EMPTY: Tables := Tables(map[], map[], map[], map[], map[], [])

  // Where and when a line is indexed: chunk id, offset in the chunk, time.
  datatype Place = Place(chunk: nat, offset: nat, ts: int)

  // ---- MESSAGE ----

  function IndexItem(message: Messages, at: Place, item: MessageItem): Messages {
    match item
    case NotFile => message
    case File(partition, guid, size, _) => message[guid := MessageRow(partition, at.chunk, at.offset, size)]
  }

  function IndexItems(message: Messages, at: Place, items: seq<MessageItem>): Messages {
    if items == [] then message
    else IndexItem(IndexItems(message, at, items[..|items| - 1]), at, items[|items| - 1])
  }

  // ---- MAILBOX ----

  predicate MailboxComplete(m: MailboxDlist) {
    && m.uniqueid.Some? && m.mboxname.Some? && m.lastUid.Some? && m.highestModseq.Some?
    && m.recentUid.Some? && m.recentTime.Some? && m.lastAppendDate.Some? && m.pop3LastLogin.Some?
    && m.uidvalidity.Some? && m.partition.Some? && m.acl.Some? && m.options.Some? && m.records.Some?
  }

  predicate RecordComplete(r: Record) {
    r.uid.Some? && r.modseq.Some? && r.lastUpdated.Some? && r.internaldate.Some? && r.guid.Some?
  }

  function MailboxRowOf(m: MailboxDlist, chunk: nat): MailboxRow
    requires MailboxComplete(m)
  {
    MailboxRow(
      chunk, m.mboxname.value, m.mboxtype, m.lastUid.value, m.highestModseq.value, m.recentUid.value,
      m.recentTime.value, m.lastAppendDate.value, m.pop3LastLogin.value, GetOr(m.pop3ShowAfter, 0),
      m.uidvalidity.value, m.partition.value, m.acl.value, m.options.value, GetOr(m.syncCrc, 0),
      GetOr(m.syncCrcAnnot, 0), GetOr(m.xconvmodseq, 0), m.annotations, None)
  }

  const EXPUNGED: string := "\\Expunged"

  // Where the last \Expunged flag is, or |flags| when there is none.
  function LastExpunged(flags: seq<string>): (k: nat)
    ensures k <= |flags|
    ensures k < |flags| ==> flags[k] == EXPUNGED && forall j :: k < j < |flags| ==> flags[j] != EXPUNGED
    ensures k == |flags| <==> EXPUNGED !in flags
  {
    if flags == [] then 0
    else if flags[|flags| - 1] == EXPUNGED then |flags| - 1
    else
      var k := LastExpunged(flags[..|flags| - 1]);
      if k == |flags| - 1 then |flags| else k
  }

  // _get_magic_flags: one \Expunged flag, the last, is taken out of the list.
  function StripExpunged(flags: seq<string>): seq<string> {
    var k := LastExpunged(flags);
    if k == |flags| then flags else flags[..k] + flags[k + 1..]
  }

  // The expunge time a record binds: none if its time is zero.
  function BoundExpunge(r: Record, ts: int): Option<int> {
    if r.flags.Some? && EXPUNGED in r.flags.value && ts != 0 then Some(ts) else None
  }

  function LinkRowOf(r: Record, at: Place, expunged: Option<int>): LinkRow
    requires RecordComplete(r)
  {
    LinkRow(
      at.chunk, r.uid.value, r.modseq.value, r.lastUpdated.value,
      if r.flags.Some? then Some(StripExpunged(r.flags.value)) else None,
      r.internaldate.value, r.annotations, expunged)
  }

  // COALESCE(old expunged, :expunged)
  function Coalesce(prior: Option<int>, bound: Option<int>): Option<int> {
    if prior.Some? then prior else bound
  }

  function PriorExpunge(link: Links, key: LinkKey): Option<int> {
    if key in link then link[key].expunged else None
  }

  function IndexRecord(link: Links, message: Messages, uniqueid: string, at: Place, r: Record): Links
    requires RecordComplete(r)
  {
    var key := (uniqueid, r.guid.value);
    if r.guid.value !in message then link
    else link[key := LinkRowOf(r, at, Coalesce(PriorExpunge(link, key), BoundExpunge(r, at.ts)))]
  }

  function IndexRecords(link: Links, message: Messages, uniqueid: string, at: Place, rs: seq<Record>): Links
    requires forall r :: r in rs ==> RecordComplete(r)
  {
    if rs == [] then link
    else
      var rest := IndexRecords(link, message, uniqueid, at, rs[..|rs| - 1]);
      IndexRecord(rest, message, uniqueid, at, rs[|rs| - 1])
  }

  // ---- one line ----

  // The lines that are indexed without an error. A MAILBOX line fails as a
  // whole, and is rolled back, if one of its records is incomplete.
  predicate LineOk(dl: Dlist) {
    match dl
    case Message(_) => true
    case Mailbox(m) => MailboxComplete(m) && forall r :: r in m.records.value ==> RecordComplete(r)
    case Unmailbox(_) => true
    case Rename(n) => n.oldName.Some? && n.newName.Some? && n.partition.Some? && n.uidvalidity.Some?
    case Reserve(_) => true
    case Seen(s) => s.uniqueid.Some? && s.lastRead.Some? && s.lastUid.Some? && s.lastChange.Some? && s.seenUids.Some?
    case Sub(n) => n.Some?
    case Unsub(n) => n.Some?
    case Sieve(s) => s.filename.Some? && s.lastUpdate.Some? && s.content.Some?
    case Unsieve(n) => n.Some?
    case Unrecognised(_) => false
  }

  function DeleteMailboxes(mailbox: Mailboxes, name: string, ts: int): Mailboxes {
    map u | u in mailbox :: if mailbox[u].mboxname == name then mailbox[u].(deleted := Some(ts)) else mailbox[u]
  }

  function RenameRow(row: MailboxRow, n: RenameDlist): MailboxRow
    requires LineOk(Rename(n))
  {
    if row.mboxname == n.oldName.value
    then row.(mboxname := n.newName.value, partition := n.partition.value, uidvalidity := n.uidvalidity.value)
    else row
  }

  function RenameMailboxes(mailbox: Mailboxes, n: RenameDlist): Mailboxes
    requires LineOk(Rename(n))
  {
    map u | u in mailbox :: RenameRow(mailbox[u], n)
  }

  // Marks the undeleted scripts of one file name as deleted.
  function DeleteSieveRow(row: SieveRow, filename: string, ts: int): SieveRow {
    if row.filename == filename && row.deleted.None? then row.(deleted := Some(ts)) else row
  }

  function DeleteSieve(sieve: seq<SieveRow>, filename: string, ts: int): seq<SieveRow> {
    seq(|sieve|, i requires 0 <= i < |sieve| => DeleteSieveRow(sieve[i], filename, ts))
  }

  function IndexMailbox(t: Tables, at: Place, m: MailboxDlist): Tables
    requires LineOk(Mailbox(m))
  {
    t.(mailbox := t.mailbox[m.uniqueid.value := MailboxRowOf(m, at.chunk)],
       link := IndexRecords(t.link, t.message, m.uniqueid.value, at, m.records.value))
  }

  // A SIEVE line with a file name but no date or content has already deleted
  // the old script when it fails.
  function IndexSieve(sieve: seq<SieveRow>, at: Place, s: SieveDlist): seq<SieveRow> {
    if s.filename.None? then sieve
    else
      var deleted := DeleteSieve(sieve, s.filename.value, at.ts);
      if s.lastUpdate.None? || s.content.None? then deleted
      else deleted + [SieveRow(at.chunk, s.lastUpdate.value, s.filename.value, s.content.value, at.offset, None)]
  }

  function IndexLine(t: Tables, at: Place, dl: Dlist): Tables {
    match dl
    case Message(items) => t.(message := IndexItems(t.message, at, items))
    case Mailbox(m) => if LineOk(dl) then IndexMailbox(t, at, m) else t
    case Unmailbox(name) => t.(mailbox := DeleteMailboxes(t.mailbox, name, at.ts))
    case Rename(n) => if LineOk(dl) then t.(mailbox := RenameMailboxes(t.mailbox, n)) else t
    case Reserve(_) => t
    case Seen(s) =>
      if LineOk(dl)
      then t.(seen := t.seen[s.uniqueid.value :=
                SeenRow(at.chunk, s.lastRead.value, s.lastUid.value, s.lastChange.value, s.seenUids.value)])
      else t
    case Sub(n) => if LineOk(dl) then t.(subscription := t.subscription[n.value := SubRow(at.chunk, None)]) else t
    case Unsub(n) =>
      if LineOk(dl) then t.(subscription := t.subscription[n.value := SubRow(at.chunk, Some(at.ts))]) else t
    case Sieve(s) => t.(sieve := IndexSieve(t.sieve, at, s))
    case Unsieve(n) => if LineOk(dl) then t.(sieve := DeleteSieve(t.sieve, n.value, at.ts)) else t
    case Unrecognised(_) => t
  }

  // ---- a whole log ----

  // A line of the log with the chunk id and the offset it is indexed under.
  datatype Entry = Entry(chunk: nat, offset: nat, line: Line)

  function At(e: Entry): Place {
    Place(e.chunk, e.offset, e.line.ts)
  }

  function IndexEntries(es: seq<Entry>): Tables {
    if es == [] then EMPTY
    else
      var last := es[|es| - 1];
      IndexLine(IndexEntries(es[..|es| - 1]), At(last), last.line.dl)
  }

  function MemberEntries(pr: Printer, lines: seq<Line>, chunk: nat): seq<Entry> {
    seq(|lines|, i requires 0 <= i < |lines| => Entry(chunk, LineOffset(pr, lines, i), lines[i]))
  }

  // The entries of a log whose k-th member has chunk id number(k).
  function LogEntries(pr: Printer, members: seq<Member>, number: nat -> nat): seq<Entry> {
    if members == [] then []
    else
      var k := |members| - 1;
      LogEntries(pr, members[..k], number) + MemberEntries(pr, members[k].lines, number(k))
  }

  // Live appends number the chunks by insertion: 1, 2, 3, ...
  const LIVE_IDS: nat -> nat := k => k + 1

  function Entries(pr: Printer, members: seq<Member>): seq<Entry> {
    LogEntries(pr, members, LIVE_IDS)
  }

  // The tables that appending a log builds.
  function IndexLog(pr: Printer, members: seq<Member>): Tables {
    IndexEntries(Entries(pr, members))
  }
}
