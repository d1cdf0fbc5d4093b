// What compaction keeps: live chunks, and of their lines the messages and
// records that the original index still needs.

module Pruning {
  import opened Options
  import opened Log
  import opened Index

  // "expunged IS NULL OR expunged > :since"; the same test serves deleted and
  // unsubscribed times.
  predicate Since(time: Option<int>, since: int) {
    time.None? || time.value > since
  }

  predicate LiveMessage(t: Tables, since: int, g: Guid) {
    exists key :: key in t.link && key.1 == g && Since(t.link[key].expunged, since)
  }

  // The chunks that the live-chunk query selects.
  predicate LiveChunk(t: Tables, since: int, c: nat) {
    || (exists u :: u in t.mailbox && t.mailbox[u].lastChunk == c && Since(t.mailbox[u].deleted, since))
    || (exists key :: key in t.link && t.link[key].lastChunk == c && Since(t.link[key].expunged, since))
    || (exists g :: g in t.message && t.message[g].chunk == c && LiveMessage(t, since, g))
    || (exists n ::
          n in t.subscription && t.subscription[n].lastChunk == c && Since(t.subscription[n].unsubscribed, since))
    || (exists u :: u in t.seen && t.seen[u].lastChunk == c)
    || (exists i :: 0 <= i < |t.sieve| && t.sieve[i].chunk == c && Since(t.sieve[i].deleted, since))
  }

  // The ids of the chunks that compaction copies.
  ghost function LiveChunks(orig: Tables, since: int): iset<nat> {
    iset c | LiveChunk(orig, since, c)
  }

  ghost const ALL_CHUNKS: iset<nat> := iset c: nat | true

  // The GUIDs wanted from one chunk. The list they are collected in refuses
  // the null GUID.
  function KeepGuids(t: Tables, since: int, c: nat): set<Guid> {
    set g | g in t.message && t.message[g].chunk == c && LiveMessage(t, since, g) && g != NULL_GUID
  }

  predicate WantItem(keep: set<Guid>, item: MessageItem) {
    item.File? ==> item.guid in keep
  }

  function PruneItems(keep: set<Guid>, items: seq<MessageItem>): seq<MessageItem> {
    if items == [] then []
    else
      var last := items[|items| - 1];
      PruneItems(keep, items[..|items| - 1]) + if WantItem(keep, last) then [last] else []
  }

  // A record is wanted if it has no GUID, or if its link was last changed in
  // this chunk.
  predicate WantRecord(t: Tables, c: nat, u: string, r: Record) {
    r.guid.Some? ==> (u, r.guid.value) in t.link && t.link[(u, r.guid.value)].lastChunk == c
  }

  function PruneRecords(t: Tables, c: nat, u: string, rs: seq<Record>): seq<Record> {
    if rs == [] then []
    else
      var last := rs[|rs| - 1];
      PruneRecords(t, c, u, rs[..|rs| - 1]) + if WantRecord(t, c, u, last) then [last] else []
  }

  lemma PruneStep(orig: Tables, c: nat, u: string, rs: seq<Record>, r: Record)
    ensures PruneRecords(orig, c, u, rs + [r])
      == if WantRecord(orig, c, u, r) then PruneRecords(orig, c, u, rs) + [r] else PruneRecords(orig, c, u, rs)
  {
    hide WantRecord;
    assert (rs + [r])[..|rs|] == rs;
  }

  // Of the items of a MESSAGE line, the files that are not wanted go.
  lemma {:induction false} ItemsKept(keep: set<Guid>, items: seq<MessageItem>, item: MessageItem)
    ensures multiset(PruneItems(keep, items))[item]
         == if item.File? && item.guid !in keep then 0 else multiset(items)[item]
  {
    if items != [] {
      var front, last := items[..|items| - 1], items[|items| - 1];
      ItemsKept(keep, front, item);
      assert items == front + [last];
      assert multiset(items) == multiset(front) + multiset{last};
    }
  }

  // Of the records of a MAILBOX line, those go whose message is not linked into
  // the mailbox, or was last in another chunk.
  lemma {:induction false} RecordsKept(t: Tables, c: nat, u: string, rs: seq<Record>, r: Record)
    ensures multiset(PruneRecords(t, c, u, rs))[r]
         == if r.guid.Some? && ((u, r.guid.value) !in t.link || t.link[(u, r.guid.value)].lastChunk != c) then 0
            else multiset(rs)[r]
  {
    if rs != [] {
      var front, last := rs[..|rs| - 1], rs[|rs| - 1];
      RecordsKept(t, c, u, front, r);
      assert rs == front + [last];
      assert multiset(rs) == multiset(front) + multiset{last};
    }
  }

  function PruneMailbox(t: Tables, c: nat, m: MailboxDlist): MailboxDlist {
    if m.uniqueid.None? || m.records.None? then m
    else m.(records := Some(PruneRecords(t, c, m.uniqueid.value, m.records.value)))
  }

  // want_append_mailbox
  predicate WantMailbox(t: Tables, c: nat, m: MailboxDlist) {
    || m.uniqueid.None?
    || (m.records.Some? && PruneRecords(t, c, m.uniqueid.value, m.records.value) != [])
    || m.uniqueid.value !in t.mailbox
    || t.mailbox[m.uniqueid.value].lastChunk == c
  }

  // want_append: the dlist as it is written to the compacted backup, if it is.
  function WantAppend(t: Tables, since: int, c: nat, dl: Dlist): Option<Dlist> {
    match dl
    case Message(items) =>
      var kept := PruneItems(KeepGuids(t, since, c), items);
      if kept != [] then Some(Message(kept)) else None
    case Mailbox(m) => if WantMailbox(t, c, m) then Some(Mailbox(PruneMailbox(t, c, m))) else None
    case _ => Some(dl)
  }

  function KeepLine(t: Tables, since: int, e: Entry): seq<Line> {
    if !LiveChunk(t, since, e.chunk) then []
    else
      match WantAppend(t, since, e.chunk, e.line.dl)
      case None => []
      case Some(dl) => [Line(e.line.ts, dl)]
  }

  lemma KeptAtMostOne(t: Tables, since: int, e: Entry)
    ensures |KeepLine(t, since, e)| <= 1
  {
  }

  // The lines of the compacted backup, chunk boundaries aside.
  function KeepLines(t: Tables, since: int, es: seq<Entry>): seq<Line> {
    if es == [] then []
    else KeepLines(t, since, es[..|es| - 1]) + KeepLine(t, since, es[|es| - 1])
  }

  // The tables a sequence of lines builds, chunk ids and offsets aside.
  function Content(lines: seq<Line>): Tables {
    if lines == [] then EMPTY
    else
      var last := lines[|lines| - 1];
      IndexLine(Content(lines[..|lines| - 1]), Place(0, 0, last.ts), last.dl)
  }

  // Compaction gives up if a line it copies cannot be indexed.
  predicate Succeeds(lines: seq<Line>) {
    forall line :: line in lines ==> LineOk(line.dl)
  }
}
