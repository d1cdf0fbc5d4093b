// Compaction loses nothing that is live. Each result relates the tables of a
// log to the tables that the kept lines build.

module Conservation {
  import opened Options
  import opened Log
  import opened Index
  import opened Effects
  import opened Agreement
  import opened Pruning

  function OutPlace(ts: int): Place { Place(0, 0, ts) }

  // ---- messages ----

  ghost predicate SameMessage(a: MessageRow, b: MessageRow) {
    a.partition == b.partition && a.size == b.size
  }

  lemma {:induction false} PrunedStores(keep: set<Guid>, items: seq<MessageItem>, g: Guid)
    ensures StoresGuid(PruneItems(keep, items), g) <==> g in keep && StoresGuid(items, g)
  {
    hide StoresGuid;
    if items == [] {
      StoresNothing(g);
    } else {
      var n := |items| - 1;
      PrunedStores(keep, items[..n], g);
      StoresGuidAtEnd(items[..n], items[n], g);
      StoresGuidAtEnd(PruneItems(keep, items[..n]), items[n], g);
      assert items == items[..n] + [items[n]];
      assert PruneItems(keep, items[..n]) + [] == PruneItems(keep, items[..n]);
    }
  }

  // A pruned MESSAGE list does to a kept GUID what the whole list does.
  lemma {:induction false} PrunedItems(
    m: Messages, o: Messages, at: Place, keep: set<Guid>, items: seq<MessageItem>, g: Guid)
    requires g in keep && StoresGuid(items, g)
    ensures var a, b := IndexItems(m, at, items), IndexItems(o, OutPlace(at.ts), PruneItems(keep, items));
      g in a && g in b && SameMessage(a[g], b[g])
  {
    hide StoresGuid, IndexItems;
    StoresNothing(g);
    var n := |items| - 1;
    var front, last := items[..n], items[n];
    assert items == front + [last];
    StoresGuidAtEnd(front, last, g);
    ItemsStep(m, at, front, last);
    var pruned := PruneItems(keep, front);
    ItemsStep(o, OutPlace(at.ts), pruned, last);
    assert pruned + [] == pruned;
    if last.File? && last.guid == g {
      assert PruneItems(keep, items) == pruned + [last];
    } else {
      PrunedItems(m, o, at, keep, front, g);
    }
  }

  ghost predicate StoredIn(es: seq<Entry>, g: Guid, c: nat) {
    exists e :: e in es && e.chunk == c && Stores(e, g)
  }

  predicate Kept(orig: Tables, since: int, g: Guid) {
    g in orig.message && LiveMessage(orig, since, g) && g != NULL_GUID
  }

  // How the message tables of the log and of the compacted log compare on g;
  // stored says whether g has been seen in the chunk that holds it at the end.
  ghost predicate MessageRel(orig: Tables, since: int, tm: Messages, om: Messages, g: Guid, stored: bool) {
    && (g in om <==> stored)
    && (stored ==> Kept(orig, since, g) && g in tm)
    && (stored && tm[g].chunk == orig.message[g].chunk ==> SameMessage(tm[g], om[g]))
    && (Kept(orig, since, g) && g in tm && tm[g].chunk == orig.message[g].chunk ==> stored)
  }

  ghost predicate MessageSeen(orig: Tables, since: int, es: seq<Entry>, g: Guid) {
    Kept(orig, since, g) && StoredIn(es, g, orig.message[g].chunk)
  }

  ghost predicate MessageInv(orig: Tables, since: int, es: seq<Entry>, g: Guid) {
    MessageRel(orig, since, IndexEntries(es).message, Content(KeepLines(orig, since, es)).message, g,
               MessageSeen(orig, since, es, g))
  }

  lemma MessageLineStep(orig: Tables, since: int, tm: Messages, om: Messages, g: Guid, stored: bool, at: Place,
                        items: seq<MessageItem>)
    requires MessageRel(orig, since, tm, om, g, stored)
    ensures var hit := Kept(orig, since, g) && orig.message[g].chunk == at.chunk && StoresGuid(items, g);
      MessageRel(orig, since, IndexItems(tm, at, items),
                 IndexItems(om, OutPlace(at.ts), PruneItems(KeepGuids(orig, since, at.chunk), items)), g, stored || hit)
  {
    var keep := KeepGuids(orig, since, at.chunk);
    PrunedStores(keep, items, g);
    if g in keep && StoresGuid(items, g) {
      PrunedItems(tm, om, at, keep, items, g);
    }
    ItemsEffect(tm, at, items, g);
    ItemsEffect(om, OutPlace(at.ts), PruneItems(keep, items), g);
  }

  // What a kept line, if there is one, does to the compacted tables.
  function Apply(o: Tables, kept: seq<Line>): Tables
    requires |kept| <= 1
  {
    if kept == [] then o else IndexLine(o, OutPlace(kept[0].ts), kept[0].dl)
  }

  lemma ContentStep(orig: Tables, since: int, es: seq<Entry>)
    requires es != []
    ensures Content(KeepLines(orig, since, es))
      == Apply(Content(KeepLines(orig, since, es[..|es| - 1])), KeepLine(orig, since, es[|es| - 1]))
  {
    var n := |es| - 1;
    var front, kept := KeepLines(orig, since, es[..n]), KeepLine(orig, since, es[n]);
    if kept != [] {
      assert (front + kept)[..|front|] == front;
    } else {
      assert front + kept == front;
    }
  }

  // A MESSAGE line of a dead chunk stores nothing that is kept.
  lemma DeadChunkKeepsNothing(orig: Tables, since: int, c: nat, items: seq<MessageItem>, g: Guid)
    requires !LiveChunk(orig, since, c)
    ensures !StoresGuid(PruneItems(KeepGuids(orig, since, c), items), g)
  {
    hide StoresGuid;
    PrunedStores(KeepGuids(orig, since, c), items, g);
  }

  lemma KeptMessageLine(orig: Tables, since: int, o: Tables, e: Entry, g: Guid)
    requires e.line.dl.Message?
    ensures var kept := PruneItems(KeepGuids(orig, since, e.chunk), e.line.dl.items);
      var om := IndexItems(o.message, OutPlace(e.line.ts), kept);
      var after := Apply(o, KeepLine(orig, since, e)).message;
      (g in after <==> g in om) && (g in om ==> after[g] == om[g])
  {
    if !LiveChunk(orig, since, e.chunk) {
      DeadChunkKeepsNothing(orig, since, e.chunk, e.line.dl.items, g);
      ItemsEffect(o.message, OutPlace(e.line.ts), PruneItems(KeepGuids(orig, since, e.chunk), e.line.dl.items), g);
    }
  }

  lemma OtherLine(t: Tables, at: Place, dl: Dlist)
    ensures !dl.Message? ==> IndexLine(t, at, dl).message == t.message
    ensures !dl.Mailbox? ==> IndexLine(t, at, dl).link == t.link
    ensures !dl.Mailbox? && !dl.Unmailbox? && !dl.Rename? ==> IndexLine(t, at, dl).mailbox == t.mailbox
    ensures !dl.Seen? ==> IndexLine(t, at, dl).seen == t.seen
    ensures !dl.Sub? && !dl.Unsub? ==> IndexLine(t, at, dl).subscription == t.subscription
    ensures !dl.Sieve? && !dl.Unsieve? ==> IndexLine(t, at, dl).sieve == t.sieve
  {
  }

  // Pruning keeps the kind of a line; only MESSAGE and MAILBOX lines change.
  lemma KeptKind(orig: Tables, since: int, e: Entry)
    ensures var kept := KeepLine(orig, since, e);
      kept != [] ==>
        && kept[0].ts == e.line.ts
        && (kept[0].dl.Message? <==> e.line.dl.Message?)
        && (kept[0].dl.Mailbox? <==> e.line.dl.Mailbox?)
        && (!e.line.dl.Message? && !e.line.dl.Mailbox? ==> kept[0].dl == e.line.dl)
    ensures !e.line.dl.Message? && !e.line.dl.Mailbox? && LiveChunk(orig, since, e.chunk)
      ==> KeepLine(orig, since, e) != []
  {
  }

  lemma OtherLinesKeepMessages(orig: Tables, since: int, t: Tables, o: Tables, e: Entry)
    requires !e.line.dl.Message?
    ensures Apply(o, KeepLine(orig, since, e)).message == o.message
    ensures IndexLine(t, At(e), e.line.dl).message == t.message
  {
    KeptKind(orig, since, e);
    var kept := KeepLine(orig, since, e);
    OtherLine(t, At(e), e.line.dl);
    if kept != [] {
      OtherLine(o, OutPlace(kept[0].ts), kept[0].dl);
    }
  }

  lemma SeenGrows(orig: Tables, since: int, es: seq<Entry>, g: Guid)
    requires es != []
    ensures var n := |es| - 1;
      MessageSeen(orig, since, es, g) <==>
        MessageSeen(orig, since, es[..n], g)
        || (Kept(orig, since, g) && orig.message[g].chunk == es[n].chunk && Stores(es[n], g))
  {
    hide LiveMessage, StoresGuid;
    var n := |es| - 1;
    assert es == es[..n] + [es[n]];
    assert forall e :: e in es <==> e in es[..n] || e == es[n];
  }

  lemma {:induction false} MessagesConserved(orig: Tables, since: int, es: seq<Entry>, g: Guid)
    ensures MessageInv(orig, since, es, g)
  {
    if es == [] {
      return;
    }
    hide MessageRel, Apply, KeepLine, Content, KeepLines, Kept, Stores, StoresGuid, PruneItems, IndexItems, LiveMessage;
    var n := |es| - 1;
    var e := es[n];
    SeenGrows(orig, since, es, g);
    MessagesConserved(orig, since, es[..n], g);
    ContentStep(orig, since, es);
    assert es == es[..n] + [e];
    var t, o := IndexEntries(es[..n]), Content(KeepLines(orig, since, es[..n]));
    if e.line.dl.Message? {
      MessageLineStep(orig, since, t.message, o.message, g, MessageSeen(orig, since, es[..n], g),
                      At(e), e.line.dl.items);
      KeptMessageLine(orig, since, o, e, g);
    } else {
      OtherLinesKeepMessages(orig, since, t, o, e);
    }
  }

  // The compacted message table holds exactly the messages that a live link
  // needs (the null GUID aside), with the same partition and size.
  lemma CompactionKeepsExactlyTheLiveMessages(es: seq<Entry>, since: int, g: Guid)
    ensures var t := IndexEntries(es);
      var o := Content(KeepLines(t, since, es));
      && (g in o.message <==> LiveMessage(t, since, g) && g != NULL_GUID)
      && (g in o.message ==> g in t.message && SameMessage(t.message[g], o.message[g]))
  {
    var t := IndexEntries(es);
    MessagesConserved(t, since, es, g);
    RunKeepsInvariants(es);
  }

  // ---- links ----

  // Everything in a link row but the chunk and the expunge time.
  ghost predicate SameLink(a: LinkRow, b: LinkRow) {
    && a.uid == b.uid && a.modseq == b.modseq && a.lastUpdated == b.lastUpdated
    && a.flags == b.flags && a.internaldate == b.internaldate && a.annotations == b.annotations
  }

  // A copied line, as an entry of the compacted log, chunk and offset aside.
  function OutEntry(line: Line): Entry {
    Entry(0, 0, line)
  }

  // What is copied of the entry has a record for the link, and is indexed.
  predicate CopiesRecord(orig: Tables, since: int, e: Entry, key: LinkKey) {
    var kept := KeepLine(orig, since, e);
    kept != [] && Records(OutEntry(kept[0]), key)
  }

  lemma {:induction false} PrunedRecordsAre(orig: Tables, c: nat, u: string, rs: seq<Record>, r: Record)
    ensures r in PruneRecords(orig, c, u, rs) <==> r in rs && WantRecord(orig, c, u, r)
  {
    hide WantRecord;
    if rs != [] {
      var n := |rs| - 1;
      PrunedRecordsAre(orig, c, u, rs[..n], r);
      assert rs == rs[..n] + [rs[n]];
      assert r in rs <==> r in rs[..n] || r == rs[n];
    }
  }

  lemma PruneKeepsMembers(orig: Tables, c: nat, u: string, rs: seq<Record>)
    ensures forall r :: r in PruneRecords(orig, c, u, rs) ==> r in rs && WantRecord(orig, c, u, r)
  {
    forall r | r in PruneRecords(orig, c, u, rs)
      ensures r in rs && WantRecord(orig, c, u, r)
    {
      PrunedRecordsAre(orig, c, u, rs, r);
    }
  }

  lemma PrunedLineOk(orig: Tables, c: nat, m: MailboxDlist)
    requires LineOk(Mailbox(m))
    ensures LineOk(Mailbox(PruneMailbox(orig, c, m)))
  {
    PruneKeepsMembers(orig, c, m.uniqueid.value, m.records.value);
  }

  // Pruning leaves the records of a link alone in the chunk it was last changed
  // in, and elsewhere leaves none of them.
  lemma PrunedFor(orig: Tables, c: nat, rs: seq<Record>, key: LinkKey, ts: int)
    ensures var pruned := PruneRecords(orig, c, key.0, rs);
      var last := key in orig.link && orig.link[key].lastChunk == c;
      && (RecordsGuid(pruned, key.1) <==> last && RecordsGuid(rs, key.1))
      && (ExpungesGuid(pruned, key.1, ts) <==> last && ExpungesGuid(rs, key.1, ts))
  {
    forall r
      ensures r in PruneRecords(orig, c, key.0, rs) <==> r in rs && WantRecord(orig, c, key.0, r)
    {
      PrunedRecordsAre(orig, c, key.0, rs, r);
    }
    assert forall r :: r in rs && r.guid == Some(key.1) ==>
      (WantRecord(orig, c, key.0, r) <==> key in orig.link && orig.link[key].lastChunk == c);
  }

  // A record is copied in the link's last chunk only.
  lemma CopiedRecordIn(orig: Tables, since: int, e: Entry, key: LinkKey)
    requires CopiesRecord(orig, since, e, key)
    ensures e.line.dl.Mailbox? && e.line.dl.mbox.uniqueid == Some(key.0) && e.line.dl.mbox.records.Some?
    ensures LiveChunk(orig, since, e.chunk)
    ensures KeepLine(orig, since, e) == [Line(e.line.ts, Mailbox(PruneMailbox(orig, e.chunk, e.line.dl.mbox)))]
    ensures key in orig.link && orig.link[key].lastChunk == e.chunk
    ensures RecordsGuid(e.line.dl.mbox.records.value, key.1)
    ensures Expunges(OutEntry(KeepLine(orig, since, e)[0]), key) <==> Expunges(e, key)
  {
    hide LiveChunk, PruneRecords, ExpungesGuid, RecordsGuid, WantMailbox;
    PrunedFor(orig, e.chunk, e.line.dl.mbox.records.value, key, e.line.ts);
  }

  // An indexed record of the link's last chunk is copied.
  lemma IndexedRecordIsCopied(orig: Tables, since: int, e: Entry, key: LinkKey)
    requires Records(e, key) && LiveChunk(orig, since, e.chunk)
    requires key in orig.link && orig.link[key].lastChunk == e.chunk
    ensures CopiesRecord(orig, since, e, key)
  {
    hide LiveChunk, PruneRecords, ExpungesGuid, RecordsGuid, RecordComplete;
    PrunedFor(orig, e.chunk, e.line.dl.mbox.records.value, key, e.line.ts);
    PrunedLineOk(orig, e.chunk, e.line.dl.mbox);
    NoRecords(key.1);
  }

  lemma NoRecords(g: Guid)
    ensures !RecordsGuid([], g)
  {
  }

  // What a kept line does to the row of a link.
  lemma KeptOnLink(orig: Tables, since: int, o: Tables, e: Entry, key: LinkKey)
    ensures var kept := KeepLine(orig, since, e);
      var after := Apply(o, kept).link;
      if CopiesRecord(orig, since, e, key) && key.1 in o.message
      then key in after && LinkBackedBy(OutEntry(kept[0]), key, after[key])
      else (key in after <==> key in o.link) && (key in after ==> after[key] == o.link[key])
  {
    hide KeepLine, IndexLine, LinkBackedBy, Records;
    var kept := KeepLine(orig, since, e);
    KeptAtMostOne(orig, since, e);
    if kept != [] {
      LineOnLink(o, OutEntry(kept[0]), key);
    }
  }

  // Entry i stores the message in its last chunk, and a record for the link is
  // copied from a later entry j.
  ghost predicate ReplayedAt(orig: Tables, since: int, es: seq<Entry>, key: LinkKey, i: nat, j: nat) {
    && i < j < |es|
    && Kept(orig, since, key.1)
    && es[i].chunk == orig.message[key.1].chunk && Stores(es[i], key.1)
    && CopiesRecord(orig, since, es[j], key)
  }

  ghost predicate Replayed(orig: Tables, since: int, es: seq<Entry>, key: LinkKey) {
    exists i: nat, j: nat :: ReplayedAt(orig, since, es, key, i, j)
  }

  lemma ReplayedGrows(orig: Tables, since: int, es: seq<Entry>, key: LinkKey)
    requires es != []
    ensures var n := |es| - 1;
      Replayed(orig, since, es, key) <==>
        || Replayed(orig, since, es[..n], key)
        || (MessageSeen(orig, since, es[..n], key.1) && CopiesRecord(orig, since, es[n], key))
  {
    hide CopiesRecord, LiveMessage, StoresGuid;
    var n := |es| - 1;
    if Replayed(orig, since, es, key) {
      var i: nat, j: nat :| ReplayedAt(orig, since, es, key, i, j);
      if j < n {
        assert ReplayedAt(orig, since, es[..n], key, i, j);
      } else {
        assert es[..n][i] in es[..n];
      }
    }
    if Replayed(orig, since, es[..n], key) {
      var i: nat, j: nat :| ReplayedAt(orig, since, es[..n], key, i, j);
      assert ReplayedAt(orig, since, es, key, i, j);
    }
    if MessageSeen(orig, since, es[..n], key.1) && CopiesRecord(orig, since, es[n], key) {
      var e :| e in es[..n] && e.chunk == orig.message[key.1].chunk && Stores(e, key.1);
      var i: nat :| i < n && es[..n][i] == e;
      assert ReplayedAt(orig, since, es, key, i, n);
    }
  }

  lemma {:induction false} LinkPresence(orig: Tables, since: int, es: seq<Entry>, key: LinkKey)
    ensures key in Content(KeepLines(orig, since, es)).link <==> Replayed(orig, since, es, key)
  {
    if es == [] {
      return;
    }
    hide CopiesRecord, KeepLine, KeepLines, Content, Apply, Replayed, MessageSeen, LinkBackedBy, MessageRel;
    var n := |es| - 1;
    LinkPresence(orig, since, es[..n], key);
    ContentStep(orig, since, es);
    ReplayedGrows(orig, since, es, key);
    MessageStored(orig, since, es[..n], key.1);
    KeptOnLink(orig, since, Content(KeepLines(orig, since, es[..n])), es[n], key);
  }

  // A message is in the compacted table once its last chunk has stored it.
  lemma MessageStored(orig: Tables, since: int, es: seq<Entry>, g: Guid)
    ensures g in Content(KeepLines(orig, since, es)).message <==> MessageSeen(orig, since, es, g)
    ensures MessageSeen(orig, since, es, g) ==> g in IndexEntries(es).message
  {
    hide KeepLines, Content, IndexEntries, MessageSeen;
    MessagesConserved(orig, since, es, g);
  }

  // ---- the values of a link ----

  // The last entry from which a record for the link is copied.
  ghost predicate LastCopied(orig: Tables, since: int, es: seq<Entry>, key: LinkKey, j: nat) {
    && j < |es| && CopiesRecord(orig, since, es[j], key)
    && forall k :: j < k < |es| ==> !CopiesRecord(orig, since, es[k], key)
  }

  // That entry was indexed when it was appended.
  ghost predicate LastCopyIndexed(orig: Tables, since: int, es: seq<Entry>, key: LinkKey) {
    forall j: nat :: LastCopied(orig, since, es, key, j) ==> LineOk(es[j].line.dl)
  }

  lemma RecordsStep(link: Links, message: Messages, u: string, at: Place, rs: seq<Record>, r: Record)
    requires forall x :: x in rs + [r] ==> RecordComplete(x)
    ensures (forall x :: x in rs ==> RecordComplete(x)) && RecordComplete(r)
    ensures IndexRecords(link, message, u, at, rs + [r])
      == IndexRecord(IndexRecords(link, message, u, at, rs), message, u, at, r)
  {
    hide IndexRecord, RecordComplete;
    assert (rs + [r])[..|rs|] == rs;
    assert r in rs + [r] && forall x :: x in rs ==> x in rs + [r];
  }

  // Of a list and of the pruned list, the last record for the link counts.
  lemma {:induction false} PrunedRow(orig: Tables, tl: Links, tm: Messages, ol: Links, om: Messages, at: Place,
                                     rs: seq<Record>, key: LinkKey)
    requires forall r :: r in rs ==> RecordComplete(r)
    requires key in orig.link && orig.link[key].lastChunk == at.chunk
    requires key.1 in tm && key.1 in om && RecordsGuid(rs, key.1)
    ensures var pruned := PruneRecords(orig, at.chunk, key.0, rs);
      && (forall r :: r in pruned ==> r in rs)
      && var a := IndexRecords(tl, tm, key.0, at, rs);
      var b := IndexRecords(ol, om, key.0, OutPlace(at.ts), pruned);
      key in a && key in b && SameLink(a[key], b[key])
  {
    hide LinkRowOf, RecordsGuid, SameLink, IndexRecords, PruneRecords, RecordComplete, IndexRecord;
    NoRecords(key.1);
    var n := |rs| - 1;
    var front, last := rs[..n], rs[n];
    assert rs == front + [last];
    PruneKeepsMembers(orig, at.chunk, key.0, rs);
    PruneKeepsMembers(orig, at.chunk, key.0, front);
    ExpungesAtEnd(front, last, key.1, at.ts);
    PruneStep(orig, at.chunk, key.0, front, last);
    RecordsStep(tl, tm, key.0, at, front, last);
    var pruned := PruneRecords(orig, at.chunk, key.0, front);
    if last.guid == Some(key.1) {
      RecordsStep(ol, om, key.0, OutPlace(at.ts), pruned, last);
      RecordRow(IndexRecords(tl, tm, key.0, at, front), tm, IndexRecords(ol, om, key.0, OutPlace(at.ts), pruned), om,
                at, last, key);
    } else {
      PrunedRow(orig, tl, tm, ol, om, at, front, key);
      OtherRecord(IndexRecords(tl, tm, key.0, at, front), tm, at, last, key);
      OtherRecord(IndexRecords(ol, om, key.0, OutPlace(at.ts), pruned), om, OutPlace(at.ts), last, key);
      if WantRecord(orig, at.chunk, key.0, last) {
        RecordsStep(ol, om, key.0, OutPlace(at.ts), pruned, last);
      }
    }
  }

  lemma RecordRow(tl: Links, tm: Messages, ol: Links, om: Messages, at: Place, r: Record, key: LinkKey)
    requires RecordComplete(r) && r.guid == Some(key.1) && key.1 in tm && key.1 in om
    ensures var a, b := IndexRecord(tl, tm, key.0, at, r), IndexRecord(ol, om, key.0, OutPlace(at.ts), r);
      key in a && key in b && SameLink(a[key], b[key])
  {
    hide LinkRowOf, SameLink;
    SameRecordSameLink(r, at);
  }

  lemma OtherRecord(link: Links, message: Messages, at: Place, r: Record, key: LinkKey)
    requires RecordComplete(r) && r.guid != Some(key.1)
    ensures var after := IndexRecord(link, message, key.0, at, r);
      (key in after <==> key in link) && (key in after ==> after[key] == link[key])
  {
    assert (key.0, r.guid.value).1 != key.1;
  }

  lemma SameRecordSameLink(r: Record, at: Place)
    requires RecordComplete(r)
    ensures forall x, y :: SameLink(LinkRowOf(r, at, x), LinkRowOf(r, OutPlace(at.ts), y))
  {
  }

  lemma CopiedLineSetsSame(orig: Tables, since: int, t: Tables, o: Tables, e: Entry, key: LinkKey)
    requires CopiesRecord(orig, since, e, key) && LineOk(e.line.dl)
    requires key.1 in t.message && key.1 in o.message
    ensures var a, b := IndexLine(t, At(e), e.line.dl).link, Apply(o, KeepLine(orig, since, e)).link;
      key in a && key in b && SameLink(a[key], b[key])
  {
    hide LiveChunk, RecordsGuid, IndexRecords, RecordComplete, SameLink, WantMailbox, PruneRecords;
    CopiedRecordIn(orig, since, e, key);
    PrunedRow(orig, t.link, t.message, o.link, o.message, At(e), e.line.dl.mbox.records.value, key);
  }

  lemma {:induction false} LinkValues(orig: Tables, since: int, es: seq<Entry>, key: LinkKey, j: nat)
    requires LastCopied(orig, since, es, key, j) && LineOk(es[j].line.dl)
    requires key in Content(KeepLines(orig, since, es)).link
    ensures key in orig.link && key in IndexEntries(es).link
    ensures IndexEntries(es).link[key].lastChunk == orig.link[key].lastChunk ==>
      SameLink(IndexEntries(es).link[key], Content(KeepLines(orig, since, es)).link[key])
  {
    hide CopiesRecord, KeepLine, KeepLines, Content, Apply, IndexLine, Replayed, MessageSeen, Records, SameLink, LineOk;
    var n := |es| - 1;
    var e := es[n];
    var t, o := IndexEntries(es[..n]), Content(KeepLines(orig, since, es[..n]));
    CopiedRecordIn(orig, since, es[j], key);
    ContentStep(orig, since, es);
    KeptOnLink(orig, since, o, e, key);
    MessageStored(orig, since, es[..n], key.1);
    if j == n {
      LinkPresence(orig, since, es, key);
      LinkPresence(orig, since, es[..n], key);
      ReplayedGrows(orig, since, es, key);
      if Replayed(orig, since, es[..n], key) {
        ReplayedHasMessage(orig, since, es[..n], key);
      }
      CopiedLineSetsSame(orig, since, t, o, e, key);
    } else {
      LinkValues(orig, since, es[..n], key, j);
      LineOnLink(t, e, key);
      if Records(e, key) && e.chunk == orig.link[key].lastChunk {
        IndexedRecordIsCopied(orig, since, e, key);
        assert false;
      }
    }
  }

  lemma ReplayedHasMessage(orig: Tables, since: int, es: seq<Entry>, key: LinkKey)
    requires Replayed(orig, since, es, key)
    ensures MessageSeen(orig, since, es, key.1)
  {
    hide CopiesRecord, Kept, Stores;
    var i: nat, j: nat :| ReplayedAt(orig, since, es, key, i, j);
    assert es[i] in es;
  }

  // The row in the copy is stated by the last copied line.
  lemma {:induction false} LinkIsStated(orig: Tables, since: int, es: seq<Entry>, key: LinkKey, j: nat)
    requires LastCopied(orig, since, es, key, j)
    requires key in Content(KeepLines(orig, since, es)).link
    ensures KeepLine(orig, since, es[j]) != []
    ensures LinkBackedBy(OutEntry(KeepLine(orig, since, es[j])[0]), key, Content(KeepLines(orig, since, es)).link[key])
  {
    assert KeepLine(orig, since, es[j]) != [];
    hide KeepLine, KeepLines, Content, Apply, Replayed, MessageSeen, LinkBackedBy, Records;
    var n := |es| - 1;
    ContentStep(orig, since, es);
    KeptOnLink(orig, since, Content(KeepLines(orig, since, es[..n])), es[n], key);
    if j == n {
      LinkPresence(orig, since, es, key);
      LinkPresence(orig, since, es[..n], key);
      ReplayedGrows(orig, since, es, key);
      MessageStored(orig, since, es[..n], key.1);
      if Replayed(orig, since, es[..n], key) {
        ReplayedHasMessage(orig, since, es[..n], key);
      }
    } else {
      LinkIsStated(orig, since, es[..n], key, j);
    }
  }

  // ---- the expunge time of a link ----

  // The time of the first copied line that has the flag, of those that find the
  // message in the copy.
  ghost function CopiedExpunge(orig: Tables, since: int, es: seq<Entry>, key: LinkKey): Option<int> {
    if es == [] then None
    else
      var n := |es| - 1;
      Coalesce(CopiedExpunge(orig, since, es[..n], key),
               if && MessageSeen(orig, since, es[..n], key.1)
                  && CopiesRecord(orig, since, es[n], key) && Expunges(es[n], key)
               then Some(es[n].line.ts) else None)
  }

  lemma CopiedLineExpunges(orig: Tables, since: int, o: Tables, e: Entry, key: LinkKey)
    requires CopiesRecord(orig, since, e, key) && key.1 in o.message
    ensures PriorExpunge(Apply(o, KeepLine(orig, since, e)).link, key)
      == Coalesce(PriorExpunge(o.link, key), if Expunges(e, key) then Some(e.line.ts) else None)
  {
    hide LiveChunk, RecordsGuid, IndexRecords, ExpungesGuid, RecordComplete, WantMailbox, PruneRecords;
    CopiedRecordIn(orig, since, e, key);
    var line := KeepLine(orig, since, e)[0];
    RecordsExpunge(o.link, o.message, key.0, OutPlace(line.ts), line.dl.mbox.records.value, key.1);
  }

  lemma {:induction false} LinkExpunge(orig: Tables, since: int, es: seq<Entry>, key: LinkKey)
    ensures PriorExpunge(Content(KeepLines(orig, since, es)).link, key) == CopiedExpunge(orig, since, es, key)
  {
    if es == [] {
      return;
    }
    hide CopiesRecord, KeepLine, KeepLines, Content, Apply, MessageSeen, LinkBackedBy, Expunges;
    var n := |es| - 1;
    var o := Content(KeepLines(orig, since, es[..n]));
    LinkExpunge(orig, since, es[..n], key);
    ContentStep(orig, since, es);
    MessageStored(orig, since, es[..n], key.1);
    KeptOnLink(orig, since, o, es[n], key);
    if CopiesRecord(orig, since, es[n], key) && key.1 in o.message {
      CopiedLineExpunges(orig, since, o, es[n], key);
    }
  }

  ghost predicate ExpungedAt(orig: Tables, since: int, es: seq<Entry>, key: LinkKey, i: nat, j: nat) {
    ReplayedAt(orig, since, es, key, i, j) && Expunges(es[j], key)
  }

  lemma {:induction false} ExpungedIn(orig: Tables, since: int, es: seq<Entry>, key: LinkKey)
    ensures CopiedExpunge(orig, since, es, key).Some? <==>
      exists i: nat, j: nat :: ExpungedAt(orig, since, es, key, i, j)
  {
    hide CopiesRecord, Expunges, LiveMessage, StoresGuid;
    if es == [] {
      return;
    }
    var n := |es| - 1;
    ExpungedIn(orig, since, es[..n], key);
    if i: nat, j: nat :| ExpungedAt(orig, since, es, key, i, j) {
      if j < n {
        assert ExpungedAt(orig, since, es[..n], key, i, j);
      } else {
        assert es[..n][i] in es[..n];
      }
    }
    if i: nat, j: nat :| ExpungedAt(orig, since, es[..n], key, i, j) {
      assert ExpungedAt(orig, since, es, key, i, j);
    }
    if MessageSeen(orig, since, es[..n], key.1) && CopiesRecord(orig, since, es[n], key) && Expunges(es[n], key) {
      var e :| e in es[..n] && e.chunk == orig.message[key.1].chunk && Stores(e, key.1);
      var i: nat :| i < n && es[..n][i] == e;
      assert ExpungedAt(orig, since, es, key, i, n);
    }
  }

  // ---- main results on links ----

  // A link is in the copy exactly when an entry of the message's last chunk
  // stores the message before some copied record for the link. Then it is as
  // the last of those records states it, which is as it was if that record was
  // indexed in the first place.
  lemma CompactionKeepsLiveLinks(es: seq<Entry>, since: int, key: LinkKey)
    ensures var t := IndexEntries(es);
      var o := Content(KeepLines(t, since, es));
      && (key in o.link <==> Replayed(t, since, es, key))
      && (key in o.link ==>
            && key in t.link && key.1 in t.message
            && (LastCopyIndexed(t, since, es, key) ==> SameLink(t.link[key], o.link[key]))
            && forall j: nat :: LastCopied(t, since, es, key, j) ==>
                 && KeepLine(t, since, es[j]) != []
                 && LinkBackedBy(OutEntry(KeepLine(t, since, es[j])[0]), key, o.link[key]))
  {
    var t := IndexEntries(es);
    hide IndexEntries, KeepLines, KeepLine, Content, CopiesRecord, SameLink, LinkBackedBy, LineOk;
    LinkPresence(t, since, es, key);
    if Replayed(t, since, es, key) {
      var i: nat, j0: nat :| ReplayedAt(t, since, es, key, i, j0);
      CopiedRecordIn(t, since, es[j0], key);
      var j := LastCopyExists(t, since, es, key, j0);
      if LastCopyIndexed(t, since, es, key) {
        LinkValues(t, since, es, key, j);
      }
      forall j: nat | LastCopied(t, since, es, key, j)
        ensures KeepLine(t, since, es[j]) != []
        ensures LinkBackedBy(OutEntry(KeepLine(t, since, es[j])[0]), key, Content(KeepLines(t, since, es)).link[key])
      {
        LinkIsStated(t, since, es, key, j);
      }
    }
  }

  lemma LastCopyExists(orig: Tables, since: int, es: seq<Entry>, key: LinkKey, i: nat) returns (j: nat)
    requires i < |es| && CopiesRecord(orig, since, es[i], key)
    ensures LastCopied(orig, since, es, key, j)
  {
    hide CopiesRecord;
    j := |es| - 1;
    while !CopiesRecord(orig, since, es[j], key)
      invariant i <= j < |es|
      invariant forall k :: j < k < |es| ==> !CopiesRecord(orig, since, es[k], key)
      decreases j
    {
      j := j - 1;
    }
  }

  // A link of the copy is expunged exactly when a copied record says so; the
  // time is that of the first. It is not expunged if it was not before, unless
  // by a record that was not indexed.
  lemma CompactionKeepsExpunge(es: seq<Entry>, since: int, key: LinkKey)
    requires key in Content(KeepLines(IndexEntries(es), since, es)).link
    ensures var t := IndexEntries(es);
      var row := Content(KeepLines(t, since, es)).link[key];
      && row.expunged == CopiedExpunge(t, since, es, key)
      && (row.expunged.Some? <==> exists i: nat, j: nat :: ExpungedAt(t, since, es, key, i, j))
      && (row.expunged.Some? && (forall e :: e in es && CopiesRecord(t, since, e, key) ==> LineOk(e.line.dl)) ==>
            key in t.link && t.link[key].expunged.Some?)
  {
    var t := IndexEntries(es);
    hide IndexEntries, KeepLines, Content, Expunges, Stores;
    LinkExpunge(t, since, es, key);
    ExpungedIn(t, since, es, key);
    if i: nat, j: nat :| ExpungedAt(t, since, es, key, i, j) {
      if LineOk(es[j].line.dl) {
        CopiedRecordIn(t, since, es[j], key);
        FlaggedRecordExpunges(es, i, j, key);
      }
      assert es[j] in es;
    }
  }

  // In particular every live link of a message whose MESSAGE lines all lie in
  // one chunk survives.
  lemma MessagesStoredInOneChunkKeepTheirLinks(es: seq<Entry>, since: int, key: LinkKey)
    requires key in IndexEntries(es).link && Since(IndexEntries(es).link[key].expunged, since)
    requires key.1 != NULL_GUID
    requires forall e, f :: e in es && f in es && Stores(e, key.1) && Stores(f, key.1) ==> e.chunk == f.chunk
    ensures var t := IndexEntries(es);
      var o := Content(KeepLines(t, since, es));
      && key in o.link && key.1 in o.message
      && (LastCopyIndexed(t, since, es, key) ==> SameLink(t.link[key], o.link[key]))
  {
    var t := IndexEntries(es);
    RunKeepsInvariants(es);
    var i, j := LinksBacked(es, key);
    var k := MessagesBacked(es, key.1);
    assert es[i] in es && es[k] in es;
    hide IndexEntries, KeepLines, Content, CopiesRecord, SameLink, Stores, LineOk, Records;
    assert LiveChunk(t, since, es[j].chunk);
    assert LiveMessage(t, since, key.1);
    IndexedRecordIsCopied(t, since, es[j], key);
    assert ReplayedAt(t, since, es, key, i, j);
    CompactionKeepsLiveLinks(es, since, key);
    CompactionKeepsExactlyTheLiveMessages(es, since, key.1);
  }

  // No link appears that the log did not have.
  lemma CompactionInventsNoLink(orig: Tables, since: int, es: seq<Entry>, key: LinkKey)
    requires key !in orig.link
    ensures key !in Content(KeepLines(orig, since, es)).link
  {
    hide CopiesRecord, KeepLines, Content;
    LinkPresence(orig, since, es, key);
    if Replayed(orig, since, es, key) {
      var i: nat, j: nat :| ReplayedAt(orig, since, es, key, i, j);
      CopiedRecordIn(orig, since, es[j], key);
    }
  }
}
