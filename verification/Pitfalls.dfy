// What compaction does not keep: concrete logs on which the stronger claims
// fail. The conditions in Conservation, Mailboxes, UserState and ChunkSizes say
// exactly when they hold.

module Pitfalls {
  import opened Options
  import opened Log
  import opened Index
  import opened Effects
  import opened Agreement
  import opened Pruning
  import opened Conservation
  import opened Mailboxes
  import opened Metadata
  import opened UserState
  import opened Boundaries

  const U: string := "u"
  const G: Guid := "g"
  const KEY: LinkKey := (U, G)

  const RECORD := Record(Some(1), Some(1), Some(1), Some(1), Some(G), Some(5), None, None)

  function MailboxNamed(name: string, records: seq<Record>): Dlist {
    Mailbox(MailboxDlist(
      Some(U), Some(name), None, Some(1), Some(1), Some(0), Some(0), Some(0), Some(0), None, Some(1), Some("p"),
      Some("a"), Some("o"), None, None, None, None, Some(records)))
  }

  const STORE := Message([File("p", G, 5, "hello")])

  lemma OneLine(e: Entry)
    ensures IndexEntries([e]) == IndexLine(EMPTY, At(e), e.line.dl)
  {
    assert [e][..0] == [];
  }

  lemma TwoLines(e: Entry, f: Entry)
    ensures IndexEntries([e, f]) == IndexLine(IndexEntries([e]), At(f), f.line.dl)
    ensures KeepLines(IndexEntries([e, f]), 0, [e, f])
      == KeepLine(IndexEntries([e, f]), 0, e) + KeepLine(IndexEntries([e, f]), 0, f)
  {
    hide IndexLine, KeepLine;
    assert [e, f][..1] == [e] && [e][..0] == [];
    var t := IndexEntries([e, f]);
    assert KeepLines(t, 0, []) == [];
    assert KeepLines(t, 0, [e]) == KeepLine(t, 0, e);
  }

  lemma ThreeLines(e: Entry, f: Entry, g: Entry)
    ensures IndexEntries([e, f, g]) == IndexLine(IndexEntries([e, f]), At(g), g.line.dl)
    ensures var t := IndexEntries([e, f, g]);
      KeepLines(t, 0, [e, f, g]) == KeepLine(t, 0, e) + KeepLine(t, 0, f) + KeepLine(t, 0, g)
  {
    hide IndexLine, KeepLine;
    assert [e, f, g][..2] == [e, f] && [e, f][..1] == [e] && [e][..0] == [];
    var t := IndexEntries([e, f, g]);
    assert KeepLines(t, 0, []) == [];
    assert KeepLines(t, 0, [e]) == KeepLine(t, 0, e);
  }

  // ---- a message and its link ----

  const STORED := Entry(1, 29, Line(1, STORE))

  function Recorded(chunk: nat, offset: nat, ts: int, records: seq<Record>): Entry {
    Entry(chunk, offset, Line(ts, MailboxNamed("n", records)))
  }

  lemma OneRecord(t: Tables, at: Place, r: Record)
    requires G in t.message && RecordComplete(r) && r.guid == Some(G)
    ensures IndexRecords(t.link, t.message, U, at, [r])
      == t.link[KEY := LinkRowOf(r, at, Coalesce(PriorExpunge(t.link, KEY), BoundExpunge(r, at.ts)))]
  {
    assert [r][..0] == [];
  }

  // The index after the message has been stored and linked once.
  lemma Linked(r: Record)
    requires RecordComplete(r) && r.guid == Some(G)
    ensures var e := Recorded(1, 60, 2, [r]);
      var t := IndexEntries([STORED, e]);
      && LineOk(e.line.dl)
      && t.message == map[G := MessageRow("p", 1, 29, 5)]
      && t.link == map[KEY := LinkRowOf(r, At(e), BoundExpunge(r, 2))]
      && t.mailbox.Keys == {U}
      && t.subscription == map[] && t.seen == map[] && t.sieve == []
  {
    var e := Recorded(1, 60, 2, [r]);
    OneLine(STORED);
    TwoLines(STORED, e);
    assert STORE.items[..0] == [];
    assert IndexItems(map[], At(STORED), []) == map[];
    var t := IndexEntries([STORED]);
    assert t.message == map[G := MessageRow("p", 1, 29, 5)] && t.link == map[];
    OneRecord(t, At(e), r);
  }

  // ---- a message stored again loses its link ----

  const STORED_AGAIN: seq<Entry> := [STORED, Recorded(1, 60, 2, [RECORD]), Entry(2, 29, Line(3, STORE))]

  // The message is in chunk 2 at the end and its record in chunk 1, so that the
  // compacted backup meets the record first.
  lemma StoringAgainLosesTheLink()
    ensures var t := IndexEntries(STORED_AGAIN);
      && KEY in t.link && t.link[KEY].expunged.None?
      && KEY !in Content(KeepLines(t, 0, STORED_AGAIN)).link
  {
    hide IndexEntries, KeepLines, Content, LiveChunk, CopiesRecord, LinkBackedBy;
    var es := STORED_AGAIN;
    Linked(RECORD);
    ThreeLines(es[0], es[1], es[2]);
    assert STORE.items[..0] == [];
    var t := IndexEntries(es);
    assert t.message[G].chunk == 2 && t.link[KEY].lastChunk == 1;
    CompactionKeepsLiveLinks(es, 0, KEY);
    forall i: nat, j: nat
      ensures !ReplayedAt(t, 0, es, KEY, i, j)
    {
      if i < j < |es| && CopiesRecord(t, 0, es[j], KEY) {
        CopiedRecordIn(t, 0, es[j], KEY);
      }
    }
  }

  // ---- an expunged link comes back ----

  const FLAGGED := RECORD.(flags := Some([EXPUNGED]))

  const UNFLAGGED_LATER: seq<Entry> := [STORED, Recorded(1, 60, 2, [FLAGGED]), Recorded(2, 29, 3, [RECORD])]

  // The record with the flag is pruned, and the last one does not have it.
  lemma ExpungedLinkComesBack()
    ensures var t := IndexEntries(UNFLAGGED_LATER);
      var o := Content(KeepLines(t, 0, UNFLAGGED_LATER));
      && KEY in t.link && t.link[KEY].expunged == Some(2)
      && KEY in o.link && o.link[KEY].expunged.None?
  {
    hide IndexEntries, KeepLines, Content, CopiesRecord, LinkBackedBy, LinkRowOf, LiveChunk, LiveMessage, StoresGuid,
         LineOk, SameLink, LastCopied, KeepLine, PruneRecords;
    var es := UNFLAGGED_LATER;
    var t := IndexEntries(es);
    UnflaggedIndex();
    UnflaggedReplayed();
    CompactionKeepsLiveLinks(es, 0, KEY);
    CompactionKeepsExpunge(es, 0, KEY);
    forall i: nat, j: nat
      ensures !ExpungedAt(t, 0, es, KEY, i, j)
    {
      if i < j < |es| && CopiesRecord(t, 0, es[j], KEY) {
        CopiedRecordIn(t, 0, es[j], KEY);
      }
    }
  }

  lemma UnflaggedReplayed()
    ensures ReplayedAt(IndexEntries(UNFLAGGED_LATER), 0, UNFLAGGED_LATER, KEY, 0, 2)
  {
    hide IndexEntries, CopiesRecord, LinkRowOf;
    var es := UNFLAGGED_LATER;
    var t := IndexEntries(es);
    UnflaggedIndex();
    assert Records(es[2], KEY) by {
      assert RECORD in [RECORD];
    }
    assert LiveMessage(t, 0, G);
    IndexedRecordIsCopied(t, 0, es[2], KEY);
    assert STORE.items[0] in STORE.items;
  }

  lemma UnflaggedIndex()
    ensures var t := IndexEntries(UNFLAGGED_LATER);
      && G in t.message && t.message[G].chunk == 1
      && KEY in t.link && t.link[KEY].expunged == Some(2) && t.link[KEY].lastChunk == 2
    ensures LineOk(UNFLAGGED_LATER[2].line.dl)
  {
    hide IndexEntries;
    var es := UNFLAGGED_LATER;
    Linked(FLAGGED);
    ThreeLines(es[0], es[1], es[2]);
    OneRecord(IndexEntries([es[0], es[1]]), At(es[2]), RECORD);
  }

  // ---- a mended line changes a link ----

  const NEWER := RECORD.(modseq := Some(9))

  // A record without a uid, of a message that is not there.
  const BAD_RECORD := RECORD.(uid := None, guid := Some("x"))

  const MENDED_LINK: seq<Entry> := [STORED, Recorded(1, 60, 2, [RECORD]), Recorded(1, 90, 3, [NEWER, BAD_RECORD])]

  lemma MendedLinkIndex()
    ensures var t := IndexEntries(MENDED_LINK);
      && t.message == map[G := MessageRow("p", 1, 29, 5)]
      && t.link == map[KEY := LinkRowOf(RECORD, At(MENDED_LINK[1]), None)]
    ensures LineOk(MENDED_LINK[1].line.dl) && !LineOk(MENDED_LINK[2].line.dl)
  {
    hide IndexEntries;
    var es := MENDED_LINK;
    Linked(RECORD);
    ThreeLines(es[0], es[1], es[2]);
    assert BAD_RECORD in es[2].line.dl.mbox.records.value && !RecordComplete(BAD_RECORD);
  }

  lemma MendedLinkKept()
    ensures var t := IndexEntries(MENDED_LINK);
      && KeepLine(t, 0, MENDED_LINK[0]) == [MENDED_LINK[0].line]
      && KeepLine(t, 0, MENDED_LINK[1]) == [MENDED_LINK[1].line]
      && KeepLine(t, 0, MENDED_LINK[2]) == [Recorded(1, 90, 3, [NEWER]).line]
    ensures LineOk(Recorded(1, 90, 3, [NEWER]).line.dl)
  {
    MendedLinkIndex();
    hide IndexEntries;
    var t := IndexEntries(MENDED_LINK);
    assert KEY in t.link && t.link[KEY].expunged.None? && t.link[KEY].lastChunk == 1;
    assert LiveMessage(t, 0, G) && LiveChunk(t, 0, 1);
    assert G in KeepGuids(t, 0, 1);
    assert STORE.items[..0] == [] && [RECORD][..0] == [] && [NEWER, BAD_RECORD][..1] == [NEWER] && [NEWER][..0] == [];
    assert PruneItems(KeepGuids(t, 0, 1), STORE.items) == STORE.items;
    assert PruneRecords(t, 1, U, [RECORD]) == [RECORD];
    assert PruneRecords(t, 1, U, [NEWER]) == [NEWER];
    assert PruneRecords(t, 1, U, [NEWER, BAD_RECORD]) == [NEWER];
  }

  // The third line failed. Without its bad record it is indexed, and the link
  // has its modseq.
  lemma MendedLineChangesALink()
    ensures var t := IndexEntries(MENDED_LINK);
      var o := Content(KeepLines(t, 0, MENDED_LINK));
      && KEY in t.link && t.link[KEY].expunged.None? && t.link[KEY].modseq == 1
      && Succeeds(KeepLines(t, 0, MENDED_LINK))
      && KEY in o.link && o.link[KEY].modseq == 9
  {
    hide IndexEntries, Content, KeepLine, LiveMessage, LiveChunk, Stores, LineOk, SameLink, KeepLines, CopiesRecord,
         Records, RecordsGuid, LinkBackedBy;
    var es := MENDED_LINK;
    MendedLinkIndex();
    MendedLinkKept();
    MendedLinkReplayed();
    MendedLinkSucceeds();
    CompactionKeepsLiveLinks(es, 0, KEY);
    NewerIsStated(Content(KeepLines(IndexEntries(es), 0, es)).link[KEY]);
  }

  lemma NewerIsStated(row: LinkRow)
    requires LinkBackedBy(OutEntry(Recorded(1, 90, 3, [NEWER]).line), KEY, row)
    ensures row.modseq == 9
  {
  }

  lemma MendedLinkReplayed()
    ensures var t := IndexEntries(MENDED_LINK);
      ReplayedAt(t, 0, MENDED_LINK, KEY, 0, 2) && LastCopied(t, 0, MENDED_LINK, KEY, 2)
  {
    hide IndexEntries, KeepLine;
    var t := IndexEntries(MENDED_LINK);
    MendedLinkIndex();
    MendedLinkKept();
    assert KEY in t.link && t.link[KEY].expunged.None? && LiveMessage(t, 0, G);
    assert Records(OutEntry(Recorded(1, 90, 3, [NEWER]).line), KEY) by {
      assert NEWER in [NEWER];
    }
    assert STORE.items[0] in STORE.items;
  }

  lemma MendedLinkSucceeds()
    ensures Succeeds(KeepLines(IndexEntries(MENDED_LINK), 0, MENDED_LINK))
  {
    hide IndexEntries, KeepLine, KeepLines;
    var es := MENDED_LINK;
    MendedLinkIndex();
    MendedLinkKept();
    ThreeLines(es[0], es[1], es[2]);
  }

  // ---- a name change in a chunk of its own is forgotten ----

  function Changed(dl: Dlist): seq<Entry> {
    [Entry(1, 29, Line(1, MailboxNamed("n", []))), Entry(2, 29, Line(2, dl))]
  }

  lemma MailboxIndexed(dl: Dlist)
    requires dl.Unmailbox? || dl.Rename?
    ensures var t1 := IndexEntries([Changed(dl)[0]]);
      && t1.link == map[] && t1.message == map[] && t1.subscription == map[] && t1.seen == map[] && t1.sieve == []
      && t1.mailbox.Keys == {U} && t1.mailbox[U].mboxname == "n" && t1.mailbox[U].lastChunk == 1
      && t1.mailbox[U].deleted.None? && t1.mailbox[U].partition == "p" && t1.mailbox[U].uidvalidity == 1
  {
    OneLine(Changed(dl)[0]);
    assert LineOk(MailboxNamed("n", []));
  }

  // The first chunk is copied, the second, which holds nothing else, is not.
  lemma OnlyTheMailboxIsCopied(dl: Dlist)
    requires dl.Unmailbox? || (dl.Rename? && LineOk(dl))
    requires dl.Unmailbox? ==> dl.mboxname == "n"
    ensures var t := IndexEntries(Changed(dl));
      && U in t.mailbox && t.mailbox[U].lastChunk == 1
      && t.mailbox[U] == IndexLine(IndexEntries([Changed(dl)[0]]), Place(2, 29, 2), dl).mailbox[U]
      && KeepLines(t, 0, Changed(dl)) == [Line(1, MailboxNamed("n", []))]
  {
    hide IndexEntries, LiveChunk, MailboxComplete;
    MailboxIndexed(dl);
    var es := Changed(dl);
    TwoLines(es[0], es[1]);
    assert es == [es[0], es[1]];
    ChangedChunks(dl);
    assert PruneRecords(IndexEntries(es), 1, U, []) == [];
  }

  lemma ChangedChunks(dl: Dlist)
    requires dl.Unmailbox? || (dl.Rename? && LineOk(dl))
    requires dl.Unmailbox? ==> dl.mboxname == "n"
    ensures var t := IndexEntries(Changed(dl));
      U in t.mailbox && t.mailbox[U].lastChunk == 1 && LiveChunk(t, 0, 1) && !LiveChunk(t, 0, 2)
  {
    hide IndexEntries, MailboxComplete;
    MailboxIndexed(dl);
    var es := Changed(dl);
    TwoLines(es[0], es[1]);
    assert es == [es[0], es[1]];
    assert Since(IndexEntries(es).mailbox[U].deleted, 0);
  }

  // A mailbox that was deleted is there again, undeleted.
  lemma DeletedMailboxComesBack()
    ensures var es := Changed(Unmailbox("n"));
      var t := IndexEntries(es);
      var o := Content(KeepLines(t, 0, es));
      && U in t.mailbox && t.mailbox[U].deleted == Some(2)
      && U in o.mailbox && o.mailbox[U].deleted.None?
  {
    MailboxIndexed(Unmailbox("n"));
    OnlyTheMailboxIsCopied(Unmailbox("n"));
    assert LineOk(MailboxNamed("n", []));
    assert [Line(1, MailboxNamed("n", []))][..0] == [];
  }

  // A mailbox that was renamed has its old name again.
  lemma RenameIsForgotten()
    ensures var es := Changed(Rename(RenameDlist(Some("n"), Some("new"), Some("p"), Some(1))));
      var t := IndexEntries(es);
      var o := Content(KeepLines(t, 0, es));
      && U in t.mailbox && t.mailbox[U].deleted.None? && t.mailbox[U].mboxname == "new"
      && U in o.mailbox && o.mailbox[U].mboxname == "n"
  {
    var dl := Rename(RenameDlist(Some("n"), Some("new"), Some("p"), Some(1)));
    MailboxIndexed(dl);
    OnlyTheMailboxIsCopied(dl);
    assert LineOk(MailboxNamed("n", []));
    assert [Line(1, MailboxNamed("n", []))][..0] == [];
  }

  // ---- a mailbox whose last chunk is dropped ----

  // Both the deletion and the last MAILBOX line are in chunk 2, which is dropped
  // once the deletion is old enough. Chunk 1 stays because of the message.
  const DROPPED: seq<Entry> := [
    STORED, Recorded(1, 60, 2, [RECORD]), Recorded(2, 29, 3, []), Entry(2, 90, Line(4, Unmailbox("n")))]

  lemma DroppedRows()
    ensures var t := IndexEntries(DROPPED);
      && t.mailbox.Keys == {U} && t.mailbox[U].deleted == Some(4) && t.mailbox[U].lastChunk == 2
      && t.link == map[KEY := LinkRowOf(RECORD, At(DROPPED[1]), None)]
      && t.message == map[G := MessageRow("p", 1, 29, 5)]
      && t.subscription == map[] && t.seen == map[] && t.sieve == []
  {
    hide IndexEntries, LinkRowOf, MailboxComplete;
    var es := DROPPED;
    Linked(RECORD);
    ThreeLines(es[0], es[1], es[2]);
    assert es[..3] == [es[0], es[1], es[2]];
    LastStep(es);
    EmptyMailboxLine(IndexEntries(es[..2]), At(es[2]));
    assert es[..2] == [es[0], es[1]];
  }

  lemma EmptyMailboxLine(t: Tables, at: Place)
    ensures var t' := IndexLine(t, at, MailboxNamed("n", []));
      && t' == t.(mailbox := t'.mailbox)
      && t'.mailbox.Keys == t.mailbox.Keys + {U} && t'.mailbox[U].mboxname == "n" && t'.mailbox[U].lastChunk == at.chunk
  {
  }

  lemma LastStep(es: seq<Entry>)
    requires es != []
    ensures var n := |es| - 1;
      IndexEntries(es) == IndexLine(IndexEntries(es[..n]), At(es[n]), es[n].line.dl)
  {
  }

  lemma DroppedIndex()
    ensures var t := IndexEntries(DROPPED);
      && U in t.mailbox && t.mailbox[U].deleted == Some(4) && t.mailbox[U].lastChunk == 2
      && KEY in t.link && t.link[KEY].lastChunk == 1
      && LiveChunk(t, 4, 1) && !LiveChunk(t, 4, 2)
  {
    hide IndexEntries, StripExpunged;
    DroppedRows();
    var t := IndexEntries(DROPPED);
    assert KEY in t.link && Since(t.link[KEY].expunged, 4);
  }

  lemma DroppedCopy()
    ensures LastCopy(IndexEntries(DROPPED), 4, DROPPED, U, 1)
  {
    hide IndexEntries, LiveChunk;
    DroppedIndex();
    assert [RECORD][..0] == [];
    assert PruneRecords(IndexEntries(DROPPED), 1, U, [RECORD]) == [RECORD];
  }

  // The mailbox was deleted and is there, undeleted, as chunk 1 has it.
  lemma DroppedMailboxComesBack()
    ensures var t := IndexEntries(DROPPED);
      var o := Content(KeepLines(t, 4, DROPPED));
      && U in t.mailbox && t.mailbox[U].deleted == Some(4) && !LiveChunk(t, 4, t.mailbox[U].lastChunk)
      && U in o.mailbox && o.mailbox[U].deleted.None?
  {
    hide IndexEntries, KeepLines, Content, LiveChunk, LastCopy;
    DroppedIndex();
    DroppedCopy();
    DeletionSurvives(DROPPED, 4, U, 1);
  }

  // ---- a mended line changes a mailbox ----

  const MENDED: seq<Entry> := [
    Entry(1, 29, Line(1, MailboxNamed("n", []))),
    Entry(1, 60, Line(2, MailboxNamed("new", [BAD_RECORD])))]

  // The second line failed and left the mailbox as it was. Its bad record is
  // pruned, so that its copy is indexed.
  lemma FailedLineIsMended()
    ensures var t := IndexEntries(MENDED);
      var o := Content(KeepLines(t, 0, MENDED));
      && U in t.mailbox && t.mailbox[U].deleted.None? && t.mailbox[U].mboxname == "n"
      && Succeeds(KeepLines(t, 0, MENDED))
      && U in o.mailbox && o.mailbox[U].mboxname == "new"
  {
    var es := MENDED;
    MailboxIndexed(Unmailbox("n"));
    assert Changed(Unmailbox("n"))[0] == es[0];
    assert es == [es[0], es[1]];
    TwoLines(es[0], es[1]);
    var t := IndexEntries(es);
    assert !LineOk(es[1].line.dl) by {
      assert BAD_RECORD in es[1].line.dl.mbox.records.value && !RecordComplete(BAD_RECORD);
    }
    assert Since(t.mailbox[U].deleted, 0) && LiveChunk(t, 0, 1);
    assert PruneRecords(t, 1, U, []) == [];
    assert [BAD_RECORD][..0] == [];
    var a, b := Line(1, MailboxNamed("n", [])), Line(2, MailboxNamed("new", []));
    assert t == IndexEntries([es[0]]);
    assert WantRecord(t, 1, U, BAD_RECORD) == false;
    assert PruneRecords(t, 1, U, [BAD_RECORD]) == [];
    assert KeepLine(t, 0, es[0]) == [a];
    assert KeepLine(t, 0, es[1]) == [b];
    assert KeepLines(t, 0, es) == [a, b];
    assert [a, b][..1] == [a] && [a][..0] == [];
    assert LineOk(a.dl) && LineOk(b.dl);
  }

  // ---- an ended subscription comes back ----

  function SeenWith(uids: string): Dlist {
    Seen(SeenDlist(Some(U), Some(1), Some(1), Some(1), Some(uids)))
  }

  // The seen state keeps chunk 1; chunk 2, with the UNSUB, is dropped once that
  // is old enough.
  const UNSUBSCRIBED: seq<Entry> := [
    Entry(1, 29, Line(1, Sub(Some("n")))),
    Entry(1, 60, Line(1, SeenWith("1"))),
    Entry(2, 29, Line(2, Unsub(Some("n"))))]

  lemma UnsubscribedRows()
    ensures var t := IndexEntries(UNSUBSCRIBED);
      && t == EMPTY.(subscription := t.subscription, seen := t.seen)
      && t.subscription == map["n" := SubRow(2, Some(2))]
      && U in t.seen && t.seen.Keys == {U} && t.seen[U].lastChunk == 1
  {
    hide IndexEntries, KeepLine, KeepLines, IndexRecords, IndexItems, MailboxComplete, DeleteMailboxes, RenameMailboxes;
    var es := UNSUBSCRIBED;
    OneLine(es[0]);
    TwoLines(es[0], es[1]);
    ThreeLines(es[0], es[1], es[2]);
  }

  lemma UnsubscribedIndex()
    ensures var t := IndexEntries(UNSUBSCRIBED);
      && t.subscription == map["n" := SubRow(2, Some(2))]
      && LiveChunk(t, 2, 1) && !LiveChunk(t, 2, 2)
  {
    hide IndexEntries;
    UnsubscribedRows();
  }

  lemma EndedSubscriptionComesBack()
    ensures var t := IndexEntries(UNSUBSCRIBED);
      var o := Content(KeepLines(t, 2, UNSUBSCRIBED));
      && "n" in t.subscription && t.subscription["n"].unsubscribed == Some(2)
      && "n" in o.subscription && o.subscription["n"].unsubscribed.None?
  {
    hide IndexEntries, KeepLines, Content, LiveChunk;
    UnsubscribedIndex();
    SubscriptionAfterCompaction(UNSUBSCRIBED, 2, "n");
    assert LastSub(UNSUBSCRIBED, LiveChunks(IndexEntries(UNSUBSCRIBED), 2), "n", 0);
  }

  // ---- a deleted script comes back ----

  // The UNSIEVE is in a chunk of its own, which is dropped.
  const UNSIEVED: seq<Entry> := [
    Entry(1, 29, Line(1, Sieve(SieveDlist(Some("f"), Some(1), Some("keep;"))))),
    Entry(2, 29, Line(2, Unsieve(Some("f"))))]

  lemma UnsievedRows()
    ensures IndexEntries(UNSIEVED) == EMPTY.(sieve := [SieveRow(1, 1, "f", "keep;", 29, Some(2))])
  {
    hide IndexEntries, KeepLine, KeepLines, IndexRecords, IndexItems, MailboxComplete, DeleteMailboxes, RenameMailboxes;
    var es := UNSIEVED;
    OneLine(es[0]);
    TwoLines(es[0], es[1]);
  }

  lemma UnsievedIndex()
    ensures var t := IndexEntries(UNSIEVED);
      && t.sieve == [SieveRow(1, 1, "f", "keep;", 29, Some(2))]
      && LiveChunk(t, 0, 1) && !LiveChunk(t, 0, 2)
  {
    hide IndexEntries;
    UnsievedRows();
    assert IndexEntries(UNSIEVED).sieve[0].chunk == 1;
  }

  lemma DeletedScriptComesBack()
    ensures var t := IndexEntries(UNSIEVED);
      var o := Content(KeepLines(t, 0, UNSIEVED));
      && Active(t.sieve, "f") == {}
      && Active(o.sieve, "f") == {Script(1, "keep;")}
  {
    hide IndexEntries, KeepLines, Content, LiveChunk;
    UnsievedIndex();
    ScriptAfterCompaction(UNSIEVED, 0, "f");
    assert LastTouch(UNSIEVED, LiveChunks(IndexEntries(UNSIEVED), 0), "f", 0);
  }

  // ---- a later split leaves too little ----

  const LONG_UIDS: string := seq(2000, _ => '1')

  // A line takes a hundred bytes and its list of uids.
  function PrintedSize(line: Line): nat {
    100 + if line.dl.Seen? && line.dl.seen.seenUids.Some? then |line.dl.seen.seenUids.value| else 0
  }

  const PRINTER: Printer := (line: Line) => seq(PrintedSize(line), _ => 'x')

  // Two long lines and a short one.
  const SPLIT_LINES: seq<Line> := [Line(1, SeenWith(LONG_UIDS)), Line(2, SeenWith(LONG_UIDS)), Line(3, SeenWith("1"))]
  const SPLIT_FILE: seq<Member> := [Member(SPLIT_LINES, "")]
  const SPLIT_INPUT := Input(IndexLog(PRINTER, SPLIT_FILE), 0, PRINTER, SPLIT_FILE)
  const SPLIT_SIZES := Sizes(1024, 2048)

  lemma SplitIndex()
    ensures LiveChunk(SPLIT_INPUT.t, 0, 1)
  {
    hide IndexEntries, IndexLine, MemberEntries;
    var es := Entries(PRINTER, SPLIT_FILE);
    assert SPLIT_FILE[..0] == [];
    assert LogEntries(PRINTER, [], LIVE_IDS) == [];
    assert es == [] + MemberEntries(PRINTER, SPLIT_LINES, 1);
    LastSeenCounts(es);
  }

  lemma LastSeenCounts(es: seq<Entry>)
    requires es == [] + MemberEntries(PRINTER, SPLIT_LINES, 1)
    ensures U in IndexEntries(es).seen && IndexEntries(es).seen[U].lastChunk == 1
  {
    assert es[|es| - 1].chunk == 1 && es[|es| - 1].line.dl == SeenWith("1");
  }

  lemma PrintedLength(lines: seq<Line>, line: Line)
    ensures LinesLength(PRINTER, lines + [line]) == LinesLength(PRINTER, lines) + PrintedSize(line)
    ensures LinesLength(PRINTER, []) == 0
  {
    assert (lines + [line])[..|lines|] == lines;
  }

  lemma SplitLengths()
    ensures MemberLength(PRINTER, SPLIT_LINES) == 4330
    ensures forall n :: 0 <= n < 3 ==> MemberLength(PRINTER, [SPLIT_LINES[n]]) == if n < 2 then 2129 else 130
  {
    hide LinesLength;
    var ls := SPLIT_LINES;
    forall n | 0 <= n < 3
      ensures MemberLength(PRINTER, [ls[n]]) == if n < 2 then 2129 else 130
    {
      PrintedLength([], ls[n]);
      assert [] + [ls[n]] == [ls[n]];
    }
    PrintedLength([ls[0]], ls[1]);
    PrintedLength([ls[0], ls[1]], ls[2]);
    assert [ls[0]] + [ls[1]] == [ls[0], ls[1]] && [ls[0], ls[1]] + [ls[2]] == ls;
  }

  // A line of the chunk, read when no piece is open: it fills a piece, unless it
  // is the short one.
  lemma SplitStep(n: nat, s: State)
    requires n < 3 && s.open.None?
    ensures StepLine(SPLIT_SIZES, PRINTER, 4330, 1, [SPLIT_LINES[n]], s)
      == if n < 2 then State(s.done + [Piece([SPLIT_LINES[n]], [1])], None)
         else State(s.done, Some(Piece([SPLIT_LINES[n]], [1])))
  {
    hide MemberLength;
    SplitLengths();
    var line := SPLIT_LINES[n];
    assert MemberLength(PRINTER, [line]) == if n < 2 then 2129 else 130;
    assert Feed(Piece([], []), 1) == Piece([], [1]) && [] + [line] == [line];
  }

  lemma SplitInput(n: nat)
    requires n < 3
    ensures ChunkId(SPLIT_INPUT, 1) && LinesOf(SPLIT_INPUT, 1) == SPLIT_LINES
    ensures KeptOf(SPLIT_INPUT, 1, n) == [SPLIT_LINES[n]]
    ensures LengthOf(SPLIT_INPUT, 1) == 4330
  {
    SplitIndex();
    hide LiveChunk, IndexEntries, MemberLength, IndexLog;
    SplitLengths();
  }

  lemma SplitLine(n: nat, s: State)
    requires n < 3 && ChunkId(SPLIT_INPUT, 1) && LinesOf(SPLIT_INPUT, 1) == SPLIT_LINES
    requires StepLines(SPLIT_SIZES, SPLIT_INPUT, 1, n, START) == s && s.open.None?
    ensures StepLines(SPLIT_SIZES, SPLIT_INPUT, 1, n + 1, START)
      == if n < 2 then State(s.done + [Piece([SPLIT_LINES[n]], [1])], None)
         else State(s.done, Some(Piece([SPLIT_LINES[n]], [1])))
  {
    hide StepLine, KeptOf, IndexLog, LengthOf;
    SplitInput(n);
    SplitStep(n, s);
  }

  // The second split subtracts what it has written from the length of the whole
  // chunk, though the first has already taken a part. The last piece is shorter
  // than the minimum.
  lemma LaterSplitLeavesTooLittle()
    ensures var done := Run(SPLIT_SIZES, SPLIT_INPUT).done;
      && |done| == 3
      && (forall k :: 0 <= k < 3 ==> done[k].lines == [SPLIT_LINES[k]])
      && MemberLength(PRINTER, done[2].lines) == 130 < SPLIT_SIZES.min
  {
    SplitIndex();
    hide StepLine, KeptOf, IndexLog, LengthOf, LiveChunk, MemberLength;
    SplitInput(0);
    SplitLine(0, START);
    SplitLine(1, StepLines(SPLIT_SIZES, SPLIT_INPUT, 1, 1, START));
    SplitLine(2, StepLines(SPLIT_SIZES, SPLIT_INPUT, 1, 2, START));
    SplitLengths();
    assert LiveIds(SPLIT_INPUT.t, 0, 0) == [];
    assert LiveIds(SPLIT_INPUT.t, 0, 1) == [1];
    assert RunChunks(SPLIT_SIZES, SPLIT_INPUT, [1], 0) == START;
  }
}
