// Turning rows of the index back into the dlists they came from, which a restore
// sends to a server and backupd to its clients.

module Dlists {
  import opened Options
  import opened Log
  import opened Index
  import opened Effects
  import opened Verify

  // The expunge time is read as an int; a time that leaves none of its 32 bits
  // set reads as no time at all.
  predicate Shown(expunged: Option<int>) {
    expunged.Some? && expunged.value % 0x1_0000_0000 != 0
  }

  function RecordDlist(e: LinkEntry): Record {
    Record(Some(e.row.uid), Some(e.row.modseq), Some(e.row.lastUpdated), Some(e.row.internaldate), Some(e.guid),
           Some(e.size), Some(GetOr(e.row.flags, []) + if Shown(e.row.expunged) then [EXPUNGED] else []),
           e.row.annotations)
  }

  function RecordDlists(es: seq<LinkEntry>): (rs: seq<Record>)
    ensures |rs| == |es|
  {
    seq(|es|, i requires 0 <= i < |es| => RecordDlist(es[i]))
  }

  function MailboxToDlist(u: string, row: MailboxRow, es: seq<LinkEntry>): MailboxDlist {
    MailboxDlist(
      Some(u), Some(row.mboxname), row.mboxtype, Some(row.lastUid), Some(row.highestModseq), Some(row.recentUid),
      Some(row.recentTime), Some(row.lastAppendDate), Some(row.pop3LastLogin), Some(row.pop3ShowAfter),
      Some(row.uidvalidity), Some(row.partition), Some(row.acl), Some(row.options), Some(row.syncCrc),
      Some(row.syncCrcAnnot), Some(row.xconvmodseq), row.annotations, Some(RecordDlists(es)))
  }

  // backup_mailbox_to_dlist
  method ToDlist(u: string, row: MailboxRow, es: seq<LinkEntry>) returns (m: MailboxDlist)
    ensures m == MailboxToDlist(u, row, es)
  {
    var records: seq<Record> := [];
    var k := 0;
    while k < |es|
      invariant 0 <= k <= |es|
      invariant records == RecordDlists(es)[..k]
    {
      var e := es[k];
      var flags := if e.row.flags.Some? then e.row.flags.value else [];
      if Shown(e.row.expunged) {
        flags := flags + [EXPUNGED];
      }
      var r := Record(Some(e.row.uid), Some(e.row.modseq), Some(e.row.lastUpdated), Some(e.row.internaldate),
                      Some(e.guid), Some(e.size), Some(flags), e.row.annotations);
      assert GetOr(e.row.flags, []) + (if Shown(e.row.expunged) then [EXPUNGED] else []) == flags;
      assert r == RecordDlists(es)[k];
      records := records + [r];
      k := k + 1;
    }
    assert records == RecordDlists(es);
    m := MailboxDlist(
      Some(u), Some(row.mboxname), row.mboxtype, Some(row.lastUid), Some(row.highestModseq), Some(row.recentUid),
      Some(row.recentTime), Some(row.lastAppendDate), Some(row.pop3LastLogin), Some(row.pop3ShowAfter),
      Some(row.uidvalidity), Some(row.partition), Some(row.acl), Some(row.options), Some(row.syncCrc),
      Some(row.syncCrcAnnot), Some(row.xconvmodseq), row.annotations, Some(records));
  }

  // ---- the way back ----

  // The row comes back with its flags: the flag that stands for the expunge time
  // is the one that is taken out.
  predicate FlagsReturn(row: LinkRow) {
    row.flags.Some? && (EXPUNGED in row.flags.value ==> Shown(row.expunged))
  }

  function Returned(row: LinkRow, at: Place): LinkRow {
    row.(lastChunk := at.chunk, expunged := if Shown(row.expunged) && at.ts != 0 then Some(at.ts) else None)
  }

  lemma FlagsComeBack(flags: seq<string>, shown: bool)
    ensures StripExpunged(flags + if shown then [EXPUNGED] else []) == flags <==> (EXPUNGED in flags ==> shown)
    ensures EXPUNGED in flags + (if shown then [EXPUNGED] else []) <==> EXPUNGED in flags || shown
  {
    var all := flags + if shown then [EXPUNGED] else [];
    if shown {
      assert all[|flags|] == EXPUNGED && all[..|flags|] + all[|flags| + 1..] == flags;
      assert LastExpunged(all) == |flags|;
    } else {
      assert all == flags;
    }
  }

  lemma RecordComesBack(e: LinkEntry, at: Place)
    ensures var r := RecordDlist(e);
      && RecordComplete(r) && r.guid == Some(e.guid)
      && (e.row.flags.Some? ==>
            (LinkRowOf(r, at, BoundExpunge(r, at.ts)) == Returned(e.row, at) <==> FlagsReturn(e.row)))
  {
    hide StripExpunged;
    if e.row.flags.Some? {
      FlagsComeBack(e.row.flags.value, Shown(e.row.expunged));
    }
  }

  ghost predicate DistinctGuids(es: seq<LinkEntry>) {
    forall i, j :: 0 <= i < j < |es| ==> es[i].guid != es[j].guid
  }

  lemma OtherGuids(es: seq<LinkEntry>, n: nat)
    requires n < |es| && DistinctGuids(es)
    ensures !RecordsGuid(RecordDlists(es[..n]), es[n].guid)
  {
    forall i | 0 <= i < n
      ensures RecordDlists(es[..n])[i].guid != Some(es[n].guid)
    {
    }
  }

  lemma {:induction false} LinksComeBack(
    link: Links, message: Messages, u: string, at: Place, es: seq<LinkEntry>, i: nat)
    requires i < |es| && DistinctGuids(es)
    requires forall e :: e in es ==> e.guid in message && (u, e.guid) !in link && e.row.flags.Some?
    ensures forall r :: r in RecordDlists(es) ==> RecordComplete(r)
    ensures var after := IndexRecords(link, message, u, at, RecordDlists(es));
      var key := (u, es[i].guid);
      key in after && (after[key] == Returned(es[i].row, at) <==> FlagsReturn(es[i].row))
  {
    hide RecordDlist, LinkRowOf, BoundExpunge, Returned, FlagsReturn, RecordComplete;
    forall r | r in RecordDlists(es)
      ensures RecordComplete(r)
    {
      var k :| 0 <= k < |es| && RecordDlists(es)[k] == r;
      RecordComesBack(es[k], at);
    }
    var n := |es| - 1;
    var rs := RecordDlists(es);
    assert rs[..n] == RecordDlists(es[..n]);
    RecordComesBack(es[n], at);
    assert rs[n] == RecordDlist(es[n]) && es[n] in es;
    if i == n {
      OtherGuids(es, n);
      RecordsEffect(link, message, u, at, rs[..n], (u, es[n].guid));
    } else {
      LinksComeBack(link, message, u, at, es[..n], i);
      assert (u, es[n].guid).1 != (u, es[i].guid).1;
    }
  }

  // Indexing the dlist made of a mailbox, where it is not known but its messages
  // are, sets the same mailbox row, undeleted, and for each message the same link
  // row, expunged at the time of the line if it was expunged; unless its flags
  // hold an \Expunged that does not stand for that.
  lemma MailboxComesBack(t: Tables, at: Place, u: string, row: MailboxRow, es: seq<LinkEntry>)
    requires DistinctGuids(es)
    requires forall e :: e in es ==> e.guid in t.message && (u, e.guid) !in t.link && e.row.flags.Some?
    ensures var m := MailboxToDlist(u, row, es);
      var after := IndexLine(t, at, Mailbox(m));
      && LineOk(Mailbox(m))
      && u in after.mailbox && after.mailbox[u] == row.(lastChunk := at.chunk, deleted := None)
      && (forall e :: e in es ==> (u, e.guid) in after.link)
      && (forall e :: e in es ==>
            (after.link[(u, e.guid)] == Returned(e.row, at) <==> FlagsReturn(e.row)))
  {
    hide RecordDlist, Returned, FlagsReturn, RecordComplete, IndexRecords;
    var m := MailboxToDlist(u, row, es);
    if es == [] {
      assert LineOk(Mailbox(m));
    } else {
      LinksComeBack(t.link, t.message, u, at, es, 0);
    }
    forall e | e in es
      ensures (u, e.guid) in IndexLine(t, at, Mailbox(m)).link
      ensures IndexLine(t, at, Mailbox(m)).link[(u, e.guid)] == Returned(e.row, at) <==> FlagsReturn(e.row)
    {
      var i :| 0 <= i < |es| && es[i] == e;
      LinksComeBack(t.link, t.message, u, at, es, i);
    }
  }

  // ---- the way there ----

  // What a MAILBOX line says of the mailbox is what its row is turned back into,
  // fields left out reading as zero.
  lemma LineComesBack(t: Tables, at: Place, m: MailboxDlist, es: seq<LinkEntry>)
    requires LineOk(Mailbox(m))
    ensures var u := m.uniqueid.value;
      var after := IndexLine(t, at, Mailbox(m));
      && u in after.mailbox
      && MailboxToDlist(u, after.mailbox[u], es)
         == m.(pop3ShowAfter := Some(GetOr(m.pop3ShowAfter, 0)), syncCrc := Some(GetOr(m.syncCrc, 0)),
               syncCrcAnnot := Some(GetOr(m.syncCrcAnnot, 0)), xconvmodseq := Some(GetOr(m.xconvmodseq, 0)),
               records := Some(RecordDlists(es)))
  {
    hide IndexRecords, RecordComplete;
  }

  // backupd_print_seen
  function SeenToDlist(u: string, row: SeenRow): SeenDlist {
    SeenDlist(Some(u), Some(row.lastRead), Some(row.lastUid), Some(row.lastChange), Some(row.seenUids))
  }

  // A SEEN line comes back as it was, and sets the row it came from.
  lemma SeenComesBack(t: Tables, at: Place, s: SeenDlist, u: string, row: SeenRow)
    ensures LineOk(Seen(s)) ==>
      var after := IndexLine(t, at, Seen(s)).seen;
      && s.uniqueid.value in after && after[s.uniqueid.value].lastChunk == at.chunk
      && SeenToDlist(s.uniqueid.value, after[s.uniqueid.value]) == s
    ensures var after := IndexLine(t, at, Seen(SeenToDlist(u, row))).seen;
      u in after && after[u] == row.(lastChunk := at.chunk)
  {
  }
}
