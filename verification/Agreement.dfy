// The tables agree with the log they were built from, after every run.

module Agreement {
  import opened Options
  import opened Log
  import opened Index
  import opened Effects

  // ---- where an entry comes from ----

  // Each entry is a line of the member that its chunk id names, at its offset.
  lemma {:induction false} EntrySource(pr: Printer, members: seq<Member>, number: nat -> nat, e: Entry)
      returns (k: nat, i: nat)
    requires e in LogEntries(pr, members, number)
    ensures k < |members| && i < |members[k].lines|
    ensures e == Entry(number(k), LineOffset(pr, members[k].lines, i), members[k].lines[i])
  {
    k := |members| - 1;
    var here := MemberEntries(pr, members[k].lines, number(k));
    if e in here {
      i :| 0 <= i < |here| && here[i] == e;
    } else {
      k, i := EntrySource(pr, members[..k], number, e);
    }
  }

  lemma EntryInLog(pr: Printer, members: seq<Member>, e: Entry) returns (i: nat)
    requires e in Entries(pr, members)
    ensures 1 <= e.chunk <= |members| && i < |members[e.chunk - 1].lines|
    ensures e.line == members[e.chunk - 1].lines[i] && e.offset == LineOffset(pr, members[e.chunk - 1].lines, i)
  {
    var k;
    k, i := EntrySource(pr, members, LIVE_IDS, e);
  }

  // ---- every row has a line behind it ----

  predicate Stores(e: Entry, g: Guid) {
    e.line.dl.Message? && StoresGuid(e.line.dl.items, g)
  }

  ghost predicate MessageBackedBy(e: Entry, g: Guid, row: MessageRow) {
    && e.chunk == row.chunk && e.offset == row.offset
    && Stores(e, g)
    && StoresAs(e.line.dl.items, g, row.partition, row.size)
  }

  lemma MessageLineBacks(message: Messages, e: Entry, g: Guid)
    requires Stores(e, g)
    ensures var after := IndexItems(message, At(e), e.line.dl.items);
      g in after && MessageBackedBy(e, g, after[g])
  {
    ItemsEffect(message, At(e), e.line.dl.items, g);
  }

  lemma LineKeepsMessage(t: Tables, e: Entry, g: Guid)
    requires !Stores(e, g)
    ensures var after := IndexLine(t, At(e), e.line.dl).message;
      (g in after <==> g in t.message) && (g in after ==> after[g] == t.message[g])
  {
    if e.line.dl.Message? {
      ItemsEffect(t.message, At(e), e.line.dl.items, g);
    }
  }

  lemma {:induction false} MessagesBacked(es: seq<Entry>, g: Guid) returns (i: nat)
    requires g in IndexEntries(es).message
    ensures i < |es| && MessageBackedBy(es[i], g, IndexEntries(es).message[g])
  {
    var n := |es| - 1;
    var before := IndexEntries(es[..n]);
    if Stores(es[n], g) {
      MessageLineBacks(before.message, es[n], g);
      i := n;
    } else {
      LineKeepsMessage(before, es[n], g);
      i := MessagesBacked(es[..n], g);
    }
  }

  // A MAILBOX line that is indexed, with a record for the link.
  predicate Records(e: Entry, key: LinkKey) {
    && e.line.dl.Mailbox?
    && LineOk(e.line.dl)
    && e.line.dl.mbox.uniqueid.value == key.0
    && RecordsGuid(e.line.dl.mbox.records.value, key.1)
  }

  ghost predicate LinkBackedBy(e: Entry, key: LinkKey, row: LinkRow) {
    && e.chunk == row.lastChunk
    && Records(e, key)
    && StatedBy(e.line.dl.mbox.records.value, key.1, row, At(e))
  }

  lemma LineOnLink(t: Tables, e: Entry, key: LinkKey)
    ensures var after := IndexLine(t, At(e), e.line.dl).link;
      if Records(e, key) && key.1 in t.message then key in after && LinkBackedBy(e, key, after[key])
      else (key in after <==> key in t.link) && (key in after ==> after[key] == t.link[key])
  {
    if e.line.dl.Mailbox? && LineOk(e.line.dl) {
      var m := e.line.dl.mbox;
      RecordsEffect(t.link, t.message, m.uniqueid.value, At(e), m.records.value, key);
    }
  }

  // The message was stored by entry i, and a later entry j states the row.
  lemma {:induction false} LinksBacked(es: seq<Entry>, key: LinkKey) returns (i: nat, j: nat)
    requires key in IndexEntries(es).link
    ensures i < j < |es| && Stores(es[i], key.1) && LinkBackedBy(es[j], key, IndexEntries(es).link[key])
  {
    var n := |es| - 1;
    var before := IndexEntries(es[..n]);
    LineOnLink(before, es[n], key);
    if Records(es[n], key) && key.1 in before.message {
      i := MessagesBacked(es[..n], key.1);
      j := n;
    } else {
      i, j := LinksBacked(es[..n], key);
    }
  }

  // ---- references and uniqueness ----

  ghost predicate ReferencesExist(t: Tables) {
    forall key :: key in t.link ==> key.0 in t.mailbox && key.1 in t.message
  }

  // At most one undeleted script per file name.
  ghost predicate OneActiveScript(sieve: seq<SieveRow>) {
    forall i, j :: 0 <= i < j < |sieve| && sieve[i].deleted.None? && sieve[j].deleted.None?
      ==> sieve[i].filename != sieve[j].filename
  }

  lemma LineKeepsReferences(t: Tables, at: Place, dl: Dlist)
    requires ReferencesExist(t)
    ensures ReferencesExist(IndexLine(t, at, dl))
  {
    var after := IndexLine(t, at, dl);
    forall key | key in after.link
      ensures key.0 in after.mailbox && key.1 in after.message
    {
      if dl.Message? {
        ItemsEffect(t.message, at, dl.items, key.1);
      } else if dl.Mailbox? && LineOk(dl) {
        RecordsEffect(t.link, t.message, dl.mbox.uniqueid.value, at, dl.mbox.records.value, key);
      }
    }
  }

  lemma DeleteLeavesNone(sieve: seq<SieveRow>, name: string, ts: int)
    requires OneActiveScript(sieve)
    ensures var after := DeleteSieve(sieve, name, ts);
      OneActiveScript(after) && forall i :: 0 <= i < |after| && after[i].filename == name ==> after[i].deleted.Some?
  {
  }

  lemma LineKeepsOneScript(t: Tables, at: Place, dl: Dlist)
    requires OneActiveScript(t.sieve)
    ensures OneActiveScript(IndexLine(t, at, dl).sieve)
  {
    match dl
    case Sieve(s) => if s.filename.Some? { DeleteLeavesNone(t.sieve, s.filename.value, at.ts); }
    case Unsieve(n) => if n.Some? { DeleteLeavesNone(t.sieve, n.value, at.ts); }
    case _ =>
  }

  lemma {:induction false} RunKeepsInvariants(es: seq<Entry>)
    ensures ReferencesExist(IndexEntries(es))
    ensures OneActiveScript(IndexEntries(es).sieve)
  {
    if es != [] {
      var n := |es| - 1;
      RunKeepsInvariants(es[..n]);
      LineKeepsReferences(IndexEntries(es[..n]), At(es[n]), es[n].line.dl);
      LineKeepsOneScript(IndexEntries(es[..n]), At(es[n]), es[n].line.dl);
    }
  }

  lemma LineKeepsExpunge(t: Tables, at: Place, dl: Dlist, key: LinkKey)
    requires key in t.link && t.link[key].expunged.Some?
    ensures var after := IndexLine(t, at, dl);
      key in after.link && after.link[key].expunged == t.link[key].expunged
  {
    if dl.Mailbox? && LineOk(dl) {
      RecordsEffect(t.link, t.message, dl.mbox.uniqueid.value, at, dl.mbox.records.value, key);
    }
  }

  // A row of mailbox_message that was expunged once keeps its expunge time,
  // whatever is appended afterwards.
  lemma {:induction false} ExpungeSticks(es: seq<Entry>, k: nat, key: LinkKey)
    requires k <= |es|
    requires key in IndexEntries(es[..k]).link && IndexEntries(es[..k]).link[key].expunged.Some?
    ensures key in IndexEntries(es).link
    ensures IndexEntries(es).link[key].expunged == IndexEntries(es[..k]).link[key].expunged
  {
    if k == |es| {
      assert es[..k] == es;
    } else {
      var n := |es| - 1;
      assert es[..n][..k] == es[..k];
      ExpungeSticks(es[..n], k, key);
      LineKeepsExpunge(IndexEntries(es[..n]), At(es[n]), es[n].line.dl, key);
    }
  }

  // The line's records for the link have the \Expunged flag.
  predicate Expunges(e: Entry, key: LinkKey) {
    e.line.dl.Mailbox? && e.line.dl.mbox.records.Some? && ExpungesGuid(e.line.dl.mbox.records.value, key.1, e.line.ts)
  }

  lemma {:induction false} StoredStays(es: seq<Entry>, i: nat, g: Guid)
    requires i < |es| && Stores(es[i], g)
    ensures g in IndexEntries(es).message
  {
    hide StoresGuid;
    var n := |es| - 1;
    if Stores(es[n], g) {
      MessageLineBacks(IndexEntries(es[..n]).message, es[n], g);
    } else {
      StoredStays(es[..n], i, g);
      LineKeepsMessage(IndexEntries(es[..n]), es[n], g);
    }
  }

  lemma LineExpunges(t: Tables, e: Entry, key: LinkKey)
    requires Records(e, key) && key.1 in t.message && Expunges(e, key)
    ensures var after := IndexLine(t, At(e), e.line.dl).link;
      key in after && after[key].expunged.Some?
  {
    hide IndexRecords, RecordsGuid, ExpungesGuid;
    LineOnLink(t, e, key);
    RecordsExpunge(t.link, t.message, key.0, At(e), e.line.dl.mbox.records.value, key.1);
  }

  // A record with the flag, of a message that was stored before, leaves the
  // link expunged for good.
  lemma FlaggedRecordExpunges(es: seq<Entry>, i: nat, j: nat, key: LinkKey)
    requires i < j < |es| && Stores(es[i], key.1) && Records(es[j], key) && Expunges(es[j], key)
    ensures key in IndexEntries(es).link && IndexEntries(es).link[key].expunged.Some?
  {
    hide Stores, Records, Expunges, IndexLine;
    StoredStays(es[..j], i, key.1);
    LineExpunges(IndexEntries(es[..j]), es[j], key);
    assert es[..j + 1][..j] == es[..j];
    ExpungeSticks(es, j + 1, key);
  }

  // ---- main results, in terms of the log ----

  // A message row's chunk and offset are those of a MESSAGE line that stores it.
  lemma MessageRowsAddressTheirLine(pr: Printer, members: seq<Member>, g: Guid) returns (i: nat)
    requires g in IndexLog(pr, members).message
    ensures var row := IndexLog(pr, members).message[g];
      && 1 <= row.chunk <= |members|
      && var lines := members[row.chunk - 1].lines;
      && i < |lines|
      && MessageBackedBy(Entry(row.chunk, LineOffset(pr, lines, i), lines[i]), g, row)
  {
    var es := Entries(pr, members);
    var k := MessagesBacked(es, g);
    i := EntryInLog(pr, members, es[k]);
  }

  // A link row's chunk holds the MAILBOX line and the record that state it.
  lemma LinkRowsHaveTheirRecord(pr: Printer, members: seq<Member>, key: LinkKey) returns (i: nat)
    requires key in IndexLog(pr, members).link
    ensures var row := IndexLog(pr, members).link[key];
      && 1 <= row.lastChunk <= |members|
      && var lines := members[row.lastChunk - 1].lines;
      && i < |lines|
      && LinkBackedBy(Entry(row.lastChunk, LineOffset(pr, lines, i), lines[i]), key, row)
  {
    var es := Entries(pr, members);
    var k, j := LinksBacked(es, key);
    i := EntryInLog(pr, members, es[j]);
  }
}
