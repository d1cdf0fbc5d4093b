// Which mailboxes a compacted backup has, and in what state: the name and the
// delete time come from lines that may not have been copied.

module Mailboxes {
  import opened Options
  import opened Log
  import opened Index
  import opened Pruning
  import opened Conservation

  // The line sets the row of the mailbox.
  predicate Sets(line: Line, u: string) {
    line.dl.Mailbox? && LineOk(line.dl) && line.dl.mbox.uniqueid.value == u
  }

  // What any other line does to the row.
  function NameStep(row: MailboxRow, line: Line): MailboxRow {
    match line.dl
    case Unmailbox(name) => if row.mboxname == name then row.(deleted := Some(line.ts)) else row
    case Rename(n) => if LineOk(line.dl) then RenameRow(row, n) else row
    case _ => row
  }

  function NameSteps(row: MailboxRow, es: seq<Entry>): MailboxRow {
    if es == [] then row else NameStep(NameSteps(row, es[..|es| - 1]), es[|es| - 1].line)
  }

  // The same, but for the lines of the chunks that compaction copies only.
  function CopiedSteps(orig: Tables, since: int, row: MailboxRow, es: seq<Entry>): MailboxRow {
    if es == [] then row
    else
      var before := CopiedSteps(orig, since, row, es[..|es| - 1]);
      var e := es[|es| - 1];
      if LiveChunk(orig, since, e.chunk) then NameStep(before, e.line) else before
  }

  lemma LineOnMailbox(t: Tables, at: Place, line: Line, u: string)
    requires at.ts == line.ts
    ensures var after := IndexLine(t, at, line.dl).mailbox;
      if Sets(line, u) then u in after && after[u] == MailboxRowOf(line.dl.mbox, at.chunk)
      else (u in after <==> u in t.mailbox) && (u in after ==> after[u] == NameStep(t.mailbox[u], line))
  {
    hide IndexRecords, IndexItems, IndexSieve, DeleteSieve, MailboxRowOf;
    match line.dl
    case Mailbox(m) =>
    case Unmailbox(_) =>
    case Rename(_) =>
    case _ =>
  }

  // ---- the row in the original ----

  // The row that a MAILBOX line sets.
  function RowSet(e: Entry): MailboxRow
    requires e.line.dl.Mailbox? && MailboxComplete(e.line.dl.mbox)
  {
    MailboxRowOf(e.line.dl.mbox, e.chunk)
  }

  // Entry k is the last to set the row.
  ghost predicate LastSet(es: seq<Entry>, u: string, k: nat) {
    k < |es| && Sets(es[k].line, u) && forall n :: k < n < |es| ==> !Sets(es[n].line, u)
  }

  lemma {:induction false} RowSince(es: seq<Entry>, u: string, k: nat)
    requires LastSet(es, u, k)
    ensures u in IndexEntries(es).mailbox
    ensures IndexEntries(es).mailbox[u] == NameSteps(RowSet(es[k]), es[k + 1..])
  {
    hide Sets, IndexLine, MailboxRowOf, NameStep;
    var n := |es| - 1;
    SetsIsOk(es[k].line, u);
    LineOnMailbox(IndexEntries(es[..n]), At(es[n]), es[n].line, u);
    if k < n {
      RowSince(es[..n], u, k);
      assert es[k + 1..][..|es[k + 1..]| - 1] == es[..n][k + 1..];
    }
  }

  lemma SetsIsOk(line: Line, u: string)
    requires Sets(line, u)
    ensures line.dl.Mailbox? && LineOk(line.dl) && MailboxComplete(line.dl.mbox)
  {
  }

  lemma {:induction false} RowWasSet(es: seq<Entry>, u: string) returns (k: nat)
    requires u in IndexEntries(es).mailbox
    ensures LastSet(es, u, k)
  {
    hide Sets, IndexLine;
    var n := |es| - 1;
    if Sets(es[n].line, u) {
      k := n;
    } else {
      LineOnMailbox(IndexEntries(es[..n]), At(es[n]), es[n].line, u);
      k := RowWasSet(es[..n], u);
    }
  }

  lemma {:induction false} StepsKeepTheChunk(row: MailboxRow, es: seq<Entry>)
    ensures NameSteps(row, es).lastChunk == row.lastChunk
  {
    if es != [] {
      StepsKeepTheChunk(row, es[..|es| - 1]);
    }
  }

  // ---- the row in the copy ----

  // What is copied of the entry sets the row.
  predicate CopiesMailbox(orig: Tables, since: int, e: Entry, u: string) {
    var kept := KeepLine(orig, since, e);
    kept != [] && Sets(kept[0], u)
  }

  ghost predicate LastCopy(orig: Tables, since: int, es: seq<Entry>, u: string, j: nat) {
    && j < |es| && CopiesMailbox(orig, since, es[j], u)
    && forall n :: j < n < |es| ==> !CopiesMailbox(orig, since, es[n], u)
  }

  lemma CopiedMailboxIs(orig: Tables, since: int, e: Entry, u: string)
    requires CopiesMailbox(orig, since, e, u)
    ensures e.line.dl.Mailbox? && LiveChunk(orig, since, e.chunk)
    ensures MailboxComplete(e.line.dl.mbox) && e.line.dl.mbox.uniqueid.value == u
    ensures KeepLine(orig, since, e) == [Line(e.line.ts, Mailbox(PruneMailbox(orig, e.chunk, e.line.dl.mbox)))]
    ensures LineOk(KeepLine(orig, since, e)[0].dl)
    ensures MailboxRowOf(KeepLine(orig, since, e)[0].dl.mbox, 0) == MailboxRowOf(e.line.dl.mbox, 0)
  {
    hide LiveChunk, PruneRecords, WantMailbox, RecordComplete;
  }

  lemma KeptOnMailbox(orig: Tables, since: int, o: Tables, e: Entry, u: string)
    ensures var kept := KeepLine(orig, since, e);
      var after := Apply(o, kept).mailbox;
      if CopiesMailbox(orig, since, e, u)
      then kept != [] && Sets(kept[0], u) && u in after && after[u] == MailboxRowOf(kept[0].dl.mbox, 0)
      else
        && (u in after <==> u in o.mailbox)
        && (u in after ==>
              after[u] == if LiveChunk(orig, since, e.chunk) then NameStep(o.mailbox[u], e.line) else o.mailbox[u])
  {
    hide IndexLine, Sets, LiveChunk, MailboxRowOf, RenameRow, PruneItems, PruneRecords, WantMailbox;
    var kept := KeepLine(orig, since, e);
    KeptAtMostOne(orig, since, e);
    KeptKind(orig, since, e);
    if kept != [] {
      LineOnMailbox(o, OutPlace(kept[0].ts), kept[0], u);
    }
  }

  lemma {:induction false} CopiedRowSince(orig: Tables, since: int, es: seq<Entry>, u: string, j: nat)
    requires LastCopy(orig, since, es, u, j)
    ensures var o := Content(KeepLines(orig, since, es)).mailbox;
      var kept := KeepLine(orig, since, es[j]);
      && u in o && kept != [] && Sets(kept[0], u)
      && o[u] == CopiedSteps(orig, since, MailboxRowOf(kept[0].dl.mbox, 0), es[j + 1..])
  {
    hide CopiesMailbox, KeepLine, KeepLines, Content, Sets, Apply, MailboxRowOf, NameStep, LiveChunk;
    var n := |es| - 1;
    ContentStep(orig, since, es);
    KeptOnMailbox(orig, since, Content(KeepLines(orig, since, es[..n])), es[n], u);
    if j < n {
      CopiedRowSince(orig, since, es[..n], u, j);
      SetsIsOk(KeepLine(orig, since, es[j])[0], u);
      assert es[j + 1..][..|es[j + 1..]| - 1] == es[..n][j + 1..];
    }
  }

  // A mailbox is in the copy exactly when a line that sets it is copied.
  lemma {:induction false} MailboxPresence(orig: Tables, since: int, es: seq<Entry>, u: string)
    ensures u in Content(KeepLines(orig, since, es)).mailbox <==>
      exists e :: e in es && CopiesMailbox(orig, since, e, u)
  {
    hide CopiesMailbox, KeepLine, KeepLines, Content, Apply, NameStep, LiveChunk, MailboxRowOf;
    if es == [] {
      NoMailbox(orig, since);
    } else {
      var n := |es| - 1;
      assert es == es[..n] + [es[n]];
      assert forall e :: e in es <==> e in es[..n] || e == es[n];
      MailboxPresence(orig, since, es[..n], u);
      ContentStep(orig, since, es);
      KeptOnMailbox(orig, since, Content(KeepLines(orig, since, es[..n])), es[n], u);
    }
  }

  lemma NoMailbox(orig: Tables, since: int)
    ensures Content(KeepLines(orig, since, [])).mailbox == map[]
  {
  }

  // ---- both ----

  // An indexed line of the mailbox's last chunk is copied, if the chunk is.
  lemma IndexedMailboxIsCopied(orig: Tables, since: int, e: Entry, u: string)
    requires Sets(e.line, u) && LiveChunk(orig, since, e.chunk)
    requires u in orig.mailbox && orig.mailbox[u].lastChunk == e.chunk
    ensures CopiesMailbox(orig, since, e, u)
  {
    hide LiveChunk, PruneRecords, RecordComplete;
    PrunedLineOk(orig, e.chunk, e.line.dl.mbox);
  }

  // The copied row is what the lines of copied chunks have made of the last
  // MAILBOX line from which it is copied, whether that was indexed or not.
  lemma MailboxAfterCompaction(es: seq<Entry>, since: int, u: string, j: nat)
    requires LastCopy(IndexEntries(es), since, es, u, j)
    ensures es[j].line.dl.Mailbox? && MailboxComplete(es[j].line.dl.mbox)
    ensures var t := IndexEntries(es);
      var o := Content(KeepLines(t, since, es));
      u in o.mailbox && o.mailbox[u] == CopiedSteps(t, since, RowSet(es[j]).(lastChunk := 0), es[j + 1..])
  {
    hide IndexEntries, KeepLines, KeepLine, Content, CopiesMailbox, LiveChunk, CopiedSteps, LineOk, MailboxComplete;
    var t := IndexEntries(es);
    CopiedRowSince(t, since, es, u, j);
    CopiedMailboxIs(t, since, es[j], u);
  }

  // Entry j is the last from which the mailbox is copied, and was indexed; the
  // chunk in which the mailbox was last set is copied.
  ghost predicate CopiedFrom(es: seq<Entry>, since: int, u: string, j: nat) {
    var t := IndexEntries(es);
    && j < |es| && LastCopy(t, since, es, u, j) && LineOk(es[j].line.dl)
    && u in t.mailbox && LiveChunk(t, since, t.mailbox[u].lastChunk)
  }

  // Then it is also the last entry that has set the mailbox in the original.
  lemma CopiedFromTheLast(es: seq<Entry>, since: int, u: string, j: nat)
    requires CopiedFrom(es, since, u, j)
    ensures LastSet(es, u, j)
  {
    hide IndexEntries, KeepLine, CopiesMailbox, LiveChunk, NameSteps, LineOk;
    var t := IndexEntries(es);
    CopiedMailboxIs(t, since, es[j], u);
    assert Sets(es[j].line, u);
    var k := RowWasSet(es, u);
    RowSince(es, u, k);
    SetsIsOk(es[k].line, u);
    StepsKeepTheChunk(RowSet(es[k]), es[k + 1..]);
    if j < k {
      IndexedMailboxIsCopied(t, since, es[k], u);
      assert false;
    }
  }

  lemma PrunedRecordsIn(orig: Tables, c: nat, u: string, rs: seq<Record>)
    ensures PruneRecords(orig, c, u, rs) != [] <==>
      exists r :: r in rs && (r.guid.Some? ==>
        (u, r.guid.value) in orig.link && orig.link[(u, r.guid.value)].lastChunk == c)
  {
    if rs != [] {
      var n := |rs| - 1;
      PrunedRecordsIn(orig, c, u, rs[..n]);
      assert rs == rs[..n] + [rs[n]];
      assert forall r :: r in rs <==> r in rs[..n] || r == rs[n];
    }
  }

  // An indexed MAILBOX line of a live chunk is copied exactly if the mailbox is
  // not in the index, or was last set in this chunk, or one of the line's records
  // is for a link that was.
  lemma MailboxIsCopiedWhen(orig: Tables, since: int, e: Entry, u: string)
    requires Sets(e.line, u) && LiveChunk(orig, since, e.chunk)
    ensures CopiesMailbox(orig, since, e, u) <==>
      || u !in orig.mailbox
      || orig.mailbox[u].lastChunk == e.chunk
      || exists r :: r in e.line.dl.mbox.records.value && (u, r.guid.value) in orig.link
           && orig.link[(u, r.guid.value)].lastChunk == e.chunk
  {
    hide LiveChunk, PruneRecords;
    PrunedLineOk(orig, e.chunk, e.line.dl.mbox);
    PrunedRecordsIn(orig, e.chunk, u, e.line.dl.mbox.records.value);
  }

  // A live mailbox is always in the copy.
  lemma LiveMailboxesAreCopied(es: seq<Entry>, since: int, u: string)
    requires u in IndexEntries(es).mailbox && LiveChunk(IndexEntries(es), since, IndexEntries(es).mailbox[u].lastChunk)
    ensures u in Content(KeepLines(IndexEntries(es), since, es)).mailbox
  {
    hide IndexEntries, KeepLines, Content, CopiesMailbox, LiveChunk, NameSteps;
    var t := IndexEntries(es);
    var k := RowWasSet(es, u);
    RowSince(es, u, k);
    StepsKeepTheChunk(RowSet(es[k]), es[k + 1..]);
    IndexedMailboxIsCopied(t, since, es[k], u);
    MailboxPresence(t, since, es, u);
    assert es[k] in es;
  }

  // ---- what of the state survives ----

  ghost predicate SameMailbox(a: MailboxRow, b: MailboxRow) {
    a.(lastChunk := 0) == b.(lastChunk := 0)
  }

  // Every line that changes the row, as it then is, lies in a copied chunk.
  ghost predicate ChangesCopied(orig: Tables, since: int, row: MailboxRow, es: seq<Entry>) {
    forall n :: 0 <= n < |es| ==>
      NameStep(NameSteps(row, es[..n]), es[n].line) == NameSteps(row, es[..n]) || LiveChunk(orig, since, es[n].chunk)
  }

  lemma {:induction false} StepsAgree(orig: Tables, since: int, row: MailboxRow, es: seq<Entry>)
    requires ChangesCopied(orig, since, row, es)
    ensures CopiedSteps(orig, since, row.(lastChunk := 0), es) == NameSteps(row, es).(lastChunk := 0)
  {
    hide LiveChunk;
    if es != [] {
      var n := |es| - 1;
      forall m | 0 <= m < n
        ensures es[..n][..m] == es[..m]
      {
      }
      StepsAgree(orig, since, row, es[..n]);
      StepIgnoresChunk(NameSteps(row, es[..n]), es[n].line);
    }
  }

  lemma StepIgnoresChunk(row: MailboxRow, line: Line)
    ensures NameStep(row.(lastChunk := 0), line) == NameStep(row, line).(lastChunk := 0)
  {
  }

  // A mailbox is the same in the copy if every line that has changed it since
  // its MAILBOX line lies in a copied chunk.
  lemma CompactionKeepsMailboxes(es: seq<Entry>, since: int, u: string, j: nat)
    requires CopiedFrom(es, since, u, j)
    requires es[j].line.dl.Mailbox? && ChangesCopied(IndexEntries(es), since, RowSet(es[j]), es[j + 1..])
    ensures var t := IndexEntries(es);
      var o := Content(KeepLines(t, since, es));
      u in o.mailbox && SameMailbox(t.mailbox[u], o.mailbox[u])
  {
    hide IndexEntries, KeepLines, Content, LastCopy, LiveChunk, NameSteps, CopiedSteps;
    MailboxAfterCompaction(es, since, u, j);
    CopiedFromTheLast(es, since, u, j);
    RowSince(es, u, j);
    StepsAgree(IndexEntries(es), since, RowSet(es[j]), es[j + 1..]);
  }

  // In particular if no line has changed it since.
  lemma MailboxesLastSetByTheirLineSurvive(es: seq<Entry>, since: int, u: string, j: nat)
    requires CopiedFrom(es, since, u, j) && es[j].line.dl.Mailbox?
    requires forall n :: j < n < |es| ==> NameStep(RowSet(es[j]), es[n].line) == RowSet(es[j])
    ensures var t := IndexEntries(es);
      var o := Content(KeepLines(t, since, es));
      && t.mailbox[u] == RowSet(es[j])
      && u in o.mailbox && SameMailbox(t.mailbox[u], o.mailbox[u])
  {
    hide IndexEntries, KeepLines, Content, LastCopy, LiveChunk, NameStep, CopiedSteps, RowSet;
    var rest := es[j + 1..];
    forall n | 0 <= n < |rest|
      ensures NameStep(RowSet(es[j]), rest[n].line) == RowSet(es[j])
    {
      assert rest[n] == es[j + 1 + n];
    }
    forall n | 0 <= n <= |rest|
      ensures NameSteps(RowSet(es[j]), rest[..n]) == RowSet(es[j])
    {
      NothingChanges(RowSet(es[j]), rest[..n]);
    }
    assert rest[..|rest|] == rest;
    CopiedFromTheLast(es, since, u, j);
    RowSince(es, u, j);
    CompactionKeepsMailboxes(es, since, u, j);
  }

  lemma {:induction false} NothingChanges(row: MailboxRow, es: seq<Entry>)
    requires forall n :: 0 <= n < |es| ==> NameStep(row, es[n].line) == row
    ensures NameSteps(row, es) == row
  {
    hide NameStep;
    if es != [] {
      NothingChanges(row, es[..|es| - 1]);
    }
  }

  // ---- deleting ----

  predicate Deletes(e: Entry, name: string) {
    e.line.dl.Unmailbox? && e.line.dl.mboxname == name
  }

  predicate Renames(e: Entry, name: string) {
    e.line.dl.Rename? && LineOk(e.line.dl) && e.line.dl.rename.oldName.value == name
  }

  lemma StepDeletes(row: MailboxRow, e: Entry)
    requires !Renames(e, row.mboxname)
    ensures NameStep(row, e.line) == row.(deleted := if Deletes(e, row.mboxname) then Some(e.line.ts) else row.deleted)
  {
  }

  predicate OnlyDeleted(row: MailboxRow, after: MailboxRow) {
    after.(deleted := None) == row.(deleted := None)
  }

  lemma OnlyDeletedHas(row: MailboxRow, after: MailboxRow)
    requires OnlyDeleted(row, after)
    ensures after.mboxname == row.mboxname && after.partition == row.partition && after.uidvalidity == row.uidvalidity
  {
    assert after.(deleted := None).mboxname == row.(deleted := None).mboxname;
    assert after.(deleted := None).partition == row.(deleted := None).partition;
    assert after.(deleted := None).uidvalidity == row.(deleted := None).uidvalidity;
  }

  lemma {:induction false} StepsDelete(row: MailboxRow, es: seq<Entry>)
    requires forall e :: e in es ==> !Renames(e, row.mboxname)
    ensures OnlyDeleted(row, NameSteps(row, es))
    ensures NameSteps(row, es).deleted.Some? <==> row.deleted.Some? || exists e :: e in es && Deletes(e, row.mboxname)
  {
    hide NameStep, Renames, Deletes;
    if es != [] {
      var n := |es| - 1;
      assert es == es[..n] + [es[n]];
      assert forall e :: e in es <==> e in es[..n] || e == es[n];
      StepsDelete(row, es[..n]);
      OnlyDeletedHas(row, NameSteps(row, es[..n]));
      StepDeletes(NameSteps(row, es[..n]), es[n]);
    }
  }

  lemma {:induction false} CopiedStepsDelete(orig: Tables, since: int, row: MailboxRow, es: seq<Entry>)
    requires forall e :: e in es ==> !Renames(e, row.mboxname)
    ensures OnlyDeleted(row, CopiedSteps(orig, since, row, es))
    ensures CopiedSteps(orig, since, row, es).deleted.Some? <==>
      row.deleted.Some? || exists e :: e in es && Deletes(e, row.mboxname) && LiveChunk(orig, since, e.chunk)
  {
    hide LiveChunk, NameStep, Renames, Deletes;
    if es != [] {
      var n := |es| - 1;
      assert es == es[..n] + [es[n]];
      assert forall e :: e in es <==> e in es[..n] || e == es[n];
      CopiedStepsDelete(orig, since, row, es[..n]);
      OnlyDeletedHas(row, CopiedSteps(orig, since, row, es[..n]));
      StepDeletes(CopiedSteps(orig, since, row, es[..n]), es[n]);
    }
  }

  // Entry d is the last UNMAILBOX of the name among those of some chunks.
  ghost predicate LastDeletion(es: seq<Entry>, chunks: iset<nat>, name: string, d: nat) {
    && d < |es| && Deletes(es[d], name) && es[d].chunk in chunks
    && forall k :: d < k < |es| && es[k].chunk in chunks ==> !Deletes(es[k], name)
  }

  // The time is that of the last.
  ghost predicate DeletedWhen(es: seq<Entry>, chunks: iset<nat>, name: string, deleted: Option<int>) {
    forall d: nat :: LastDeletion(es, chunks, name, d) ==> deleted == Some(es[d].line.ts)
  }

  lemma {:induction false} StepsDeletedLast(row: MailboxRow, es: seq<Entry>, d: nat)
    requires forall e :: e in es ==> !Renames(e, row.mboxname)
    requires LastDeletion(es, ALL_CHUNKS, row.mboxname, d)
    ensures NameSteps(row, es).deleted == Some(es[d].line.ts)
  {
    hide NameStep, Renames, Deletes;
    var n := |es| - 1;
    assert es == es[..n] + [es[n]];
    StepsDelete(row, es[..n]);
    OnlyDeletedHas(row, NameSteps(row, es[..n]));
    StepDeletes(NameSteps(row, es[..n]), es[n]);
    if d < n {
      assert es[n].chunk in ALL_CHUNKS;
      StepsDeletedLast(row, es[..n], d);
    }
  }

  lemma {:induction false} CopiedStepsDeletedLast(orig: Tables, since: int, row: MailboxRow, es: seq<Entry>, d: nat)
    requires forall e :: e in es ==> !Renames(e, row.mboxname)
    requires LastDeletion(es, LiveChunks(orig, since), row.mboxname, d)
    ensures CopiedSteps(orig, since, row, es).deleted == Some(es[d].line.ts)
  {
    hide LiveChunk, NameStep, Renames, Deletes;
    var n := |es| - 1;
    assert es == es[..n] + [es[n]];
    CopiedStepsDelete(orig, since, row, es[..n]);
    OnlyDeletedHas(row, CopiedSteps(orig, since, row, es[..n]));
    StepDeletes(CopiedSteps(orig, since, row, es[..n]), es[n]);
    if d < n {
      CopiedStepsDeletedLast(orig, since, row, es[..n], d);
    }
  }

  // A mailbox that has not been renamed since its last MAILBOX line is as that
  // says, and deleted exactly if an UNMAILBOX line for it came since, at the time
  // of the last.
  lemma DeletedInTheLog(es: seq<Entry>, u: string, k: nat)
    requires LastSet(es, u, k)
    requires forall e :: e in es[k + 1..] ==> !Renames(e, es[k].line.dl.mbox.mboxname.value)
    ensures var t := IndexEntries(es);
      var name := es[k].line.dl.mbox.mboxname.value;
      && u in t.mailbox && OnlyDeleted(RowSet(es[k]), t.mailbox[u])
      && (t.mailbox[u].deleted.Some? <==> exists e :: e in es[k + 1..] && Deletes(e, name))
      && DeletedWhen(es[k + 1..], ALL_CHUNKS, name, t.mailbox[u].deleted)
  {
    hide IndexEntries, NameSteps, Renames, Deletes, LastDeletion, OnlyDeleted;
    var row, rest := RowSet(es[k]), es[k + 1..];
    RowSince(es, u, k);
    StepsDelete(row, rest);
    forall d: nat | LastDeletion(rest, ALL_CHUNKS, row.mboxname, d)
      ensures d < |rest| && NameSteps(row, rest).deleted == Some(rest[d].line.ts)
    {
      DeletionIn(rest, ALL_CHUNKS, row.mboxname, d);
      StepsDeletedLast(row, rest, d);
    }
  }

  lemma DeletionIn(es: seq<Entry>, chunks: iset<nat>, name: string, d: nat)
    requires LastDeletion(es, chunks, name, d)
    ensures d < |es|
  {
  }

  // It is deleted in the copy exactly if an UNMAILBOX line that came since the
  // last MAILBOX line from which it is copied lies in a copied chunk, at the time
  // of the last that does; and is otherwise as that MAILBOX line says.
  lemma DeletionSurvives(es: seq<Entry>, since: int, u: string, j: nat)
    requires LastCopy(IndexEntries(es), since, es, u, j)
    requires es[j].line.dl.Mailbox? && MailboxComplete(es[j].line.dl.mbox)
    requires forall e :: e in es[j + 1..] ==> !Renames(e, es[j].line.dl.mbox.mboxname.value)
    ensures var t := IndexEntries(es);
      var o := Content(KeepLines(t, since, es));
      var name := es[j].line.dl.mbox.mboxname.value;
      && u in o.mailbox && OnlyDeleted(RowSet(es[j]).(lastChunk := 0), o.mailbox[u])
      && (o.mailbox[u].deleted.Some? <==>
            exists e :: e in es[j + 1..] && Deletes(e, name) && LiveChunk(t, since, e.chunk))
      && DeletedWhen(es[j + 1..], LiveChunks(t, since), name, o.mailbox[u].deleted)
  {
    hide IndexEntries, KeepLines, Content, CopiesMailbox, LiveChunk, CopiedSteps, Renames, Deletes, LastDeletion,
         OnlyDeleted;
    var t := IndexEntries(es);
    var row, rest := RowSet(es[j]).(lastChunk := 0), es[j + 1..];
    MailboxAfterCompaction(es, since, u, j);
    CopiedStepsDelete(t, since, row, rest);
    forall d: nat | LastDeletion(rest, LiveChunks(t, since), row.mboxname, d)
      ensures d < |rest| && CopiedSteps(t, since, row, rest).deleted == Some(rest[d].line.ts)
    {
      DeletionIn(rest, LiveChunks(t, since), row.mboxname, d);
      CopiedStepsDeletedLast(t, since, row, rest, d);
    }
  }

  // ---- renaming ----

  lemma {:induction false} StepsConcat(row: MailboxRow, a: seq<Entry>, b: seq<Entry>)
    ensures NameSteps(row, a + b) == NameSteps(NameSteps(row, a), b)
  {
    if b == [] {
      assert a + b == a;
    } else {
      StepsConcat(row, a, b[..|b| - 1]);
      assert (a + b)[..|a + b| - 1] == a + b[..|b| - 1];
    }
  }

  lemma {:induction false} CopiedStepsConcat(orig: Tables, since: int, row: MailboxRow, a: seq<Entry>, b: seq<Entry>)
    ensures CopiedSteps(orig, since, row, a + b) == CopiedSteps(orig, since, CopiedSteps(orig, since, row, a), b)
  {
    hide LiveChunk, NameStep;
    if b == [] {
      assert a + b == a;
    } else {
      CopiedStepsConcat(orig, since, row, a, b[..|b| - 1]);
      assert (a + b)[..|a + b| - 1] == a + b[..|b| - 1];
    }
  }

  lemma RenamedOnce(row: MailboxRow, a: seq<Entry>, e: Entry, b: seq<Entry>)
    requires Renames(e, row.mboxname)
    requires forall x :: x in a || x in b ==> !Renames(x, row.mboxname) && !Renames(x, e.line.dl.rename.newName.value)
    ensures OnlyDeleted(RenameRow(row, e.line.dl.rename), NameSteps(row, a + [e] + b))
  {
    hide NameSteps;
    StepsDelete(row, a);
    OneStep(NameSteps(row, a), e);
    StepsConcat(row, a, [e]);
    StepsDelete(NameSteps(row, a + [e]), b);
    StepsConcat(row, a + [e], b);
  }

  lemma CopiedRenamedOnce(orig: Tables, since: int, row: MailboxRow, a: seq<Entry>, e: Entry, b: seq<Entry>)
    requires Renames(e, row.mboxname)
    requires forall x :: x in a || x in b ==> !Renames(x, row.mboxname) && !Renames(x, e.line.dl.rename.newName.value)
    ensures OnlyDeleted(if LiveChunk(orig, since, e.chunk) then RenameRow(row, e.line.dl.rename) else row,
                        CopiedSteps(orig, since, row, a + [e] + b))
  {
    hide CopiedSteps, LiveChunk;
    CopiedStepsDelete(orig, since, row, a);
    OneCopiedStep(orig, since, CopiedSteps(orig, since, row, a), e);
    CopiedStepsConcat(orig, since, row, a, [e]);
    CopiedStepsDelete(orig, since, CopiedSteps(orig, since, row, a + [e]), b);
    CopiedStepsConcat(orig, since, row, a + [e], b);
  }

  lemma OneStep(row: MailboxRow, e: Entry)
    ensures NameSteps(row, [e]) == NameStep(row, e.line)
  {
    assert [e][..0] == [];
  }

  lemma OneCopiedStep(orig: Tables, since: int, row: MailboxRow, e: Entry)
    ensures CopiedSteps(orig, since, row, [e]) == if LiveChunk(orig, since, e.chunk) then NameStep(row, e.line) else row
  {
    assert [e][..0] == [];
  }

  // Entry n is the only RENAME of either name since the MAILBOX line j.
  ghost predicate OnlyRename(es: seq<Entry>, j: nat, n: nat)
    requires j < n < |es| && es[j].line.dl.Mailbox? && MailboxComplete(es[j].line.dl.mbox)
  {
    var oldName := es[j].line.dl.mbox.mboxname.value;
    && Renames(es[n], oldName)
    && forall k :: j < k < |es| && k != n ==>
         !Renames(es[k], oldName) && !Renames(es[k], es[n].line.dl.rename.newName.value)
  }

  // A mailbox that has been renamed once since its last MAILBOX line has the new
  // name, partition and uidvalidity, and is otherwise as that says.
  lemma RenamedInTheLog(es: seq<Entry>, u: string, j: nat, n: nat)
    requires LastSet(es, u, j) && j < n < |es| && OnlyRename(es, j, n)
    ensures var t := IndexEntries(es);
      var to := es[n].line.dl.rename;
      && u in t.mailbox
      && OnlyDeleted(RowSet(es[j]).(mboxname := to.newName.value, partition := to.partition.value,
                                    uidvalidity := to.uidvalidity.value), t.mailbox[u])
  {
    hide IndexEntries, NameSteps;
    var a, b := es[j + 1..n], es[n + 1..];
    assert es[j + 1..] == a + [es[n]] + b;
    RowSince(es, u, j);
    RenamedOnce(RowSet(es[j]), a, es[n], b);
  }

  // Of a mailbox that has been renamed once since the last MAILBOX line from which
  // it is copied: the copy has the new name, partition and uidvalidity exactly if
  // the RENAME lies in a copied chunk, and otherwise the old ones.
  lemma RenameSurvives(es: seq<Entry>, since: int, u: string, j: nat, n: nat)
    requires LastCopy(IndexEntries(es), since, es, u, j)
    requires es[j].line.dl.Mailbox? && MailboxComplete(es[j].line.dl.mbox)
    requires j < n < |es| && OnlyRename(es, j, n)
    ensures var t := IndexEntries(es);
      var o := Content(KeepLines(t, since, es));
      var row, to := RowSet(es[j]).(lastChunk := 0), es[n].line.dl.rename;
      && u in o.mailbox
      && (if LiveChunk(t, since, es[n].chunk)
          then OnlyDeleted(row.(mboxname := to.newName.value, partition := to.partition.value,
                                uidvalidity := to.uidvalidity.value), o.mailbox[u])
          else OnlyDeleted(row, o.mailbox[u]))
  {
    hide IndexEntries, KeepLines, Content, LastCopy, LiveChunk, CopiedSteps;
    var a, b := es[j + 1..n], es[n + 1..];
    assert es[j + 1..] == a + [es[n]] + b;
    MailboxAfterCompaction(es, since, u, j);
    CopiedRenamedOnce(IndexEntries(es), since, RowSet(es[j]).(lastChunk := 0), a, es[n], b);
  }
}
