// backup_compact: copying the kept lines of a backup into a new one.

module Compact {
  import opened Options
  import opened Log
  import opened Index
  import opened IndexDb
  import opened Append
  import opened Pruning
  import opened Boundaries
  import opened Compacted

  // ---- want_append: unwanted children are unstitched from the dlist ----

  lemma PruneNothing(keep: set<Guid>, items: seq<MessageItem>)
    ensures PruneItems(keep, items[..0]) == []
  {
  }

  lemma PruneNextItem(keep: set<Guid>, items: seq<MessageItem>, n: nat)
    requires n < |items|
    ensures PruneItems(keep, items[..n + 1])
      == PruneItems(keep, items[..n]) + if WantItem(keep, items[n]) then [items[n]] else []
  {
    assert items[..n + 1][..n] == items[..n];
  }

  // Taking out or keeping the next of the children that have not been seen.
  lemma Unstitched<T>(front: seq<T>, items: seq<T>, n: nat)
    requires n < |items|
    ensures var kept := front + items[n..];
      && kept[..|front|] + kept[|front| + 1..] == front + items[n + 1..]
      && kept == front + [items[n]] + items[n + 1..]
  {
  }

  method WantAppendMessage(keep: set<Guid>, items: seq<MessageItem>) returns (want: bool, kept: seq<MessageItem>)
    ensures kept == PruneItems(keep, items)
    ensures want <==> kept != []
  {
    hide PruneItems;
    PruneNothing(keep, items);
    kept := items;
    var di, n := 0, 0;
    while n < |items|
      invariant 0 <= n <= |items|
      invariant di == |PruneItems(keep, items[..n])|
      invariant kept == PruneItems(keep, items[..n]) + items[n..]
    {
      PruneNextItem(keep, items, n);
      Unstitched(PruneItems(keep, items[..n]), items, n);
      if items[n].File? && items[n].guid !in keep {
        kept := kept[..di] + kept[di + 1..];
      } else {
        di := di + 1;
      }
      n := n + 1;
    }
    assert items[..n] == items;
    want := kept != [];
  }

  lemma PruneNoRecords(t: Tables, c: nat, u: string, records: seq<Record>)
    ensures PruneRecords(t, c, u, records[..0]) == []
  {
  }

  // The records that are kept; keep tells whether there is one.
  method PruneRecordList(t: Tables, c: nat, u: string, records: seq<Record>) returns (keep: bool, kept: seq<Record>)
    ensures kept == PruneRecords(t, c, u, records)
    ensures keep <==> kept != []
  {
    hide WantRecord, PruneRecords;
    PruneNoRecords(t, c, u, records);
    kept := records;
    keep := false;
    var ki, n := 0, 0;
    while n < |records|
      invariant 0 <= n <= |records|
      invariant ki == |PruneRecords(t, c, u, records[..n])|
      invariant kept == PruneRecords(t, c, u, records[..n]) + records[n..]
      invariant keep <==> ki > 0
    {
      assert records[..n + 1] == records[..n] + [records[n]];
      PruneStep(t, c, u, records[..n], records[n]);
      Unstitched(PruneRecords(t, c, u, records[..n]), records, n);
      if WantRecord(t, c, u, records[n]) {
        keep := true;
        ki := ki + 1;
      } else {
        kept := kept[..ki] + kept[ki + 1..];
      }
      n := n + 1;
    }
    assert records[..n] == records;
  }

  method WantAppendMailbox(t: Tables, c: nat, m: MailboxDlist) returns (want: bool, kept: MailboxDlist)
    ensures want <==> WantMailbox(t, c, m)
    ensures kept == PruneMailbox(t, c, m)
  {
    kept := m;
    if m.uniqueid.None? {
      return true, kept;
    }
    var u := m.uniqueid.value;
    if m.records.Some? {
      var keep, records := PruneRecordList(t, c, u, m.records.value);
      kept := m.(records := Some(records));
      if keep {
        return true, kept;
      }
    }
    if u !in t.mailbox {
      return true, kept;
    }
    want := t.mailbox[u].lastChunk == c;
  }

  // want_append, given the GUIDs wanted from this chunk
  method WantAppendLine(t: Tables, since: int, c: nat, keep: set<Guid>, dl: Dlist) returns (want: bool, kept: Dlist)
    requires keep == KeepGuids(t, since, c)
    ensures WantAppend(t, since, c, dl) == if want then Some(kept) else None
  {
    kept := dl;
    match dl
    case Message(items) =>
      var list;
      want, list := WantAppendMessage(keep, items);
      kept := Message(list);
    case Mailbox(m) =>
      var mbox;
      want, mbox := WantAppendMailbox(t, c, m);
      kept := Mailbox(mbox);
    case _ => want := true;
  }

  // ---- the copy loop ----

  // The new backup is where the run says it is.
  ghost predicate AtState(out: Backup, s: State)
    reads out
  {
    && |out.file| == |s.done|
    && (forall k :: 0 <= k < |out.file| ==> out.file[k].lines == s.done[k].lines)
    && (out.active <==> s.open.Some?)
    && (out.active ==> out.pending == s.open.value.lines)
  }

  method EndAppend(out: Backup, ts: int, ghost s: State)
    requires out.Live() && out.active && (out.intact ==> AtState(out, s))
    modifies out
    ensures out.Live() && !out.active && out.intact == old(out.intact)
    ensures out.intact ==> AtState(out, Close(s))
  {
    var bytes: string := *;
    var _ := out.AppendEnd(ts, bytes);
  }

  // Copies what is wanted of a line to the open chunk.
  method CopyLine(out: Backup, t: Tables, since: int, c: nat, keep: set<Guid>, e: Entry)
      returns (r: Outcome)
    requires keep == KeepGuids(t, since, c) && e.chunk == c && LiveChunk(t, since, c)
    requires out.Live() && out.intact && out.active
    modifies out, out.db, out.gz
    ensures out.Live() && out.active && out.file == old(out.file)
    ensures r == Return(Ok) ==> out.intact && out.pending == old(out.pending) + KeepLine(t, since, e)
    ensures r != Fatal
    ensures out.intact ==>
      (r == Return(Ok) <==> (KeepLine(t, since, e) != [] ==> LineOk(KeepLine(t, since, e)[0].dl)))
  {
    hide LiveChunk, LineOk, WantAppend, Db.Valid, Db.Contents, IndexEntries, MemberEntries, MemberText, MemberLength,
         KeepGuids, ChunkDescribes;
    r := Return(Ok);
    var want, dl := WantAppendLine(t, since, c, keep, e.line.dl);
    if want {
      r := out.AppendLine(e.line.ts, dl);
    }
  }

  lemma WroteIsLength(out: Backup)
    requires out.Live() && out.intact && out.active
    ensures out.wrote == MemberLength(out.pr, out.pending)
  {
  }

  // One line of chunk c. startTime is -1 exactly when no append is open.
  method CompactLine(sz: Sizes, out: Backup, t: Tables, since: int, c: nat, length: nat, keep: set<Guid>, e: Entry,
                     startTime: int, ghost s: State)
      returns (r: Outcome, newStart: int)
    requires keep == KeepGuids(t, since, c) && e.chunk == c && LiveChunk(t, since, c)
    requires out.Live() && out.intact && AtState(out, s)
    requires e.line.ts != -1 && (startTime == -1 <==> !out.active)
    modifies out, out.db, out.gz
    ensures out.Live() && r != Fatal
    ensures r == Return(Ok) ==>
      && out.intact && (newStart == -1 <==> !out.active)
      && AtState(out, StepLine(sz, out.pr, length, c, KeepLine(t, since, e), s))
    ensures out.intact ==>
      (r == Return(Ok) <==> (KeepLine(t, since, e) != [] ==> LineOk(KeepLine(t, since, e)[0].dl)))
  {
    hide LiveChunk, LineOk, KeepLine, KeepGuids, WantSplit, WantAppend, Backup.Live;
    newStart := startTime;
    if newStart == -1 {
      r := out.AppendStart(e.line.ts);
      if r != Return(Ok) {
        return;
      }
      newStart := e.line.ts;
    }
    r := CopyLine(out, t, since, c, keep, e);
    if r != Return(Ok) {
      return;
    }
    WroteIsLength(out);
    ghost var s' := State(s.done, Some(Feed(Opened(s), c).(lines := Opened(s).lines + KeepLine(t, since, e))));
    if WantSplit(sz, length, Some(out.wrote)) {
      EndAppend(out, e.line.ts, s');
      newStart := -1;
    }
  }

  lemma SucceedsNext(inp: Input, c: nat, n: nat)
    requires ChunkId(inp, c) && n < |LinesOf(inp, c)|
    ensures Succeeds(KeptLines(inp, c, n + 1)) <==>
      Succeeds(KeptLines(inp, c, n)) && (KeptOf(inp, c, n) != [] ==> LineOk(KeptOf(inp, c, n)[0].dl))
  {
    hide KeepLine, LineOk;
    var kept := KeptOf(inp, c, n);
    KeptAtMostOne(inp.t, inp.since, Entry(c, LineOffset(inp.pr, LinesOf(inp, c), n), LinesOf(inp, c)[n]));
    assert forall line :: line in KeptLines(inp, c, n + 1) <==> line in KeptLines(inp, c, n) || line in kept;
    if kept != [] {
      assert kept[0] in kept;
    }
  }

  lemma {:induction false} SucceedsPrefix(inp: Input, c: nat, n: nat, m: nat)
    requires ChunkId(inp, c) && n <= m <= |LinesOf(inp, c)|
    requires Succeeds(KeptLines(inp, c, m))
    ensures Succeeds(KeptLines(inp, c, n))
  {
    if n < m {
      SucceedsNext(inp, c, m - 1);
      SucceedsPrefix(inp, c, n, m - 1);
    }
  }

  // All the lines of chunk c.
  method CompactLines(sz: Sizes, out: Backup, inp: Input, c: nat, length: nat, startTime: int, prevTs: int,
                      ghost s: State)
      returns (r: Outcome, newStart: int, ts: int)
    requires ChunkId(inp, c) && LiveChunk(inp.t, inp.since, c) && length == LengthOf(inp, c) && out.pr == inp.pr
    requires forall line :: line in LinesOf(inp, c) ==> line.ts != -1
    requires out.Live() && out.intact && AtState(out, s) && (startTime == -1 <==> !out.active)
    modifies out, out.db, out.gz
    ensures out.Live() && r != Fatal
    ensures r == Return(Ok) ==>
      && out.intact && (newStart == -1 <==> !out.active)
      && AtState(out, StepLines(sz, inp, c, |LinesOf(inp, c)|, s))
    ensures out.intact ==> (r == Return(Ok) <==> Succeeds(KeptLines(inp, c, |LinesOf(inp, c)|)))
  {
    hide LiveChunk, LineOk, KeepLine, KeepGuids, WantSplit, Backup.Live, StepLine, AtState, Succeeds;
    var keep := KeepGuids(inp.t, inp.since, c);
    var lines := LinesOf(inp, c);
    newStart := startTime;
    ts := prevTs;
    r := Return(Ok);
    var n := 0;
    assert Succeeds(KeptLines(inp, c, 0)) by { SucceedsNothing(inp, c); }
    while n < |lines|
      invariant 0 <= n <= |lines|
      invariant out.Live() && out.intact && AtState(out, StepLines(sz, inp, c, n, s))
      invariant newStart == -1 <==> !out.active
      invariant r == Return(Ok) && Succeeds(KeptLines(inp, c, n))
    {
      ts := lines[n].ts;
      SucceedsNext(inp, c, n);
      r, newStart := CompactLine(sz, out, inp.t, inp.since, c, length, keep,
                                 Entry(c, LineOffset(inp.pr, lines, n), lines[n]),
                                 newStart, StepLines(sz, inp, c, n, s));
      if r != Return(Ok) {
        if Succeeds(KeptLines(inp, c, |lines|)) {
          SucceedsPrefix(inp, c, n + 1, |lines|);
        }
        return;
      }
      n := n + 1;
    }
  }

  lemma SucceedsNothing(inp: Input, c: nat)
    requires ChunkId(inp, c)
    ensures Succeeds(KeptLines(inp, c, 0))
  {
  }

  lemma {:induction false} ChunksSucceed(inp: Input, ids: seq<nat>, i: nat)
    requires ChunkIds(inp, ids) && i < |ids|
    ensures Succeeds(KeptChunks(inp, ids[..i + 1])) <==>
      Succeeds(KeptChunks(inp, ids[..i])) && Succeeds(KeptLines(inp, ids[i], |LinesOf(inp, ids[i])|))
  {
    hide KeepLine, LineOk;
    assert ids[..i + 1][..i] == ids[..i];
    var a, b := KeptChunks(inp, ids[..i]), KeptLines(inp, ids[i], |LinesOf(inp, ids[i])|);
    assert KeptChunks(inp, ids[..i + 1]) == a + b;
    assert forall line :: line in a + b <==> line in a || line in b;
  }

  lemma {:induction false} ChunksSucceedPrefix(inp: Input, ids: seq<nat>, i: nat, j: nat)
    requires ChunkIds(inp, ids) && i <= j <= |ids|
    requires Succeeds(KeptChunks(inp, ids[..j]))
    ensures Succeeds(KeptChunks(inp, ids[..i]))
  {
    if i < j {
      ChunksSucceed(inp, ids, j - 1);
      ChunksSucceedPrefix(inp, ids, i, j - 1);
    }
  }

  // One kept chunk, and what follows from the length of the next.
  method CompactChunk(sz: Sizes, out: Backup, inp: Input, ids: seq<nat>, i: nat, lengths: seq<nat>, startTime: int,
                      prevTs: int)
      returns (r: Outcome, newStart: int, ts: int)
    requires ChunkIds(inp, ids) && i < |ids| && LiveChunk(inp.t, inp.since, ids[i])
    requires |lengths| == |ids| && forall k :: 0 <= k < |ids| ==> lengths[k] == LengthOf(inp, ids[k])
    requires forall line :: line in LinesOf(inp, ids[i]) ==> line.ts != -1
    requires out.pr == inp.pr && out.Live() && out.intact && AtState(out, RunChunks(sz, inp, ids, i))
    requires startTime == -1 <==> !out.active
    modifies out, out.db, out.gz
    ensures out.Live() && r != Fatal
    ensures r == Return(Ok) ==>
      && out.intact && (newStart == -1 <==> !out.active)
      && AtState(out, RunChunks(sz, inp, ids, i + 1))
    ensures out.intact ==> (r == Return(Ok) <==> Succeeds(KeptLines(inp, ids[i], |LinesOf(inp, ids[i])|)))
  {
    hide LiveChunk, LineOk, Succeeds, Backup.Live, WantCombine, StepLine, StepLines;
    ghost var s := RunChunks(sz, inp, ids, i);
    r, newStart, ts := CompactLines(sz, out, inp, ids[i], lengths[i], startTime, prevTs, s);
    if r != Return(Ok) {
      return;
    }
    if out.active {
      WroteIsLength(out);
      var next := if i + 1 < |ids| then Some(lengths[i + 1]) else None;
      if !WantCombine(sz, out.wrote, next) {
        EndAppend(out, ts, StepLines(sz, inp, ids[i], |LinesOf(inp, ids[i])|, s));
        newStart := -1;
      }
    }
  }

  lemma LiveIdsAreLive(t: Tables, since: int, n: nat)
    ensures forall i :: 0 <= i < |LiveIds(t, since, n)| ==> LiveChunk(t, since, LiveIds(t, since, n)[i])
  {
    hide LiveChunk;
    if n != 0 {
      LiveIdsAreLive(t, since, n - 1);
    }
  }

  // Every listed chunk, in order.
  method CompactChunks(sz: Sizes, out: Backup, inp: Input, ids: seq<nat>, lengths: seq<nat>)
      returns (r: Outcome, ts: int)
    requires ChunkIds(inp, ids) && forall i :: 0 <= i < |ids| ==> LiveChunk(inp.t, inp.since, ids[i])
    requires |lengths| == |ids| && forall k :: 0 <= k < |ids| ==> lengths[k] == LengthOf(inp, ids[k])
    requires forall m, line :: m in inp.members && line in m.lines ==> line.ts != -1
    requires out.pr == inp.pr && out.Live() && out.intact && !out.active && AtState(out, START)
    modifies out, out.db, out.gz
    ensures out.Live() && r != Fatal
    ensures r == Return(Ok) ==> out.intact && AtState(out, RunChunks(sz, inp, ids, |ids|))
    ensures out.intact ==> (r == Return(Ok) <==> Succeeds(KeptChunks(inp, ids)))
  {
    hide LiveChunk, LineOk, Succeeds, Backup.Live, EndChunk, StepLines, AtState;
    var startTime := -1;
    ts := 0;
    r := Return(Ok);
    var i := 0;
    assert ids[..|ids|] == ids;
    assert Succeeds(KeptChunks(inp, ids[..0])) by { NoChunksSucceed(inp, ids); }
    while i < |ids|
      invariant 0 <= i <= |ids|
      invariant out.Live() && out.intact && AtState(out, RunChunks(sz, inp, ids, i))
      invariant startTime == -1 <==> !out.active
      invariant r == Return(Ok) && Succeeds(KeptChunks(inp, ids[..i]))
    {
      ChunksSucceed(inp, ids, i);
      LinesAreTimed(inp, ids[i]);
      r, startTime, ts := CompactChunk(sz, out, inp, ids, i, lengths, startTime, ts);
      if r != Return(Ok) {
        if Succeeds(KeptChunks(inp, ids)) {
          ChunksSucceedPrefix(inp, ids, i + 1, |ids|);
        }
        return;
      }
      i := i + 1;
    }
  }

  // Copies what is kept of the original into an empty backup. The fatal errors
  // never happen; unless a write fails, the copy is made exactly when every
  // kept line can be indexed.
  method BackupCompact(sz: Sizes, inp: Input, lengths: seq<nat>, out: Backup) returns (r: Outcome)
    requires out.pr == inp.pr && out.Live() && out.intact && !out.active && out.file == []
    requires forall m, line :: m in inp.members && line in m.lines ==> line.ts != -1
    requires var ids := LiveIds(inp.t, inp.since, |inp.members|);
      |lengths| == |ids| && forall k :: 0 <= k < |ids| ==> lengths[k] == LengthOf(inp, ids[k])
    modifies out, out.db, out.gz
    ensures out.Live() && r != Fatal
    ensures r == Return(Ok) ==> out.intact && !out.active && AtState(out, Run(sz, inp))
    ensures r == Return(Ok) ==> out.db.Valid() && out.db.Contents() == IndexLog(inp.pr, out.file)
    ensures r == Return(Ok) && inp.t == IndexLog(inp.pr, inp.members) ==> CompactedTo(sz, inp, out.file)
    ensures out.intact ==>
      (r == Return(Ok) <==> Succeeds(KeepLines(inp.t, inp.since, Entries(inp.pr, inp.members))))
  {
    hide LiveChunk, LineOk, Succeeds, Backup.Live, RunChunks, KeepLines, Entries, LiveIds, KeptChunks;
    var ids := LiveIds(inp.t, inp.since, |inp.members|);
    LiveIdsAreLive(inp.t, inp.since, |inp.members|);
    assert inp.members[..|inp.members|] == inp.members;
    LiveIdsKeepAll(inp, |inp.members|);
    var ts;
    r, ts := CompactChunks(sz, out, inp, ids, lengths);
    if r == Return(Ok) && out.active {
      EndAppend(out, ts, RunChunks(sz, inp, ids, |ids|));
    }
    if r == Return(Ok) {
      IndexOfLive(out);
    }
  }

  lemma IndexOfLive(out: Backup)
    requires out.Live() && out.intact && !out.active
    ensures out.db.Valid() && out.db.Contents() == IndexLog(out.pr, out.file)
  {
  }

  lemma NoChunksSucceed(inp: Input, ids: seq<nat>)
    requires ChunkIds(inp, ids)
    ensures Succeeds(KeptChunks(inp, ids[..0]))
  {
  }

  lemma LinesAreTimed(inp: Input, c: nat)
    requires ChunkId(inp, c)
    requires forall m, line :: m in inp.members && line in m.lines ==> line.ts != -1
    ensures forall line :: line in LinesOf(inp, c) ==> line.ts != -1
  {
    assert inp.members[c - 1] in inp.members;
  }
}
