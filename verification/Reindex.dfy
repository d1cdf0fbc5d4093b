// backup_reindex: rebuilding the index by replaying the data file.

module Reindex {
  import opened Options
  import opened Log
  import opened Index
  import opened IndexDb
  import opened Append
  import opened Relabel

  // How many of the first c members hold a line. Reindexing gives the member
  // that live appends called chunk c the id NonEmpty(members, c).
  function NonEmpty(members: seq<Member>, c: nat): nat {
    if c == 0 then 0
    else NonEmpty(members, c - 1) + if c <= |members| && members[c - 1].lines != [] then 1 else 0
  }

  // The chunk id of the k-th member.
  function ReindexIds(members: seq<Member>): nat -> nat {
    k => NonEmpty(members, k + 1)
  }

  function Renumbering(members: seq<Member>): Labels {
    Labels(c => NonEmpty(members, c), o => o)
  }

  // The time stamp of a member's first line; -1 if it has none.
  function StartTime(members: seq<Member>, k: int): int
    requires k < |members|
  {
    if k < 0 || members[k].lines == [] then -1 else members[k].lines[0].ts
  }

  // No line is older than the first of its member, and no member starts before
  // the one in front of it. The time -1 stands for "no line yet", so that it
  // must not start a longer member.
  ghost predicate LinesInOrder(lines: seq<Line>, prev: int) {
    lines != [] ==>
      && (prev == -1 || prev <= lines[0].ts)
      && (|lines| > 1 ==> lines[0].ts != -1)
      && forall x :: 0 < x < |lines| ==> lines[0].ts <= lines[x].ts
  }

  ghost predicate MemberInOrder(members: seq<Member>, k: nat)
    requires k < |members|
  {
    LinesInOrder(members[k].lines, StartTime(members, k - 1))
  }

  ghost predicate InOrder(members: seq<Member>) {
    forall k :: 0 <= k < |members| ==> MemberInOrder(members, k)
  }

  lemma {:induction false} NonEmptyGrows(members: seq<Member>, c: nat, d: nat)
    requires c <= d
    ensures NonEmpty(members, c) <= NonEmpty(members, d) <= NonEmpty(members, c) + (d - c)
  {
    if c < d {
      NonEmptyGrows(members, c, d - 1);
    }
  }

  // The renumbering keeps the order of the members that hold lines.
  lemma RenumberingKeepsOrder(members: seq<Member>, c: nat, d: nat)
    requires c < d <= |members| && members[d - 1].lines != []
    ensures NonEmpty(members, c) < NonEmpty(members, d)
  {
    NonEmptyGrows(members, c, d - 1);
  }

  // The entries a reindex makes are the live ones, renumbered.
  lemma {:induction false} EntriesRenumbered(pr: Printer, members: seq<Member>, all: seq<Member>)
    ensures LogEntries(pr, members, ReindexIds(all)) == MoveEntries(Renumbering(all), LogEntries(pr, members, LIVE_IDS))
  {
    if members != [] {
      var k := |members| - 1;
      EntriesRenumbered(pr, members[..k], all);
      var front, here := LogEntries(pr, members[..k], LIVE_IDS), MemberEntries(pr, members[k].lines, k + 1);
      var ls := Renumbering(all);
      assert MoveEntries(ls, front + here) == MoveEntries(ls, front) + MoveEntries(ls, here);
      assert MemberEntries(pr, members[k].lines, ReindexIds(all)(k)) == MoveEntries(ls, here);
    }
  }

  lemma ReplayIsRenumbered(pr: Printer, members: seq<Member>)
    ensures IndexEntries(LogEntries(pr, members, ReindexIds(members)))
         == MoveTables(Renumbering(members), IndexLog(pr, members))
  {
    EntriesRenumbered(pr, members, members);
    Replay(Renumbering(members), Entries(pr, members));
  }

  // The chunk rows of the first members: one for each that holds a line, in
  // order, with the facts that live appends record of it.
  ghost predicate ChunksRebuilt(pr: Printer, sha1: string -> string, chunk: seq<ChunkRow>, members: seq<Member>, n: nat)
    requires n <= |members|
  {
    && |chunk| == NonEmpty(members, n)
    && forall k :: 0 <= k < n && members[k].lines != [] ==>
      && NonEmpty(members, k) < |chunk|
      && ChunkDescribes(pr, sha1, chunk[NonEmpty(members, k)], members, k)
  }

  lemma NonEmptyNext(members: seq<Member>, i: nat)
    requires i < |members|
    ensures NonEmpty(members, i + 1) == NonEmpty(members, i) + if members[i].lines != [] then 1 else 0
  {
  }

  lemma ChunksCarriedOver(pr: Printer, sha1: string -> string, chunk: seq<ChunkRow>, chunk': seq<ChunkRow>,
                          members: seq<Member>, i: nat)
    requires i < |members|
    requires ChunksRebuilt(pr, sha1, chunk, members, i)
    requires if members[i].lines == [] then chunk' == chunk
      else
        && |chunk'| == |chunk| + 1 && chunk'[..|chunk|] == chunk
        && ChunkDescribes(pr, sha1, chunk'[|chunk|], members, i)
    ensures ChunksRebuilt(pr, sha1, chunk', members, i + 1)
  {
    hide ChunkDescribes, NonEmpty;
    NonEmptyNext(members, i);
    forall k | 0 <= k < i + 1 && members[k].lines != []
      ensures NonEmpty(members, k) < |chunk'| && ChunkDescribes(pr, sha1, chunk'[NonEmpty(members, k)], members, k)
    {
      if k < i {
        var x := NonEmpty(members, k);
        assert x < |chunk| && ChunkDescribes(pr, sha1, chunk[x], members, k);
        assert chunk'[x] == chunk[x];
      }
    }
  }

  // One chunk row more, for a chunk at this place in the file.
  ghost predicate ChunkOpened(before: seq<ChunkRow>, after: seq<ChunkRow>, offset: nat, fileSha1: string) {
    && |after| == |before| + 1 && after[..|before|] == before
    && after[|before|].offset == offset && after[|before|].fileSha1 == fileSha1
  }

  // One line. The first line of a member opens the chunk.
  method ReplayLine(b: Backup, line: Line, prevTime: int, startTime: int, offset: nat, fileSha1: string)
      returns (r: Outcome, newStart: int)
    requires b.Valid() && b.intact && (b.active ==> b.indexOnly)
    modifies b, b.db, b.gz
    ensures b.Valid() && b.intact && b.closed == old(b.closed)
    ensures r == Fatal <==>
      if startTime == -1 then (prevTime != -1 && prevTime > line.ts) || old(b.active)
      else startTime > line.ts || !old(b.active)
    ensures r != Fatal ==> b.active && b.indexOnly && newStart == if startTime == -1 then line.ts else startTime
    ensures r != Fatal && startTime == -1 ==>
      b.pending == [line] && ChunkOpened(old(b.chunk), b.chunk, offset, fileSha1)
    ensures r != Fatal && startTime != -1 ==> b.pending == old(b.pending) + [line] && b.chunk == old(b.chunk)
  {
    newStart := startTime;
    if startTime == -1 {
      if prevTime != -1 && prevTime > line.ts {
        return Fatal, newStart;
      }
      newStart := line.ts;
      r := b.RealAppendStart(newStart, offset, fileSha1, true);
      if r == Fatal {
        return;
      }
    } else if startTime > line.ts {
      return Fatal, newStart;
    }
    r := b.AppendLine(line.ts, line.dl);
  }

  // The lines of one member, which starts at offset in the file.
  method ReplayLines(b: Backup, lines: seq<Line>, prevTime: int, offset: nat, fileSha1: string)
      returns (r: Outcome, startTime: int, ts: int)
    requires b.Valid() && b.intact && !b.active
    modifies b, b.db, b.gz
    ensures b.Valid() && b.intact && b.closed == old(b.closed)
    ensures r == Fatal <==> !LinesInOrder(lines, prevTime)
    ensures r != Fatal ==> startTime == (if lines == [] then -1 else lines[0].ts)
    ensures r != Fatal && lines == [] ==> !b.active && b.chunk == old(b.chunk)
    ensures r != Fatal && lines != [] ==>
      b.active && b.indexOnly && b.pending == lines && ChunkOpened(old(b.chunk), b.chunk, offset, fileSha1)
  {
    hide Backup.Valid;
    startTime := -1;
    ts := -1;
    r := Return(Ok);
    var j := 0;
    while j < |lines|
      invariant 0 <= j <= |lines|
      invariant b.Valid() && b.intact && b.closed == old(b.closed)
      invariant r != Fatal
      invariant startTime == if j == 0 then -1 else lines[0].ts
      invariant j == 0 ==> !b.active && b.chunk == old(b.chunk)
      invariant j > 0 ==>
        b.active && b.indexOnly && b.pending == lines[..j] && ChunkOpened(old(b.chunk), b.chunk, offset, fileSha1)
      invariant j > 0 ==> prevTime == -1 || prevTime <= lines[0].ts
      invariant forall x :: 0 < x < j ==> lines[0].ts <= lines[x].ts
      invariant j > 1 ==> lines[0].ts != -1
    {
      assert lines[..j + 1] == lines[..j] + [lines[j]];
      ts := lines[j].ts;
      r, startTime := ReplayLine(b, lines[j], prevTime, startTime, offset, fileSha1);
      if r == Fatal {
        return;
      }
      j := j + 1;
    }
    assert lines[..j] == lines;
  }

  lemma NoEntries(pr: Printer, chunk: nat)
    ensures MemberEntries(pr, [], chunk) == []
  {
  }

  lemma LogStep(pr: Printer, members: seq<Member>, i: nat, number: nat -> nat)
    requires i < |members|
    ensures LogEntries(pr, members[..i + 1], number)
      == LogEntries(pr, members[..i], number) + MemberEntries(pr, members[i].lines, number(i))
  {
    hide MemberEntries;
    assert members[..i + 1][..i] == members[..i];
  }

  // The entries of one member more, whose id is the next if it holds a line.
  lemma OneMemberMore(pr: Printer, sha1: string -> string, chunk: seq<ChunkRow>, members: seq<Member>, i: nat)
    requires i < |members| && ChunksRebuilt(pr, sha1, chunk, members, i)
    ensures LogEntries(pr, members[..i + 1], ReindexIds(members))
      == LogEntries(pr, members[..i], ReindexIds(members)) + MemberEntries(pr, members[i].lines, |chunk| + 1)
  {
    hide ChunkDescribes, LogEntries, MemberEntries, NonEmpty;
    NonEmptyNext(members, i);
    LogStep(pr, members, i, ReindexIds(members));
    NoEntries(pr, |chunk| + 1);
    NoEntries(pr, NonEmpty(members, i + 1));
  }

  // One member.
  method ReindexMember(b: Backup, members: seq<Member>, i: nat, prevTime: int)
      returns (r: Outcome, startTime: int)
    requires i < |members| && prevTime == StartTime(members, i - 1)
    requires b.Valid() && b.intact && !b.active
    requires b.closed == LogEntries(b.pr, members[..i], ReindexIds(members))
    requires ChunksRebuilt(b.pr, b.sha1, b.chunk, members, i)
    modifies b, b.db, b.gz
    ensures r == Fatal <==> !MemberInOrder(members, i)
    ensures r != Fatal ==>
      && b.Valid() && b.intact && !b.active && startTime == StartTime(members, i)
      && b.closed == LogEntries(b.pr, members[..i + 1], ReindexIds(members))
      && ChunksRebuilt(b.pr, b.sha1, b.chunk, members, i + 1)
    ensures b.db.Valid()
  {
    hide ChunksRebuilt, LinesInOrder, MemberText, MemberLength, Db.Valid, IndexEntries, Db.Contents, MemberEntries,
         LogEntries, NonEmpty;
    ghost var chunk0 := b.chunk;
    OneMemberMore(b.pr, b.sha1, chunk0, members, i);
    var ts;
    r, startTime, ts := ReplayLines(b, members[i].lines, prevTime, |FileBytes(members[..i])|,
                                    b.sha1(FileBytes(members[..i])));
    if r != Fatal {
      if b.active {
        var _ := b.RealAppendEnd(ts, "");
      }
      ChunksCarriedOver(b.pr, b.sha1, chunk0, b.chunk, members, i);
      NoEntries(b.pr, |chunk0| + 1);
    }
  }

  lemma NoChunks(pr: Printer, sha1: string -> string, chunk: seq<ChunkRow>, members: seq<Member>)
    ensures chunk == [] ==> ChunksRebuilt(pr, sha1, chunk, members, 0)
  {
  }

  lemma NothingReplayed(pr: Printer, members: seq<Member>)
    ensures LogEntries(pr, members[..0], ReindexIds(members)) == []
  {
  }

  // All members, in file order.
  method ReplayMembers(b: Backup, members: seq<Member>) returns (r: Outcome)
    requires b.Valid() && b.intact && !b.active && b.closed == [] && b.chunk == []
    modifies b, b.db, b.gz
    ensures b.db.Valid()
    ensures r == Fatal <==> !InOrder(members)
    ensures r != Fatal ==>
      && b.Valid() && b.intact && !b.active
      && b.closed == LogEntries(b.pr, members, ReindexIds(members))
      && ChunksRebuilt(b.pr, b.sha1, b.chunk, members, |members|)
  {
    hide MemberInOrder, ChunksRebuilt, LogEntries, IndexEntries, MemberEntries;
    NoChunks(b.pr, b.sha1, b.chunk, members);
    r := Return(Ok);
    NothingReplayed(b.pr, members);
    var prevTime := -1;
    var i := 0;
    while i < |members|
      invariant 0 <= i <= |members|
      invariant b.Valid() && b.intact && !b.active
      invariant r != Fatal
      invariant b.closed == LogEntries(b.pr, members[..i], ReindexIds(members))
      invariant prevTime == StartTime(members, i - 1)
      invariant forall k :: 0 <= k < i ==> MemberInOrder(members, k)
      invariant ChunksRebuilt(b.pr, b.sha1, b.chunk, members, i)
    {
      hide *;
      var outcome, startTime := ReindexMember(b, members, i, prevTime);
      if outcome == Fatal {
        return Fatal;
      }
      r := outcome;
      prevTime := startTime;
      i := i + 1;
    }
    assert members[..i] == members;
  }

  // Rebuilds the index of a data file. A fatal error is reported exactly when
  // the time stamps are out of order.
  method BackupReindex(pr: Printer, sha1: string -> string, members: seq<Member>) returns (r: Outcome, b: Backup)
    ensures fresh(b) && fresh(b.db) && b.db.Valid()
    ensures r == Fatal <==> !InOrder(members)
    ensures r != Fatal ==>
      && b.db.Contents() == MoveTables(Renumbering(members), IndexLog(pr, members))
      && ChunksRebuilt(pr, sha1, b.chunk, members, |members|)
  {
    b := new Backup(pr, sha1, members);
    r := ReplayMembers(b, members);
    ReplayIsRenumbered(pr, members);
  }

  // The time stamps of the log, in file order, never go back, and none is the
  // -1 that stands for "no line yet".
  ghost predicate ClockNeverGoesBack(members: seq<Member>) {
    && (forall k, i :: 0 <= k < |members| && 0 <= i < |members[k].lines| ==> members[k].lines[i].ts != -1)
    && (forall k, i, j :: 0 <= k < |members| && 0 <= i < j < |members[k].lines| ==>
          members[k].lines[i].ts <= members[k].lines[j].ts)
    && (forall k, l, i, j :: 0 <= k < l < |members| && 0 <= i < |members[k].lines| && 0 <= j < |members[l].lines| ==>
          members[k].lines[i].ts <= members[l].lines[j].ts)
  }

  lemma SteadyClockIsInOrder(members: seq<Member>)
    requires ClockNeverGoesBack(members)
    ensures InOrder(members)
  {
    forall k | 0 <= k < |members|
      ensures MemberInOrder(members, k)
    {
      if k > 0 && members[k - 1].lines != [] && members[k].lines != [] {
        assert members[k - 1].lines[0].ts <= members[k].lines[0].ts;
      }
    }
  }

  // The chunk rows agree on where the chunk is, how long it is, and on both
  // checksums.
  predicate SameChunk(a: ChunkRow, b: ChunkRow) {
    a.offset == b.offset && a.length == b.length && a.fileSha1 == b.fileSha1 && a.dataSha1 == b.dataSha1
  }

  // Reindexing the data file of a backup in use gives the index that its
  // appends have built up, with the chunks that hold no line left out of the
  // numbering.
  method ReindexLive(b: Backup) returns (r: Outcome, rebuilt: Backup)
    requires b.Live() && b.intact && !b.active
    ensures r == Fatal <==> !InOrder(b.file)
    ensures ClockNeverGoesBack(b.file) ==> r != Fatal
    ensures r != Fatal ==>
      && rebuilt.db.Valid() && rebuilt.db.Contents() == MoveTables(Renumbering(b.file), b.db.Contents())
      && |rebuilt.chunk| == NonEmpty(b.file, |b.file|)
      && |b.chunk| == |b.file|
      && forall k :: 0 <= k < |b.file| && b.file[k].lines != [] ==>
           && NonEmpty(b.file, k) < |rebuilt.chunk|
           && SameChunk(rebuilt.chunk[NonEmpty(b.file, k)], b.chunk[k])
  {
    r, rebuilt := BackupReindex(b.pr, b.sha1, b.file);
    if ClockNeverGoesBack(b.file) {
      SteadyClockIsInOrder(b.file);
    }
  }
}
