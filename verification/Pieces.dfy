// Which chunks a compaction joins, and how large the chunks it writes get.

module Pieces {
  import opened Options
  import opened Log
  import opened Index
  import opened Pruning
  import opened Boundaries
  import opened ChunkSizes
  import opened Agreement
  import Relabel

  // The chunks that are copied, in order.
  function Ids(inp: Input): (ids: seq<nat>)
    ensures ChunkIds(inp, ids)
  {
    LiveIds(inp.t, inp.since, |inp.members|)
  }

  // ---- which chunks are copied ----

  predicate GoneBy(time: Option<int>, since: int) {
    time.Some? && time.value <= since
  }

  // No seen row names the chunk, and all else that does was gone by then: deleted
  // mailboxes and scripts, expunged links, ended subscriptions, and messages all
  // of whose links are expunged.
  ghost predicate Ended(t: Tables, since: int, c: nat) {
    && (forall u :: u in t.mailbox && t.mailbox[u].lastChunk == c ==> GoneBy(t.mailbox[u].deleted, since))
    && (forall key :: key in t.link && t.link[key].lastChunk == c ==> GoneBy(t.link[key].expunged, since))
    && (forall key :: key in t.link && key.1 in t.message && t.message[key.1].chunk == c ==>
          GoneBy(t.link[key].expunged, since))
    && (forall n :: n in t.subscription && t.subscription[n].lastChunk == c ==>
          GoneBy(t.subscription[n].unsubscribed, since))
    && (forall u :: u in t.seen ==> t.seen[u].lastChunk != c)
    && (forall row :: row in t.sieve && row.chunk == c ==> GoneBy(row.deleted, since))
  }

  lemma LinksOfMessages(t: Tables, since: int, c: nat)
    ensures (exists g :: g in t.message && t.message[g].chunk == c && LiveMessage(t, since, g)) <==>
      exists key :: key in t.link && key.1 in t.message && t.message[key.1].chunk == c
        && Since(t.link[key].expunged, since)
  {
    if g :| g in t.message && t.message[g].chunk == c && LiveMessage(t, since, g) {
      var key :| key in t.link && key.1 == g && Since(t.link[key].expunged, since);
    }
    if key :| key in t.link && key.1 in t.message && t.message[key.1].chunk == c && Since(t.link[key].expunged, since) {
      assert LiveMessage(t, since, key.1);
    }
  }

  lemma RowsOfScripts(sieve: seq<SieveRow>, since: int, c: nat)
    ensures (exists i :: 0 <= i < |sieve| && sieve[i].chunk == c && Since(sieve[i].deleted, since)) <==>
      exists row :: row in sieve && row.chunk == c && !GoneBy(row.deleted, since)
  {
    if row :| row in sieve && row.chunk == c && !GoneBy(row.deleted, since) {
      var i :| 0 <= i < |sieve| && sieve[i] == row;
    }
  }

  // A chunk is dropped, and contributes no line, exactly if it has ended.
  lemma DroppedChunks(t: Tables, since: int, c: nat)
    ensures LiveChunk(t, since, c) <==> !Ended(t, since, c)
    ensures Ended(t, since, c) ==> forall e: Entry :: e.chunk == c ==> KeepLine(t, since, e) == []
  {
    LinksOfMessages(t, since, c);
    RowsOfScripts(t.sieve, since, c);
    hide LiveMessage;
  }

  lemma {:induction false} CopiedUpTo(t: Tables, since: int, n: nat, c: nat)
    ensures c in LiveIds(t, since, n) <==> 1 <= c <= n && LiveChunk(t, since, c)
  {
    hide LiveChunk;
    if n != 0 {
      CopiedUpTo(t, since, n - 1, c);
    }
  }

  // The chunks that are copied are those that have not ended.
  lemma CopiedChunks(inp: Input, c: nat)
    ensures c in Ids(inp) <==> ChunkId(inp, c) && !Ended(inp.t, inp.since, c)
  {
    hide LiveChunk, Ended, LiveIds;
    CopiedUpTo(inp.t, inp.since, |inp.members|, c);
    DroppedChunks(inp.t, inp.since, c);
  }

  // A chunk without entries is named by no row: calling it something else would
  // change nothing.
  lemma NoEntryNoRow(es: seq<Entry>, since: int, c: nat)
    requires forall e :: e in es ==> e.chunk != c
    ensures !LiveChunk(IndexEntries(es), since, c)
  {
    hide IndexEntries;
    var t := IndexEntries(es);
    var ls := Relabel.Labels((x: nat) => if x == c then c + 1 else x, (x: nat) => x);
    Relabel.Replay(ls, es);
    assert Relabel.MoveEntries(ls, es) == es;
    assert Relabel.MoveTables(ls, t) == t;
    MovedAway(ls, t, since, c);
  }

  lemma MovedAway(ls: Relabel.Labels, t: Tables, since: int, c: nat)
    requires Relabel.MoveTables(ls, t) == t && forall x :: ls.chunk(x) != c
    ensures !LiveChunk(t, since, c)
  {
    assert Relabel.MoveMessages(ls, t.message) == t.message;
    assert Relabel.MoveMailboxes(ls, t.mailbox) == t.mailbox;
    assert Relabel.MoveLinks(ls, t.link) == t.link;
    assert Relabel.MoveSubs(ls, t.subscription) == t.subscription;
    assert Relabel.MoveSeen(ls, t.seen) == t.seen;
    assert Relabel.MoveSieve(ls, t.sieve) == t.sieve;
    assert forall i :: 0 <= i < |t.sieve| ==> t.sieve[i] == Relabel.MoveSieveRow(ls, t.sieve[i]);
  }

  // No chunk that is copied is without lines.
  ghost predicate NonEmptyChunks(inp: Input) {
    forall i :: 0 <= i < |Ids(inp)| ==> LinesOf(inp, Ids(inp)[i]) != []
  }

  lemma LiveChunksHaveLines(inp: Input)
    requires inp.t == IndexLog(inp.pr, inp.members)
    ensures NonEmptyChunks(inp)
  {
    hide LiveChunk, IndexEntries;
    forall i | 0 <= i < |Ids(inp)|
      ensures LinesOf(inp, Ids(inp)[i]) != []
    {
      var c := Ids(inp)[i];
      CopiedUpTo(inp.t, inp.since, |inp.members|, c);
      var es := Entries(inp.pr, inp.members);
      if LinesOf(inp, c) == [] {
        forall e | e in es
          ensures e.chunk != c
        {
          var j := EntryInLog(inp.pr, inp.members, e);
        }
        NoEntryNoRow(es, inp.since, c);
      }
    }
  }

  function LastFeeder(p: Piece): nat
    requires p.feeders != []
  {
    p.feeders[|p.feeders| - 1]
  }

  // ---- every join that is called for is made ----

  // There is a reason not to read chunk c into the piece: both are long enough,
  // or they are too long together.
  predicate Apart(sz: Sizes, inp: Input, p: Piece, c: nat)
    requires ChunkId(inp, c)
  {
    var length, next := MemberLength(inp.pr, p.lines), LengthOf(inp, c);
    (length >= sz.min && next >= sz.min) || (sz.max != 0 && length + next > sz.max)
  }

  // Two pieces one after the other: the second goes on with the chunk the first
  // ended in, or begins with one that is apart from it.
  predicate Follows(sz: Sizes, inp: Input, p: Piece, q: Piece) {
    && p.feeders != [] && q.feeders != [] && ChunkId(inp, q.feeders[0])
    && (LastFeeder(p) == q.feeders[0] || Apart(sz, inp, p, q.feeders[0]))
  }

  ghost predicate AllFollow(sz: Sizes, inp: Input, ps: seq<Piece>) {
    forall k :: 0 <= k < |ps| - 1 ==> Follows(sz, inp, ps[k], ps[k + 1])
  }

  // The state before line n of chunk c. The last finished piece is followed by
  // the open one, or can be followed by one that begins with the line.
  ghost predicate Proper(sz: Sizes, inp: Input, c: nat, n: nat, s: State)
    requires ChunkId(inp, c)
  {
    && AllFollow(sz, inp, s.done)
    && (s.open.Some? ==> s.open.value.feeders != [])
    && (s.open.Some? && n > 0 ==> LastFeeder(s.open.value) == c)
    && (s.done != [] ==>
          var p := s.done[|s.done| - 1];
          && p.feeders != []
          && (if s.open.Some? then Follows(sz, inp, p, s.open.value)
              else if n == 0 then Apart(sz, inp, p, c)
              else LastFeeder(p) == c && sz.max != 0 && MemberLength(inp.pr, p.lines) >= sz.max))
  }

  lemma FollowsAtEnd(sz: Sizes, inp: Input, ps: seq<Piece>, q: Piece)
    requires AllFollow(sz, inp, ps) && (ps != [] ==> Follows(sz, inp, ps[|ps| - 1], q))
    ensures AllFollow(sz, inp, ps + [q])
  {
    hide Follows;
  }

  lemma StepIsProper(sz: Sizes, inp: Input, c: nat, n: nat, length: nat, kept: seq<Line>, s: State)
    requires ChunkId(inp, c) && Proper(sz, inp, c, n, s)
    ensures Proper(sz, inp, c, n + 1, StepLine(sz, inp.pr, length, c, kept, s))
  {
    hide MemberLength, LengthOf, AllFollow;
    var q := Feed(Opened(s), c).(lines := Opened(s).lines + kept);
    assert q.feeders != [] && LastFeeder(q) == c;
    assert s.done != [] ==> Follows(sz, inp, s.done[|s.done| - 1], q);
    FollowsAtEnd(sz, inp, s.done, q);
  }

  lemma {:induction false} StepsAreProper(sz: Sizes, inp: Input, c: nat, n: nat, s: State)
    requires ChunkId(inp, c) && n <= |LinesOf(inp, c)| && Proper(sz, inp, c, 0, s)
    ensures Proper(sz, inp, c, n, StepLines(sz, inp, c, n, s))
  {
    hide Proper, StepLine, KeptOf, LengthOf;
    if n == 0 {
      NoStepsYet(sz, inp, c, s);
    } else {
      StepsAreProper(sz, inp, c, n - 1, s);
      StepIsProper(sz, inp, c, n - 1, LengthOf(inp, c), KeptOf(inp, c, n - 1), StepLines(sz, inp, c, n - 1, s));
      OneStep(sz, inp, c, n - 1, s);
    }
  }

  // At the end of chunk c, before chunk next.
  lemma EndIsProper(sz: Sizes, inp: Input, c: nat, n: nat, next: nat, s: State)
    requires ChunkId(inp, c) && ChunkId(inp, next) && n > 0 && Proper(sz, inp, c, n, s)
    ensures Proper(sz, inp, next, 0, EndChunk(sz, inp.pr, Some(LengthOf(inp, next)), s))
  {
    hide LinesLength, AllFollow, LinesOf;
    if s.open.Some? {
      FollowsAtEnd(sz, inp, s.done, s.open.value);
    }
  }

  lemma LastEndIsProper(sz: Sizes, inp: Input, c: nat, n: nat, s: State)
    requires ChunkId(inp, c) && Proper(sz, inp, c, n, s)
    ensures AllFollow(sz, inp, EndChunk(sz, inp.pr, None, s).done)
    ensures EndChunk(sz, inp.pr, None, s).open.None?
  {
    hide MemberLength, AllFollow, Follows;
    if s.open.Some? {
      FollowsAtEnd(sz, inp, s.done, s.open.value);
    }
  }

  lemma {:induction false} RunIsProper(sz: Sizes, inp: Input, i: nat)
    requires NonEmptyChunks(inp) && i <= |Ids(inp)|
    ensures var s := RunChunks(sz, inp, Ids(inp), i);
      && AllFollow(sz, inp, s.done)
      && (i < |Ids(inp)| ==> Proper(sz, inp, Ids(inp)[i], 0, s))
      && (i == |Ids(inp)| ==> s.open.None?)
  {
    hide Proper, StepLines, EndChunk, LengthOf, LiveIds;
    var ids := Ids(inp);
    if i == 0 {
      StartIsProper(sz, inp);
    } else {
      var c := ids[i - 1];
      var s := RunChunks(sz, inp, ids, i - 1);
      RunIsProper(sz, inp, i - 1);
      StepsAreProper(sz, inp, c, |LinesOf(inp, c)|, s);
      var s' := StepLines(sz, inp, c, |LinesOf(inp, c)|, s);
      if i < |ids| {
        EndIsProper(sz, inp, c, |LinesOf(inp, c)|, ids[i], s');
        ProperFollows(sz, inp, ids[i], 0, RunChunks(sz, inp, ids, i));
      } else {
        LastEndIsProper(sz, inp, c, |LinesOf(inp, c)|, s');
      }
    }
  }

  lemma StartIsProper(sz: Sizes, inp: Input)
    ensures AllFollow(sz, inp, START.done) && START.open.None?
    ensures forall c :: ChunkId(inp, c) ==> Proper(sz, inp, c, 0, START)
  {
  }

  lemma ProperFollows(sz: Sizes, inp: Input, c: nat, n: nat, s: State)
    requires ChunkId(inp, c) && Proper(sz, inp, c, n, s)
    ensures AllFollow(sz, inp, s.done)
  {
  }

  // Of two chunks that a compaction writes one after the other, the second goes
  // on where the first was split, or begins with a chunk that could not be joined
  // to it: both were long enough, or together they would have been too long.
  lemma JoinsAreMade(sz: Sizes, inp: Input, k: nat)
    requires inp.t == IndexLog(inp.pr, inp.members) && k + 1 < |Run(sz, inp).done|
    ensures var p, q := Run(sz, inp).done[k], Run(sz, inp).done[k + 1];
      && p.feeders != [] && q.feeders != [] && ChunkId(inp, q.feeders[0])
      && (p.feeders[|p.feeders| - 1] != q.feeders[0] ==>
            var length, next := MemberLength(inp.pr, p.lines), LengthOf(inp, q.feeders[0]);
            (length >= sz.min && next >= sz.min) || (sz.max != 0 && length + next > sz.max))
  {
    hide RunChunks, MemberLength, LengthOf, IndexLog, LiveIds;
    LiveChunksHaveLines(inp);
    RunIsProper(sz, inp, |Ids(inp)|);
    assert Follows(sz, inp, Run(sz, inp).done[k], Run(sz, inp).done[k + 1]);
  }

  // ---- and no other ----

  // A piece is left open for the next chunk only if one of the two is too short,
  // and together they are not too long.
  lemma JoinsAreCalledFor(sz: Sizes, inp: Input, i: nat)
    requires PruningNeverLengthens(inp.pr) && SizesFit(sz, inp)
    requires i < |Ids(inp)| && RunChunks(sz, inp, Ids(inp), i).open.Some?
    ensures var length := MemberLength(inp.pr, RunChunks(sz, inp, Ids(inp), i).open.value.lines);
      var next := LengthOf(inp, Ids(inp)[i]);
      && (length < sz.min || next < sz.min)
      && (sz.max != 0 ==> length + next <= sz.max)
  {
    hide MidWithin, DoneWithin, StepLines, PruningNeverLengthens, SizesFit, LengthOf, LinesLength, LiveIds;
    var ids := Ids(inp);
    var c := ids[i - 1];
    var s := RunChunks(sz, inp, ids, i - 1);
    RunWithin(sz, inp, ids, i - 1);
    StepLinesWithin(sz, inp, c, |LinesOf(inp, c)|, s);
    EndChunkWithin(sz, inp, c, Some(ids[i]), StepLines(sz, inp, c, |LinesOf(inp, c)|, s));
  }

  // ---- without a maximum ----

  lemma {:induction false} NoMaximumNoSplit(sz: Sizes, inp: Input, c: nat, n: nat, s: State)
    requires ChunkId(inp, c) && n <= |LinesOf(inp, c)| && sz.max == 0
    ensures StepLines(sz, inp, c, n, s).done == s.done
  {
    hide KeptOf, LengthOf;
    if n != 0 {
      NoMaximumNoSplit(sz, inp, c, n - 1, s);
    }
  }

  ghost predicate Filled(sz: Sizes, pr: Printer, ps: seq<Piece>, n: int)
    requires n <= |ps|
  {
    forall k :: 0 <= k < n ==> MemberLength(pr, ps[k].lines) >= sz.min
  }

  lemma {:induction false} RunFills(sz: Sizes, inp: Input, i: nat)
    requires sz.max == 0 && i <= |Ids(inp)|
    ensures var done := RunChunks(sz, inp, Ids(inp), i).done;
      && Filled(sz, inp.pr, done, |done| - 1)
      && (i < |Ids(inp)| ==> Filled(sz, inp.pr, done, |done|))
  {
    hide StepLines, LengthOf, MemberLength, LiveIds;
    if i != 0 {
      var c := Ids(inp)[i - 1];
      RunFills(sz, inp, i - 1);
      NoMaximumNoSplit(sz, inp, c, |LinesOf(inp, c)|, RunChunks(sz, inp, Ids(inp), i - 1));
    }
  }

  // Without a maximum every chunk that is written, except the last, is at least
  // as long as the minimum.
  lemma NoMaximumFills(sz: Sizes, inp: Input, k: nat)
    requires sz.max == 0 && k + 1 < |Run(sz, inp).done|
    ensures MemberLength(inp.pr, Run(sz, inp).done[k].lines) >= sz.min
  {
    hide RunChunks, MemberLength;
    RunFills(sz, inp, |Ids(inp)|);
    NoneLeftOpen(sz, inp);
  }

  lemma NoneLeftOpen(sz: Sizes, inp: Input)
    ensures RunChunks(sz, inp, Ids(inp), |Ids(inp)|).open.None?
  {
    hide StepLines;
  }

  // ---- with one ----

  ghost predicate LongestLine(inp: Input, longest: nat) {
    forall c :: ChunkId(inp, c) ==> forall line :: line in LinesOf(inp, c) ==> |inp.pr(line)| <= longest
  }

  ghost predicate NoneTooLong(sz: Sizes, pr: Printer, ps: seq<Piece>, longest: nat) {
    forall k :: 0 <= k < |ps| ==> MemberLength(pr, ps[k].lines) <= sz.max + sz.min + longest
  }

  // An open piece is still too short to be split, or the chunk it is read from is
  // too short for that.
  ghost predicate NotDue(sz: Sizes, inp: Input, c: nat, s: State, longest: nat)
    requires ChunkId(inp, c)
  {
    && NoneTooLong(sz, inp.pr, s.done, longest)
    && (s.open.Some? ==>
          || MemberLength(inp.pr, s.open.value.lines) <= sz.max
          || LengthOf(inp, c) <= sz.max + sz.min + longest)
  }

  lemma OpenedIsNotDue(sz: Sizes, inp: Input, c: nat, s: State, longest: nat)
    requires ChunkId(inp, c) && NotDue(sz, inp, c, s, longest) && sz.max >= HEADER_LENGTH
    ensures MemberLength(inp.pr, Opened(s).lines) <= sz.max || LengthOf(inp, c) <= sz.max + sz.min + longest
  {
    NoLines(inp.pr, []);
  }

  lemma StepNotDue(sz: Sizes, inp: Input, c: nat, n: nat, s: State, longest: nat)
    requires PruningNeverLengthens(inp.pr) && SizesFit(sz, inp) && LongestLine(inp, longest)
    requires sz.max >= HEADER_LENGTH
    requires ChunkId(inp, c) && n < |LinesOf(inp, c)| && MidWithin(sz, inp, c, n, s)
    requires NotDue(sz, inp, c, s, longest)
    ensures NotDue(sz, inp, c, StepLine(sz, inp.pr, LengthOf(inp, c), c, KeptOf(inp, c, n), s), longest)
  {
    hide MidWithin, KeptOf, LinesLength, PruningNeverLengthens, MemberLength, SizesFit;
    TargetWithin(sz, inp, c, n, s);
    TargetLength(inp, c, n, s);
    OpenedIsNotDue(sz, inp, c, s, longest);
    SizesFitHere(sz, inp, c);
    assert LinesOf(inp, c)[n] in LinesOf(inp, c);
    hide LengthOf;
    var q := Target(inp, c, n, s);
    assert Wrote(inp.pr, q) == MemberLength(inp.pr, q.lines);
    assert Wrote(inp.pr, q) <= sz.max + longest || LengthOf(inp, c) <= sz.max + sz.min + longest;
  }

  lemma {:induction false} StepsNotDue(sz: Sizes, inp: Input, c: nat, n: nat, s: State, longest: nat)
    requires PruningNeverLengthens(inp.pr) && SizesFit(sz, inp) && LongestLine(inp, longest)
    requires sz.max >= HEADER_LENGTH
    requires ChunkId(inp, c) && n <= |LinesOf(inp, c)| && MidWithin(sz, inp, c, 0, s)
    requires NotDue(sz, inp, c, s, longest)
    ensures NotDue(sz, inp, c, StepLines(sz, inp, c, n, s), longest)
  {
    hide MidWithin, NotDue, StepLine, StepLines, KeptOf, PruningNeverLengthens, SizesFit, LengthOf, LongestLine;
    if n == 0 {
      NoStepsYet(sz, inp, c, s);
    } else {
      StepsNotDue(sz, inp, c, n - 1, s, longest);
      StepLinesWithin(sz, inp, c, n - 1, s);
      StepNotDue(sz, inp, c, n - 1, StepLines(sz, inp, c, n - 1, s), longest);
      OneStep(sz, inp, c, n - 1, s);
    }
  }

  lemma EndNotTooLong(sz: Sizes, inp: Input, c: nat, next: Option<nat>, s: State, longest: nat)
    requires ChunkId(inp, c) && MidWithin(sz, inp, c, |LinesOf(inp, c)|, s) && sz.max != 0
    requires NotDue(sz, inp, c, s, longest)
    ensures NoneTooLong(sz, inp.pr, EndChunk(sz, inp.pr, next, s).done, longest)
  {
    hide LinesLength, WantCombine, DoneWithin;
    var lines := LinesOf(inp, c);
    assert lines[..|lines|] == lines;
  }

  // Before chunk c, an open piece is no longer than the maximum.
  lemma StartNotDue(sz: Sizes, inp: Input, c: nat, s: State, longest: nat)
    requires ChunkId(inp, c) && MidWithin(sz, inp, c, 0, s) && sz.max >= HEADER_LENGTH
    requires NoneTooLong(sz, inp.pr, s.done, longest)
    ensures NotDue(sz, inp, c, s, longest)
  {
    hide DoneWithin, NoneTooLong, LinesLength;
    NoLines(inp.pr, LinesOf(inp, c));
    PrefixLength(inp.pr, LinesOf(inp, c), 0);
  }

  lemma {:induction false} RunNotTooLong(sz: Sizes, inp: Input, i: nat, longest: nat)
    requires PruningNeverLengthens(inp.pr) && SizesFit(sz, inp) && LongestLine(inp, longest)
    requires sz.max >= HEADER_LENGTH && i <= |Ids(inp)|
    ensures NoneTooLong(sz, inp.pr, RunChunks(sz, inp, Ids(inp), i).done, longest)
  {
    hide MidWithin, NotDue, NoneTooLong, StepLines, StepLine, EndChunk, PruningNeverLengthens, SizesFit, LengthOf,
         LongestLine, LiveIds;
    var ids := Ids(inp);
    if i == 0 {
      NothingTooLong(sz, inp, longest);
    } else {
      var c := ids[i - 1];
      var s := RunChunks(sz, inp, ids, i - 1);
      RunNotTooLong(sz, inp, i - 1, longest);
      RunWithin(sz, inp, ids, i - 1);
      StartNotDue(sz, inp, c, s, longest);
      StepsNotDue(sz, inp, c, |LinesOf(inp, c)|, s, longest);
      StepLinesWithin(sz, inp, c, |LinesOf(inp, c)|, s);
      EndNotTooLong(sz, inp, c, NextLength(inp, ids, i), StepLines(sz, inp, c, |LinesOf(inp, c)|, s), longest);
    }
  }

  lemma NothingTooLong(sz: Sizes, inp: Input, longest: nat)
    ensures NoneTooLong(sz, inp.pr, START.done, longest)
  {
  }

  // With a maximum, every chunk that is written is no longer than the maximum,
  // the minimum and the longest line together: what goes beyond the maximum is
  // split off in time, unless it is too short to be a chunk.
  lemma PiecesAreBounded(sz: Sizes, inp: Input, k: nat, longest: nat)
    requires PruningNeverLengthens(inp.pr) && SizesFit(sz, inp) && LongestLine(inp, longest)
    requires sz.max >= HEADER_LENGTH && k < |Run(sz, inp).done|
    ensures MemberLength(inp.pr, Run(sz, inp).done[k].lines) <= sz.max + sz.min + longest
  {
    hide RunChunks, MemberLength, PruningNeverLengthens, SizesFit, LongestLine;
    RunNotTooLong(sz, inp, |Ids(inp)|, longest);
    NoneLeftOpen(sz, inp);
  }
}
