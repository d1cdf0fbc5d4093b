// Size arithmetic of a compaction run, on 64-bit unsigned sizes.

module ChunkSizes {
  import opened Options
  import opened Log
  import opened Index
  import opened Pruning
  import opened Boundaries

  // Pruning a line never makes it print longer.
  ghost predicate PruningNeverLengthens(pr: Printer) {
    forall t, since, e :: KeepLine(t, since, e) != [] ==> |pr(KeepLine(t, since, e)[0])| <= |pr(e.line)|
  }

  // Lengths come from a signed 64-bit column, sizes from 1024 times an int.
  ghost predicate SizesFit(sz: Sizes, inp: Input) {
    && sz.min < SIZE_MOD / 4 && sz.max < SIZE_MOD / 4
    && forall c :: ChunkId(inp, c) ==> LengthOf(inp, c) < SIZE_MOD / 2
  }

  function Wrote(pr: Printer, p: Piece): nat {
    MemberLength(pr, p.lines)
  }

  ghost predicate PieceWithin(sz: Sizes, pr: Printer, p: Piece) {
    sz.max != 0 && |p.feeders| >= 2 ==> Wrote(pr, p) <= sz.max
  }

  ghost predicate DoneWithin(sz: Sizes, pr: Printer, s: State) {
    forall i :: 0 <= i < |s.done| ==> PieceWithin(sz, pr, s.done[i])
  }

  // After n lines of chunk c, an open piece was either begun in c, and is no
  // longer than what has been read of c; or it will fit with all the rest of c.
  ghost predicate OpenWithin(sz: Sizes, inp: Input, c: nat, n: nat, p: Piece)
    requires ChunkId(inp, c) && n <= |LinesOf(inp, c)|
  {
    var lines := LinesOf(inp, c);
    || (p.feeders == [c] && Wrote(inp.pr, p) <= MemberLength(inp.pr, lines[..n]))
    || (sz.max != 0 ==> Wrote(inp.pr, p) + LengthOf(inp, c) - LinesLength(inp.pr, lines[..n]) <= sz.max)
  }

  ghost predicate MidWithin(sz: Sizes, inp: Input, c: nat, n: nat, s: State)
    requires ChunkId(inp, c) && n <= |LinesOf(inp, c)|
  {
    DoneWithin(sz, inp.pr, s) && (s.open.Some? ==> OpenWithin(sz, inp, c, n, s.open.value))
  }

  lemma {:induction false} PrefixLength(pr: Printer, lines: seq<Line>, n: nat)
    requires n <= |lines|
    ensures LinesLength(pr, lines[..n]) <= LinesLength(pr, lines)
    decreases |lines|
  {
    if n < |lines| {
      PrefixLength(pr, lines[..|lines| - 1], n);
      assert lines[..|lines| - 1][..n] == lines[..n];
    } else {
      assert lines[..n] == lines;
    }
  }

  lemma KeptLength(pr: Printer, lines: seq<Line>, kept: seq<Line>)
    requires |kept| <= 1
    ensures MemberLength(pr, lines + kept) == MemberLength(pr, lines) + if kept == [] then 0 else |pr(kept[0])|
  {
    if kept != [] {
      assert (lines + kept)[..|lines|] == lines;
    } else {
      assert lines + kept == lines;
    }
  }

  // The piece that line n of chunk c is written to, before any split.
  function Target(inp: Input, c: nat, n: nat, s: State): Piece
    requires ChunkId(inp, c) && n < |LinesOf(inp, c)|
  {
    var p := Feed(Opened(s), c);
    p.(lines := p.lines + KeptOf(inp, c, n))
  }

  // Reading one line more: the prefix grows by the line.
  lemma PrefixStep(pr: Printer, lines: seq<Line>, n: nat)
    requires n < |lines|
    ensures LinesLength(pr, lines[..n + 1]) == LinesLength(pr, lines[..n]) + |pr(lines[n])| <= LinesLength(pr, lines)
  {
    assert lines[..n + 1][..n] == lines[..n];
    PrefixLength(pr, lines, n + 1);
  }

  // What is copied of a line is no longer than the line.
  lemma KeptIsNoLonger(inp: Input, c: nat, n: nat)
    requires PruningNeverLengthens(inp.pr) && ChunkId(inp, c) && n < |LinesOf(inp, c)|
    ensures |KeptOf(inp, c, n)| <= 1
    ensures KeptOf(inp, c, n) != [] ==> |inp.pr(KeptOf(inp, c, n)[0])| <= |inp.pr(LinesOf(inp, c)[n])|
  {
    hide KeepLine;
    var e := Entry(c, LineOffset(inp.pr, LinesOf(inp, c), n), LinesOf(inp, c)[n]);
    KeptAtMostOne(inp.t, inp.since, e);
    assert KeepLine(inp.t, inp.since, e) == KeptOf(inp, c, n);
  }

  lemma TargetLength(inp: Input, c: nat, n: nat, s: State)
    requires PruningNeverLengthens(inp.pr) && ChunkId(inp, c) && n < |LinesOf(inp, c)|
    ensures Wrote(inp.pr, Target(inp, c, n, s)) <= Wrote(inp.pr, Opened(s)) + |inp.pr(LinesOf(inp, c)[n])|
    ensures Target(inp, c, n, s).feeders == Feed(Opened(s), c).feeders
  {
    hide KeptOf, PruningNeverLengthens, LinesLength;
    KeptIsNoLonger(inp, c, n);
    KeptLength(inp.pr, Opened(s).lines, KeptOf(inp, c, n));
  }

  lemma TargetWithin(sz: Sizes, inp: Input, c: nat, n: nat, s: State)
    requires PruningNeverLengthens(inp.pr)
    requires ChunkId(inp, c) && n < |LinesOf(inp, c)|
    requires MidWithin(sz, inp, c, n, s)
    ensures OpenWithin(sz, inp, c, n + 1, Target(inp, c, n, s))
    ensures |Target(inp, c, n, s).feeders| >= 2 && sz.max != 0 ==> Wrote(inp.pr, Target(inp, c, n, s)) <= sz.max
    ensures ReachesSubtraction(sz, LengthOf(inp, c), Some(Wrote(inp.pr, Target(inp, c, n, s)))) && SizesFit(sz, inp)
      ==> Wrote(inp.pr, Target(inp, c, n, s)) <= LengthOf(inp, c)
  {
    hide KeptOf, LinesLength, PruningNeverLengthens, Target, LinesOf;
    TargetLength(inp, c, n, s);
    PrefixStep(inp.pr, LinesOf(inp, c), n);
    NoLines(inp.pr, LinesOf(inp, c));
  }

  lemma NoLines(pr: Printer, lines: seq<Line>)
    ensures LinesLength(pr, []) == 0 && LinesLength(pr, lines[..0]) == 0
  {
  }

  lemma StepLineWithin(sz: Sizes, inp: Input, c: nat, n: nat, s: State)
    requires PruningNeverLengthens(inp.pr)
    requires ChunkId(inp, c) && n < |LinesOf(inp, c)|
    requires MidWithin(sz, inp, c, n, s)
    ensures MidWithin(sz, inp, c, n + 1, StepLine(sz, inp.pr, LengthOf(inp, c), c, KeptOf(inp, c, n), s))
  {
    hide OpenWithin, KeepLine, WantSplit, PruningNeverLengthens, Wrote;
    TargetWithin(sz, inp, c, n, s);
  }

  lemma OneStep(sz: Sizes, inp: Input, c: nat, n: nat, s: State)
    requires ChunkId(inp, c) && n < |LinesOf(inp, c)|
    ensures StepLines(sz, inp, c, n + 1, s)
      == StepLine(sz, inp.pr, LengthOf(inp, c), c, KeptOf(inp, c, n), StepLines(sz, inp, c, n, s))
  {
  }

  lemma {:induction false} StepLinesWithin(sz: Sizes, inp: Input, c: nat, n: nat, s: State)
    requires PruningNeverLengthens(inp.pr)
    requires ChunkId(inp, c) && n <= |LinesOf(inp, c)|
    requires MidWithin(sz, inp, c, 0, s)
    ensures MidWithin(sz, inp, c, n, StepLines(sz, inp, c, n, s))
  {
    hide MidWithin, StepLine, StepLines, KeptOf, PruningNeverLengthens;
    if n == 0 {
      NoStepsYet(sz, inp, c, s);
    } else {
      StepLinesWithin(sz, inp, c, n - 1, s);
      StepLineWithin(sz, inp, c, n - 1, StepLines(sz, inp, c, n - 1, s));
      OneStep(sz, inp, c, n - 1, s);
    }
  }

  lemma NoStepsYet(sz: Sizes, inp: Input, c: nat, s: State)
    requires ChunkId(inp, c)
    ensures StepLines(sz, inp, c, 0, s) == s
  {
  }

  // The addition in want_combine does not wrap, and a joined piece has room
  // for the whole of the next chunk.
  lemma EndChunkWithin(sz: Sizes, inp: Input, c: nat, next: Option<nat>, s: State)
    requires SizesFit(sz, inp)
    requires ChunkId(inp, c) && MidWithin(sz, inp, c, |LinesOf(inp, c)|, s)
    requires next.Some? ==> ChunkId(inp, next.value)
    ensures var len := if next.Some? then Some(LengthOf(inp, next.value)) else None;
      var s' := EndChunk(sz, inp.pr, len, s);
      && DoneWithin(sz, inp.pr, s')
      && (s'.open.Some? ==>
            && next.Some?
            && (sz.max != 0 ==> Wrote(inp.pr, s.open.value) + len.value < SIZE_MOD)
            && MidWithin(sz, inp, next.value, 0, s'))
  {
    var lines := LinesOf(inp, c);
    assert lines[..|lines|] == lines;
  }

  lemma ClosedWithin(sz: Sizes, inp: Input, c: nat, s: State)
    requires ChunkId(inp, c) && s.open.None? && DoneWithin(sz, inp.pr, s)
    ensures MidWithin(sz, inp, c, 0, s)
  {
  }

  lemma StartWithin(sz: Sizes, inp: Input)
    ensures DoneWithin(sz, inp.pr, START)
  {
  }

  // Between chunks: nothing joined is too long, and an open piece has room.
  lemma {:induction false} RunWithin(sz: Sizes, inp: Input, ids: seq<nat>, i: nat)
    requires PruningNeverLengthens(inp.pr) && SizesFit(sz, inp)
    requires ChunkIds(inp, ids) && i <= |ids|
    ensures var s := RunChunks(sz, inp, ids, i);
      && DoneWithin(sz, inp.pr, s)
      && (i == |ids| ==> s.open.None?)
      && (i < |ids| ==> MidWithin(sz, inp, ids[i], 0, s))
  {
    hide MidWithin, DoneWithin, StepLines, StepLine, EndChunk, KeepLine, PruningNeverLengthens, SizesFit, LengthOf;
    StartWithin(sz, inp);
    if i != 0 {
      RunWithin(sz, inp, ids, i - 1);
      var c := ids[i - 1];
      var s := RunChunks(sz, inp, ids, i - 1);
      StepLinesWithin(sz, inp, c, |LinesOf(inp, c)|, s);
      EndChunkWithin(sz, inp, c, if i < |ids| then Some(ids[i]) else None,
                     StepLines(sz, inp, c, |LinesOf(inp, c)|, s));
    }
    if i < |ids| && RunChunks(sz, inp, ids, i).open.None? {
      ClosedWithin(sz, inp, ids[i], RunChunks(sz, inp, ids, i));
    }
  }

  // With a maximum size, an output chunk that was fed by two or more input
  // chunks is no longer than that maximum.
  lemma JoinedChunksStayWithinMaximum(sz: Sizes, inp: Input, k: nat)
    requires PruningNeverLengthens(inp.pr) && SizesFit(sz, inp)
    requires k < |Run(sz, inp).done| && sz.max != 0 && |Run(sz, inp).done[k].feeders| >= 2
    ensures MemberLength(inp.pr, Run(sz, inp).done[k].lines) <= sz.max
  {
    var ids := LiveIds(inp.t, inp.since, |inp.members|);
    RunWithin(sz, inp, ids, |ids|);
  }

  // The state in which line n of the i-th kept chunk is read.
  function Reached(sz: Sizes, inp: Input, i: nat, n: nat): State
    requires i < |LiveIds(inp.t, inp.since, |inp.members|)|
    requires n <= |LinesOf(inp, LiveIds(inp.t, inp.since, |inp.members|)[i])|
  {
    var ids := LiveIds(inp.t, inp.since, |inp.members|);
    StepLines(sz, inp, ids[i], n, RunChunks(sz, inp, ids, i))
  }

  // Wherever a run gets to the subtraction in want_split, what is written is
  // no more than the length it is subtracted from.
  lemma SplitSubtractionNeverWraps(sz: Sizes, inp: Input, i: nat, n: nat)
    requires PruningNeverLengthens(inp.pr) && SizesFit(sz, inp)
    requires i < |LiveIds(inp.t, inp.since, |inp.members|)|
    requires n < |LinesOf(inp, LiveIds(inp.t, inp.since, |inp.members|)[i])|
    ensures var c := LiveIds(inp.t, inp.since, |inp.members|)[i];
      var wrote := Wrote(inp.pr, Target(inp, c, n, Reached(sz, inp, i, n)));
      ReachesSubtraction(sz, LengthOf(inp, c), Some(wrote)) ==> wrote <= LengthOf(inp, c)
  {
    var ids := LiveIds(inp.t, inp.since, |inp.members|);
    RunWithin(sz, inp, ids, i);
    StepLinesWithin(sz, inp, ids[i], n, RunChunks(sz, inp, ids, i));
    TargetWithin(sz, inp, ids[i], n, Reached(sz, inp, i, n));
  }

  // ---- what a split leaves ----

  // Lines m to n - 1 of chunk c are copied as they are.
  ghost predicate CopiedWhole(inp: Input, c: nat, m: nat, n: nat)
    requires ChunkId(inp, c) && n <= |LinesOf(inp, c)|
  {
    forall k :: m <= k < n ==> KeptOf(inp, c, k) == [LinesOf(inp, c)[k]]
  }

  // Of lines m to n of chunk c, with no piece open before them, n is the first
  // after which the piece is closed.
  ghost predicate SplitAfter(sz: Sizes, inp: Input, c: nat, m: nat, n: nat, s: State)
    requires ChunkId(inp, c) && m <= n < |LinesOf(inp, c)|
  {
    && StepLines(sz, inp, c, m, s).open.None?
    && (forall k :: m < k <= n ==> StepLines(sz, inp, c, k, s).open.Some?)
    && StepLines(sz, inp, c, n + 1, s).open.None?
  }

  // A step that leaves the piece open adds to it, and one that does not has
  // found it worth splitting.
  lemma UnsplitStep(sz: Sizes, pr: Printer, length: nat, c: nat, kept: seq<Line>, s: State)
    ensures var after := StepLine(sz, pr, length, c, kept, s);
      var p := Piece(Opened(s).lines + kept, Feed(Opened(s), c).feeders);
      if after.open.Some? then after == State(s.done, Some(p))
      else after.done == s.done + [p] && WantSplit(sz, length, Some(MemberLength(pr, p.lines)))
  {
    hide WantSplit, MemberLength;
  }

  // Until it is closed, the piece holds what has been read since the last split.
  lemma {:induction false} UnsplitPiece(sz: Sizes, inp: Input, c: nat, m: nat, n: nat, s: State)
    requires ChunkId(inp, c) && m <= n <= |LinesOf(inp, c)| && CopiedWhole(inp, c, m, n)
    requires StepLines(sz, inp, c, m, s).open.None?
    requires forall k :: m < k <= n ==> StepLines(sz, inp, c, k, s).open.Some?
    ensures var s' := StepLines(sz, inp, c, n, s);
      && s'.done == StepLines(sz, inp, c, m, s).done
      && Opened(s').lines == LinesOf(inp, c)[m..n]
      && Feed(Opened(s'), c).feeders == [c]
  {
    hide KeptOf, WantSplit, StepLine, StepLines;
    if m < n {
      UnsplitPiece(sz, inp, c, m, n - 1, s);
      OneStep(sz, inp, c, n - 1, s);
      UnsplitStep(sz, inp.pr, LengthOf(inp, c), c, KeptOf(inp, c, n - 1), StepLines(sz, inp, c, n - 1, s));
      assert LinesOf(inp, c)[m..n] == LinesOf(inp, c)[m..n - 1] + [LinesOf(inp, c)[n - 1]];
    }
  }

  lemma SizesFitHere(sz: Sizes, inp: Input, c: nat)
    requires SizesFit(sz, inp) && ChunkId(inp, c)
    ensures LengthOf(inp, c) < SIZE_MOD / 2 && sz.min < SIZE_MOD / 4 && sz.max < SIZE_MOD / 4
  {
  }

  lemma {:induction false} LengthOfBoth(pr: Printer, a: seq<Line>, b: seq<Line>)
    ensures LinesLength(pr, a + b) == LinesLength(pr, a) + LinesLength(pr, b)
  {
    if b == [] {
      assert a + b == a;
    } else {
      LengthOfBoth(pr, a, b[..|b| - 1]);
      assert (a + b)[..|a + b| - 1] == a + b[..|b| - 1];
    }
  }

  lemma LengthOfThree(pr: Printer, lines: seq<Line>, m: nat, n: nat)
    requires m <= n <= |lines|
    ensures LinesLength(pr, lines)
         == LinesLength(pr, lines[..m]) + LinesLength(pr, lines[m..n]) + LinesLength(pr, lines[n..])
  {
    hide LinesLength;
    LengthOfBoth(pr, lines[..m], lines[m..n]);
    LengthOfBoth(pr, lines[..n], lines[n..]);
    assert lines[..m] + lines[m..n] == lines[..n] && lines[..n] + lines[n..] == lines;
  }

  // A split compares the piece it ends, which is at least as long as the
  // maximum, with the whole chunk. What is really left of the chunk is less by
  // what the splits before it have taken, and is more than the minimum exactly
  // if there is that much to spare.
  lemma SplitLeaves(sz: Sizes, inp: Input, c: nat, m: nat, n: nat, s: State)
    requires SizesFit(sz, inp) && ChunkId(inp, c) && m <= n < |LinesOf(inp, c)|
    requires CopiedWhole(inp, c, m, n + 1) && SplitAfter(sz, inp, c, m, n, s)
    ensures var lines := LinesOf(inp, c);
      var wrote := MemberLength(inp.pr, lines[m..n + 1]);
      var taken := LinesLength(inp.pr, lines[..m]);
      var left := LinesLength(inp.pr, lines[n + 1..]);
      && StepLines(sz, inp, c, n + 1, s).done == StepLines(sz, inp, c, m, s).done + [Piece(lines[m..n + 1], [c])]
      && wrote >= sz.max
      && LengthOf(inp, c) - wrote > sz.min
      && left == LengthOf(inp, c) - wrote - taken
      && (left > sz.min <==> LengthOf(inp, c) - wrote > sz.min + taken)
  {
    hide KeptOf, StepLine, StepLines, LinesLength, SizesFit, LinesOf;
    var lines := LinesOf(inp, c);
    UnsplitPiece(sz, inp, c, m, n, s);
    OneStep(sz, inp, c, n, s);
    UnsplitStep(sz, inp.pr, LengthOf(inp, c), c, KeptOf(inp, c, n), StepLines(sz, inp, c, n, s));
    assert lines[m..n + 1] == lines[m..n] + [lines[n]];
    LengthOfThree(inp.pr, lines, m, n + 1);
    SizesFitHere(sz, inp, c);
  }

  // In particular the first split of a chunk ends a piece that is at least as
  // long as the maximum, and leaves more than the minimum.
  lemma FirstSplitLeavesEnough(sz: Sizes, inp: Input, c: nat, n: nat, s: State)
    requires SizesFit(sz, inp) && ChunkId(inp, c) && n < |LinesOf(inp, c)|
    requires CopiedWhole(inp, c, 0, n + 1) && SplitAfter(sz, inp, c, 0, n, s)
    ensures MemberLength(inp.pr, LinesOf(inp, c)[..n + 1]) >= sz.max
    ensures LengthOf(inp, c) - MemberLength(inp.pr, LinesOf(inp, c)[..n + 1]) > sz.min
    ensures LinesLength(inp.pr, LinesOf(inp, c)[n + 1..]) > sz.min
  {
    hide CopiedWhole, SplitAfter, SizesFit, LinesOf, LinesLength;
    SplitLeaves(sz, inp, c, 0, n, s);
    assert LinesOf(inp, c)[0..n + 1] == LinesOf(inp, c)[..n + 1];
    NoLines(inp.pr, LinesOf(inp, c));
  }

  // ---- joined chunks are not split ----

  // A piece is left open at the end of a chunk only if all of the next fits.
  lemma OpenPieceFits(sz: Sizes, inp: Input, ids: seq<nat>, i: nat)
    requires PruningNeverLengthens(inp.pr) && SizesFit(sz, inp)
    requires ChunkIds(inp, ids) && i < |ids| && sz.max != 0
    requires RunChunks(sz, inp, ids, i).open.Some?
    ensures LengthOf(inp, ids[i]) < sz.max
  {
    hide MidWithin, DoneWithin, StepLines, PruningNeverLengthens, SizesFit, LengthOf, LinesLength;
    var c := ids[i - 1];
    var s := RunChunks(sz, inp, ids, i - 1);
    RunWithin(sz, inp, ids, i - 1);
    StepLinesWithin(sz, inp, c, |LinesOf(inp, c)|, s);
    EndChunkWithin(sz, inp, c, Some(ids[i]), StepLines(sz, inp, c, |LinesOf(inp, c)|, s));
  }

  lemma ShortChunk(sz: Sizes, pr: Printer, length: nat, c: nat, kept: seq<Line>, s: State)
    requires sz.max == 0 || length < sz.max + sz.min < SIZE_MOD
    ensures StepLine(sz, pr, length, c, kept, s).open.Some?
  {
    hide MemberLength;
  }

  // So every split is of a chunk that began with no piece open.
  lemma JoinedChunksAreNotSplit(sz: Sizes, inp: Input, i: nat, n: nat)
    requires PruningNeverLengthens(inp.pr) && SizesFit(sz, inp)
    requires i < |LiveIds(inp.t, inp.since, |inp.members|)|
    requires n <= |LinesOf(inp, LiveIds(inp.t, inp.since, |inp.members|)[i])|
    requires Reached(sz, inp, i, 0).open.Some?
    ensures Reached(sz, inp, i, n).open.Some?
  {
    hide PruningNeverLengthens, SizesFit, LengthOf, KeptOf, StepLine, RunChunks;
    var ids := LiveIds(inp.t, inp.since, |inp.members|);
    if n != 0 {
      var s := RunChunks(sz, inp, ids, i);
      if sz.max != 0 {
        OpenPieceFits(sz, inp, ids, i);
      }
      SizesFitHere(sz, inp, ids[i]);
      ShortChunk(sz, inp.pr, LengthOf(inp, ids[i]), ids[i], KeptOf(inp, ids[i], n - 1),
                 StepLines(sz, inp, ids[i], n - 1, s));
    }
  }
}
