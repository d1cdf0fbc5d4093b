// compact_required: whether there is enough to do for a compaction.

module Required {
  import opened Options
  import opened Log
  import opened Index
  import opened Pruning
  import opened Boundaries
  import opened ChunkSizes
  import opened Pieces

  function Next(lengths: seq<nat>, k: nat): Option<nat> {
    if k + 1 < |lengths| then Some(lengths[k + 1]) else None
  }

  // How many joins and splits the first n kept chunks call for.
  function Work(sz: Sizes, lengths: seq<nat>, n: nat): nat
    requires n <= |lengths|
  {
    if n == 0 then 0
    else
      Work(sz, lengths, n - 1)
      + (if WantCombine(sz, lengths[n - 1], Next(lengths, n - 1)) then 1 else 0)
      + (if WantSplit(sz, lengths[n - 1], None) then 1 else 0)
  }

  lemma {:induction false} WorkGrows(sz: Sizes, lengths: seq<nat>, n: nat, m: nat)
    requires n <= m <= |lengths|
    ensures Work(sz, lengths, n) <= Work(sz, lengths, m)
  {
    if n < m {
      WorkGrows(sz, lengths, n, m - 1);
    }
  }

  // The early exits make no difference to the answer: joins and splits count if
  // there is a minimum, or a maximum, and no minimum that is not below it.
  method CompactRequired(sz: Sizes, threshold: nat, allChunks: nat, lengths: seq<nat>) returns (required: bool)
    requires threshold >= 1
    ensures var discarded := if allChunks > |lengths| then allChunks - |lengths| else 0;
      required <==>
        || discarded >= threshold
        || ((if sz.max == 0 then sz.min > 0 else sz.min < sz.max)
            && discarded + Work(sz, lengths, |lengths|) >= threshold)
  {
    var toBeCompacted := 0;
    if allChunks > |lengths| {
      toBeCompacted := toBeCompacted + (allChunks - |lengths|);
    }
    if toBeCompacted >= threshold {
      return true;
    }
    if sz.min == 0 && sz.max == 0 {
      return false;
    }
    if sz.min != 0 && sz.max != 0 && sz.min >= sz.max {
      return false;
    }
    ghost var discarded := toBeCompacted;
    var k := 0;
    while k < |lengths|
      invariant 0 <= k <= |lengths|
      invariant toBeCompacted == discarded + Work(sz, lengths, k) < threshold
    {
      if WantCombine(sz, lengths[k], Next(lengths, k)) {
        toBeCompacted := toBeCompacted + 1;
      }
      if WantSplit(sz, lengths[k], None) {
        toBeCompacted := toBeCompacted + 1;
      }
      if toBeCompacted >= threshold {
        WorkGrows(sz, lengths, k + 1, |lengths|);
        return true;
      }
      k := k + 1;
    }
    required := false;
  }

  // No work at all means that no chunk is to be split or joined to the next.
  lemma {:induction false} NoWork(sz: Sizes, lengths: seq<nat>, n: nat)
    requires n <= |lengths|
    ensures Work(sz, lengths, n) == 0 <==>
      forall k :: 0 <= k < n ==>
        !WantCombine(sz, lengths[k], Next(lengths, k)) && !WantSplit(sz, lengths[k], None)
  {
    if n != 0 {
      NoWork(sz, lengths, n - 1);
    }
  }

  ghost function Joins(sz: Sizes, lengths: seq<nat>, n: nat): set<nat>
    requires n <= |lengths|
  {
    set k: nat | k < n && WantCombine(sz, lengths[k], Next(lengths, k))
  }

  ghost function Splits(sz: Sizes, lengths: seq<nat>, n: nat): set<nat>
    requires n <= |lengths|
  {
    set k: nat | k < n && WantSplit(sz, lengths[k], None)
  }

  lemma OneMoreChunk(sz: Sizes, lengths: seq<nat>, n: nat)
    requires n < |lengths|
    ensures Joins(sz, lengths, n + 1)
         == Joins(sz, lengths, n) + if WantCombine(sz, lengths[n], Next(lengths, n)) then {n} else {}
    ensures Splits(sz, lengths, n + 1)
         == Splits(sz, lengths, n) + if WantSplit(sz, lengths[n], None) then {n} else {}
    ensures n !in Joins(sz, lengths, n) && n !in Splits(sz, lengths, n)
  {
    hide WantCombine, WantSplit, Next;
  }

  // The count is of the chunks to be joined and those to be split.
  lemma {:induction false} WorkCounts(sz: Sizes, lengths: seq<nat>, n: nat)
    requires n <= |lengths|
    ensures Work(sz, lengths, n) == |Joins(sz, lengths, n)| + |Splits(sz, lengths, n)|
  {
    hide Joins, Splits, WantCombine, WantSplit, Next;
    if n == 0 {
      NothingToCount(sz, lengths);
    } else {
      WorkCounts(sz, lengths, n - 1);
      OneMoreChunk(sz, lengths, n - 1);
    }
  }

  lemma NothingToCount(sz: Sizes, lengths: seq<nat>)
    ensures Joins(sz, lengths, 0) == {} && Splits(sz, lengths, 0) == {}
  {
  }

  // ---- a compaction that has nothing to do ----

  function Lengths(inp: Input): (lengths: seq<nat>)
    ensures |lengths| == |Ids(inp)|
  {
    seq(|Ids(inp)|, i requires 0 <= i < |Ids(inp)| => LengthOf(inp, Ids(inp)[i]))
  }

  // The chunks as they are.
  function AsTheyAre(inp: Input, ids: seq<nat>): seq<Piece>
    requires ChunkIds(inp, ids)
  {
    seq(|ids|, i requires 0 <= i < |ids| => Piece(LinesOf(inp, ids[i]), [ids[i]]))
  }

  lemma NotSplit(sz: Sizes, pr: Printer, length: nat, c: nat, kept: seq<Line>, s: State)
    requires !WantSplit(sz, length, None)
    ensures StepLine(sz, pr, length, c, kept, s)
         == State(s.done, Some(Piece(Opened(s).lines + kept, Feed(Opened(s), c).feeders)))
  {
    hide MemberLength;
  }

  // A chunk that is not to be split, and is copied whole, fills one piece.
  lemma {:induction false} WholeChunk(sz: Sizes, inp: Input, c: nat, n: nat, s: State)
    requires ChunkId(inp, c) && n <= |LinesOf(inp, c)| && s.open.None? && CopiedWhole(inp, c, 0, n)
    requires !WantSplit(sz, LengthOf(inp, c), None)
    ensures StepLines(sz, inp, c, n, s)
      == if n == 0 then s else State(s.done, Some(Piece(LinesOf(inp, c)[..n], [c])))
  {
    hide KeptOf, LengthOf, StepLine, StepLines, WantSplit;
    if n == 0 {
      NoStepsYet(sz, inp, c, s);
    } else {
      var before := StepLines(sz, inp, c, n - 1, s);
      WholeChunk(sz, inp, c, n - 1, s);
      OneStep(sz, inp, c, n - 1, s);
      NotSplit(sz, inp.pr, LengthOf(inp, c), c, KeptOf(inp, c, n - 1), before);
      assert KeptOf(inp, c, n - 1) == [LinesOf(inp, c)[n - 1]];
      assert LinesOf(inp, c)[..n] == LinesOf(inp, c)[..n - 1] + [LinesOf(inp, c)[n - 1]];
      assert Opened(before).lines == LinesOf(inp, c)[..n - 1];
      assert Feed(Opened(before), c).feeders == [c];
      assert StepLines(sz, inp, c, n, s) == StepLine(sz, inp.pr, LengthOf(inp, c), c, KeptOf(inp, c, n - 1), before);
      assert before.done == s.done;
    }
  }

  // The i-th chunk asks for no work, and is copied whole.
  ghost predicate Idle(sz: Sizes, inp: Input, i: nat)
    requires i < |Ids(inp)|
  {
    var c := Ids(inp)[i];
    && LinesOf(inp, c) != [] && CopiedWhole(inp, c, 0, |LinesOf(inp, c)|)
    && !WantSplit(sz, LengthOf(inp, c), None)
    && !WantCombine(sz, LengthOf(inp, c), NextLength(inp, Ids(inp), i + 1))
  }

  lemma IdleChunk(sz: Sizes, inp: Input, i: nat, s: State)
    requires i < |Ids(inp)| && Idle(sz, inp, i) && s.open.None?
    ensures var c := Ids(inp)[i];
      EndChunk(sz, inp.pr, NextLength(inp, Ids(inp), i + 1), StepLines(sz, inp, c, |LinesOf(inp, c)|, s))
      == State(s.done + [Piece(LinesOf(inp, c), [c])], None)
  {
    hide CopiedWhole, WantCombine, WantSplit, StepLines, LiveIds, LinesLength, Ids, NextLength;
    var lines := LinesOf(inp, Ids(inp)[i]);
    WholeChunk(sz, inp, Ids(inp)[i], |lines|, s);
    assert lines[..|lines|] == lines;
  }

  lemma {:induction false} NothingDone(sz: Sizes, inp: Input, i: nat)
    requires i <= |Ids(inp)| && forall k :: 0 <= k < |Ids(inp)| ==> Idle(sz, inp, k)
    ensures RunChunks(sz, inp, Ids(inp), i) == State(AsTheyAre(inp, Ids(inp)[..i]), None)
  {
    hide StepLines, EndChunk, Ids, Idle, NextLength;
    var ids := Ids(inp);
    if i == 0 {
      assert AsTheyAre(inp, ids[..0]) == [];
    } else {
      NothingDone(sz, inp, i - 1);
      IdleChunk(sz, inp, i - 1, RunChunks(sz, inp, ids, i - 1));
      assert AsTheyAre(inp, ids[..i]) == AsTheyAre(inp, ids[..i - 1]) + [Piece(LinesOf(inp, ids[i - 1]), [ids[i - 1]])];
    }
  }

  // Where nothing counts as work and nothing is pruned, a compaction would write
  // the chunks as they are.
  lemma NoWorkChangesNothing(sz: Sizes, inp: Input)
    requires inp.t == IndexLog(inp.pr, inp.members)
    requires forall k :: 0 <= k < |Ids(inp)| ==> CopiedWhole(inp, Ids(inp)[k], 0, |LinesOf(inp, Ids(inp)[k])|)
    requires Work(sz, Lengths(inp), |Lengths(inp)|) == 0
    ensures Run(sz, inp).done == AsTheyAre(inp, Ids(inp))
  {
    hide CopiedWhole, WantCombine, WantSplit, RunChunks, LiveIds, IndexLog, Work, AsTheyAre, LengthOf;
    LiveChunksHaveLines(inp);
    NoWork(sz, Lengths(inp), |Lengths(inp)|);
    forall k | 0 <= k < |Ids(inp)|
      ensures Idle(sz, inp, k)
    {
      assert Lengths(inp)[k] == LengthOf(inp, Ids(inp)[k]);
      assert Next(Lengths(inp), k) == NextLength(inp, Ids(inp), k + 1);
    }
    NothingDone(sz, inp, |Ids(inp)|);
    assert Ids(inp)[..|Ids(inp)|] == Ids(inp);
  }
}
