// Where compaction starts and ends the chunks it writes, and how large they
// get. A run is a function of the kept chunks; module Compact performs it.

module Boundaries {
  import opened Options
  import opened Log
  import opened Index
  import opened Pruning

  // size_t
  const SIZE_MOD: nat := 0x1_0000_0000_0000_0000

  // The normalised sizes; zero means no limit.
  datatype Sizes = Sizes(min: nat, max: nat)

  predicate WantCombine(sz: Sizes, length: nat, next: Option<nat>) {
    && next.Some?
    && !(length >= sz.min && next.value >= sz.min)
    && (sz.max == 0 || (length + next.value) % SIZE_MOD <= sz.max)
  }

  // want_split gets as far as subtracting what is written from the length.
  predicate ReachesSubtraction(sz: Sizes, length: nat, wrote: Option<nat>) {
    && sz.max != 0
    && wrote.Some? && wrote.value >= sz.max
    && length >= (sz.max + sz.min) % SIZE_MOD
  }

  predicate WantSplit(sz: Sizes, length: nat, wrote: Option<nat>) {
    if wrote.None? then sz.max != 0 && length >= (sz.max + sz.min) % SIZE_MOD
    else ReachesSubtraction(sz, length, wrote) && (length - wrote.value) % SIZE_MOD > sz.min
  }

  // An output chunk: its lines, and the input chunks that were read into it.
  datatype Piece = Piece(lines: seq<Line>, feeders: seq<nat>)

  datatype State = State(done: seq<Piece>, open: Option<Piece>)

  const START: State := State([], None)

  function Feed(p: Piece, c: nat): Piece {
    if p.feeders != [] && p.feeders[|p.feeders| - 1] == c then p else p.(feeders := p.feeders + [c])
  }

  function Opened(s: State): Piece {
    if s.open.Some? then s.open.value else Piece([], [])
  }

  function Close(s: State): State {
    if s.open.Some? then State(s.done + [s.open.value], None) else s
  }

  // One line of chunk c; kept is what of it is copied, nothing or one line.
  function StepLine(sz: Sizes, pr: Printer, length: nat, c: nat, kept: seq<Line>, s: State): State {
    var p := Feed(Opened(s), c);
    var s' := State(s.done, Some(p.(lines := p.lines + kept)));
    if WantSplit(sz, length, Some(MemberLength(pr, s'.open.value.lines))) then Close(s') else s'
  }

  // The input of a run: the original tables, retention and data file.
  datatype Input = Input(t: Tables, since: int, pr: Printer, members: seq<Member>)

  predicate ChunkId(inp: Input, c: nat) {
    1 <= c <= |inp.members|
  }

  function LinesOf(inp: Input, c: nat): seq<Line>
    requires ChunkId(inp, c)
  {
    inp.members[c - 1].lines
  }

  function LengthOf(inp: Input, c: nat): nat
    requires ChunkId(inp, c)
  {
    MemberLength(inp.pr, LinesOf(inp, c))
  }

  // What is copied of line j of chunk c.
  function KeptOf(inp: Input, c: nat, j: nat): seq<Line>
    requires ChunkId(inp, c) && j < |LinesOf(inp, c)|
  {
    KeepLine(inp.t, inp.since, Entry(c, LineOffset(inp.pr, LinesOf(inp, c), j), LinesOf(inp, c)[j]))
  }

  // The first n lines of chunk c.
  function StepLines(sz: Sizes, inp: Input, c: nat, n: nat, s: State): State
    requires ChunkId(inp, c) && n <= |LinesOf(inp, c)|
  {
    if n == 0 then s
    else StepLine(sz, inp.pr, LengthOf(inp, c), c, KeptOf(inp, c, n - 1), StepLines(sz, inp, c, n - 1, s))
  }

  function EndChunk(sz: Sizes, pr: Printer, next: Option<nat>, s: State): State {
    if s.open.Some? && !WantCombine(sz, MemberLength(pr, s.open.value.lines), next) then Close(s) else s
  }

  predicate ChunkIds(inp: Input, ids: seq<nat>) {
    forall i :: 0 <= i < |ids| ==> ChunkId(inp, ids[i])
  }

  function NextLength(inp: Input, ids: seq<nat>, i: nat): Option<nat>
    requires ChunkIds(inp, ids)
  {
    if i < |ids| then Some(LengthOf(inp, ids[i])) else None
  }

  // The first i of the listed chunks.
  function RunChunks(sz: Sizes, inp: Input, ids: seq<nat>, i: nat): State
    requires ChunkIds(inp, ids) && i <= |ids|
  {
    if i == 0 then START
    else
      var c := ids[i - 1];
      EndChunk(sz, inp.pr, NextLength(inp, ids, i),
               StepLines(sz, inp, c, |LinesOf(inp, c)|, RunChunks(sz, inp, ids, i - 1)))
  }

  // The chunks the live-chunk query selects among the first n, by id.
  function LiveIds(t: Tables, since: int, n: nat): (ids: seq<nat>)
    ensures forall i :: 0 <= i < |ids| ==> 1 <= ids[i] <= n
  {
    if n == 0 then [] else LiveIds(t, since, n - 1) + if LiveChunk(t, since, n) then [n] else []
  }

  function Run(sz: Sizes, inp: Input): State {
    var ids := LiveIds(inp.t, inp.since, |inp.members|);
    Close(RunChunks(sz, inp, ids, |ids|))
  }

  // ---- chunk boundaries do not change content ----

  function PieceLines(ps: seq<Piece>): seq<Line> {
    if ps == [] then [] else PieceLines(ps[..|ps| - 1]) + ps[|ps| - 1].lines
  }

  function StateLines(s: State): seq<Line> {
    PieceLines(s.done) + Opened(s).lines
  }

  lemma CloseLines(s: State)
    ensures StateLines(Close(s)) == StateLines(s)
  {
    if s.open.Some? {
      assert (s.done + [s.open.value])[..|s.done|] == s.done;
    }
  }

  lemma StepLineLines(sz: Sizes, pr: Printer, length: nat, c: nat, kept: seq<Line>, s: State)
    ensures StateLines(StepLine(sz, pr, length, c, kept, s)) == StateLines(s) + kept
  {
    var p := Feed(Opened(s), c);
    var s' := State(s.done, Some(p.(lines := p.lines + kept)));
    CloseLines(s');
  }

  // What is copied of the first n lines of chunk c.
  function KeptLines(inp: Input, c: nat, n: nat): seq<Line>
    requires ChunkId(inp, c) && n <= |LinesOf(inp, c)|
  {
    if n == 0 then [] else KeptLines(inp, c, n - 1) + KeptOf(inp, c, n - 1)
  }

  lemma {:induction false} StepLinesLines(sz: Sizes, inp: Input, c: nat, n: nat, s: State)
    requires ChunkId(inp, c) && n <= |LinesOf(inp, c)|
    ensures StateLines(StepLines(sz, inp, c, n, s)) == StateLines(s) + KeptLines(inp, c, n)
  {
    hide StateLines, StepLine, KeptOf;
    if n == 0 {
      assert StateLines(s) + [] == StateLines(s);
    } else {
      StepLinesLines(sz, inp, c, n - 1, s);
      StepLineLines(sz, inp.pr, LengthOf(inp, c), c, KeptOf(inp, c, n - 1), StepLines(sz, inp, c, n - 1, s));
      var a, b, k := StateLines(s), KeptLines(inp, c, n - 1), KeptOf(inp, c, n - 1);
      assert (a + b) + k == a + (b + k);
    }
  }

  function KeptChunks(inp: Input, ids: seq<nat>): seq<Line>
    requires ChunkIds(inp, ids)
  {
    if ids == [] then []
    else
      var c := ids[|ids| - 1];
      KeptChunks(inp, ids[..|ids| - 1]) + KeptLines(inp, c, |LinesOf(inp, c)|)
  }

  lemma NothingRun()
    ensures StateLines(START) == []
  {
  }

  lemma {:induction false} RunChunksLines(sz: Sizes, inp: Input, ids: seq<nat>, i: nat)
    requires ChunkIds(inp, ids) && i <= |ids|
    ensures StateLines(RunChunks(sz, inp, ids, i)) == KeptChunks(inp, ids[..i])
  {
    hide StateLines, StepLines, KeptLines, Close, WantCombine;
    if i == 0 {
      NothingRun();
    } else {
      var c := ids[i - 1];
      RunChunksLines(sz, inp, ids, i - 1);
      assert ids[..i][..i - 1] == ids[..i - 1];
      var s := RunChunks(sz, inp, ids, i - 1);
      StepLinesLines(sz, inp, c, |LinesOf(inp, c)|, s);
      CloseLines(StepLines(sz, inp, c, |LinesOf(inp, c)|, s));
    }
  }

  lemma {:induction false} KeepLinesConcat(t: Tables, since: int, a: seq<Entry>, b: seq<Entry>)
    ensures KeepLines(t, since, a + b) == KeepLines(t, since, a) + KeepLines(t, since, b)
  {
    hide KeepLine;
    if b == [] {
      assert a + b == a;
    } else {
      KeepLinesConcat(t, since, a, b[..|b| - 1]);
      assert (a + b)[..|a + b| - 1] == a + b[..|b| - 1];
    }
  }

  lemma {:induction false} KeptLinesAreKeepLines(inp: Input, c: nat, n: nat)
    requires ChunkId(inp, c) && n <= |LinesOf(inp, c)|
    ensures KeptLines(inp, c, n) == KeepLines(inp.t, inp.since, MemberEntries(inp.pr, LinesOf(inp, c), c)[..n])
  {
    if n != 0 {
      var es := MemberEntries(inp.pr, LinesOf(inp, c), c);
      KeptLinesAreKeepLines(inp, c, n - 1);
      assert es[..n][..n - 1] == es[..n - 1];
    }
  }

  lemma {:induction false} DeadChunk(t: Tables, since: int, es: seq<Entry>)
    requires forall e :: e in es ==> !LiveChunk(t, since, e.chunk)
    ensures KeepLines(t, since, es) == []
  {
    if es != [] {
      DeadChunk(t, since, es[..|es| - 1]);
    }
  }

  lemma NothingKept(inp: Input)
    ensures KeepLines(inp.t, inp.since, Entries(inp.pr, inp.members[..0])) == []
  {
  }

  lemma {:induction false} LiveIdsKeepAll(inp: Input, n: nat)
    requires n <= |inp.members|
    ensures KeptChunks(inp, LiveIds(inp.t, inp.since, n))
         == KeepLines(inp.t, inp.since, Entries(inp.pr, inp.members[..n]))
  {
    hide LiveChunk, KeepLine, KeepLines;
    if n == 0 {
      NothingKept(inp);
      return;
    }
    LiveIdsKeepAll(inp, n - 1);
    assert inp.members[..n][..n - 1] == inp.members[..n - 1];
    var es := MemberEntries(inp.pr, inp.members[n - 1].lines, n);
    KeepLinesConcat(inp.t, inp.since, Entries(inp.pr, inp.members[..n - 1]), es);
    var front := LiveIds(inp.t, inp.since, n - 1);
    if LiveChunk(inp.t, inp.since, n) {
      KeptLinesAreKeepLines(inp, n, |es|);
      assert es[..|es|] == es;
      assert (front + [n])[..|front|] == front;
    } else {
      DeadChunk(inp.t, inp.since, es);
      assert front + [] == front;
    }
  }

  // Whatever the sizes, the output chunks hold the kept lines in order.
  lemma BoundariesKeepContent(sz: Sizes, inp: Input)
    ensures Run(sz, inp).open.None?
    ensures PieceLines(Run(sz, inp).done) == KeepLines(inp.t, inp.since, Entries(inp.pr, inp.members))
  {
    var ids := LiveIds(inp.t, inp.since, |inp.members|);
    RunChunksLines(sz, inp, ids, |ids|);
    CloseLines(RunChunks(sz, inp, ids, |ids|));
    assert ids[..|ids|] == ids && inp.members[..|inp.members|] == inp.members;
    LiveIdsKeepAll(inp, |inp.members|);
  }
}
