// The content of the messages, read through the index, before and after a
// compaction.

module Contents {
  import opened Options
  import opened Log
  import opened Index
  import opened Effects
  import opened Agreement
  import opened Pruning
  import opened Conservation
  import opened Boundaries
  import opened Compacted

  // The contents that the items of a MESSAGE list have for a GUID, in order.
  function ItemContents(items: seq<MessageItem>, g: Guid): seq<string> {
    if items == [] then []
    else
      var last := items[|items| - 1];
      ItemContents(items[..|items| - 1], g) + if last.File? && last.guid == g then [last.content] else []
  }

  // What is read for a message at the place its row names.
  function Read(pr: Printer, members: seq<Member>, row: MessageRow, g: Guid): seq<string> {
    if !(1 <= row.chunk <= |members|) then []
    else
      match LineAt(pr, members[row.chunk - 1].lines, row.offset)
      case Some(Line(_, Message(items))) => ItemContents(items, g)
      case _ => []
  }

  lemma {:induction false} ContentsOfStored(items: seq<MessageItem>, g: Guid)
    ensures ItemContents(items, g) != [] <==> StoresGuid(items, g)
  {
    if items != [] {
      var n := |items| - 1;
      ContentsOfStored(items[..n], g);
      StoresGuidAtEnd(items[..n], items[n], g);
      assert items == items[..n] + [items[n]];
      hide StoresGuid;
    }
  }

  lemma {:induction false} PrunedContents(keep: set<Guid>, items: seq<MessageItem>, g: Guid)
    ensures ItemContents(PruneItems(keep, items), g) == if g in keep then ItemContents(items, g) else []
  {
    if items != [] {
      var n := |items| - 1;
      PrunedContents(keep, items[..n], g);
      var front := PruneItems(keep, items[..n]);
      if WantItem(keep, items[n]) {
        assert PruneItems(keep, items) == front + [items[n]] && (front + [items[n]])[..|front|] == front;
      } else {
        assert PruneItems(keep, items) == front + [] == front;
      }
    }
  }

  // The contents in the last line that stores the message.
  function LinesContents(lines: seq<Line>, g: Guid): seq<string> {
    if lines == [] then []
    else After(LinesContents(lines[..|lines| - 1], g), lines[|lines| - 1].dl, g)
  }

  function After(before: seq<string>, dl: Dlist, g: Guid): seq<string> {
    if dl.Message? && ItemContents(dl.items, g) != [] then ItemContents(dl.items, g) else before
  }

  function LinesOf(es: seq<Entry>): seq<Line> {
    seq(|es|, i requires 0 <= i < |es| => es[i].line)
  }

  lemma LastContents(es: seq<Entry>, g: Guid)
    requires es != []
    ensures LinesContents(LinesOf(es), g)
      == After(LinesContents(LinesOf(es[..|es| - 1]), g), es[|es| - 1].line.dl, g)
  {
    assert LinesOf(es)[..|es| - 1] == LinesOf(es[..|es| - 1]);
  }

  // The row of a message names a line with the contents stored last.
  lemma {:induction false} RowNamesContents(es: seq<Entry>, g: Guid) returns (i: nat)
    requires g in IndexEntries(es).message
    ensures i < |es| && MessageBackedBy(es[i], g, IndexEntries(es).message[g])
    ensures LinesContents(LinesOf(es), g) == ItemContents(es[i].line.dl.items, g)
  {
    hide StoresGuid, ItemContents, LinesContents, LinesOf;
    var n := |es| - 1;
    var before := IndexEntries(es[..n]);
    LastContents(es, g);
    if es[n].line.dl.Message? {
      ContentsOfStored(es[n].line.dl.items, g);
    }
    if Stores(es[n], g) {
      MessageLineBacks(before.message, es[n], g);
      i := n;
    } else {
      LineKeepsMessage(before, es[n], g);
      i := RowNamesContents(es[..n], g);
    }
  }

  // Reading through the index finds the contents stored last.
  lemma ReadsWhatWasStored(pr: Printer, members: seq<Member>, g: Guid)
    requires PrintsSomething(pr) && g in IndexLog(pr, members).message
    ensures Read(pr, members, IndexLog(pr, members).message[g], g) == LinesContents(LinesOf(Entries(pr, members)), g)
    ensures Read(pr, members, IndexLog(pr, members).message[g], g) != []
  {
    hide ItemContents, LinesContents, LinesOf, LineAt, LineOffset, StoresAs;
    var es := Entries(pr, members);
    var k := RowNamesContents(es, g);
    var i := EntryInLog(pr, members, es[k]);
    LineAtFinds(pr, members[es[k].chunk - 1].lines, i);
    ContentsOfStored(es[k].line.dl.items, g);
  }

  // ---- compaction ----

  ghost predicate ContentsRel(orig: Tables, since: int, es: seq<Entry>, g: Guid) {
    Kept(orig, since, g) && g in IndexEntries(es).message && IndexEntries(es).message[g].chunk == orig.message[g].chunk
    ==> LinesContents(KeepLines(orig, since, es), g) == LinesContents(LinesOf(es), g)
  }

  lemma KeptContents(orig: Tables, since: int, e: Entry, before: seq<string>, g: Guid)
    requires Kept(orig, since, g)
    ensures var kept := KeepLine(orig, since, e);
      (if kept == [] then before else After(before, kept[0].dl, g))
      == if orig.message[g].chunk == e.chunk then After(before, e.line.dl, g) else before
  {
    assert ItemContents([], g) == [];
    hide ItemContents, PruneItems, LiveMessage;
    if e.line.dl.Message? {
      PrunedContents(KeepGuids(orig, since, e.chunk), e.line.dl.items, g);
    }
  }

  lemma {:induction false} ContentsConserved(orig: Tables, since: int, es: seq<Entry>, g: Guid)
    ensures ContentsRel(orig, since, es, g)
  {
    if es == [] || !Kept(orig, since, g) {
      return;
    }
    var n := |es| - 1;
    var e := es[n];
    ContentsConserved(orig, since, es[..n], g);
    var front, kept := KeepLines(orig, since, es[..n]), KeepLine(orig, since, e);
    KeptContents(orig, since, e, LinesContents(front, g), g);
    LastContents(es, g);
    if kept == [] {
      assert front + kept == front;
    } else {
      assert (front + kept)[..|front|] == front;
    }
    hide KeepLine, ItemContents, KeepLines, LinesContents, Kept, LinesOf;
    if e.line.dl.Message? {
      ItemsEffect(IndexEntries(es[..n]).message, At(e), e.line.dl.items, g);
      ContentsOfStored(e.line.dl.items, g);
    } else {
      LineKeepsMessage(IndexEntries(es[..n]), e, g);
    }
  }

  lemma {:induction false} LogLines(pr: Printer, members: seq<Member>)
    ensures LinesOf(Entries(pr, members)) == AllLines(members)
  {
    if members != [] {
      var n := |members| - 1;
      LogLines(pr, members[..n]);
      var here := MemberEntries(pr, members[n].lines, LIVE_IDS(n));
      assert LinesOf(here) == members[n].lines;
      assert LinesOf(Entries(pr, members[..n]) + here) == LinesOf(Entries(pr, members[..n])) + LinesOf(here);
    }
  }

  // Every message of the compacted backup is read as it was from the original.
  lemma CompactedMessagesReadTheSame(sz: Sizes, inp: Input, out: seq<Member>, g: Guid)
    requires CompactedTo(sz, inp, out) && PrintsSomething(inp.pr)
    requires g in IndexLog(inp.pr, out).message
    ensures g in inp.t.message
    ensures Read(inp.pr, out, IndexLog(inp.pr, out).message[g], g)
         == Read(inp.pr, inp.members, inp.t.message[g], g) != []
  {
    hide Read, LinesContents, KeepLines, IndexEntries, AllLines, LinesOf, Entries;
    CompactedMessages(sz, inp, out, g);
    ReadsWhatWasStored(inp.pr, out, g);
    ReadsWhatWasStored(inp.pr, inp.members, g);
    ContentsConserved(inp.t, inp.since, Entries(inp.pr, inp.members), g);
    LogLines(inp.pr, out);
    BoundariesKeepContent(sz, inp);
    OutputLines(out, Run(sz, inp).done);
  }
}
