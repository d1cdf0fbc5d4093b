// What is in the index of a compacted backup.

module Compacted {
  import opened Options
  import opened Log
  import opened Index
  import opened Agreement
  import opened Pruning
  import opened Boundaries
  import opened Conservation
  import opened Mailboxes
  import opened Metadata
  import opened UserState
  import Relabel

  function AllLines(members: seq<Member>): seq<Line> {
    if members == [] then [] else AllLines(members[..|members| - 1]) + members[|members| - 1].lines
  }

  // Every chunk id and offset replaced by zero.
  const ERASE: Relabel.Labels := Relabel.Labels(_ => 0, _ => 0)

  function Erased(line: Line): Entry {
    Entry(0, 0, line)
  }

  lemma {:induction false} ErasedContent(lines: seq<Line>, es: seq<Entry>)
    requires |es| == |lines| && forall i :: 0 <= i < |es| ==> es[i] == Erased(lines[i])
    ensures IndexEntries(es) == Content(lines)
  {
    hide IndexLine;
    if es != [] {
      ErasedContent(lines[..|lines| - 1], es[..|es| - 1]);
    }
  }

  lemma {:induction false} ErasedLines(pr: Printer, members: seq<Member>)
    ensures var es := Relabel.MoveEntries(ERASE, Entries(pr, members));
      && |es| == |AllLines(members)|
      && forall i :: 0 <= i < |es| ==> es[i] == Erased(AllLines(members)[i])
  {
    if members != [] {
      ErasedLines(pr, members[..|members| - 1]);
    }
  }

  // Chunk ids and offsets aside, an index depends only on the lines of the log.
  lemma IndexIsContent(pr: Printer, members: seq<Member>)
    ensures Relabel.MoveTables(ERASE, IndexLog(pr, members)) == Content(AllLines(members))
  {
    Relabel.Replay(ERASE, Entries(pr, members));
    ErasedLines(pr, members);
    ErasedContent(AllLines(members), Relabel.MoveEntries(ERASE, Entries(pr, members)));
  }

  // The output file of a compaction holds exactly the lines that are kept.
  lemma {:induction false} OutputLines(members: seq<Member>, ps: seq<Piece>)
    requires |members| == |ps| && forall k :: 0 <= k < |ps| ==> members[k].lines == ps[k].lines
    ensures AllLines(members) == PieceLines(ps)
  {
    if ps != [] {
      OutputLines(members[..|ps| - 1], ps[..|ps| - 1]);
    }
  }

  // The file out is what compacting the file members with some sizes writes.
  ghost predicate CompactedTo(sz: Sizes, inp: Input, out: seq<Member>) {
    && inp.t == IndexLog(inp.pr, inp.members)
    && |out| == |Run(sz, inp).done|
    && forall k :: 0 <= k < |out| ==> out[k].lines == Run(sz, inp).done[k].lines
  }

  lemma CompactedContent(sz: Sizes, inp: Input, out: seq<Member>)
    requires CompactedTo(sz, inp, out)
    ensures Relabel.MoveTables(ERASE, IndexLog(inp.pr, out))
         == Content(KeepLines(inp.t, inp.since, Entries(inp.pr, inp.members)))
  {
    hide Content, IndexLog;
    BoundariesKeepContent(sz, inp);
    OutputLines(out, Run(sz, inp).done);
    IndexIsContent(inp.pr, out);
  }

  // The message table of the compacted backup: exactly the live messages.
  lemma CompactedMessages(sz: Sizes, inp: Input, out: seq<Member>, g: Guid)
    requires CompactedTo(sz, inp, out)
    ensures var o := IndexLog(inp.pr, out);
      && (g in o.message <==> LiveMessage(inp.t, inp.since, g) && g != NULL_GUID)
      && (g in o.message ==> g in inp.t.message && SameMessage(inp.t.message[g], o.message[g]))
  {
    hide LiveMessage, IndexEntries, KeepLines, Content;
    CompactedContent(sz, inp, out);
    CompactionKeepsExactlyTheLiveMessages(Entries(inp.pr, inp.members), inp.since, g);
    var erased := Relabel.MoveMessages(ERASE, IndexLog(inp.pr, out).message);
    assert erased == Content(KeepLines(inp.t, inp.since, Entries(inp.pr, inp.members))).message;
  }

  // The links of the compacted backup: which there are, with what values, and
  // expunged when.
  lemma CompactedLinks(sz: Sizes, inp: Input, out: seq<Member>, key: LinkKey)
    requires CompactedTo(sz, inp, out)
    ensures var es := Entries(inp.pr, inp.members);
      var o := IndexLog(inp.pr, out);
      && (key in o.link <==> Replayed(inp.t, inp.since, es, key))
      && (key in o.link ==>
            && key in inp.t.link
            && (LastCopyIndexed(inp.t, inp.since, es, key) ==> SameLink(inp.t.link[key], o.link[key]))
            && o.link[key].expunged == CopiedExpunge(inp.t, inp.since, es, key))
  {
    hide IndexEntries, KeepLines, Content, Replayed, LastCopyIndexed, LastCopied, CopiedExpunge;
    var es := Entries(inp.pr, inp.members);
    assert inp.t == IndexEntries(es);
    CompactedContent(sz, inp, out);
    CompactionKeepsLiveLinks(es, inp.since, key);
    var o, i := Content(KeepLines(inp.t, inp.since, es)), IndexLog(inp.pr, out);
    assert Relabel.MoveLinks(ERASE, i.link) == o.link;
    assert key in o.link <==> key in i.link;
    if key in o.link {
      CompactionKeepsExpunge(es, inp.since, key);
    }
  }

  lemma UserDataOf(t: Tables, es: seq<Entry>, since: int)
    requires t == IndexEntries(es)
    ensures var o := Content(KeepLines(t, since, es));
      && (forall u :: u in t.seen ==> u in o.seen && SameSeen(t.seen[u], o.seen[u]))
      && (forall n :: n in t.subscription && Since(t.subscription[n].unsubscribed, since) ==>
            n in o.subscription && o.subscription[n].unsubscribed == t.subscription[n].unsubscribed)
  {
    hide IndexEntries, KeepLines, Content;
    CompactionKeepsUserData(es, since);
  }

  // The user's data in the compacted backup: every seen row, and every
  // subscription that is current or ended after the retention time.
  lemma CompactedUserData(sz: Sizes, inp: Input, out: seq<Member>)
    requires CompactedTo(sz, inp, out)
    ensures var o := IndexLog(inp.pr, out);
      && (forall u :: u in inp.t.seen ==> u in o.seen && SameSeen(inp.t.seen[u], o.seen[u]))
      && (forall n :: n in inp.t.subscription && Since(inp.t.subscription[n].unsubscribed, inp.since) ==>
            n in o.subscription && o.subscription[n].unsubscribed == inp.t.subscription[n].unsubscribed)
  {
    hide IndexEntries, KeepLines, Content;
    CompactedContent(sz, inp, out);
    UserDataOf(inp.t, Entries(inp.pr, inp.members), inp.since);
    var o := Content(KeepLines(inp.t, inp.since, Entries(inp.pr, inp.members)));
    var i := IndexLog(inp.pr, out);
    assert Relabel.MoveSeen(ERASE, i.seen) == o.seen && Relabel.MoveSubs(ERASE, i.subscription) == o.subscription;
    forall u | u in inp.t.seen
      ensures u in i.seen && SameSeen(inp.t.seen[u], i.seen[u])
    {
      assert u in o.seen;
    }
    forall n | n in inp.t.subscription && Since(inp.t.subscription[n].unsubscribed, inp.since)
      ensures n in i.subscription && i.subscription[n].unsubscribed == inp.t.subscription[n].unsubscribed
    {
      assert n in o.subscription;
    }
  }

  // The scripts: every one that is not deleted.
  lemma CompactedScripts(sz: Sizes, inp: Input, out: seq<Member>, i: nat)
    requires CompactedTo(sz, inp, out)
    requires i < |inp.t.sieve| && inp.t.sieve[i].deleted.None?
    ensures HasScript(IndexLog(inp.pr, out).sieve, inp.t.sieve[i])
  {
    hide IndexEntries, KeepLines, Content;
    CompactedContent(sz, inp, out);
    CompactionKeepsActiveScripts(Entries(inp.pr, inp.members), inp.since, i);
    var o := Content(KeepLines(inp.t, inp.since, Entries(inp.pr, inp.members)));
    assert Relabel.MoveSieve(ERASE, IndexLog(inp.pr, out).sieve) == o.sieve;
    var k :| 0 <= k < |o.sieve| && SameScript(inp.t.sieve[i], o.sieve[k]);
    assert SameScript(inp.t.sieve[i], IndexLog(inp.pr, out).sieve[k]);
  }

  // The subscriptions and the undeleted scripts: each as the last copied line
  // about it says.
  lemma CompactedSubscriptions(sz: Sizes, inp: Input, out: seq<Member>, n: string)
    requires CompactedTo(sz, inp, out)
    ensures var es := Entries(inp.pr, inp.members);
      SubscriptionIs(es, LiveChunks(inp.t, inp.since), n, IndexLog(inp.pr, out).subscription)
  {
    hide IndexEntries, KeepLines, Content, LastSub, LiveChunks;
    var es := Entries(inp.pr, inp.members);
    assert inp.t == IndexEntries(es);
    CompactedContent(sz, inp, out);
    CopiedSubscriptions(inp.t, inp.since, es, n);
    var o, i := Content(KeepLines(inp.t, inp.since, es)), IndexLog(inp.pr, out);
    assert Relabel.MoveSubs(ERASE, i.subscription) == o.subscription;
    assert SameSub(i.subscription, o.subscription, n);
  }

  lemma {:induction false} ErasedScripts(sieve: seq<SieveRow>, f: string)
    ensures Active(Relabel.MoveSieve(ERASE, sieve), f) == Active(sieve, f)
  {
    var moved := Relabel.MoveSieve(ERASE, sieve);
    forall script
      ensures script in Active(moved, f) <==> script in Active(sieve, f)
    {
      if row :| row in sieve && IsActive(row, f) && script == Script(row.lastUpdate, row.content) {
        var i :| 0 <= i < |sieve| && sieve[i] == row;
        assert moved[i] in moved;
      }
      if row :| row in moved && IsActive(row, f) && script == Script(row.lastUpdate, row.content) {
        var i :| 0 <= i < |moved| && moved[i] == row;
        assert sieve[i] in sieve;
      }
    }
  }

  lemma CompactedActiveScript(sz: Sizes, inp: Input, out: seq<Member>, f: string)
    requires CompactedTo(sz, inp, out)
    ensures var es := Entries(inp.pr, inp.members);
      ScriptIs(es, LiveChunks(inp.t, inp.since), f, IndexLog(inp.pr, out).sieve)
  {
    hide IndexEntries, KeepLines, Content, LastTouch, LiveChunks, Active;
    var es := Entries(inp.pr, inp.members);
    assert inp.t == IndexEntries(es);
    CompactedContent(sz, inp, out);
    UserState.CopiedScripts(inp.t, inp.since, es, f);
    var o, i := Content(KeepLines(inp.t, inp.since, es)), IndexLog(inp.pr, out);
    assert Relabel.MoveSieve(ERASE, i.sieve) == o.sieve;
    ErasedScripts(i.sieve, f);
  }

  // The mailboxes: each is there as the lines of the copied chunks have left it
  // since the last MAILBOX line from which it is copied.
  lemma CompactedMailboxes(sz: Sizes, inp: Input, out: seq<Member>, u: string, j: nat)
    requires CompactedTo(sz, inp, out)
    requires LastCopy(inp.t, inp.since, Entries(inp.pr, inp.members), u, j)
    ensures var es := Entries(inp.pr, inp.members);
      var o := IndexLog(inp.pr, out);
      && es[j].line.dl.Mailbox? && MailboxComplete(es[j].line.dl.mbox)
      && u in o.mailbox
      && SameMailbox(o.mailbox[u], CopiedSteps(inp.t, inp.since, RowSet(es[j]).(lastChunk := 0), es[j + 1..]))
  {
    hide IndexEntries, KeepLines, Content, LastCopy, LiveChunk, CopiedSteps, RowSet;
    var es := Entries(inp.pr, inp.members);
    assert inp.t == IndexEntries(es);
    CompactedContent(sz, inp, out);
    MailboxAfterCompaction(es, inp.since, u, j);
    var o, i := Content(KeepLines(inp.t, inp.since, es)), IndexLog(inp.pr, out);
    assert Relabel.MoveMailboxes(ERASE, i.mailbox) == o.mailbox;
  }
}
