// Indexing never looks at the chunk ids and offsets it stores: relabelling
// them before or after a line, or a whole log, gives the same tables.

module Relabel {
  import opened Options
  import opened Log
  import opened Index

  // New labels for chunk ids and for offsets.
  datatype Labels = Labels(chunk: nat -> nat, offset: nat -> nat)

  function MoveMessages(ls: Labels, m: Messages): Messages {
    map g | g in m :: m[g].(chunk := ls.chunk(m[g].chunk), offset := ls.offset(m[g].offset))
  }

  function MoveMailboxes(ls: Labels, m: Mailboxes): Mailboxes {
    map u | u in m :: m[u].(lastChunk := ls.chunk(m[u].lastChunk))
  }

  function MoveLinks(ls: Labels, m: Links): Links {
    map k | k in m :: m[k].(lastChunk := ls.chunk(m[k].lastChunk))
  }

  function MoveSubs(ls: Labels, m: map<string, SubRow>): map<string, SubRow> {
    map k | k in m :: m[k].(lastChunk := ls.chunk(m[k].lastChunk))
  }

  function MoveSeen(ls: Labels, m: map<string, SeenRow>): map<string, SeenRow> {
    map k | k in m :: m[k].(lastChunk := ls.chunk(m[k].lastChunk))
  }

  function MoveSieveRow(ls: Labels, r: SieveRow): SieveRow {
    r.(chunk := ls.chunk(r.chunk), offset := ls.offset(r.offset))
  }

  function MoveSieve(ls: Labels, s: seq<SieveRow>): seq<SieveRow> {
    seq(|s|, i requires 0 <= i < |s| => MoveSieveRow(ls, s[i]))
  }

  function MoveTables(ls: Labels, t: Tables): Tables {
    Tables(MoveMessages(ls, t.message), MoveMailboxes(ls, t.mailbox), MoveLinks(ls, t.link),
           MoveSubs(ls, t.subscription), MoveSeen(ls, t.seen), MoveSieve(ls, t.sieve))
  }

  function MovePlace(ls: Labels, at: Place): Place {
    Place(ls.chunk(at.chunk), ls.offset(at.offset), at.ts)
  }

  function MoveEntry(ls: Labels, e: Entry): Entry {
    Entry(ls.chunk(e.chunk), ls.offset(e.offset), e.line)
  }

  function MoveEntries(ls: Labels, es: seq<Entry>): seq<Entry> {
    seq(|es|, i requires 0 <= i < |es| => MoveEntry(ls, es[i]))
  }

  lemma {:induction false} Items(ls: Labels, m: Messages, at: Place, items: seq<MessageItem>)
    ensures IndexItems(MoveMessages(ls, m), MovePlace(ls, at), items) == MoveMessages(ls, IndexItems(m, at, items))
  {
    if items != [] {
      Items(ls, m, at, items[..|items| - 1]);
    }
  }

  lemma {:induction false} Records(ls: Labels, link: Links, m: Messages, u: string, at: Place, rs: seq<Record>)
    requires forall r :: r in rs ==> RecordComplete(r)
    ensures IndexRecords(MoveLinks(ls, link), MoveMessages(ls, m), u, MovePlace(ls, at), rs)
         == MoveLinks(ls, IndexRecords(link, m, u, at, rs))
  {
    if rs != [] {
      Records(ls, link, m, u, at, rs[..|rs| - 1]);
    }
  }

  lemma MailboxLine(ls: Labels, t: Tables, at: Place, m: MailboxDlist)
    requires LineOk(Mailbox(m))
    ensures IndexMailbox(MoveTables(ls, t), MovePlace(ls, at), m) == MoveTables(ls, IndexMailbox(t, at, m))
  {
    Records(ls, t.link, t.message, m.uniqueid.value, at, m.records.value);
    var row := MailboxRowOf(m, at.chunk);
    assert MoveMailboxes(ls, t.mailbox[m.uniqueid.value := row])
        == MoveMailboxes(ls, t.mailbox)[m.uniqueid.value := row.(lastChunk := ls.chunk(at.chunk))];
  }

  lemma NameLine(ls: Labels, t: Tables, at: Place, dl: Dlist)
    requires dl.Unmailbox? || dl.Rename?
    ensures IndexLine(MoveTables(ls, t), MovePlace(ls, at), dl) == MoveTables(ls, IndexLine(t, at, dl))
  {
    match dl
    case Unmailbox(name) =>
      assert DeleteMailboxes(MoveMailboxes(ls, t.mailbox), name, at.ts)
          == MoveMailboxes(ls, DeleteMailboxes(t.mailbox, name, at.ts));
    case Rename(n) =>
      if LineOk(dl) {
        assert RenameMailboxes(MoveMailboxes(ls, t.mailbox), n) == MoveMailboxes(ls, RenameMailboxes(t.mailbox, n));
      }
  }

  lemma SieveDeletes(ls: Labels, sieve: seq<SieveRow>, name: string, ts: int)
    ensures DeleteSieve(MoveSieve(ls, sieve), name, ts) == MoveSieve(ls, DeleteSieve(sieve, name, ts))
  {
  }

  lemma SieveLine(ls: Labels, sieve: seq<SieveRow>, at: Place, s: SieveDlist)
    ensures IndexSieve(MoveSieve(ls, sieve), MovePlace(ls, at), s) == MoveSieve(ls, IndexSieve(sieve, at, s))
  {
    if s.filename.Some? {
      SieveDeletes(ls, sieve, s.filename.value, at.ts);
      if s.lastUpdate.Some? && s.content.Some? {
        var deleted := DeleteSieve(sieve, s.filename.value, at.ts);
        var row := SieveRow(at.chunk, s.lastUpdate.value, s.filename.value, s.content.value, at.offset, None);
        assert MoveSieve(ls, deleted + [row]) == MoveSieve(ls, deleted) + [MoveSieveRow(ls, row)];
      }
    }
  }

  lemma UserLine(ls: Labels, t: Tables, at: Place, dl: Dlist)
    requires LineOk(dl) && (dl.Seen? || dl.Sub? || dl.Unsub?)
    ensures IndexLine(MoveTables(ls, t), MovePlace(ls, at), dl) == MoveTables(ls, IndexLine(t, at, dl))
  {
    match dl
    case Seen(s) =>
      var row := SeenRow(at.chunk, s.lastRead.value, s.lastUid.value, s.lastChange.value, s.seenUids.value);
      assert MoveSeen(ls, t.seen[s.uniqueid.value := row])
          == MoveSeen(ls, t.seen)[s.uniqueid.value := row.(lastChunk := ls.chunk(at.chunk))];
    case Sub(n) =>
      var row := SubRow(at.chunk, None);
      assert MoveSubs(ls, t.subscription[n.value := row])
          == MoveSubs(ls, t.subscription)[n.value := row.(lastChunk := ls.chunk(at.chunk))];
    case Unsub(n) =>
      var row := SubRow(at.chunk, Some(at.ts));
      assert MoveSubs(ls, t.subscription[n.value := row])
          == MoveSubs(ls, t.subscription)[n.value := row.(lastChunk := ls.chunk(at.chunk))];
  }

  lemma OneLine(ls: Labels, t: Tables, at: Place, dl: Dlist)
    ensures IndexLine(MoveTables(ls, t), MovePlace(ls, at), dl) == MoveTables(ls, IndexLine(t, at, dl))
  {
    match dl
    case Message(items) => Items(ls, t.message, at, items);
    case Mailbox(m) => if LineOk(dl) { MailboxLine(ls, t, at, m); }
    case Unmailbox(_) => NameLine(ls, t, at, dl);
    case Rename(_) => NameLine(ls, t, at, dl);
    case Sieve(s) => SieveLine(ls, t.sieve, at, s);
    case Unsieve(n) => if LineOk(dl) { SieveDeletes(ls, t.sieve, n.value, at.ts); }
    case Reserve(_) =>
    case Unrecognised(_) =>
    case _ => if LineOk(dl) { UserLine(ls, t, at, dl); }
  }

  // Replaying relabelled entries gives the relabelled tables.
  lemma {:induction false} Replay(ls: Labels, es: seq<Entry>)
    ensures IndexEntries(MoveEntries(ls, es)) == MoveTables(ls, IndexEntries(es))
  {
    if es != [] {
      var n := |es| - 1;
      Replay(ls, es[..n]);
      assert MoveEntries(ls, es)[..n] == MoveEntries(ls, es[..n]);
      OneLine(ls, IndexEntries(es[..n]), At(es[n]), es[n].line.dl);
    }
  }
}
