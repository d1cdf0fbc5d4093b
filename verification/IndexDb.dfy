// The index database: tables of rows with ids, and the steps that fold one
// dlist line into them. Each step refines the function of module Index.

module IndexDb {
  import opened Options
  import opened Log
  import opened Index
  import opened Effects
  import opened KeyedTable

  // Success, IMAP_PROTOCOL_BAD_PARAMETERS, IMAP_INTERNAL or IMAP_PROTOCOL_ERROR.
  datatype Code = Ok | BadParameters | Internal | ProtocolError

  type IdKey = (nat, nat)

  ghost predicate IdExists<U, V>(mailbox: seq<Row<string, U>>, message: seq<Row<Guid, V>>, id: IdKey) {
    1 <= id.0 <= |mailbox| && 1 <= id.1 <= |message|
  }

  ghost predicate IdsExist<U, V>(
    mailbox: seq<Row<string, U>>, message: seq<Row<Guid, V>>, link: seq<Row<IdKey, LinkRow>>)
  {
    forall i :: 0 <= i < |link| ==> IdExists(mailbox, message, link[i].key)
  }

  // The keys of the rows that two ids stand for.
  ghost function NameOf<U, V>(mailbox: seq<Row<string, U>>, message: seq<Row<Guid, V>>, id: IdKey): LinkKey
    requires IdExists(mailbox, message, id)
  {
    (mailbox[id.0 - 1].key, message[id.1 - 1].key)
  }

  // The link table with ids replaced by names.
  ghost function Named<U, V>(mailbox: seq<Row<string, U>>, message: seq<Row<Guid, V>>, link: seq<Row<IdKey, LinkRow>>)
      : seq<Row<LinkKey, LinkRow>>
    requires IdsExist(mailbox, message, link)
  {
    seq(|link|, i requires 0 <= i < |link| => Row(NameOf(mailbox, message, link[i].key), link[i].val))
  }

  lemma SameIds<U, V>(mailbox: seq<Row<string, U>>, message: seq<Row<Guid, V>>, x: IdKey, y: IdKey)
    requires Unique(mailbox) && Unique(message) && IdExists(mailbox, message, x) && IdExists(mailbox, message, y)
    ensures NameOf(mailbox, message, x) == NameOf(mailbox, message, y) <==> x == y
  {
  }

  lemma {:induction false} NamedChanges<U, V>(mailbox: seq<Row<string, U>>, message: seq<Row<Guid, V>>,
                                              link: seq<Row<IdKey, LinkRow>>, id: IdKey)
    requires Unique(mailbox) && Unique(message) && IdsExist(mailbox, message, link) && IdExists(mailbox, message, id)
    ensures Changes(Named(mailbox, message, link), NameOf(mailbox, message, id)) == Changes(link, id)
  {
    if link != [] {
      var n := |link| - 1;
      NamedChanges(mailbox, message, link[..n], id);
      assert Named(mailbox, message, link)[..n] == Named(mailbox, message, link[..n]);
      SameIds(mailbox, message, link[n].key, id);
    }
  }

  lemma NamedUpdate<U, V>(mailbox: seq<Row<string, U>>, message: seq<Row<Guid, V>>,
                          link: seq<Row<IdKey, LinkRow>>, id: IdKey, row: LinkRow)
    requires Unique(mailbox) && Unique(message) && IdsExist(mailbox, message, link) && IdExists(mailbox, message, id)
    ensures IdsExist(mailbox, message, UpdateWhere(link, id, row))
    ensures Named(mailbox, message, UpdateWhere(link, id, row))
         == UpdateWhere(Named(mailbox, message, link), NameOf(mailbox, message, id), row)
  {
    forall i | 0 <= i < |link|
      ensures NameOf(mailbox, message, link[i].key) == NameOf(mailbox, message, id) <==> link[i].key == id
    {
      SameIds(mailbox, message, link[i].key, id);
    }
  }

  // Storing a row under ids stores it under the names those ids stand for.
  lemma NamedUpsert<U, V>(mailbox: seq<Row<string, U>>, message: seq<Row<Guid, V>>,
                          link: seq<Row<IdKey, LinkRow>>, id: IdKey, row: LinkRow)
    requires Unique(mailbox) && Unique(message) && IdsExist(mailbox, message, link) && IdExists(mailbox, message, id)
    ensures IdsExist(mailbox, message, Upserted(link, id, row))
    ensures Named(mailbox, message, Upserted(link, id, row))
         == Upserted(Named(mailbox, message, link), NameOf(mailbox, message, id), row)
  {
    NamedChanges(mailbox, message, link, id);
    if Changes(link, id) == 0 {
      assert Named(mailbox, message, link + [Row(id, row)])
          == Named(mailbox, message, link) + [Row(NameOf(mailbox, message, id), row)];
    } else {
      NamedUpdate(mailbox, message, link, id, row);
    }
  }

  lemma NamedUnique<U, V>(mailbox: seq<Row<string, U>>, message: seq<Row<Guid, V>>, link: seq<Row<IdKey, LinkRow>>)
    requires Unique(mailbox) && Unique(message) && Unique(link) && IdsExist(mailbox, message, link)
    ensures Unique(Named(mailbox, message, link))
  {
    forall i, j | 0 <= i < j < |link|
      ensures NameOf(mailbox, message, link[i].key) != NameOf(mailbox, message, link[j].key)
    {
      SameIds(mailbox, message, link[i].key, link[j].key);
    }
  }

  // SELECT expunged ... WHERE mailbox_id = id.0 AND message_id = id.1
  function SelectExpunged(link: seq<Row<IdKey, LinkRow>>, id: IdKey): Option<int> {
    var rowid := IdOf(link, id);
    if rowid == 0 then None else link[rowid - 1].val.expunged
  }

  lemma NamedExpunged<U, V>(mailbox: seq<Row<string, U>>, message: seq<Row<Guid, V>>,
                            link: seq<Row<IdKey, LinkRow>>, id: IdKey)
    requires Unique(mailbox) && Unique(message) && Unique(link) && IdsExist(mailbox, message, link)
    requires IdExists(mailbox, message, id)
    ensures SelectExpunged(link, id)
         == PriorExpunge(AsMap(Named(mailbox, message, link)), NameOf(mailbox, message, id))
  {
    var named, key := Named(mailbox, message, link), NameOf(mailbox, message, id);
    NamedUnique(mailbox, message, link);
    NamedChanges(mailbox, message, link, id);
    MapHolds(named, key);
    MapHolds(link, id);
    if IdOf(named, key) != 0 {
      SameIds(mailbox, message, link[IdOf(named, key) - 1].key, id);
    }
  }

  lemma LinkStored<U, V>(mailbox: seq<Row<string, U>>, message: seq<Row<Guid, V>>,
                         link: seq<Row<IdKey, LinkRow>>, id: IdKey, row: LinkRow)
    requires Unique(mailbox) && Unique(message) && Unique(link) && IdsExist(mailbox, message, link)
    requires IdExists(mailbox, message, id)
    ensures Unique(Upserted(link, id, row)) && IdsExist(mailbox, message, Upserted(link, id, row))
    ensures AsMap(Named(mailbox, message, Upserted(link, id, row)))
         == AsMap(Named(mailbox, message, link))[NameOf(mailbox, message, id) := row]
  {
    NamedUnique(mailbox, message, link);
    NamedUpsert(mailbox, message, link, id, row);
    UpsertedMap(Named(mailbox, message, link), NameOf(mailbox, message, id), row);
    UpsertedMap(link, id, row);
  }

  // _get_magic_flags: take the last \Expunged out of the list.
  method GetMagicFlags(flags: seq<string>) returns (isExpunged: bool, rest: seq<string>)
    ensures isExpunged <==> EXPUNGED in flags
    ensures rest == StripExpunged(flags) && FlagsLeft(flags, rest)
  {
    hide FlagsLeft;
    StripLeavesTheRest(flags);
    var found := |flags|;
    isExpunged := false;
    var k := 0;
    while k < |flags|
      invariant 0 <= k <= |flags|
      invariant isExpunged <==> EXPUNGED in flags[..k]
      invariant !isExpunged ==> found == |flags|
      invariant isExpunged ==> 0 <= found < k && flags[found] == EXPUNGED
      invariant isExpunged ==> forall j :: found < j < k ==> flags[j] != EXPUNGED
    {
      if flags[k] == EXPUNGED {
        isExpunged := true;
        found := k;
      }
      k := k + 1;
    }
    assert flags[..k] == flags;
    rest := if isExpunged then flags[..found] + flags[found + 1..] else flags;
  }

  // The values bound for one record; a zero time is taken for no time at all.
  method BindRecord(at: Place, rec: Record, prior: Option<int>) returns (row: LinkRow)
    requires RecordComplete(rec)
    ensures row == LinkRowOf(rec, at, Coalesce(prior, BoundExpunge(rec, at.ts)))
    ensures SaysWhat(row, rec) && row.lastChunk == at.chunk
  {
    hide FlagsLeft;
    var flags, expunged := None, None;
    if rec.flags.Some? {
      var isExpunged, rest := GetMagicFlags(rec.flags.value);
      flags := Some(rest);
      if isExpunged && at.ts != 0 {
        expunged := Some(at.ts);
      }
    }
    row := LinkRow(at.chunk, rec.uid.value, rec.modseq.value, rec.lastUpdated.value, flags,
                   rec.internaldate.value, rec.annotations, Coalesce(prior, expunged));
  }

  lemma CompleteMeans(m: MailboxDlist)
    ensures MailboxComplete(m) ==> m.uniqueid.Some? && m.records.Some?
  {
  }

  class Db {
    var message: seq<Row<Guid, MessageRow>>
    var mailbox: seq<Row<string, MailboxRow>>
    var link: seq<Row<IdKey, LinkRow>>
    var subscription: seq<Row<string, SubRow>>
    var seen: seq<Row<string, SeenRow>>
    var sieve: seq<SieveRow>

    // UNIQUE keys are unique, and every reference names an existing row.
    ghost predicate Valid()
      reads this
    {
      && Unique(message) && Unique(mailbox) && Unique(link) && Unique(subscription) && Unique(seen)
      && IdsExist(mailbox, message, link)
    }

    ghost function Links(): Links
      requires Valid()
      reads this
    {
      AsMap(Named(mailbox, message, link))
    }

    // The tables by their keys.
    ghost function Contents(): Tables
      requires Valid()
      reads this
    {
      Tables(AsMap(message), AsMap(mailbox), Links(), AsMap(subscription), AsMap(seen), sieve)
    }

    constructor ()
      ensures Valid() && Contents() == EMPTY
    {
      message, mailbox, link, subscription, seen, sieve := [], [], [], [], [], [];
    }

    method IndexMessage(at: Place, items: seq<MessageItem>) returns (r: Code)
      requires Valid()
      modifies this`message
      ensures Valid() && Contents() == IndexLine(old(Contents()), at, Message(items)) && r == Ok
    {
      hide Upserted, IdOf, Unique, DeleteSieve, MailboxComplete;
      var k := 0;
      while k < |items|
        invariant 0 <= k <= |items|
        invariant Valid() && Links() == old(Links())
        invariant AsMap(message) == IndexItems(old(AsMap(message)), at, items[..k])
      {
        assert items[..k + 1][..k] == items[..k];
        if items[k].File? {
          ghost var before := message;
          var row := MessageRow(items[k].partition, at.chunk, at.offset, items[k].size);
          UpsertKeepsIds(message, items[k].guid, row);
          message := Upsert(message, items[k].guid, row);
          assert Named(mailbox, message, link) == Named(mailbox, before, link);
        }
        k := k + 1;
      }
      assert items[..k] == items;
      r := Ok;
    }

    // One record of a MAILBOX line, once its fields have been read.
    method IndexRecord(at: Place, id: IdKey, rec: Record)
      requires Valid() && RecordComplete(rec)
      requires IdExists(mailbox, message, id) && message[id.1 - 1].key == rec.guid.value
      modifies this`link
      ensures Valid()
      ensures Links() == Index.IndexRecord(old(Links()), AsMap(message), mailbox[id.0 - 1].key, at, rec)
    {
      hide Unique, AsMap, Upserted, IdOf;
      var row := BindRecord(at, rec, SelectExpunged(link, id));
      NamedExpunged(mailbox, message, link, id);
      MapHolds(message, rec.guid.value);
      LinkStored(mailbox, message, link, id, row);
      link := Upsert(link, id, row);
    }

    // The records of a MAILBOX line, up to the first that lacks a field.
    method IndexRecordList(at: Place, mailboxId: nat, records: seq<Record>) returns (ok: bool)
      requires Valid() && 1 <= mailboxId <= |mailbox|
      modifies this`link
      ensures Valid()
      ensures ok <==> forall rec :: rec in records ==> RecordComplete(rec)
      ensures ok ==> Links() == IndexRecords(old(Links()), AsMap(message), mailbox[mailboxId - 1].key, at, records)
    {
      var k := 0;
      while k < |records|
        invariant 0 <= k <= |records|
        invariant Valid()
        invariant forall rec :: rec in records[..k] ==> RecordComplete(rec)
        invariant Links() == IndexRecords(old(Links()), AsMap(message), mailbox[mailboxId - 1].key, at, records[..k])
      {
        assert records[..k + 1][..k] == records[..k];
        var rec := records[k];
        assert rec in records;
        if !RecordComplete(rec) {
          return false;
        }
        var messageId := IdOf(message, rec.guid.value);
        MapHolds(message, rec.guid.value);
        if messageId != 0 {
          IndexRecord(at, (mailboxId, messageId), rec);
        }
        k := k + 1;
      }
      assert records[..k] == records;
      ok := true;
    }

    method IndexMailbox(at: Place, m: MailboxDlist) returns (r: Code)
      requires Valid()
      modifies this`mailbox, this`link
      ensures Valid() && Contents() == IndexLine(old(Contents()), at, Mailbox(m))
      ensures r == Ok <==> LineOk(Mailbox(m))
      ensures r != Ok ==> mailbox == old(mailbox) && link == old(link)
    {
      hide AsMap, Upserted, IdOf, MailboxComplete, RecordComplete, MailboxRowOf;
      CompleteMeans(m);
      if !MailboxComplete(m) {
        return BadParameters;
      }
      var savedMailbox, savedLink := mailbox, link;
      UpsertKeepsIds(mailbox, m.uniqueid.value, MailboxRowOf(m, at.chunk));
      mailbox := Upsert(mailbox, m.uniqueid.value, MailboxRowOf(m, at.chunk));
      assert Named(mailbox, message, link) == Named(savedMailbox, message, link);
      var ok := IndexRecordList(at, IdOf(mailbox, m.uniqueid.value), m.records.value);
      if ok {
        r := Ok;
      } else {
        mailbox, link := savedMailbox, savedLink;
        r := Internal;
      }
    }

    method IndexUnmailbox(at: Place, name: string) returns (r: Code)
      requires Valid()
      modifies this`mailbox
      ensures Valid() && Contents() == IndexLine(old(Contents()), at, Unmailbox(name)) && r == Ok
    {
      ghost var before := mailbox;
      var f := (row: MailboxRow) => if row.mboxname == name then row.(deleted := Some(at.ts)) else row;
      MapRowsMap(mailbox, f);
      mailbox := MapRows(mailbox, f);
      assert Named(mailbox, message, link) == Named(before, message, link);
      assert AsMap(mailbox) == DeleteMailboxes(AsMap(before), name, at.ts);
      r := Ok;
    }

    method IndexRename(at: Place, n: RenameDlist) returns (r: Code)
      requires Valid()
      modifies this`mailbox
      ensures Valid() && Contents() == IndexLine(old(Contents()), at, Rename(n))
      ensures r == Ok <==> LineOk(Rename(n))
    {
      if n.oldName.None? || n.newName.None? || n.partition.None? || n.uidvalidity.None? {
        return BadParameters;
      }
      ghost var before := mailbox;
      var f := (row: MailboxRow) =>
        if row.mboxname == n.oldName.value
        then row.(mboxname := n.newName.value, partition := n.partition.value, uidvalidity := n.uidvalidity.value)
        else row;
      MapRowsMap(mailbox, f);
      mailbox := MapRows(mailbox, f);
      assert Named(mailbox, message, link) == Named(before, message, link);
      assert AsMap(mailbox) == RenameMailboxes(AsMap(before), n);
      r := Ok;
    }

    method IndexSeen(at: Place, s: SeenDlist) returns (r: Code)
      requires Valid()
      modifies this`seen
      ensures Valid() && Contents() == IndexLine(old(Contents()), at, Seen(s))
      ensures r == Ok <==> LineOk(Seen(s))
    {
      if s.uniqueid.None? || s.lastRead.None? || s.lastUid.None? || s.lastChange.None? || s.seenUids.None? {
        return BadParameters;
      }
      seen := Upsert(seen, s.uniqueid.value,
                     SeenRow(at.chunk, s.lastRead.value, s.lastUid.value, s.lastChange.value, s.seenUids.value));
      r := Ok;
    }

    // SUB and UNSUB
    method IndexSub(at: Place, name: Option<string>, unsub: bool) returns (r: Code)
      requires Valid()
      modifies this`subscription
      ensures Valid() && Contents() == IndexLine(old(Contents()), at, if unsub then Unsub(name) else Sub(name))
      ensures r == Ok <==> name.Some?
    {
      hide Unique, AsMap, Upserted, IdsExist, Named, IdOf;
      if name.None? {
        return BadParameters;
      }
      subscription := Upsert(subscription, name.value, SubRow(at.chunk, if unsub then Some(at.ts) else None));
      r := Ok;
    }

    // SIEVE and UNSIEVE: the old script is marked first, whatever follows.
    method IndexSieve(at: Place, s: SieveDlist, unsieve: bool) returns (r: Code)
      requires Valid()
      modifies this`sieve
      ensures Valid()
      ensures Contents() == IndexLine(old(Contents()), at, if unsieve then Unsieve(s.filename) else Sieve(s))
      ensures r == Ok <==> LineOk(if unsieve then Unsieve(s.filename) else Sieve(s))
    {
      if s.filename.None? {
        return BadParameters;
      }
      sieve := DeleteSieve(sieve, s.filename.value, at.ts);
      if !unsieve {
        if s.lastUpdate.None? || s.content.None? {
          return BadParameters;
        }
        sieve := sieve + [SieveRow(at.chunk, s.lastUpdate.value, s.filename.value, s.content.value, at.offset, None)];
      }
      r := Ok;
    }

    // backup_index
    method IndexDlist(at: Place, dl: Dlist) returns (r: Code)
      requires Valid()
      modifies this
      ensures Valid() && Contents() == IndexLine(old(Contents()), at, dl)
      ensures r == Ok <==> LineOk(dl)
    {
      match dl
      case Message(items) => r := IndexMessage(at, items);
      case Mailbox(m) => r := IndexMailbox(at, m);
      case Unmailbox(name) => r := IndexUnmailbox(at, name);
      case Rename(n) => r := IndexRename(at, n);
      case Reserve(_) => r := Ok;
      case Seen(s) => r := IndexSeen(at, s);
      case Sub(n) => r := IndexSub(at, n, false);
      case Unsub(n) => r := IndexSub(at, n, true);
      case Sieve(s) => r := IndexSieve(at, s, false);
      case Unsieve(n) => r := IndexSieve(at, SieveDlist(n, None, None), true);
      case Unrecognised(_) => r := ProtocolError;
    }
  }
}
