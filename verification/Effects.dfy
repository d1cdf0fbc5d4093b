// What one line does to one key of a table.

module Effects {
  import opened Options
  import opened Log
  import opened Index

  predicate StoresGuid(items: seq<MessageItem>, g: Guid) {
    exists item :: item in items && item.File? && item.guid == g
  }

  lemma StoresGuidAtEnd(items: seq<MessageItem>, item: MessageItem, g: Guid)
    ensures StoresGuid(items + [item], g) <==> StoresGuid(items, g) || (item.File? && item.guid == g)
  {
    var all := items + [item];
    assert forall x :: x in all <==> x in items || x == item;
  }

  lemma StoresNothing(g: Guid)
    ensures !StoresGuid([], g)
  {
  }

  // Some item of a MESSAGE list states exactly this partition and size.
  ghost predicate StoresAs(items: seq<MessageItem>, g: Guid, partition: string, size: nat) {
    exists item :: item in items && item.File? && item.guid == g && item.partition == partition && item.size == size
  }

  lemma StoresAsAtEnd(items: seq<MessageItem>, item: MessageItem, g: Guid, partition: string, size: nat)
    ensures StoresAs(items + [item], g, partition, size) <==>
      StoresAs(items, g, partition, size)
      || (item.File? && item.guid == g && item.partition == partition && item.size == size)
  {
    var all := items + [item];
    assert forall x :: x in all <==> x in items || x == item;
  }

  lemma ItemsStep(message: Messages, at: Place, items: seq<MessageItem>, item: MessageItem)
    ensures IndexItems(message, at, items + [item]) == IndexItem(IndexItems(message, at, items), at, item)
    ensures IndexItems(message, at, []) == message
  {
    hide IndexItem;
    assert (items + [item])[..|items|] == items;
  }

  lemma {:induction false} ItemsEffect(message: Messages, at: Place, items: seq<MessageItem>, g: Guid)
    ensures var after := IndexItems(message, at, items);
      && (g in after <==> g in message || StoresGuid(items, g))
      && (g in after && !StoresGuid(items, g) ==> after[g] == message[g])
      && (StoresGuid(items, g) ==>
            after[g].chunk == at.chunk && after[g].offset == at.offset
            && StoresAs(items, g, after[g].partition, after[g].size))
  {
    hide StoresGuid, StoresAs, IndexItems;
    if items == [] {
      StoresNothing(g);
      ItemsStep(message, at, [], NotFile);
    } else {
      var n := |items| - 1;
      var front, last := items[..n], items[n];
      assert items == front + [last];
      ItemsEffect(message, at, front, g);
      ItemsStep(message, at, front, last);
      StoresGuidAtEnd(front, last, g);
      var before := IndexItems(message, at, front);
      if last.File? && last.guid == g {
        StoresAsAtEnd(front, last, g, last.partition, last.size);
      } else if g in before {
        StoresAsAtEnd(front, last, g, before[g].partition, before[g].size);
      }
    }
  }

  predicate RecordsGuid(rs: seq<Record>, g: Guid) {
    exists r :: r in rs && r.guid == Some(g)
  }

  // The row is what some record of the list states for this message.
  ghost predicate StatedBy(rs: seq<Record>, g: Guid, row: LinkRow, at: Place) {
    exists r :: r in rs && RecordComplete(r) && r.guid.value == g && row == LinkRowOf(r, at, row.expunged)
  }

  lemma {:induction false} RecordsEffect(link: Links, message: Messages, u: string, at: Place, rs: seq<Record>,
                                         key: LinkKey)
    requires forall r :: r in rs ==> RecordComplete(r)
    ensures var after := IndexRecords(link, message, u, at, rs);
      var hit := key.0 == u && key.1 in message && RecordsGuid(rs, key.1);
      && (key in after <==> key in link || hit)
      && (key in after && !hit ==> after[key] == link[key])
      && (hit ==> after[key].lastChunk == at.chunk && StatedBy(rs, key.1, after[key], at))
      && (key in link && link[key].expunged.Some? ==> after[key].expunged == link[key].expunged)
  {
    if rs != [] {
      var n := |rs| - 1;
      RecordsEffect(link, message, u, at, rs[..n], key);
      assert rs == rs[..n] + [rs[n]];
      assert forall r :: r in rs[..n] ==> r in rs;
      assert rs[n] in rs && RecordComplete(rs[n]);
      if rs[n].guid == Some(key.1) {
      } else {
        assert RecordsGuid(rs, key.1) <==> RecordsGuid(rs[..n], key.1);
        assert (u, rs[n].guid.value).1 != key.1;
        if key.0 == u && key.1 in message && RecordsGuid(rs, key.1) {
          var row := IndexRecords(link, message, u, at, rs)[key];
          assert StatedBy(rs[..n], key.1, row, at);
        }
      }
    }
  }

  // Some record of the list expunges the message at that time.
  predicate ExpungesGuid(rs: seq<Record>, g: Guid, ts: int) {
    exists r :: r in rs && r.guid == Some(g) && BoundExpunge(r, ts).Some?
  }

  lemma ExpungesAtEnd(rs: seq<Record>, r: Record, g: Guid, ts: int)
    ensures ExpungesGuid(rs + [r], g, ts) <==>
      ExpungesGuid(rs, g, ts) || (r.guid == Some(g) && BoundExpunge(r, ts).Some?)
    ensures RecordsGuid(rs + [r], g) <==> RecordsGuid(rs, g) || r.guid == Some(g)
  {
    assert forall x :: x in rs + [r] <==> x in rs || x == r;
  }

  // The first expunge time counts, and it is the line's.
  lemma {:induction false} RecordsExpunge(
    link: Links, message: Messages, u: string, at: Place, rs: seq<Record>, g: Guid)
    requires forall r :: r in rs ==> RecordComplete(r)
    requires g in message
    ensures PriorExpunge(IndexRecords(link, message, u, at, rs), (u, g))
      == Coalesce(PriorExpunge(link, (u, g)), if ExpungesGuid(rs, g, at.ts) then Some(at.ts) else None)
  {
    hide ExpungesGuid, RecordsGuid;
    if rs == [] {
      NothingExpunges(g, at.ts);
    } else {
      var n := |rs| - 1;
      assert rs == rs[..n] + [rs[n]];
      RecordsExpunge(link, message, u, at, rs[..n], g);
      ExpungesAtEnd(rs[..n], rs[n], g, at.ts);
      RecordExpunge(IndexRecords(link, message, u, at, rs[..n]), message, u, at, rs[n], g);
    }
  }

  lemma NothingExpunges(g: Guid, ts: int)
    ensures !ExpungesGuid([], g, ts)
  {
  }

  lemma RecordExpunge(link: Links, message: Messages, u: string, at: Place, r: Record, g: Guid)
    requires RecordComplete(r) && g in message
    ensures PriorExpunge(IndexRecord(link, message, u, at, r), (u, g))
      == if r.guid == Some(g) then Coalesce(PriorExpunge(link, (u, g)), BoundExpunge(r, at.ts))
         else PriorExpunge(link, (u, g))
    ensures BoundExpunge(r, at.ts).Some? ==> BoundExpunge(r, at.ts) == Some(at.ts)
  {
    assert r.guid != Some(g) ==> (u, r.guid.value).1 != (u, g).1;
  }

  // ---- what a record makes of its link ----

  // One \Expunged flag, the last, has been taken out of the list.
  ghost predicate TakenOut(flags: seq<string>, rest: seq<string>) {
    exists k :: 0 <= k <= |rest| && flags == rest[..k] + [EXPUNGED] + rest[k..] && EXPUNGED !in rest[k..]
  }

  // The flags but for one \Expunged, if there is one.
  ghost predicate FlagsLeft(flags: seq<string>, rest: seq<string>) {
    if EXPUNGED in flags then TakenOut(flags, rest) else rest == flags
  }

  lemma StripLeavesTheRest(flags: seq<string>)
    ensures FlagsLeft(flags, StripExpunged(flags))
  {
    var k := LastExpunged(flags);
    var rest := StripExpunged(flags);
    if k < |flags| {
      assert flags == rest[..k] + [EXPUNGED] + rest[k..];
      assert rest[k..] == flags[k + 1..];
    }
  }

  // The row says of the message what the record does, flags and annotations
  // included.
  ghost predicate SaysWhat(row: LinkRow, r: Record) {
    && Some(row.uid) == r.uid && Some(row.modseq) == r.modseq && Some(row.lastUpdated) == r.lastUpdated
    && Some(row.internaldate) == r.internaldate && row.annotations == r.annotations
    && (row.flags.Some? <==> r.flags.Some?)
    && (row.flags.Some? ==> FlagsLeft(r.flags.value, row.flags.value))
  }

  // Record j is the last of the list for the message.
  ghost predicate LastRecord(rs: seq<Record>, g: Guid, j: nat) {
    && j < |rs| && rs[j].guid == Some(g)
    && forall k :: j < k < |rs| ==> rs[k].guid != Some(g)
  }

  lemma {:induction false} LastRecordSays(link: Links, message: Messages, u: string, at: Place, rs: seq<Record>,
                                          g: Guid, j: nat)
    requires (forall r :: r in rs ==> RecordComplete(r)) && g in message && LastRecord(rs, g, j)
    ensures var after := IndexRecords(link, message, u, at, rs);
      (u, g) in after && after[(u, g)].lastChunk == at.chunk && SaysWhat(after[(u, g)], rs[j])
  {
    hide FlagsLeft, StripExpunged;
    var n := |rs| - 1;
    assert rs[n] in rs && RecordComplete(rs[n]);
    if j == n {
      if rs[n].flags.Some? {
        StripLeavesTheRest(rs[n].flags.value);
      }
    } else {
      LastRecordSays(link, message, u, at, rs[..n], g, j);
      assert rs[n].guid != Some(g) && (u, rs[n].guid.value).1 != g;
    }
  }

  // An indexed MAILBOX line leaves in the link of a stored message what its last
  // record for the message says.
  lemma LineSaysWhat(t: Tables, at: Place, m: MailboxDlist, g: Guid, j: nat)
    requires LineOk(Mailbox(m)) && g in t.message && LastRecord(m.records.value, g, j)
    ensures var key := (m.uniqueid.value, g);
      var after := IndexLine(t, at, Mailbox(m)).link;
      key in after && after[key].lastChunk == at.chunk && SaysWhat(after[key], m.records.value[j])
  {
    hide SaysWhat, LastRecord, RecordComplete, IndexRecords;
    LastRecordSays(t.link, t.message, m.uniqueid.value, at, m.records.value, g, j);
  }

  ghost predicate Flagged(r: Record) {
    r.flags.Some? && EXPUNGED in r.flags.value
  }

  // The link keeps an expunge time it has, and gets the line's, unless that is
  // zero, if any of the line's records for the message has the flag.
  lemma LineExpungesWhenFlagged(t: Tables, at: Place, m: MailboxDlist, g: Guid)
    requires LineOk(Mailbox(m)) && g in t.message
    ensures var key := (m.uniqueid.value, g);
      var prior := PriorExpunge(t.link, key);
      PriorExpunge(IndexLine(t, at, Mailbox(m)).link, key)
      == if prior.Some? then prior
         else if at.ts != 0 && exists r :: r in m.records.value && r.guid == Some(g) && Flagged(r) then Some(at.ts)
         else None
  {
    hide IndexRecords, RecordComplete, PriorExpunge;
    RecordsExpunge(t.link, t.message, m.uniqueid.value, at, m.records.value, g);
  }

  // Item k is the last of a MESSAGE list for the message.
  ghost predicate LastItem(items: seq<MessageItem>, g: Guid, k: nat) {
    && k < |items| && items[k].File? && items[k].guid == g
    && forall j :: k < j < |items| && items[j].File? ==> items[j].guid != g
  }

  // A MESSAGE line leaves partition and size of the last of its items for the
  // message, at its own place.
  lemma {:induction false} LastItemCounts(message: Messages, at: Place, items: seq<MessageItem>, g: Guid, k: nat)
    requires LastItem(items, g, k)
    ensures var after := IndexItems(message, at, items);
      g in after && after[g] == MessageRow(items[k].partition, at.chunk, at.offset, items[k].size)
  {
    var n := |items| - 1;
    if k < n {
      LastItemCounts(message, at, items[..n], g, k);
    }
  }
}
