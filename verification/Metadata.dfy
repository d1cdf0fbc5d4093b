// Compaction loses no active metadata: seen state, subscriptions and scripts.

module Metadata {
  import opened Options
  import opened Log
  import opened Index
  import opened Effects
  import opened Agreement
  import opened Pruning
  import opened Conservation

  ghost predicate SameSeen(a: SeenRow, b: SeenRow) {
    a.lastRead == b.lastRead && a.lastUid == b.lastUid && a.lastChange == b.lastChange && a.seenUids == b.seenUids
  }

  // The rows of live chunks are the same, chunk ids aside.
  ghost predicate UserRel(live: iset<nat>, t: Tables, o: Tables) {
    && (forall u :: u in t.seen && t.seen[u].lastChunk in live ==>
          u in o.seen && SameSeen(t.seen[u], o.seen[u]))
    && (forall n :: n in t.subscription && t.subscription[n].lastChunk in live ==>
          n in o.subscription && o.subscription[n].unsubscribed == t.subscription[n].unsubscribed)
  }

  lemma UserLineStep(live: iset<nat>, t: Tables, o: Tables, at: Place, dl: Dlist)
    requires UserRel(live, t, o)
    requires dl.Seen? || dl.Sub? || dl.Unsub?
    ensures UserRel(live, IndexLine(t, at, dl), if at.chunk in live then IndexLine(o, OutPlace(at.ts), dl) else o)
  {
  }

  lemma {:induction false} UserDataConserved(orig: Tables, since: int, es: seq<Entry>)
    ensures UserRel(LiveChunks(orig, since), IndexEntries(es), Content(KeepLines(orig, since, es)))
  {
    if es == [] {
      return;
    }
    var n := |es| - 1;
    var e := es[n];
    UserDataConserved(orig, since, es[..n]);
    ContentStep(orig, since, es);
    KeptKind(orig, since, e);
    var t, o := IndexEntries(es[..n]), Content(KeepLines(orig, since, es[..n]));
    if e.line.dl.Seen? || e.line.dl.Sub? || e.line.dl.Unsub? {
      UserLineStep(LiveChunks(orig, since), t, o, At(e), e.line.dl);
    } else {
      var kept := KeepLine(orig, since, e);
      OtherLine(t, At(e), e.line.dl);
      if kept != [] {
        OtherLine(o, OutPlace(kept[0].ts), kept[0].dl);
      }
    }
  }

  // Every seen row and every current (or recently ended) subscription survives.
  lemma CompactionKeepsUserData(es: seq<Entry>, since: int)
    ensures var t := IndexEntries(es);
      var o := Content(KeepLines(t, since, es));
      && (forall u :: u in t.seen ==> u in o.seen && SameSeen(t.seen[u], o.seen[u]))
      && (forall n :: n in t.subscription && Since(t.subscription[n].unsubscribed, since) ==>
            n in o.subscription && o.subscription[n].unsubscribed == t.subscription[n].unsubscribed)
  {
    UserDataConserved(IndexEntries(es), since, es);
  }

  // ---- scripts ----

  ghost predicate SameScript(a: SieveRow, b: SieveRow) {
    a.filename == b.filename && a.lastUpdate == b.lastUpdate && a.content == b.content && a.deleted == b.deleted
  }

  ghost predicate HasScript(sieve: seq<SieveRow>, row: SieveRow) {
    exists k :: 0 <= k < |sieve| && SameScript(row, sieve[k])
  }

  // Every undeleted script of a live chunk is there, undeleted.
  ghost predicate SieveRel(live: iset<nat>, ts: seq<SieveRow>, os: seq<SieveRow>) {
    forall i :: 0 <= i < |ts| && ts[i].deleted.None? && ts[i].chunk in live ==> HasScript(os, ts[i])
  }

  lemma DeleteStep(live: iset<nat>, ts: seq<SieveRow>, os: seq<SieveRow>, name: string, now: int, copied: bool)
    requires SieveRel(live, ts, os)
    ensures SieveRel(live, DeleteSieve(ts, name, now), if copied then DeleteSieve(os, name, now) else os)
  {
    var ts', os' := DeleteSieve(ts, name, now), if copied then DeleteSieve(os, name, now) else os;
    forall i | 0 <= i < |ts'| && ts'[i].deleted.None? && ts'[i].chunk in live
      ensures HasScript(os', ts'[i])
    {
      assert ts[i].deleted.None?;
      var k :| 0 <= k < |os| && SameScript(ts[i], os[k]);
      assert SameScript(ts'[i], os'[k]);
    }
  }

  lemma AddStep(live: iset<nat>, ts: seq<SieveRow>, os: seq<SieveRow>, row: SieveRow, copy: SieveRow)
    requires SieveRel(live, ts, os) && SameScript(row, copy)
    ensures SieveRel(live, ts + [row], os + [copy])
    ensures row.chunk !in live ==> SieveRel(live, ts + [row], os)
  {
    forall i | 0 <= i < |ts + [row]| && (ts + [row])[i].deleted.None? && (ts + [row])[i].chunk in live
      ensures HasScript(os + [copy], (ts + [row])[i])
      ensures row.chunk !in live ==> HasScript(os, (ts + [row])[i])
    {
      if i < |ts| {
        var k :| 0 <= k < |os| && SameScript(ts[i], os[k]);
        assert SameScript(ts[i], (os + [copy])[k]);
      } else {
        assert SameScript(row, (os + [copy])[|os|]);
      }
    }
  }

  lemma IndexSieveStep(live: iset<nat>, ts: seq<SieveRow>, os: seq<SieveRow>, at: Place, s: SieveDlist)
    requires SieveRel(live, ts, os)
    ensures SieveRel(live, IndexSieve(ts, at, s), if at.chunk in live then IndexSieve(os, OutPlace(at.ts), s) else os)
  {
    if s.filename.Some? {
      var copied := at.chunk in live;
      DeleteStep(live, ts, os, s.filename.value, at.ts, copied);
      if s.lastUpdate.Some? && s.content.Some? {
        var row := SieveRow(at.chunk, s.lastUpdate.value, s.filename.value, s.content.value, at.offset, None);
        AddStep(live, DeleteSieve(ts, s.filename.value, at.ts),
                if copied then DeleteSieve(os, s.filename.value, at.ts) else os, row, row.(chunk := 0, offset := 0));
      }
    }
  }

  lemma SieveLineStep(live: iset<nat>, t: Tables, o: Tables, at: Place, dl: Dlist)
    requires dl.Sieve? || dl.Unsieve?
    requires SieveRel(live, t.sieve, o.sieve)
    ensures SieveRel(live, IndexLine(t, at, dl).sieve,
                     if at.chunk in live then IndexLine(o, OutPlace(at.ts), dl).sieve else o.sieve)
  {
    match dl
    case Unsieve(n) => if n.Some? { DeleteStep(live, t.sieve, o.sieve, n.value, at.ts, at.chunk in live); }
    case Sieve(s) => IndexSieveStep(live, t.sieve, o.sieve, at, s);
  }

  lemma {:induction false} ScriptsConserved(orig: Tables, since: int, es: seq<Entry>)
    ensures SieveRel(LiveChunks(orig, since), IndexEntries(es).sieve, Content(KeepLines(orig, since, es)).sieve)
  {
    if es == [] {
      return;
    }
    var n := |es| - 1;
    var e := es[n];
    ScriptsConserved(orig, since, es[..n]);
    ContentStep(orig, since, es);
    KeptKind(orig, since, e);
    var t, o := IndexEntries(es[..n]), Content(KeepLines(orig, since, es[..n]));
    if e.line.dl.Sieve? || e.line.dl.Unsieve? {
      SieveLineStep(LiveChunks(orig, since), t, o, At(e), e.line.dl);
    } else {
      var kept := KeepLine(orig, since, e);
      OtherLine(t, At(e), e.line.dl);
      if kept != [] {
        OtherLine(o, OutPlace(kept[0].ts), kept[0].dl);
      }
    }
  }

  // Every undeleted script survives undeleted.
  lemma CompactionKeepsActiveScripts(es: seq<Entry>, since: int, i: nat)
    requires i < |IndexEntries(es).sieve| && IndexEntries(es).sieve[i].deleted.None?
    ensures var t := IndexEntries(es);
      HasScript(Content(KeepLines(t, since, es)).sieve, t.sieve[i])
  {
    ScriptsConserved(IndexEntries(es), since, es);
  }
}
