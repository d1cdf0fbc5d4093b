// The subscriptions and active scripts of a compacted backup: the last line that
// was copied about each has the last word.

module UserState {
  import opened Options
  import opened Log
  import opened Index
  import opened Pruning
  import opened Conservation
  import opened Metadata

  // ---- subscriptions ----

  predicate SetsSub(line: Line, n: string) {
    line.dl == Sub(Some(n)) || line.dl == Unsub(Some(n))
  }

  function EndTime(line: Line): Option<int> {
    if line.dl.Unsub? then Some(line.ts) else None
  }

  // Of the entries of some chunks, number j is the last SUB or UNSUB of the name.
  ghost predicate LastSub(es: seq<Entry>, chunks: iset<nat>, n: string, j: nat) {
    && j < |es| && es[j].chunk in chunks && SetsSub(es[j].line, n)
    && forall k :: j < k < |es| && es[k].chunk in chunks ==> !SetsSub(es[k].line, n)
  }

  // The table says of the name what the last such entry does.
  ghost predicate SubscriptionIs(es: seq<Entry>, chunks: iset<nat>, n: string, table: map<string, SubRow>) {
    && (n in table <==> exists j: nat :: LastSub(es, chunks, n, j))
    && (forall j: nat :: LastSub(es, chunks, n, j) ==> n in table && table[n].unsubscribed == EndTime(es[j].line))
  }

  ghost predicate SameSub(a: map<string, SubRow>, b: map<string, SubRow>, n: string) {
    && (n in a <==> n in b)
    && (n in a ==> a[n].unsubscribed == b[n].unsubscribed)
  }

  lemma LineOnSub(t: Tables, at: Place, line: Line, n: string)
    requires at.ts == line.ts
    ensures var after := IndexLine(t, at, line.dl).subscription;
      if SetsSub(line, n) then n in after && after[n].unsubscribed == EndTime(line)
      else SameSub(t.subscription, after, n)
  {
    hide IndexRecords, IndexItems, IndexSieve, DeleteSieve, MailboxRowOf;
    match line.dl
    case Sub(_) =>
    case Unsub(_) =>
    case _ =>
      OtherLine(t, at, line.dl);
  }

  lemma LastSubStep(es: seq<Entry>, chunks: iset<nat>, n: string, j: nat)
    requires es != []
    ensures var last := |es| - 1;
      LastSub(es, chunks, n, j) <==>
        if es[last].chunk in chunks && SetsSub(es[last].line, n) then j == last else LastSub(es[..last], chunks, n, j)
  {
  }

  lemma SubscriptionStep(es: seq<Entry>, chunks: iset<nat>, n: string, a: map<string, SubRow>, b: map<string, SubRow>)
    requires es != [] && SubscriptionIs(es[..|es| - 1], chunks, n, a)
    requires var e := es[|es| - 1];
      if e.chunk in chunks && SetsSub(e.line, n) then n in b && b[n].unsubscribed == EndTime(e.line)
      else SameSub(a, b, n)
    ensures SubscriptionIs(es, chunks, n, b)
  {
    hide SetsSub, LastSub, EndTime;
    var last := |es| - 1;
    forall j: nat
      ensures LastSub(es, chunks, n, j) <==>
        if es[last].chunk in chunks && SetsSub(es[last].line, n) then j == last else LastSub(es[..last], chunks, n, j)
    {
      LastSubStep(es, chunks, n, j);
    }
    forall j: nat | LastSub(es[..last], chunks, n, j)
      ensures j < last && es[..last][j] == es[j]
    {
      LastSubIn(es[..last], chunks, n, j);
    }
  }

  lemma LastSubIn(es: seq<Entry>, chunks: iset<nat>, n: string, j: nat)
    requires LastSub(es, chunks, n, j)
    ensures j < |es|
  {
  }

  lemma NoSubscriptions(chunks: iset<nat>, n: string)
    ensures SubscriptionIs([], chunks, n, map[])
  {
  }

  // The log's own table follows all chunks.
  lemma {:induction false} IndexedSubscriptions(es: seq<Entry>, n: string)
    ensures SubscriptionIs(es, ALL_CHUNKS, n, IndexEntries(es).subscription)
  {
    hide IndexLine, SubscriptionIs, SetsSub, EndTime, SameSub;
    if es == [] {
      NoSubscriptions(ALL_CHUNKS, n);
    } else {
      var last := |es| - 1;
      IndexedSubscriptions(es[..last], n);
      LineOnSub(IndexEntries(es[..last]), At(es[last]), es[last].line, n);
      SubscriptionStep(es, ALL_CHUNKS, n, IndexEntries(es[..last]).subscription, IndexEntries(es).subscription);
    }
  }

  lemma KeptOnSub(orig: Tables, since: int, o: Tables, e: Entry, n: string)
    ensures var after := Apply(o, KeepLine(orig, since, e)).subscription;
      if e.chunk in LiveChunks(orig, since) && SetsSub(e.line, n)
      then n in after && after[n].unsubscribed == EndTime(e.line)
      else SameSub(o.subscription, after, n)
  {
    hide IndexLine, LiveChunk, KeepLine;
    var kept := KeepLine(orig, since, e);
    KeptAtMostOne(orig, since, e);
    KeptKind(orig, since, e);
    KeptIsLive(orig, since, e);
    if kept != [] {
      LineOnSub(o, OutPlace(kept[0].ts), kept[0], n);
    }
  }

  lemma KeptIsLive(orig: Tables, since: int, e: Entry)
    ensures KeepLine(orig, since, e) != [] ==> LiveChunk(orig, since, e.chunk)
  {
  }

  lemma {:induction false} CopiedSubscriptions(orig: Tables, since: int, es: seq<Entry>, n: string)
    ensures SubscriptionIs(es, LiveChunks(orig, since), n, Content(KeepLines(orig, since, es)).subscription)
  {
    hide LiveChunks, KeepLine, KeepLines, Content, Apply, SubscriptionIs, SetsSub, EndTime, SameSub;
    if es == [] {
      NothingCopied(orig, since);
      NoSubscriptions(LiveChunks(orig, since), n);
    } else {
      var last := |es| - 1;
      CopiedSubscriptions(orig, since, es[..last], n);
      ContentStep(orig, since, es);
      var o := Content(KeepLines(orig, since, es[..last]));
      KeptOnSub(orig, since, o, es[last], n);
      SubscriptionStep(es, LiveChunks(orig, since), n, o.subscription,
                       Content(KeepLines(orig, since, es)).subscription);
    }
  }

  lemma NothingCopied(orig: Tables, since: int)
    ensures Content(KeepLines(orig, since, [])) == EMPTY
  {
  }

  // A name has a subscription in the copy exactly if a SUB or UNSUB of it is
  // copied, and is subscribed exactly if the last of them is a SUB; in the
  // original the same goes for all lines.
  lemma SubscriptionAfterCompaction(es: seq<Entry>, since: int, n: string)
    ensures var t := IndexEntries(es);
      var o := Content(KeepLines(t, since, es));
      && SubscriptionIs(es, ALL_CHUNKS, n, t.subscription)
      && SubscriptionIs(es, LiveChunks(t, since), n, o.subscription)
  {
    hide SubscriptionIs;
    IndexedSubscriptions(es, n);
    CopiedSubscriptions(IndexEntries(es), since, es, n);
  }

  // ---- scripts ----

  datatype Script = Script(lastUpdate: int, content: string)

  predicate IsActive(row: SieveRow, f: string) {
    row.filename == f && row.deleted.None?
  }

  // The undeleted scripts of a file name.
  function Active(sieve: seq<SieveRow>, f: string): set<Script> {
    set row | row in sieve && IsActive(row, f) :: Script(row.lastUpdate, row.content)
  }

  // The line deletes the old script of the file name, at least.
  predicate Touches(line: Line, f: string) {
    (line.dl.Sieve? && line.dl.sieve.filename == Some(f)) || line.dl == Unsieve(Some(f))
  }

  // The script a line leaves of a file name it touches.
  function ScriptOf(line: Line): set<Script> {
    if line.dl.Sieve? && LineOk(line.dl)
    then {Script(line.dl.sieve.lastUpdate.value, line.dl.sieve.content.value)}
    else {}
  }

  ghost predicate LastTouch(es: seq<Entry>, chunks: iset<nat>, f: string, j: nat) {
    && j < |es| && es[j].chunk in chunks && Touches(es[j].line, f)
    && forall k :: j < k < |es| && es[k].chunk in chunks ==> !Touches(es[k].line, f)
  }

  ghost predicate ScriptIs(es: seq<Entry>, chunks: iset<nat>, f: string, sieve: seq<SieveRow>) {
    && (Active(sieve, f) != {} ==> exists j: nat :: LastTouch(es, chunks, f, j))
    && (forall j: nat :: LastTouch(es, chunks, f, j) ==> Active(sieve, f) == ScriptOf(es[j].line))
  }

  lemma DeletedRow(sieve: seq<SieveRow>, name: string, now: int, row: SieveRow, f: string)
    requires IsActive(row, f)
    ensures row in DeleteSieve(sieve, name, now) <==> f != name && row in sieve
  {
    var after := DeleteSieve(sieve, name, now);
    if row in after {
      var i :| 0 <= i < |after| && after[i] == row;
      assert row == DeleteSieveRow(sieve[i], name, now);
      assert sieve[i] in sieve;
    }
    if row in sieve && f != name {
      var i :| 0 <= i < |sieve| && sieve[i] == row;
      assert after[i] == row;
    }
  }

  lemma DeletedActive(sieve: seq<SieveRow>, name: string, now: int, f: string)
    ensures Active(DeleteSieve(sieve, name, now), f) == if f == name then {} else Active(sieve, f)
  {
    hide DeleteSieve, IsActive;
    var after := DeleteSieve(sieve, name, now);
    forall row | IsActive(row, f)
      ensures row in after <==> f != name && row in sieve
    {
      DeletedRow(sieve, name, now, row, f);
    }
  }

  lemma AddedActive(sieve: seq<SieveRow>, row: SieveRow, f: string)
    ensures Active(sieve + [row], f)
         == Active(sieve, f) + if IsActive(row, f) then {Script(row.lastUpdate, row.content)} else {}
  {
    hide IsActive;
    assert forall r :: r in sieve + [row] <==> r in sieve || r == row;
  }

  lemma LineOnScript(t: Tables, at: Place, line: Line, f: string)
    requires at.ts == line.ts
    ensures Active(IndexLine(t, at, line.dl).sieve, f)
         == if Touches(line, f) then ScriptOf(line) else Active(t.sieve, f)
  {
    hide DeleteSieve, Active, IndexRecords, IndexItems, MailboxRowOf;
    match line.dl
    case Sieve(s) =>
      if s.filename.Some? {
        DeletedActive(t.sieve, s.filename.value, at.ts, f);
        if LineOk(line.dl) {
          AddedActive(DeleteSieve(t.sieve, s.filename.value, at.ts),
                      SieveRow(at.chunk, s.lastUpdate.value, s.filename.value, s.content.value, at.offset, None), f);
        }
      }
    case Unsieve(n) =>
      if n.Some? {
        DeletedActive(t.sieve, n.value, at.ts, f);
      }
    case _ =>
      OtherLine(t, at, line.dl);
  }

  lemma LastTouchStep(es: seq<Entry>, chunks: iset<nat>, f: string, j: nat)
    requires es != []
    ensures var last := |es| - 1;
      LastTouch(es, chunks, f, j) <==>
        if es[last].chunk in chunks && Touches(es[last].line, f) then j == last else LastTouch(es[..last], chunks, f, j)
  {
  }

  lemma LastTouchIn(es: seq<Entry>, chunks: iset<nat>, f: string, j: nat)
    requires LastTouch(es, chunks, f, j)
    ensures j < |es|
  {
  }

  lemma ScriptStep(es: seq<Entry>, chunks: iset<nat>, f: string, a: seq<SieveRow>, b: seq<SieveRow>)
    requires es != [] && ScriptIs(es[..|es| - 1], chunks, f, a)
    requires var e := es[|es| - 1];
      Active(b, f) == if e.chunk in chunks && Touches(e.line, f) then ScriptOf(e.line) else Active(a, f)
    ensures ScriptIs(es, chunks, f, b)
  {
    hide Touches, LastTouch, ScriptOf, Active;
    var last := |es| - 1;
    forall j: nat
      ensures LastTouch(es, chunks, f, j) <==>
        if es[last].chunk in chunks && Touches(es[last].line, f) then j == last else LastTouch(es[..last], chunks, f, j)
    {
      LastTouchStep(es, chunks, f, j);
    }
    forall j: nat | LastTouch(es[..last], chunks, f, j)
      ensures j < last && es[..last][j] == es[j]
    {
      LastTouchIn(es[..last], chunks, f, j);
    }
  }

  lemma NoScripts(chunks: iset<nat>, f: string)
    ensures ScriptIs([], chunks, f, [])
  {
  }

  lemma {:induction false} IndexedScripts(es: seq<Entry>, f: string)
    ensures ScriptIs(es, ALL_CHUNKS, f, IndexEntries(es).sieve)
  {
    hide IndexLine, ScriptIs, Touches, ScriptOf, Active;
    if es == [] {
      NoScripts(ALL_CHUNKS, f);
    } else {
      var last := |es| - 1;
      IndexedScripts(es[..last], f);
      LineOnScript(IndexEntries(es[..last]), At(es[last]), es[last].line, f);
      ScriptStep(es, ALL_CHUNKS, f, IndexEntries(es[..last]).sieve, IndexEntries(es).sieve);
    }
  }

  lemma KeptOnScript(orig: Tables, since: int, o: Tables, e: Entry, f: string)
    ensures Active(Apply(o, KeepLine(orig, since, e)).sieve, f)
      == if e.chunk in LiveChunks(orig, since) && Touches(e.line, f) then ScriptOf(e.line) else Active(o.sieve, f)
  {
    hide IndexLine, LiveChunk, KeepLine, Active, LineOk;
    var kept := KeepLine(orig, since, e);
    KeptAtMostOne(orig, since, e);
    KeptKind(orig, since, e);
    KeptIsLive(orig, since, e);
    if kept != [] {
      LineOnScript(o, OutPlace(kept[0].ts), kept[0], f);
    }
  }

  lemma {:induction false} CopiedScripts(orig: Tables, since: int, es: seq<Entry>, f: string)
    ensures ScriptIs(es, LiveChunks(orig, since), f, Content(KeepLines(orig, since, es)).sieve)
  {
    hide LiveChunks, KeepLine, KeepLines, Content, Apply, ScriptIs, Touches, ScriptOf, Active;
    if es == [] {
      NothingCopied(orig, since);
      NoScripts(LiveChunks(orig, since), f);
    } else {
      var last := |es| - 1;
      CopiedScripts(orig, since, es[..last], f);
      ContentStep(orig, since, es);
      var o := Content(KeepLines(orig, since, es[..last]));
      KeptOnScript(orig, since, o, es[last], f);
      ScriptStep(es, LiveChunks(orig, since), f, o.sieve, Content(KeepLines(orig, since, es)).sieve);
    }
  }

  // The undeleted script of a file name in the copy is that of the last copied
  // line about it, if that is a complete SIEVE; in the original the same goes for
  // all lines.
  lemma ScriptAfterCompaction(es: seq<Entry>, since: int, f: string)
    ensures var t := IndexEntries(es);
      var o := Content(KeepLines(t, since, es));
      && ScriptIs(es, ALL_CHUNKS, f, t.sieve)
      && ScriptIs(es, LiveChunks(t, since), f, o.sieve)
  {
    hide ScriptIs;
    IndexedScripts(es, f);
    CopiedScripts(IndexEntries(es), since, es, f);
  }
}
