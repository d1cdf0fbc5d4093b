// annotatemore_findall: a search that visits only the keys with the fixed
// prefix of the pattern.

module FindAll {
  import opened Options
  import opened AnnotKeys
  import opened AnnotValues
  import OpenDbs

  // What a compiled glob accepts: '*' stands for anything, '%' for anything
  // without the hierarchy separator.
  predicate Matches(pat: string, sep: char, s: string)
    decreases |pat| + |s|
  {
    if pat == [] then s == []
    else if pat[0] == '*' then Matches(pat[1..], sep, s) || (s != [] && Matches(pat, sep, s[1..]))
    else if pat[0] == '%' then Matches(pat[1..], sep, s) || (s != [] && s[0] != sep && Matches(pat, sep, s[1..]))
    else s != [] && s[0] == pat[0] && Matches(pat[1..], sep, s[1..])
  }

  predicate Wild(c: char) {
    c == '*' || c == '%'
  }

  function FixedPrefix(key: string): (p: string)
    ensures p <= key
    ensures forall c :: c in p ==> !Wild(c)
    ensures |p| < |key| ==> Wild(key[|p|])
  {
    if key == [] || Wild(key[0]) then [] else [key[0]] + FixedPrefix(key[1..])
  }

  lemma {:induction false} MatchStartsWithPrefix(pat: string, sep: char, s: string)
    requires Matches(pat, sep, s)
    ensures FixedPrefix(pat) <= s
    ensures FixedPrefix(pat) == pat ==> s == pat
  {
    if pat != [] && !Wild(pat[0]) {
      MatchStartsWithPrefix(pat[1..], sep, s[1..]);
      assert s == [s[0]] + s[1..] && pat == [pat[0]] + pat[1..];
    }
  }

  lemma {:induction false} PrefixOfConcat(a: string, b: string)
    ensures FixedPrefix(a) == a ==> FixedPrefix(a + b) == a + FixedPrefix(b)
    ensures FixedPrefix(a) != a ==> FixedPrefix(a + b) == FixedPrefix(a)
  {
    hide FixedPrefix, Wild;
    if a == [] {
      assert a + b == b;
      NothingIsFixed();
    } else {
      PrefixOfConcat(a[1..], b);
      assert a == [a[0]] + a[1..] && a + b == [a[0]] + (a[1..] + b);
      FixedStep(a[0], a[1..]);
      FixedStep(a[0], a[1..] + b);
    }
  }

  lemma NothingIsFixed()
    ensures FixedPrefix([]) == []
  {
  }

  lemma FixedStep(c: char, s: string)
    ensures FixedPrefix([c] + s) == if Wild(c) then [] else [c] + FixedPrefix(s)
    ensures FixedPrefix([c] + s) == [c] + s <==> !Wild(c) && FixedPrefix(s) == s
  {
    assert ([c] + s)[1..] == s;
  }

  lemma {:induction false} TamePatternsAreFixed(s: string)
    requires forall k :: 0 <= k < |s| ==> !Wild(s[k])
    ensures FixedPrefix(s) == s
  {
    if s != [] {
      TamePatternsAreFixed(s[1..]);
      assert s == [s[0]] + s[1..];
    }
  }

  datatype Query = Query(mboxname: string, uid: nat, entry: string, sinceModseq: nat, tombstones: bool)

  datatype Record = Record(key: string, data: seq<byte>)

  datatype Found = Found(parts: Parts, attribs: Attribs)

  // The mailbox whose database is searched; None for the global one.
  function DbOf(q: Query): Option<string> {
    OpenDbs.KeyFor(Some(q.mboxname), q.uid)
  }

  // find_p
  predicate Selects(q: Query, key: string) {
    var parts := SplitKey(DbOf(q), key);
    && parts.Some?
    && parts.value.userid.Some?
    && (q.uid == 0 || q.uid == ANY_UID || q.uid == parts.value.uid)
    && Matches(q.mboxname, '.', parts.value.mboxname)
    && Matches(q.entry, '/', parts.value.entry)
  }

  // find_cb: not too old, and not a tombstone unless those are wanted
  predicate Reports(q: Query, a: Attribs) {
    && !(q.sinceModseq != 0 && q.sinceModseq >= a.mdata.modseq)
    && !((Deleted(a.mdata.flags) || a.value == []) && !q.tombstones)
  }

  function Prefix(q: Query): string {
    FixedPrefix(MakeKey(q.mboxname, q.uid, q.entry, None))
  }

  // The first field of a key in a per-mailbox database is its uid in decimal.
  predicate CanonicalKey(db: Option<string>, key: string) {
    db.Some? && SplitKey(db, key).Some? ==> key[..FieldEnd(key, 0)] == Decimals.Decimal(SplitKey(db, key).value.uid)
  }

  lemma SplitLayout(db: Option<string>, key: string)
    requires SplitKey(db, key).Some?
    ensures var p := FieldEnd(key, 0);
      var parts := SplitKey(db, key).value;
      && p < |key| && key[p] == NUL
      && (db.None? ==> parts.mboxname == key[..p] && parts.uid == 0)
      && (db.Some? ==> parts.mboxname == db.value)
      && p + 1 + |parts.entry| <= |key| && parts.entry == key[p + 1..p + 1 + |parts.entry|]
  {
  }

  lemma TwoFields(key: string, first: string, entry: string, fp: string)
    requires |first| < |key| && key[..|first|] == first && key[|first|] == NUL
    requires |first| + 1 + |entry| <= |key| && entry == key[|first| + 1..|first| + 1 + |entry|]
    requires fp <= entry
    ensures first + ([NUL] + fp) <= key
  {
    var s := first + ([NUL] + fp);
    forall k | 0 <= k < |s|
      ensures key[k] == s[k]
    {
      if k > |first| {
        assert entry[k - |first| - 1] == key[k];
      }
    }
  }

  // The fixed prefix ends in the first field, or goes on into the entry.
  lemma PrefixIs(q: Query)
    ensures var first := FirstField(q.mboxname, q.uid);
      Prefix(q) == if FixedPrefix(first) == first then first + ([NUL] + FixedPrefix(q.entry)) else FixedPrefix(first)
  {
    hide FirstField, FixedPrefix;
    var first := FirstField(q.mboxname, q.uid);
    assert MakeKey(q.mboxname, q.uid, q.entry, None) == first + ([NUL] + q.entry);
    PrefixOfConcat(first, [NUL] + q.entry);
    PrefixOfConcat([NUL], q.entry);
    NulIsFixed();
  }

  // A key that is selected has the fixed prefix.
  lemma SelectedKeysHavePrefix(q: Query, key: string)
    requires Selects(q, key) && CanonicalKey(DbOf(q), key)
    ensures Prefix(q) <= key
  {
    hide Uid, Matches, SplitKey, FixedPrefix, FieldEnd, Prefix, MakeKey;
    var parts := SplitKey(DbOf(q), key).value;
    var p := FieldEnd(key, 0);
    var first := FirstField(q.mboxname, q.uid);
    SplitLayout(DbOf(q), key);
    MatchStartsWithPrefix(q.mboxname, '.', parts.mboxname);
    MatchStartsWithPrefix(q.entry, '/', parts.entry);
    PrefixIs(q);
    if q.uid == ANY_UID {
      StarIsWild();
    } else if q.uid != 0 {
      TamePatternsAreFixed(first);
      TwoFields(key, first, parts.entry, FixedPrefix(q.entry));
    } else if FixedPrefix(first) == first {
      TwoFields(key, first, parts.entry, FixedPrefix(q.entry));
    }
  }

  lemma NulIsFixed()
    ensures FixedPrefix([NUL]) == [NUL]
  {
  }

  lemma StarIsWild()
    ensures FixedPrefix("*") == []
  {
  }

  // ---- the search ----

  // What the record is reported as, if it is.
  function Report(q: Query, rec: Record): seq<Found>
    requires SplitAttribs(rec.data).Some?
  {
    var a := SplitAttribs(rec.data).value;
    if Selects(q, rec.key) && Reports(q, a) then [Found(SplitKey(DbOf(q), rec.key).value, a)] else []
  }

  predicate Readable(db: seq<Record>) {
    forall rec :: rec in db ==> SplitAttribs(rec.data).Some?
  }

  // Every record is looked at.
  function FullScan(q: Query, db: seq<Record>): seq<Found>
    requires Readable(db)
  {
    if db == [] then [] else FullScan(q, db[..|db| - 1]) + Report(q, db[|db| - 1])
  }

  // cyrusdb_foreach: only the keys with the fixed prefix are looked at. The
  // callbacks get exactly the records that a full scan finds, in key order.
  method FindAll(q: Query, db: seq<Record>) returns (found: seq<Found>)
    requires Readable(db)
    requires forall rec :: rec in db ==> CanonicalKey(DbOf(q), rec.key)
    ensures found == FullScan(q, db)
    ensures var wanted := if q.tombstones then Selected(q, db) else Filter(LIVING, Selected(q, db));
      found == if q.sinceModseq == 0 then wanted else Filter(NEWER(q.sinceModseq), wanted)
  {
    hide Matches, SplitKey, SplitAttribs, CanonicalKey, FixedPrefix, Filter, Selected;
    FullScanIs(q, db);
    found := [];
    var prefix := Prefix(q);
    var k := 0;
    while k < |db|
      invariant 0 <= k <= |db|
      invariant found == FullScan(q, db[..k])
    {
      var rec := db[k];
      assert rec in db && db[..k + 1][..k] == db[..k];
      if Selects(q, rec.key) {
        SelectedKeysHavePrefix(q, rec.key);
      }
      if prefix <= rec.key && Selects(q, rec.key) {
        var a := SplitAttribs(rec.data).value;
        if Reports(q, a) {
          found := found + [Found(SplitKey(DbOf(q), rec.key).value, a)];
        }
      }
      k := k + 1;
    }
    assert db[..k] == db;
  }

  // ---- what a search leaves out ----

  function Filter(p: Found -> bool, fs: seq<Found>): seq<Found> {
    if fs == [] then [] else Filter(p, fs[..|fs| - 1]) + if p(fs[|fs| - 1]) then [fs[|fs| - 1]] else []
  }

  // The records that the userid and the patterns select, in order.
  function Selected(q: Query, db: seq<Record>): seq<Found>
    requires Readable(db)
  {
    if db == [] then []
    else
      var rec := db[|db| - 1];
      Selected(q, db[..|db| - 1])
      + if Selects(q, rec.key) then [Found(SplitKey(DbOf(q), rec.key).value, SplitAttribs(rec.data).value)] else []
  }

  // Since zero, and with tombstones, the search reports all that are selected.
  lemma {:induction false} AllAreReported(q: Query, db: seq<Record>)
    requires Readable(db) && q.sinceModseq == 0 && q.tombstones
    ensures FullScan(q, db) == Selected(q, db)
  {
    hide Selects, SplitAttribs, SplitKey, DbOf;
    if db != [] {
      assert db[|db| - 1] in db;
      AllAreReported(q, db[..|db| - 1]);
    }
  }

  lemma FilterAtEnd(p: Found -> bool, fs: seq<Found>, f: Found)
    ensures Filter(p, fs + [f]) == Filter(p, fs) + if p(f) then [f] else []
    ensures Filter(p, []) == []
  {
    assert (fs + [f])[..|fs|] == fs;
  }

  lemma SameSelection(q: Query, m: nat, tombstones: bool, key: string)
    ensures var q' := q.(sinceModseq := m, tombstones := tombstones);
      (Selects(q', key) <==> Selects(q, key)) && DbOf(q') == DbOf(q)
  {
    hide Matches, SplitKey;
  }

  lemma SelectedSplits(q: Query, key: string)
    ensures Selects(q, key) ==> SplitKey(DbOf(q), key).Some?
  {
    hide SplitKey, Matches;
  }

  const NEWER: nat -> Found -> bool := (m: nat) => (f: Found) => f.attribs.mdata.modseq > m

  // Since some modseq, the search reports what it does since zero and is newer.
  lemma {:induction false} SinceReportsTheNewer(q: Query, db: seq<Record>, m: nat)
    requires Readable(db) && m > 0
    ensures FullScan(q.(sinceModseq := m), db) == Filter(NEWER(m), FullScan(q.(sinceModseq := 0), db))
  {
    hide Selects, SplitAttribs, SplitKey, DbOf, Filter;
    FilterAtEnd(NEWER(m), [], Found(Parts("", 0, "", None), Attribs([], Metadata(0, 0))));
    if db != [] {
      var rec := db[|db| - 1];
      assert rec in db;
      var before := FullScan(q.(sinceModseq := 0), db[..|db| - 1]);
      SinceReportsTheNewer(q, db[..|db| - 1], m);
      SameSelection(q, m, q.tombstones, rec.key);
      SameSelection(q, 0, q.tombstones, rec.key);
      SelectedSplits(q, rec.key);
      if Selects(q, rec.key) {
        FilterAtEnd(NEWER(m), before, Found(SplitKey(DbOf(q), rec.key).value, SplitAttribs(rec.data).value));
      }
      assert before + [] == before;
    }
  }

  const LIVING: Found -> bool := (f: Found) => f.attribs.value != [] && f.attribs.mdata.flags % 2 != FLAG_DELETED

  // Without tombstones, it reports what it does with them and neither is flagged
  // as deleted nor empty.
  lemma {:induction false} OthersAreNoTombstones(q: Query, db: seq<Record>)
    requires Readable(db)
    ensures FullScan(q.(tombstones := false), db) == Filter(LIVING, FullScan(q.(tombstones := true), db))
  {
    hide Selects, SplitAttribs, SplitKey, DbOf, Filter;
    FilterAtEnd(LIVING, [], Found(Parts("", 0, "", None), Attribs([], Metadata(0, 0))));
    if db != [] {
      var rec := db[|db| - 1];
      assert rec in db;
      var before := FullScan(q.(tombstones := true), db[..|db| - 1]);
      OthersAreNoTombstones(q, db[..|db| - 1]);
      SameSelection(q, q.sinceModseq, false, rec.key);
      SameSelection(q, q.sinceModseq, true, rec.key);
      SelectedSplits(q, rec.key);
      if Selects(q, rec.key) {
        FilterAtEnd(LIVING, before, Found(SplitKey(DbOf(q), rec.key).value, SplitAttribs(rec.data).value));
      }
      assert before + [] == before;
    }
  }

  // Together: of the selected records in order, those not flagged or empty unless
  // tombstones are wanted, and newer than the modseq unless that is zero.
  lemma FullScanIs(q: Query, db: seq<Record>)
    requires Readable(db)
    ensures var wanted := if q.tombstones then Selected(q, db) else Filter(LIVING, Selected(q, db));
      FullScan(q, db) == if q.sinceModseq == 0 then wanted else Filter(NEWER(q.sinceModseq), wanted)
  {
    hide Filter, FullScan, Selected;
    var all := q.(sinceModseq := 0, tombstones := true);
    AllAreReported(all, db);
    SelectedAnyhow(q, 0, true, db);
    OthersAreNoTombstones(all, db);
    assert q.tombstones ==> q.(sinceModseq := 0) == all;
    assert !q.tombstones ==> q.(sinceModseq := 0) == all.(tombstones := false);
    if q.sinceModseq != 0 {
      SinceReportsTheNewer(q, db, q.sinceModseq);
      assert q.(sinceModseq := q.sinceModseq) == q;
    }
  }

  lemma {:induction false} SelectedAnyhow(q: Query, m: nat, tombstones: bool, db: seq<Record>)
    requires Readable(db)
    ensures Selected(q.(sinceModseq := m, tombstones := tombstones), db) == Selected(q, db)
  {
    hide Selects, SplitAttribs, SplitKey, DbOf;
    if db != [] {
      assert db[|db| - 1] in db;
      SelectedAnyhow(q, m, tombstones, db[..|db| - 1]);
      SameSelection(q, m, tombstones, db[|db| - 1].key);
    }
  }

  // The keys that make_key writes into a per-mailbox database are canonical.
  lemma WrittenKeysAreCanonical(mboxname: string, uid: nat, entry: string, userid: Option<string>)
    requires 0 < uid < ANY_UID
    requires NulFree(entry) && (userid.Some? ==> NulFree(userid.value))
    ensures CanonicalKey(Some(mboxname), MakeKey(mboxname, uid, entry, userid))
  {
    hide FieldEnd, SplitKey, Uid;
    MessageKeyRoundTrip(mboxname, uid, entry, userid);
    var first := Decimals.Decimal(uid);
    DecimalIsNulFree(uid);
    var rest := entry + if userid.Some? then [NUL] + userid.value + [NUL] else [];
    assert MakeKey(mboxname, uid, entry, userid) == first + [NUL] + rest;
    FirstFieldAt(MakeKey(mboxname, uid, entry, userid), first, rest);
  }

  // On the keys of the global database the selection is by fields: a userid,
  // and both globs.
  lemma SelectsByFields(q: Query, mboxname: string, entry: string, userid: Option<string>)
    requires q.uid == 0
    requires NulFree(mboxname) && NulFree(entry) && (userid.Some? ==> NulFree(userid.value))
    ensures Selects(q, MakeKey(mboxname, 0, entry, userid)) <==>
      userid.Some? && Matches(q.mboxname, '.', mboxname) && Matches(q.entry, '/', entry)
  {
    hide Matches, SplitKey, MakeKey;
    GlobalKeyRoundTrip(mboxname, entry, userid);
  }

  // Likewise in the database of one mailbox, where the uid counts as well.
  lemma SelectsByMessageFields(q: Query, uid: nat, entry: string, userid: Option<string>)
    requires q.uid != 0 && q.mboxname != "" && 0 < uid < ANY_UID
    requires NulFree(entry) && (userid.Some? ==> NulFree(userid.value))
    ensures Selects(q, MakeKey(q.mboxname, uid, entry, userid)) <==>
      && userid.Some? && (q.uid == ANY_UID || q.uid == uid)
      && Matches(q.mboxname, '.', q.mboxname) && Matches(q.entry, '/', entry)
  {
    hide Matches, SplitKey, MakeKey;
    MessageKeyRoundTrip(q.mboxname, uid, entry, userid);
  }

  // A name without wildcards matches itself alone.
  lemma {:induction false} LiteralMatch(pat: string, sep: char, s: string)
    requires forall k :: 0 <= k < |pat| ==> !Wild(pat[k])
    ensures Matches(pat, sep, s) <==> s == pat
  {
    if pat != [] && s != [] {
      LiteralMatch(pat[1..], sep, s[1..]);
      assert s == [s[0]] + s[1..] && pat == [pat[0]] + pat[1..];
    }
  }

  lemma {:induction false} StarMatchesAll(sep: char, s: string)
    ensures Matches("*", sep, s)
  {
    if s != [] {
      StarMatchesAll(sep, s[1..]);
    } else {
      assert "*"[1..] == [];
    }
  }

  lemma WildStep(p: string, sep: char, s: string)
    ensures Matches(['*'] + p, sep, s) <==> Matches(p, sep, s) || (s != [] && Matches(['*'] + p, sep, s[1..]))
    ensures Matches(['%'] + p, sep, s) <==>
      Matches(p, sep, s) || (s != [] && s[0] != sep && Matches(['%'] + p, sep, s[1..]))
  {
    assert (['*'] + p)[1..] == p && (['%'] + p)[1..] == p;
  }

  // The rest of s from position i matches, and the separator, if there is one,
  // does not come before.
  ghost predicate MatchesFrom(p: string, sep: char, s: string, i: nat, none: Option<char>) {
    i <= |s| && (none.Some? ==> none.value !in s[..i]) && Matches(p, sep, s[i..])
  }

  lemma MatchHere(p: string, sep: char, s: string, none: Option<char>)
    ensures MatchesFrom(p, sep, s, 0, none) <==> Matches(p, sep, s)
  {
    hide Matches;
    assert s[0..] == s;
  }

  lemma MatchLater(p: string, sep: char, s: string, i: nat, none: Option<char>)
    requires s != []
    ensures MatchesFrom(p, sep, s, i + 1, none) <==> none != Some(s[0]) && MatchesFrom(p, sep, s[1..], i, none)
  {
    hide Matches;
    if i < |s| {
      assert s[i + 1..] == s[1..][i..] && s[..i + 1] == [s[0]] + s[1..][..i];
    }
  }

  lemma SomeMatch(p: string, sep: char, s: string, none: Option<char>)
    ensures (exists i: nat :: MatchesFrom(p, sep, s, i, none)) <==>
      || Matches(p, sep, s)
      || (s != [] && none != Some(s[0]) && exists i: nat :: MatchesFrom(p, sep, s[1..], i, none))
  {
    hide Matches;
    MatchHere(p, sep, s, none);
    if i: nat :| MatchesFrom(p, sep, s, i, none) {
      if i != 0 {
        MatchLater(p, sep, s, i - 1, none);
      }
    }
    if s != [] && none != Some(s[0]) {
      if i: nat :| MatchesFrom(p, sep, s[1..], i, none) {
        MatchLater(p, sep, s, i, none);
      }
    }
  }

  // A star takes any characters, and a percent sign any but the separator.
  lemma {:induction false} StarMatches(p: string, sep: char, s: string)
    ensures Matches(['*'] + p, sep, s) <==> exists i: nat :: MatchesFrom(p, sep, s, i, None)
    decreases |s|
  {
    hide Matches, MatchesFrom;
    WildStep(p, sep, s);
    SomeMatch(p, sep, s, None);
    if s != [] {
      StarMatches(p, sep, s[1..]);
    }
  }

  lemma {:induction false} PercentMatches(p: string, sep: char, s: string)
    ensures Matches(['%'] + p, sep, s) <==> exists i: nat :: MatchesFrom(p, sep, s, i, Some(sep))
    decreases |s|
  {
    hide Matches, MatchesFrom;
    WildStep(p, sep, s);
    SomeMatch(p, sep, s, Some(sep));
    if s != [] {
      PercentMatches(p, sep, s[1..]);
    }
  }
}
