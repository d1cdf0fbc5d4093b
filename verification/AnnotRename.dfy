// Copying, moving and deleting the annotations of a mailbox or message: a scan
// whose callback writes each one to its new place.

module AnnotRename {
  import opened Options
  import opened AnnotKeys
  import opened AnnotValues
  import opened KeyedTable
  import opened AnnotRows
  import opened AnnotStore
  import FindAll
  import OpenDbs

  // "/vendor/cmu/cyrus-imapd/" and what follows it
  const SNOOZED := "/vendor/cmu/cyrus-imapd/snoozed"
  const DISPLAYNAME := "/vendor/cmu/cyrus-imapd/displayname"

  datatype Place = Place(mboxname: string, uid: nat)

  // rename_rock, and what the surroundings of the writes answer: the keys the
  // quota has no room for, and whether the messages have index records.
  datatype Rock = Rock(source: Place, target: Option<Place>, olduser: Option<string>, newuser: Option<string>,
                       copy: bool, refused: set<Parts>, sourceThere: bool, targetThere: bool, highest: nat)

  predicate Excluded(entry: string) {
    entry == SNOOZED || entry == DISPLAYNAME
  }

  function NewUser(c: Rock, userid: Option<string>): Option<string> {
    if c.olduser.Some? && c.newuser.Some? && userid == c.olduser then c.newuser else userid
  }

  function NewKey(c: Rock, k: Parts): Parts
    requires c.target.Some?
  {
    Parts(c.target.value.mboxname, c.target.value.uid, k.entry, NewUser(c, k.userid))
  }

  function CopyWrite(c: Rock, f: FindAll.Found): Write
    requires c.target.Some?
  {
    Write(Some(c.target.value.mboxname), c.target.value.uid, f.parts.entry, NewUser(c, f.parts.userid),
          f.attribs.value, None, true, NewKey(c, f.parts) !in c.refused, c.targetThere, c.highest)
  }

  function DeleteWrite(c: Rock, f: FindAll.Found): Write {
    Write(Some(c.source.mboxname), f.parts.uid, f.parts.entry, f.parts.userid,
          [], None, true, f.parts !in c.refused, c.sourceThere, c.highest)
  }

  // What rename_cb writes for one record.
  function Writes(c: Rock, f: FindAll.Found): seq<Write> {
    (if c.target.Some? && !Excluded(f.parts.entry) then [CopyWrite(c, f)] else [])
    + if c.copy then [] else [DeleteWrite(c, f)]
  }

  function AllWrites(c: Rock, found: seq<FindAll.Found>): seq<Write> {
    if found == [] then [] else AllWrites(c, found[..|found| - 1]) + Writes(c, found[|found| - 1])
  }

  // ---- the scan ----

  // Keys as make_key writes them, and records that can be read.
  ghost predicate WellFormed(t: Rows) {
    forall row :: row in t ==>
      && NulFree(row.key.mboxname) && NulFree(row.key.entry)
      && (row.key.userid.Some? ==> NulFree(row.key.userid.value))
      && row.key.uid < ANY_UID && SplitAttribs(row.val).Some?
  }

  predicate InDb(k: Parts, db: Option<string>) {
    if db.Some? then k.uid != 0 && k.mboxname == db.value else k.uid == 0
  }

  function KeyString(k: Parts): string {
    MakeKey(k.mboxname, k.uid, k.entry, k.userid)
  }

  // The records of one database.
  function Records(t: Rows, db: Option<string>): seq<FindAll.Record> {
    if t == [] then []
    else
      var row := t[|t| - 1];
      Records(t[..|t| - 1], db) + if InDb(row.key, db) then [FindAll.Record(KeyString(row.key), row.val)] else []
  }

  function ScanQuery(p: Place): FindAll.Query {
    FindAll.Query(p.mboxname, p.uid, "*", 0, false)
  }

  predicate At(k: Parts, p: Place) {
    k.mboxname == p.mboxname && k.uid == p.uid
  }

  // The live annotations of a place that have a userid.
  function LiveAt(t: Rows, p: Place): seq<FindAll.Found> {
    if t == [] then []
    else
      var row := t[|t| - 1];
      LiveAt(t[..|t| - 1], p)
      + if At(row.key, p) && row.key.userid.Some? && ValueOf(row.val) != []
        then [FindAll.Found(row.key, SplitAttribs(row.val).value)] else []
  }

  ghost predicate Named(p: Place) {
    && p.mboxname != "" && NulFree(p.mboxname) && p.uid < ANY_UID
    && forall k :: 0 <= k < |p.mboxname| ==> !FindAll.Wild(p.mboxname[k])
  }

  lemma KeySelected(p: Place, k: Parts)
    requires Named(p) && InDb(k, FindAll.DbOf(ScanQuery(p)))
    requires NulFree(k.mboxname) && NulFree(k.entry) && (k.userid.Some? ==> NulFree(k.userid.value))
    requires k.uid < ANY_UID
    ensures FindAll.Selects(ScanQuery(p), KeyString(k)) <==> At(k, p) && k.userid.Some?
    ensures SplitKey(FindAll.DbOf(ScanQuery(p)), KeyString(k)) == Some(k)
    ensures FindAll.CanonicalKey(FindAll.DbOf(ScanQuery(p)), KeyString(k))
  {
    hide FindAll.Selects, FindAll.Matches, MakeKey, SplitKey, NulFree;
    var q := ScanQuery(p);
    FindAll.StarMatchesAll('/', k.entry);
    FindAll.LiteralMatch(p.mboxname, '.', k.mboxname);
    if p.uid == 0 {
      FindAll.SelectsByFields(q, k.mboxname, k.entry, k.userid);
      GlobalKeyRoundTrip(k.mboxname, k.entry, k.userid);
    } else {
      FindAll.SelectsByMessageFields(q, k.uid, k.entry, k.userid);
      MessageKeyRoundTrip(k.mboxname, k.uid, k.entry, k.userid);
      FindAll.WrittenKeysAreCanonical(k.mboxname, k.uid, k.entry, k.userid);
    }
  }

  lemma {:induction false} RecordsReadable(t: Rows, p: Place)
    requires WellFormed(t) && Named(p)
    ensures var db := FindAll.DbOf(ScanQuery(p));
      && FindAll.Readable(Records(t, db))
      && forall rec :: rec in Records(t, db) ==> FindAll.CanonicalKey(db, rec.key)
  {
    hide FindAll.CanonicalKey, FindAll.DbOf, InDb, KeyString, NulFree, SplitAttribs, Named;
    if t != [] {
      RecordsReadable(t[..|t| - 1], p);
      var row := t[|t| - 1];
      if InDb(row.key, FindAll.DbOf(ScanQuery(p))) {
        KeySelected(p, row.key);
      }
    }
  }

  lemma DeletedReadsEmpty(data: seq<byte>)
    requires SplitAttribs(data).Some? && Deleted(SplitAttribs(data).value.mdata.flags)
    ensures ValueOf(data) == []
  {
    hide StrEnd, FromBigEndian, FieldLength;
  }

  lemma ReportedIs(p: Place, row: Row<Parts, seq<byte>>)
    requires Named(p) && WellFormed([row]) && InDb(row.key, FindAll.DbOf(ScanQuery(p)))
    ensures FindAll.Report(ScanQuery(p), FindAll.Record(KeyString(row.key), row.val))
      == if At(row.key, p) && row.key.userid.Some? && ValueOf(row.val) != []
         then [FindAll.Found(row.key, SplitAttribs(row.val).value)] else []
  {
    hide FindAll.CanonicalKey, FindAll.DbOf, FindAll.Selects, InDb, KeyString, NulFree, SplitAttribs, SplitKey, Named;
    assert row in [row];
    KeySelected(p, row.key);
    if Deleted(SplitAttribs(row.val).value.mdata.flags) {
      DeletedReadsEmpty(row.val);
    }
  }

  // The scan calls back on the live annotations of the place, whatever the
  // other mailboxes in the database are called.
  lemma {:induction false} ScanIsExact(t: Rows, p: Place)
    requires WellFormed(t) && Named(p)
    requires FindAll.Readable(Records(t, FindAll.DbOf(ScanQuery(p))))
    ensures FindAll.FullScan(ScanQuery(p), Records(t, FindAll.DbOf(ScanQuery(p)))) == LiveAt(t, p)
  {
    hide FindAll.DbOf, FindAll.Report, KeyString, NulFree, SplitAttribs, Named, ValueOf;
    if t != [] {
      var row := t[|t| - 1];
      var db := FindAll.DbOf(ScanQuery(p));
      RecordsReadable(t[..|t| - 1], p);
      ScanIsExact(t[..|t| - 1], p);
      var front := Records(t[..|t| - 1], db);
      if InDb(row.key, db) {
        assert row in t;
        ReportedIs(p, row);
        var rec := FindAll.Record(KeyString(row.key), row.val);
        assert (front + [rec])[..|front|] == front;
      } else {
        OutsideTheDb(p, row.key);
        assert front + [] == front;
      }
    }
  }

  lemma OutsideTheDb(p: Place, k: Parts)
    requires Named(p) && !InDb(k, FindAll.DbOf(ScanQuery(p)))
    ensures !At(k, p)
  {
  }

  // The records of the place, as the scan finds them.
  method Scan(t: Rows, p: Place) returns (found: seq<FindAll.Found>)
    requires WellFormed(t) && Named(p)
    ensures found == LiveAt(t, p)
  {
    hide FindAll.DbOf, FindAll.Readable, FindAll.CanonicalKey, WellFormed, Named, Records, FindAll.FullScan, LiveAt;
    var q := ScanQuery(p);
    RecordsReadable(t, p);
    found := FindAll.FindAll(q, Records(t, FindAll.DbOf(q)));
    ScanIsExact(t, p);
  }

  // The callback for each of them, up to the first write that fails.
  method RewriteEach(store: Store, c: Rock, found: seq<FindAll.Found>) returns (r: Result)
    requires Unique(store.rows)
    modifies store
    ensures (store.Contents(), r) == Run(old(store.Contents()), AllWrites(c, found))
    ensures Unique(store.rows)
  {
    hide Unique, Run, AllWrites, Writes, Store.Contents;
    r := Ok;
    var i := 0;
    ghost var s := store.Contents();
    NoWrites(s, c, found);
    while i < |found|
      invariant 0 <= i <= |found|
      invariant r == Ok && Unique(store.rows)
      invariant (store.Contents(), Ok) == Run(s, AllWrites(c, found[..i]))
    {
      MoreWrites(c, found, i);
      r := RenameCb(store, c, found[i], s, AllWrites(c, found[..i]));
      if r != Ok {
        RunStops(s, AllWrites(c, found[..i + 1]), AllWrites(c, found[i + 1..]));
        SplitWrites(c, found, i + 1);
        return;
      }
      i := i + 1;
    }
    assert found[..i] == found;
  }

  lemma NoWrites(s: State, c: Rock, found: seq<FindAll.Found>)
    ensures Run(s, AllWrites(c, found[..0])) == (s, Ok)
  {
  }

  lemma MoreWrites(c: Rock, found: seq<FindAll.Found>, i: nat)
    requires i < |found|
    ensures AllWrites(c, found[..i + 1]) == AllWrites(c, found[..i]) + Writes(c, found[i])
  {
    assert found[..i + 1][..i] == found[..i];
  }

  // _annotate_rewrite
  method Rewrite(store: Store, c: Rock) returns (r: Result, ghost found: seq<FindAll.Found>)
    requires Unique(store.rows) && WellFormed(store.rows) && Named(c.source)
    modifies store
    ensures found == LiveAt(old(store.rows), c.source)
    ensures (store.Contents(), r) == Run(old(store.Contents()), AllWrites(c, found))
    ensures Unique(store.rows)
  {
    hide WellFormed, Unique, Named, Run, AllWrites, LiveAt;
    var fs := Scan(store.rows, c.source);
    found := fs;
    r := RewriteEach(store, c, fs);
  }

  // rename_cb, after the writes so far
  method RenameCb(store: Store, c: Rock, f: FindAll.Found, ghost s: State, ghost sofar: seq<Write>) returns (r: Result)
    requires Unique(store.rows) && (store.Contents(), Ok) == Run(s, sofar)
    modifies store
    ensures Unique(store.rows) && (store.Contents(), r) == Run(s, sofar + Writes(c, f))
  {
    hide Unique, After, Verdict;
    ghost var done := sofar;
    r := Ok;
    if c.target.Some? && !Excluded(f.parts.entry) {
      r := store.WriteEntry(CopyWrite(c, f));
      assert (sofar + [CopyWrite(c, f)])[..|sofar|] == sofar;
      done := sofar + [CopyWrite(c, f)];
    }
    if !c.copy && r == Ok {
      r := store.WriteEntry(DeleteWrite(c, f));
      assert (done + [DeleteWrite(c, f)])[..|done|] == done;
      assert done + [DeleteWrite(c, f)] == sofar + Writes(c, f);
    } else if !c.copy {
      RunStops(s, done, [DeleteWrite(c, f)]);
      assert done + [DeleteWrite(c, f)] == sofar + Writes(c, f);
    } else {
      assert done == sofar + Writes(c, f);
    }
  }

  lemma {:induction false} RunStops(s: State, ws: seq<Write>, more: seq<Write>)
    requires Run(s, ws).1 != Ok
    ensures Run(s, ws + more) == Run(s, ws)
  {
    if more == [] {
      assert ws + more == ws;
    } else {
      RunStops(s, ws, more[..|more| - 1]);
      assert (ws + more)[..|ws + more| - 1] == ws + more[..|more| - 1];
    }
  }

  lemma {:induction false} SplitWrites(c: Rock, found: seq<FindAll.Found>, i: nat)
    requires i <= |found|
    ensures AllWrites(c, found) == AllWrites(c, found[..i]) + AllWrites(c, found[i..])
    decreases |found|
  {
    if i == |found| {
      assert found[..i] == found && found[i..] == [];
    } else {
      var n := |found| - 1;
      SplitWrites(c, found[..n], i);
      assert found[..n][..i] == found[..i] && found[..n][i..] == found[i..n];
      assert found[i..][..|found[i..]| - 1] == found[i..n];
      calc {
        AllWrites(c, found);
        (AllWrites(c, found[..i]) + AllWrites(c, found[i..n])) + Writes(c, found[n]);
        AllWrites(c, found[..i]) + (AllWrites(c, found[i..n]) + Writes(c, found[n]));
      }
    }
  }
}
