// What copying, moving and deleting annotations leaves where.

module AnnotCopied {
  import opened Options
  import opened AnnotKeys
  import opened AnnotValues
  import opened KeyedTable
  import opened AnnotRows
  import opened AnnotStore
  import opened AnnotRename
  import FindAll

  // ---- the values after a run ----

  function LastValue(ws: seq<Write>, k: Parts, v: seq<byte>): seq<byte> {
    if ws == [] then v
    else if Target(ws[|ws| - 1]) == k then ws[|ws| - 1].value
    else LastValue(ws[..|ws| - 1], k, v)
  }

  lemma {:induction false} RunValues(s: State, ws: seq<Write>, k: Parts)
    requires Unique(s.rows) && Run(s, ws).1 == Ok
    requires forall w :: w in ws ==> Fits(w) && Stored(w)
    ensures Unique(Run(s, ws).0.rows)
    ensures ValueAt(Run(s, ws).0.rows, k) == LastValue(ws, k, ValueAt(s.rows, k))
  {
    hide Unique, Fits, Stored, ValueAt, After, RowsAfter, Verdict;
    if ws != [] {
      var w := ws[|ws| - 1];
      assert w in ws;
      RunValues(s, ws[..|ws| - 1], k);
      var t := Run(s, ws[..|ws| - 1]).0;
      WriteReads(t.rows, w, k);
      AfterRows(t, w);
    }
  }

  lemma {:induction false} LastValueIs(ws: seq<Write>, k: Parts, v: seq<byte>)
    ensures (exists w :: w in ws && Target(w) == k && w.value == LastValue(ws, k, v))
         || (LastValue(ws, k, v) == v && forall w :: w in ws ==> Target(w) != k)
  {
    if ws != [] {
      LastValueIs(ws[..|ws| - 1], k, v);
      assert ws[|ws| - 1] in ws;
      assert forall w :: w in ws[..|ws| - 1] ==> w in ws;
    }
  }

  // ---- what is written ----

  // A live annotation of the place, with a userid.
  predicate Live(t: Rows, p: Place, k: Parts) {
    At(k, p) && k.userid.Some? && ValueAt(t, k) != []
  }

  lemma {:induction false} FoundAreLive(t: Rows, p: Place, f: FindAll.Found)
    requires Unique(t) && WellFormed(t) && f in LiveAt(t, p)
    ensures Live(t, p, f.parts) && f.attribs.value == ValueAt(t, f.parts)
  {
    hide SplitAttribs, NulFree;
    var row := t[|t| - 1];
    var front := t[..|t| - 1];
    assert t == front + [row];
    ValueAtEnd(front, row, f.parts);
    assert row in t;
    hide ValueAt;
    if f in LiveAt(front, p) {
      FoundAreLive(front, p, f);
      NoIdBefore(t);
      LiveHasRow(front, f.parts);
    }
  }

  lemma LiveHasRow(t: Rows, k: Parts)
    requires ValueAt(t, k) != []
    ensures IdOf(t, k) != 0
  {
  }

  lemma {:induction false} LiveAreFound(t: Rows, p: Place, k: Parts) returns (f: FindAll.Found)
    requires WellFormed(t) && Live(t, p, k)
    ensures f in LiveAt(t, p) && f.parts == k && f.attribs.value == ValueAt(t, k)
  {
    hide SplitAttribs, NulFree;
    var row := t[|t| - 1];
    var front := t[..|t| - 1];
    assert t == front + [row];
    ValueAtEnd(front, row, k);
    assert row in t;
    hide ValueAt;
    if row.key == k {
      f := FindAll.Found(row.key, SplitAttribs(row.val).value);
    } else {
      f := LiveAreFound(front, p, k);
    }
  }

  lemma {:induction false} WritesAre(c: Rock, found: seq<FindAll.Found>, w: Write)
    ensures w in AllWrites(c, found) <==> exists f :: f in found && w in Writes(c, f)
  {
    hide CopyWrite, DeleteWrite, Writes;
    if found != [] {
      var last := found[|found| - 1];
      WritesAre(c, found[..|found| - 1], w);
      assert found == found[..|found| - 1] + [last];
      assert w in AllWrites(c, found) <==> w in AllWrites(c, found[..|found| - 1]) || w in Writes(c, last);
    }
  }

  lemma {:induction false} FromBigEndianBound(bs: seq<byte>)
    ensures FromBigEndian(bs) < Pow256(|bs|)
  {
    if bs != [] {
      FromBigEndianBound(bs[..|bs| - 1]);
    }
  }

  lemma ReadValuesFit(data: seq<byte>)
    ensures |ValueOf(data)| < AnnotValues.UINT_MOD
  {
    hide StrEnd, FromBigEndian;
    if |data| >= LONG {
      assert Pow256(4) == AnnotValues.UINT_MOD by {
        assert Pow256(1) == 256 && Pow256(2) == 65536;
      }
      FromBigEndianBound(data[..LONG][..4]);
    }
  }

  lemma WritesFit(t: Rows, c: Rock, w: Write)
    requires Unique(t) && WellFormed(t) && c.highest < MODSEQ_MOD && w in AllWrites(c, LiveAt(t, c.source))
    ensures Fits(w) && Stored(w) && w.userid.Some?
  {
    hide Unique, WellFormed, ValueOf, LiveAt, AllWrites;
    WritesAre(c, LiveAt(t, c.source), w);
    var f :| f in LiveAt(t, c.source) && w in Writes(c, f);
    FoundAreLive(t, c.source, f);
    var id := IdOf(t, f.parts);
    ReadValuesFit(t[id - 1].val);
  }

  // ---- copying ----

  // Two users' annotations would go to the same key, with different values.
  ghost predicate Clash(t: Rows, c: Rock) {
    && c.olduser.Some? && c.newuser.Some? && c.olduser != c.newuser
    && exists entry ::
         var a := Parts(c.source.mboxname, c.source.uid, entry, c.olduser);
         var b := Parts(c.source.mboxname, c.source.uid, entry, c.newuser);
         && entry != SNOOZED && entry != DISPLAYNAME
         && Live(t, c.source, a) && Live(t, c.source, b) && ValueAt(t, a) != ValueAt(t, b)
  }

  predicate Wanted(t: Rows, c: Rock, k: Parts) {
    Live(t, c.source, k) && k.entry != SNOOZED && k.entry != DISPLAYNAME
  }

  predicate Arrives(t: Rows, t': Rows, c: Rock, k: Parts)
    requires c.target.Some?
  {
    ValueAt(t', NewKey(c, k)) == ValueAt(t, k)
  }

  // A key without a source keeps its value, one with a source gets the value of
  // a source.
  lemma CopiedValue(s: State, c: Rock, k: Parts)
    requires Unique(s.rows) && WellFormed(s.rows) && c.highest < MODSEQ_MOD
    requires c.copy && c.target.Some?
    requires Run(s, AllWrites(c, LiveAt(s.rows, c.source))).1 == Ok
    ensures var t' := Run(s, AllWrites(c, LiveAt(s.rows, c.source))).0.rows;
      || (exists k0 :: Wanted(s.rows, c, k0) && NewKey(c, k0) == k && ValueAt(t', k) == ValueAt(s.rows, k0))
      || (ValueAt(t', k) == ValueAt(s.rows, k) && forall k0 :: Wanted(s.rows, c, k0) ==> NewKey(c, k0) != k)
  {
    hide Unique, WellFormed, ValueAt, LiveAt, AllWrites, Fits, Stored, Run, LastValue;
    var t := s.rows;
    var found := LiveAt(t, c.source);
    var ws := AllWrites(c, found);
    forall w | w in ws
      ensures Fits(w) && Stored(w)
    {
      WritesFit(t, c, w);
    }
    RunValues(s, ws, k);
    LastValueIs(ws, k, ValueAt(t, k));
    if w :| w in ws && Target(w) == k && w.value == LastValue(ws, k, ValueAt(t, k)) {
      WritesAre(c, found, w);
      var f :| f in found && w in Writes(c, f);
      FoundAreLive(t, c.source, f);
      assert Wanted(t, c, f.parts) && NewKey(c, f.parts) == k;
    } else {
      forall k0 | Wanted(t, c, k0)
        ensures NewKey(c, k0) != k
      {
        var f := LiveAreFound(t, c.source, k0);
        assert CopyWrite(c, f) in Writes(c, f);
        WritesAre(c, found, CopyWrite(c, f));
      }
    }
  }

  lemma SameTarget(t: Rows, c: Rock, k: Parts, k0: Parts)
    requires c.target.Some? && !Clash(t, c)
    requires Wanted(t, c, k) && Wanted(t, c, k0) && NewKey(c, k0) == NewKey(c, k)
    ensures ValueAt(t, k) == ValueAt(t, k0)
  {
    hide ValueAt;
    if k != k0 {
      assert k.entry == k0.entry && k.userid != k0.userid;
      var a := Parts(c.source.mboxname, c.source.uid, k.entry, c.olduser);
      var b := Parts(c.source.mboxname, c.source.uid, k.entry, c.newuser);
      assert (k == a && k0 == b) || (k == b && k0 == a);
    }
  }

  // Every live annotation of the source arrives at the target, a private one
  // of the old user's under the new user, unless both users had one that
  // differed; and then not every one can. Nothing else at the target changes,
  // and nothing at all anywhere else, the source included.
  lemma CopyConserves(s: State, c: Rock)
    requires Unique(s.rows) && WellFormed(s.rows) && c.highest < MODSEQ_MOD
    requires c.copy && c.target.Some? && c.target.value != c.source
    requires Run(s, AllWrites(c, LiveAt(s.rows, c.source))).1 == Ok
    ensures var t' := Run(s, AllWrites(c, LiveAt(s.rows, c.source))).0.rows;
      && ((forall k :: Wanted(s.rows, c, k) ==> Arrives(s.rows, t', c, k)) <==> !Clash(s.rows, c))
      && (forall k :: !At(k, c.target.value) ==> ValueAt(t', k) == ValueAt(s.rows, k))
      && (forall k :: ValueAt(t', k) != ValueAt(s.rows, k) ==>
            exists k0 :: Wanted(s.rows, c, k0) && NewKey(c, k0) == k && ValueAt(t', k) == ValueAt(s.rows, k0))
  {
    hide Unique, WellFormed, ValueAt, LiveAt, AllWrites, Run;
    var t := s.rows;
    var t' := Run(s, AllWrites(c, LiveAt(t, c.source))).0.rows;
    if Clash(t, c) {
      var entry :|
        var a := Parts(c.source.mboxname, c.source.uid, entry, c.olduser);
        var b := Parts(c.source.mboxname, c.source.uid, entry, c.newuser);
        && entry != SNOOZED && entry != DISPLAYNAME
        && Live(t, c.source, a) && Live(t, c.source, b) && ValueAt(t, a) != ValueAt(t, b);
      var a := Parts(c.source.mboxname, c.source.uid, entry, c.olduser);
      var b := Parts(c.source.mboxname, c.source.uid, entry, c.newuser);
      assert NewKey(c, a) == NewKey(c, b);
      assert Wanted(t, c, a) && Wanted(t, c, b);
      assert !Arrives(t, t', c, a) || !Arrives(t, t', c, b);
    } else {
      forall k | Wanted(t, c, k)
        ensures Arrives(t, t', c, k)
      {
        CopiedValue(s, c, NewKey(c, k));
        var k0 :| Wanted(t, c, k0) && NewKey(c, k0) == NewKey(c, k) && ValueAt(t', NewKey(c, k)) == ValueAt(t, k0);
        SameTarget(t, c, k, k0);
      }
    }
    forall k
      ensures !At(k, c.target.value) ==> ValueAt(t', k) == ValueAt(t, k)
      ensures ValueAt(t', k) != ValueAt(t, k) ==>
        exists k0 :: Wanted(t, c, k0) && NewKey(c, k0) == k && ValueAt(t', k) == ValueAt(t, k0)
    {
      CopiedValue(s, c, k);
    }
  }

  // ---- the records of a run ----

  lemma {:induction false} RunRows(s: State, ws: seq<Write>, row: Row<Parts, seq<byte>>) returns (w: Write)
    requires row in Run(s, ws).0.rows && row !in s.rows
    ensures w in ws && row == Row(Target(w), Data(w))
  {
    hide Verdict, Acts, Stored, UsedAfter, Data;
    var t := Run(s, ws[..|ws| - 1]).0;
    w := ws[|ws| - 1];
    if row in t.rows {
      w := RunRows(s, ws[..|ws| - 1], row);
    } else {
      AfterRows(t, w);
      RowsFrom(t.rows, w, row);
    }
  }

  lemma RowsFrom(t: Rows, w: Write, row: Row<Parts, seq<byte>>)
    requires row in RowsAfter(t, w)
    ensures row in t || row == Row(Target(w), Data(w))
  {
    hide Data, Acts, Stored;
    if RowsAfter(t, w) == DeleteWhere(t, Target(w)) {
      DeletedIn(t, Target(w), row);
    }
  }

  lemma {:induction false} DeletedIn(t: Rows, k: Parts, row: Row<Parts, seq<byte>>)
    requires row in DeleteWhere(t, k)
    ensures row in t
  {
    if row in DeleteWhere(t[..|t| - 1], k) {
      DeletedIn(t[..|t| - 1], k, row);
    }
  }

  // A record that copying, moving or deleting has written has the highest modseq
  // of its mailbox if it is of a message, and else none.
  lemma WrittenModseq(s: State, c: Rock, row: Row<Parts, seq<byte>>)
    requires Unique(s.rows) && WellFormed(s.rows) && c.highest < MODSEQ_MOD
    requires row in Run(s, AllWrites(c, LiveAt(s.rows, c.source))).0.rows && row !in s.rows
    ensures SplitAttribs(row.val).Some?
    ensures SplitAttribs(row.val).value.mdata.modseq == if row.key.uid != 0 then c.highest else 0
  {
    hide Unique, WellFormed, Run, AllWrites, LiveAt, SplitAttribs, Data, Fits;
    var ws := AllWrites(c, LiveAt(s.rows, c.source));
    var w := RunRows(s, ws, row);
    WritesFit(s.rows, c, w);
    WritesAre(c, LiveAt(s.rows, c.source), w);
    DataReads(w);
  }

  // ---- two users that clash ----

  lemma {:induction false} RunSucceeds(s: State, ws: seq<Write>)
    requires forall w :: w in ws ==> w.maywrite && w.room
    ensures Run(s, ws).1 == Ok
  {
    hide After, ValueAt;
    if ws != [] {
      var n := |ws| - 1;
      assert ws[n] in ws;
      RunSucceeds(s, ws[..n]);
    }
  }

  // With room for every key, the whole run succeeds.
  lemma RewriteSucceeds(s: State, c: Rock)
    requires c.refused == {}
    ensures Run(s, AllWrites(c, LiveAt(s.rows, c.source))).1 == Ok
  {
    hide LiveAt, AllWrites, Run;
    var found := LiveAt(s.rows, c.source);
    forall w | w in AllWrites(c, found)
      ensures w.maywrite && w.room
    {
      WritesAre(c, found, w);
      var f :| f in found && w in Writes(c, f);
    }
    RunSucceeds(s, AllWrites(c, found));
  }

  // Both users have an annotation of the mailbox, with different values.
  const OLD_KEY := Parts("m", 0, "/comment", Some("old"))
  const NEW_KEY := Parts("m", 0, "/comment", Some("new"))
  const BOTH_USERS: State :=
    State([Row(OLD_KEY, MakeEntry([1], 1, 0)), Row(NEW_KEY, MakeEntry([2], 1, 0))], map["m" := 2])
  const RENAME: Rock :=
    Rock(Place("m", 0), Some(Place("n", 0)), Some("old"), Some("new"), true, {}, true, true, 1)

  lemma BothUsersRows()
    ensures var t := BOTH_USERS.rows;
      && Unique(t) && WellFormed(t)
      && ValueAt(t, OLD_KEY) == [1] && ValueAt(t, NEW_KEY) == [2]
  {
    hide MakeEntry, SplitAttribs;
    var t := BOTH_USERS.rows;
    EntryRoundTrip([1], 1, 0);
    EntryRoundTrip([2], 1, 0);
    assert t[..1] == [t[0]] && [t[0]][..0] == [];
    assert IdOf(t, OLD_KEY) == 1 && IdOf(t, NEW_KEY) == 2;
  }

  // All the writes succeed, and one of the two annotations is lost.
  lemma UsersClash()
    ensures var s, c := BOTH_USERS, RENAME;
      var r := Run(s, AllWrites(c, LiveAt(s.rows, c.source)));
      && Clash(s.rows, c)
      && r.1 == Ok
      && exists k :: Wanted(s.rows, c, k) && !Arrives(s.rows, r.0.rows, c, k)
  {
    hide MakeEntry, LiveAt, AllWrites, Run, ValueAt, Unique, WellFormed;
    BothUsersRows();
    assert Live(BOTH_USERS.rows, RENAME.source, OLD_KEY) && Live(BOTH_USERS.rows, RENAME.source, NEW_KEY);
    assert "/comment" != SNOOZED && "/comment" != DISPLAYNAME;
    RewriteSucceeds(BOTH_USERS, RENAME);
    CopyConserves(BOTH_USERS, RENAME);
  }

  // ---- deleting ----

  // Deleting leaves no annotation with a userid at the place, and changes
  // nothing elsewhere.
  lemma DeletingClears(s: State, c: Rock, k: Parts)
    requires Unique(s.rows) && WellFormed(s.rows) && c.highest < MODSEQ_MOD
    requires !c.copy && c.target.None?
    requires Run(s, AllWrites(c, LiveAt(s.rows, c.source))).1 == Ok
    ensures ValueAt(Run(s, AllWrites(c, LiveAt(s.rows, c.source))).0.rows, k)
      == if At(k, c.source) && k.userid.Some? then [] else ValueAt(s.rows, k)
  {
    hide Unique, WellFormed, ValueAt, LiveAt, AllWrites, Fits, Stored, Run, LastValue;
    var t := s.rows;
    var found := LiveAt(t, c.source);
    var ws := AllWrites(c, found);
    forall w | w in ws
      ensures Fits(w) && Stored(w)
    {
      WritesFit(t, c, w);
    }
    RunValues(s, ws, k);
    LastValueIs(ws, k, ValueAt(t, k));
    if w :| w in ws && Target(w) == k && w.value == LastValue(ws, k, ValueAt(t, k)) {
      WritesAre(c, found, w);
      var f :| f in found && w in Writes(c, f);
      FoundAreLive(t, c.source, f);
    } else if Live(t, c.source, k) {
      var f := LiveAreFound(t, c.source, k);
      assert DeleteWrite(c, f) in Writes(c, f);
      WritesAre(c, found, DeleteWrite(c, f));
    }
  }

  // Copying, moving and deleting keep the charges in step with what is stored,
  // even when they stop half-way.
  lemma RewriteKeepsCharges(s: State, c: Rock, m: string)
    requires Unique(s.rows) && WellFormed(s.rows) && c.highest < MODSEQ_MOD
    requires m != "" && Surplus(s, m) >= 0
    requires (c.target.Some? && c.target.value.uid != 0 ==> c.targetThere) && (c.source.uid != 0 ==> c.sourceThere)
    ensures Surplus(Run(s, AllWrites(c, LiveAt(s.rows, c.source))).0, m) == Surplus(s, m)
  {
    hide Unique, WellFormed, ValueAt, LiveAt, AllWrites, Run, Surplus, Fits;
    var ws := AllWrites(c, LiveAt(s.rows, c.source));
    forall w | w in ws
      ensures Proper(w)
    {
      WritesFit(s.rows, c, w);
      WritesAre(c, LiveAt(s.rows, c.source), w);
      var f :| f in LiveAt(s.rows, c.source) && w in Writes(c, f);
      FoundAreLive(s.rows, c.source, f);
    }
    AccountingTelescopes(s, ws, m);
  }
}
