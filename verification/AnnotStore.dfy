// write_entry, and what the mailboxes are charged for the annotations.

module AnnotStore {
  import opened Options
  import opened AnnotKeys
  import opened AnnotValues
  import opened KeyedTable
  import opened AnnotRows

  // The records, and quota_annot_used of each mailbox.
  datatype State = State(rows: Rows, used: map<string, nat>)

  function Used(s: State, m: string): nat {
    if m in s.used then s.used[m] else 0
  }

  datatype Result = Ok | PermissionDenied | QuotaExceeded

  // The arguments of a call, and what its surroundings answer: whether the
  // quota has room, whether the message has an unexpunged index record, and the
  // highestmodseq of the mailbox after it has been dirtied.
  datatype Write = Write(mailbox: Option<string>, uid: nat, entry: string, userid: Option<string>,
                         value: seq<byte>, mdata: Option<nat>, maywrite: bool,
                         room: bool, recordThere: bool, highest: nat)

  function Target(w: Write): Parts {
    Parts(GetOr(w.mailbox, ""), w.uid, w.entry, w.userid)
  }

  function Modseq(w: Write): nat {
    if w.mdata.Some? then w.mdata.value else if w.mailbox.Some? && w.uid != 0 then w.highest else 0
  }

  // What the fields of a record can hold.
  predicate Fits(w: Write) {
    |w.value| < AnnotValues.UINT_MOD && Modseq(w) < MODSEQ_MOD
  }

  function Verdict(t: Rows, w: Write): Result {
    if ValueAt(t, Target(w)) == w.value then Ok
    else if !w.maywrite then PermissionDenied
    else if w.mailbox.Some? && !w.room then QuotaExceeded
    else Ok
  }

  predicate Acts(t: Rows, w: Write) {
    ValueAt(t, Target(w)) != w.value && Verdict(t, w) == Ok
  }

  // mailbox_annot_changed gets to the quota.
  predicate Charged(w: Write) {
    w.mailbox.Some? && (w.uid == 0 || w.recordThere)
  }

  // A value is not stored under a NULL userid.
  predicate Stored(w: Write) {
    w.value == [] || w.userid.Some?
  }

  function Data(w: Write): seq<byte> {
    MakeEntry(w.value, Modseq(w), if w.value == [] then FLAG_DELETED else 0)
  }

  function RowsAfter(t: Rows, w: Write): Rows {
    if !Acts(t, w) || !Stored(w) then t
    else if w.value == [] && w.uid == 0 then DeleteWhere(t, Target(w))
    else Upserted(t, Target(w), Data(w))
  }

  // The subtraction does not go below zero.
  function Recharged(used: nat, was: nat, now: nat): nat {
    (if used > was then used - was else 0) + now
  }

  function UsedAfter(s: State, w: Write): map<string, nat> {
    var m := GetOr(w.mailbox, "");
    if Acts(s.rows, w) && Charged(w) then
      s.used[m := Recharged(Used(s, m), |ValueAt(s.rows, Target(w))|, |w.value|)]
    else s.used
  }

  function After(s: State, w: Write): State {
    State(RowsAfter(s.rows, w), UsedAfter(s, w))
  }

  class Store {
    var rows: Rows
    var used: map<string, nat>

    function Contents(): State
      reads this
    {
      State(rows, used)
    }

    // mailbox_annot_changed
    method AnnotChanged(m: string, uid: nat, recordThere: bool, oldLength: nat, newLength: nat)
      modifies this`used
      ensures used == if uid == 0 || recordThere
        then old(used)[m := Recharged(Used(old(Contents()), m), oldLength, newLength)] else old(used)
    {
      if uid != 0 && !recordThere {
        return;
      }
      var u := if m in used then used[m] else 0;
      if u > oldLength {
        u := u - oldLength;
      } else {
        u := 0;
      }
      used := used[m := u + newLength];
    }

    // cyrusdb_store
    method StoreRecord(k: Parts, data: seq<byte>)
      requires Unique(rows)
      modifies this`rows
      ensures rows == Upserted(old(rows), k, data) && Unique(rows)
    {
      rows := Upsert(rows, k, data);
    }

    // write_entry
    method WriteEntry(w: Write) returns (r: Result)
      requires Unique(rows)
      modifies this
      ensures r == Verdict(old(rows), w)
      ensures r == PermissionDenied <==> ValueAt(old(rows), Target(w)) != w.value && !w.maywrite
      ensures r == QuotaExceeded <==>
        ValueAt(old(rows), Target(w)) != w.value && w.maywrite && w.mailbox.Some? && !w.room
      ensures r != Ok ==> Contents() == old(Contents())
      ensures Contents() == After(old(Contents()), w)
      ensures Unique(rows)
    {
      hide Unique, MakeEntry, Total, ValueAt, Upserted;
      var key := Target(w);
      var oldval := ValueAt(rows, key);
      if oldval == w.value {
        return Ok;
      }
      if !w.maywrite {
        return PermissionDenied;
      }
      if w.mailbox.Some? {
        if !w.room {
          return QuotaExceeded;
        }
        AnnotChanged(w.mailbox.value, w.uid, w.recordThere, |oldval|, |w.value|);
      }
      if w.value == [] && w.uid == 0 {
        DeletedRows(rows, key);
        rows := DeleteWhere(rows, key);
      } else {
        if w.value != [] && w.userid.None? {
          return Ok;
        }
        StoreRecord(key, Data(w));
      }
      return Ok;
    }
  }

  // ---- what a write does ----

  lemma DataReads(w: Write)
    requires Fits(w)
    ensures SplitAttribs(Data(w))
         == Some(Attribs(w.value, Metadata(Modseq(w), if w.value == [] then FLAG_DELETED else 0)))
    ensures ValueOf(Data(w)) == w.value
  {
    hide MakeEntry, SplitAttribs;
    EntryRoundTrip(w.value, Modseq(w), if w.value == [] then FLAG_DELETED else 0);
  }

  // The key then reads as the value written, unless the write was refused or
  // had a value for a NULL userid, and every other key reads as before.
  lemma WriteReads(t: Rows, w: Write, k: Parts)
    requires Unique(t) && Fits(w)
    ensures Unique(RowsAfter(t, w))
    ensures ValueAt(RowsAfter(t, w), k) ==
      if k == Target(w) && Verdict(t, w) == Ok && Stored(w) then w.value else ValueAt(t, k)
  {
    hide Unique, MakeEntry, ValueAt, Upserted, Data, ValueOf, DeleteWhere;
    DeletedRows(t, Target(w));
    UpsertedMap(t, Target(w), Data(w));
    DataReads(w);
    ValuesAfterStore(t, Target(w), Data(w), k);
    ValuesAfterDelete(t, Target(w), k);
    if ValueAt(t, Target(w)) == w.value {
      assert RowsAfter(t, w) == t;
    }
  }

  // What is stored has the modseq given, or else for an annotation of a message
  // the highest of the mailbox, and is flagged as deleted if it is empty.
  lemma RecordReads(t: Rows, w: Write)
    requires Unique(t) && Fits(w) && Acts(t, w) && Stored(w) && (w.value != [] || w.uid != 0)
    ensures var t' := RowsAfter(t, w);
      var modseq := if w.mdata.Some? then w.mdata.value else if w.mailbox.Some? && w.uid != 0 then w.highest else 0;
      && IdOf(t', Target(w)) != 0
      && SplitAttribs(t'[IdOf(t', Target(w)) - 1].val)
         == Some(Attribs(w.value, Metadata(modseq, if w.value == [] then FLAG_DELETED else 0)))
  {
    hide MakeEntry, Data, ValueOf, SplitAttribs, Upserted, DeleteWhere, ValueAt;
    var k := Target(w);
    UpsertedMap(t, k, Data(w));
    DataReads(w);
    MapHolds(Upserted(t, k, Data(w)), k);
  }

  // Clearing an annotation of a message leaves a tombstone, and clearing one of
  // a mailbox leaves nothing.
  lemma Clearing(t: Rows, w: Write)
    requires Unique(t) && Fits(w) && w.value == [] && Acts(t, w)
    ensures w.uid == 0 ==> IdOf(RowsAfter(t, w), Target(w)) == 0
    ensures w.uid != 0 ==>
      var id := IdOf(RowsAfter(t, w), Target(w));
      && id != 0
      && SplitAttribs(RowsAfter(t, w)[id - 1].val) == Some(Attribs([], Metadata(Modseq(w), FLAG_DELETED)))
  {
    hide MakeEntry, Data, ValueOf, SplitAttribs, Upserted, DeleteWhere, ValueAt;
    var k := Target(w);
    DeletedRows(t, k);
    UpsertedMap(t, k, Data(w));
    DataReads(w);
    if w.uid != 0 {
      MapHolds(Upserted(t, k, Data(w)), k);
    }
  }

  // ---- storage accounting ----

  // The excess of what a mailbox is charged over what its annotations hold.
  function Surplus(s: State, m: string): int {
    Used(s, m) - Total(s.rows, m)
  }

  // By how much the charge goes down for the old value.
  function Taken(used: nat, was: nat): nat {
    if used > was then was else used
  }

  // The write is charged without being stored, or stored without being charged,
  // or it is both and the charge cannot go down by the whole of the old value.
  predicate Drifts(s: State, w: Write) {
    var was := |ValueAt(s.rows, Target(w))|;
    && Acts(s.rows, w)
    && if Charged(w)
       then Taken(Used(s, w.mailbox.value), was) != if Stored(w) then was else |w.value|
       else Stored(w) && was != |w.value|
  }

  lemma TotalAfterWrite(t: Rows, w: Write, m: string)
    requires Unique(t) && Fits(w)
    ensures Total(RowsAfter(t, w), m) + (if Acts(t, w) && Stored(w) then LengthAt(t, Target(w), m) else 0)
         == Total(t, m) + (if Acts(t, w) && Stored(w) && m == GetOr(w.mailbox, "") then |w.value| else 0)
    ensures LengthAt(t, Target(w), m) <= Total(t, m)
  {
    hide Unique, MakeEntry, ValueAt, Upserted, Data, ValueOf, DeleteWhere, LengthAt, Total;
    DataReads(w);
    TotalAfterStore(t, Target(w), Data(w), m);
    TotalAfterDelete(t, Target(w), m);
  }

  // The excess changes at exactly the writes that drift.
  lemma SurplusKept(s: State, w: Write, m: string)
    requires Unique(s.rows) && Fits(w)
    ensures Surplus(After(s, w), m) == Surplus(s, m) <==> !(m == GetOr(w.mailbox, "") && Drifts(s, w))
  {
    hide Unique, MakeEntry, ValueAt, Upserted, Data, ValueOf, DeleteWhere, Total, RowsAfter;
    TotalAfterWrite(s.rows, w, m);
  }

  // Calls one after another, until one fails.
  function Run(s: State, ws: seq<Write>): (r: (State, Result)) {
    if ws == [] then (s, Ok)
    else
      var r := Run(s, ws[..|ws| - 1]);
      var w := ws[|ws| - 1];
      if r.1 == Ok then (After(r.0, w), Verdict(r.0.rows, w)) else r
  }

  // A run fails at the first write that would change a value and may not, or has
  // no room.
  lemma {:induction false} RunFails(s: State, ws: seq<Write>)
    ensures Run(s, ws).1 != Ok <==>
      exists k :: 0 <= k < |ws| && Run(s, ws[..k]).1 == Ok
        && ValueAt(Run(s, ws[..k]).0.rows, Target(ws[k])) != ws[k].value
        && (!ws[k].maywrite || (ws[k].mailbox.Some? && !ws[k].room))
  {
    hide ValueAt, After;
    if ws != [] {
      var n := |ws| - 1;
      RunFails(s, ws[..n]);
      forall k | 0 <= k < n
        ensures ws[..n][..k] == ws[..k] && ws[..n][k] == ws[k]
      {
      }
    }
  }

  // What a caller can see to: a userid, and a message that is there.
  predicate Proper(w: Write) {
    && Fits(w) && w.userid.Some?
    && (w.mailbox.Some? && w.uid != 0 ==> w.recordThere)
  }

  // The sum of the differences charged is the change in what is stored, over
  // any run, whether or not it ends with a call that fails.
  lemma {:induction false} AccountingTelescopes(s: State, ws: seq<Write>, m: string)
    requires Unique(s.rows) && m != "" && Surplus(s, m) >= 0
    requires forall w :: w in ws ==> Proper(w)
    ensures Surplus(Run(s, ws).0, m) == Surplus(s, m)
    ensures Unique(Run(s, ws).0.rows)
  {
    hide Unique, Surplus, After, RowsAfter;
    if ws != [] {
      var front := ws[..|ws| - 1];
      AccountingTelescopes(s, front, m);
      var w := ws[|ws| - 1];
      assert w in ws;
      WriteReads(Run(s, front).0.rows, w, Target(w));
      SurplusKept(Run(s, front).0, w, m);
      ProperDoesNotDrift(Run(s, front).0, w, m);
      AfterRows(Run(s, front).0, w);
    }
  }

  lemma AfterRows(s: State, w: Write)
    ensures After(s, w).rows == RowsAfter(s.rows, w)
  {
    hide RowsAfter, UsedAfter;
  }

  // With a charge that covers the contents, nothing is clipped.
  lemma ProperDoesNotDrift(s: State, w: Write, m: string)
    requires Unique(s.rows) && Proper(w) && m != "" && Surplus(s, m) >= 0
    ensures !(m == GetOr(w.mailbox, "") && Drifts(s, w))
  {
    hide Unique, Acts, ValueAt, Total, RowsAfter, MakeEntry;
    TotalAfterWrite(s.rows, w, m);
  }

  // ---- a charge that does not cover the contents ----

  const UNCHARGED := Write(Some("m"), 1, "e", Some("u"), [7], None, true, true, false, 0)
  const CLEARING := Write(Some("m"), 1, "e", Some("u"), [], None, true, true, true, 0)

  lemma UnchargedStored(s0: State)
    requires s0 == State([], map[])
    ensures var s1 := After(s0, UNCHARGED);
      && Surplus(s0, "m") == 0 && Surplus(s1, "m") == -1
      && Unique(s1.rows) && s1.used == map[] && ValueAt(s1.rows, Target(UNCHARGED)) == [7]
  {
    hide MakeEntry, SplitAttribs, Total, ValueOf, RowsAfter;
    NothingStored("m");
    WriteReads(s0.rows, UNCHARGED, Target(UNCHARGED));
    TotalAfterWrite(s0.rows, UNCHARGED, "m");
  }

  // Storing a byte for a message that is not there leaves the charge one short.
  // Clearing it when the message is there is clipped, which makes up for it.
  lemma ClippingDrifts()
    ensures var s0 := State([], map[]);
      var s1 := After(s0, UNCHARGED);
      && Surplus(s0, "m") == 0 && Surplus(s1, "m") == -1
      && Proper(CLEARING) && Surplus(After(s1, CLEARING), "m") == 0
  {
    hide MakeEntry, SplitAttribs, Total, ValueOf, RowsAfter, ValueAt, Unique;
    var s0 := State([], map[]);
    UnchargedStored(s0);
    var s1 := After(s0, UNCHARGED);
    assert Target(CLEARING) == Target(UNCHARGED);
    ClearedByte(s1);
  }

  lemma ClearedByte(s1: State)
    requires Unique(s1.rows) && s1.used == map[] && ValueAt(s1.rows, Target(CLEARING)) == [7] && Surplus(s1, "m") == -1
    ensures Surplus(After(s1, CLEARING), "m") == 0
  {
    hide MakeEntry, SplitAttribs, Total, ValueOf, RowsAfter, ValueAt, Unique, IdOf;
    TotalAfterWrite(s1.rows, CLEARING, "m");
  }

  lemma NothingStored(m: string)
    ensures Total([], m) == 0
    ensures forall k :: ValueAt([], k) == []
  {
  }
}
