// The rows of the annotation databases, what they hold, and what each mailbox
// is charged for them.

module AnnotRows {
  import opened Options
  import opened AnnotKeys
  import opened AnnotValues
  import opened KeyedTable

  // Keyed by the fields of the key, on which make_key is injective.
  type Rows = seq<Row<Parts, seq<byte>>>

  // The value a record reads as; empty if it is a tombstone.
  function ValueOf(data: seq<byte>): seq<byte> {
    if SplitAttribs(data).Some? then SplitAttribs(data).value.value else []
  }

  // read_old_value: a key without a record reads as empty.
  function ValueAt(t: Rows, k: Parts): seq<byte> {
    var id := IdOf(t, k);
    if id == 0 then [] else ValueOf(t[id - 1].val)
  }

  function Charge(row: Row<Parts, seq<byte>>, m: string): nat {
    if row.key.mboxname == m then |ValueOf(row.val)| else 0
  }

  // How much the annotations of a mailbox hold.
  function Total(t: Rows, m: string): nat {
    if t == [] then 0 else Total(t[..|t| - 1], m) + Charge(t[|t| - 1], m)
  }

  function LengthAt(t: Rows, k: Parts, m: string): nat {
    if k.mboxname == m then |ValueAt(t, k)| else 0
  }

  lemma {:induction false} TotalAfterUpdate(t: Rows, k: Parts, data: seq<byte>, m: string)
    requires Unique(t)
    ensures Total(UpdateWhere(t, k, data), m) + LengthAt(t, k, m)
         == Total(t, m) + if IdOf(t, k) == 0 then 0 else Charge(Row(k, data), m)
    ensures LengthAt(t, k, m) <= Total(t, m)
  {
    hide ValueOf;
    if t != [] {
      var n := |t| - 1;
      TotalAfterUpdate(t[..n], k, data, m);
      assert UpdateWhere(t, k, data)[..n] == UpdateWhere(t[..n], k, data);
    }
  }

  lemma TotalAfterStore(t: Rows, k: Parts, data: seq<byte>, m: string)
    requires Unique(t)
    ensures Total(Upserted(t, k, data), m) + LengthAt(t, k, m) == Total(t, m) + Charge(Row(k, data), m)
    ensures LengthAt(t, k, m) <= Total(t, m)
  {
    hide ValueOf;
    TotalAfterUpdate(t, k, data, m);
    MapHolds(t, k);
    if Changes(t, k) == 0 {
      assert (t + [Row(k, data)])[..|t|] == t;
    }
  }

  lemma {:induction false} UpdatedIds(t: Rows, k: Parts, data: seq<byte>, other: Parts)
    ensures IdOf(UpdateWhere(t, k, data), other) == IdOf(t, other)
  {
    if t != [] {
      UpdatedIds(t[..|t| - 1], k, data, other);
      assert UpdateWhere(t, k, data)[..|t| - 1] == UpdateWhere(t[..|t| - 1], k, data);
    }
  }

  // Storing a record changes what one key reads as.
  lemma ValuesAfterStore(t: Rows, k: Parts, data: seq<byte>, other: Parts)
    requires Unique(t)
    ensures ValueAt(Upserted(t, k, data), other) == if other == k then ValueOf(data) else ValueAt(t, other)
  {
    hide ValueOf;
    MapHolds(t, k);
    UpdatedIds(t, k, data, other);
    if Changes(t, k) == 0 {
      assert (t + [Row(k, data)])[..|t|] == t;
    }
  }

  // cyrusdb_delete
  function DeleteWhere(t: Rows, k: Parts): Rows {
    if t == [] then []
    else DeleteWhere(t[..|t| - 1], k) + if t[|t| - 1].key == k then [] else [t[|t| - 1]]
  }

  lemma {:induction false} DeletedRows(t: Rows, k: Parts)
    requires Unique(t)
    ensures forall row :: row in DeleteWhere(t, k) ==> row in t && row.key != k
    ensures Unique(DeleteWhere(t, k))
  {
    if t != [] {
      var n := |t| - 1;
      DeletedRows(t[..n], k);
      forall row | row in DeleteWhere(t[..n], k)
        ensures row.key != t[n].key
      {
        var i :| 0 <= i < n && t[i] == row;
      }
    }
  }

  lemma {:induction false} DeleteMissing(t: Rows, k: Parts)
    requires IdOf(t, k) == 0
    ensures DeleteWhere(t, k) == t
  {
    if t != [] {
      DeleteMissing(t[..|t| - 1], k);
      assert t == t[..|t| - 1] + [t[|t| - 1]];
    }
  }

  lemma NoIdBefore(t: Rows)
    requires Unique(t) && t != []
    ensures IdOf(t[..|t| - 1], t[|t| - 1].key) == 0
  {
  }

  lemma ValueAtEnd(t: Rows, row: Row<Parts, seq<byte>>, k: Parts)
    ensures ValueAt(t + [row], k) == if row.key == k then ValueOf(row.val) else ValueAt(t, k)
  {
    hide ValueOf;
    assert (t + [row])[..|t|] == t;
  }

  lemma {:induction false} ValuesAfterDelete(t: Rows, k: Parts, other: Parts)
    requires Unique(t)
    ensures ValueAt(DeleteWhere(t, k), other) == if other == k then [] else ValueAt(t, other)
  {
    if t != [] {
      var n := |t| - 1;
      var front := DeleteWhere(t[..n], k);
      ValuesAfterDelete(t[..n], k, other);
      assert t == t[..n] + [t[n]];
      ValueAtEnd(t[..n], t[n], other);
      if t[n].key == k {
        NoIdBefore(t);
        hide Unique, ValueAt, IdOf;
        DeleteMissing(t[..n], k);
        assert front + [] == front;
      } else {
        hide Unique, ValueAt, IdOf;
        ValueAtEnd(front, t[n], other);
      }
    }
  }

  lemma {:induction false} TotalAfterDelete(t: Rows, k: Parts, m: string)
    requires Unique(t)
    ensures Total(DeleteWhere(t, k), m) + LengthAt(t, k, m) == Total(t, m)
  {
    hide ValueOf;
    if t != [] {
      var n := |t| - 1;
      var front := DeleteWhere(t[..n], k);
      if t[n].key == k {
        NoIdBefore(t);
        DeleteMissing(t[..n], k);
        assert front + [] == front;
      } else {
        TotalAfterDelete(t[..n], k, m);
        assert (front + [t[n]])[..|front|] == front;
      }
    }
  }
}
