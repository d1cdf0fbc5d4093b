// The list of open annotation databases: reference counts, and the order in
// which they were last asked for, which is the order they are committed in.

module OpenDbs {
  import opened Options

  // Databases are keyed by mailbox name; None is the global one.
  type Key = Option<string>

  // Server and mailbox scope go to the global database.
  function KeyFor(mboxname: Option<string>, uid: nat): Key {
    if mboxname.None? || mboxname.value == "" || uid == 0 then None else mboxname
  }

  // ---- what the list should be ----

  datatype Held = Held(key: Key, refs: nat)

  function Find(s: seq<Held>, key: Key): (i: nat)
    ensures i <= |s|
    ensures i < |s| ==> s[i].key == key
    ensures forall j :: 0 <= j < i ==> s[j].key != key
  {
    if s == [] || s[0].key == key then 0 else 1 + Find(s[1..], key)
  }

  // A database that is open is counted once more and moved to the end.
  function Get(s: seq<Held>, key: Key): seq<Held> {
    var i := Find(s, key);
    if i < |s| then s[..i] + s[i + 1..] + [Held(key, s[i].refs + 1)] else s + [Held(key, 1)]
  }

  // The entry goes with its last reference. Without an entry there is no
  // handle to put.
  function Put(s: seq<Held>, key: Key): seq<Held> {
    var i := Find(s, key);
    if i == |s| then s
    else if s[i].refs <= 1 then s[..i] + s[i + 1..]
    else s[i := Held(key, s[i].refs - 1)]
  }

  ghost predicate Has(s: seq<Held>, key: Key) {
    exists i :: 0 <= i < |s| && s[i].key == key
  }

  // ---- runs ----

  datatype Call = GetCall(key: Key) | PutCall(key: Key)

  function Outstanding(calls: seq<Call>, key: Key): int {
    if calls == [] then 0
    else
      Outstanding(calls[..|calls| - 1], key)
      + if calls[|calls| - 1].key != key then 0 else if calls[|calls| - 1].GetCall? then 1 else -1
  }

  // Only handles that were got are put.
  ghost predicate Balanced(calls: seq<Call>) {
    calls != [] ==>
      && Balanced(calls[..|calls| - 1])
      && (calls[|calls| - 1].PutCall? ==> Outstanding(calls[..|calls| - 1], calls[|calls| - 1].key) > 0)
  }

  // One more than the position of the last getdb for the key; zero for never.
  function LastGet(calls: seq<Call>, key: Key): nat {
    if calls == [] then 0
    else if calls[|calls| - 1] == GetCall(key) then |calls|
    else LastGet(calls[..|calls| - 1], key)
  }

  function Run(calls: seq<Call>): seq<Held> {
    if calls == [] then []
    else
      match calls[|calls| - 1]
      case GetCall(key) => Get(Run(calls[..|calls| - 1]), key)
      case PutCall(key) => Put(Run(calls[..|calls| - 1]), key)
  }

  // Each entry counts the handles that are out.
  ghost predicate Counted(calls: seq<Call>, s: seq<Held>) {
    forall i :: 0 <= i < |s| ==> s[i].refs > 0 && Outstanding(calls, s[i].key) == s[i].refs
  }

  // Every database with a handle out has an entry.
  ghost predicate Complete(calls: seq<Call>, s: seq<Held>) {
    forall key :: Outstanding(calls, key) > 0 ==> Has(s, key)
  }

  // The entries are in the order of their last getdb, hence one per database.
  ghost predicate Ordered(calls: seq<Call>, s: seq<Held>) {
    forall i, j :: 0 <= i < j < |s| ==> LastGet(calls, s[i].key) < LastGet(calls, s[j].key)
  }

  lemma {:induction false} LastGetBound(calls: seq<Call>, key: Key)
    ensures LastGet(calls, key) <= |calls|
  {
    if calls != [] {
      LastGetBound(calls[..|calls| - 1], key);
    }
  }

  lemma OneMoreCall(calls: seq<Call>, call: Call, key: Key)
    ensures var d := if call.key != key then 0 else if call.GetCall? then 1 else -1;
      Outstanding(calls + [call], key) == Outstanding(calls, key) + d
    ensures LastGet(calls + [call], key) == if call == GetCall(key) then |calls| + 1 else LastGet(calls, key)
  {
    assert (calls + [call])[..|calls|] == calls;
  }

  // Taking out entry i leaves all other entries, in order.
  lemma Dropped(s: seq<Held>, i: nat)
    requires i < |s|
    ensures var t := s[..i] + s[i + 1..];
      && (forall j :: 0 <= j < |t| ==> t[j] == s[if j < i then j else j + 1])
      && (forall key :: Has(t, key) ==> Has(s, key))
      && (forall key :: Has(s, key) && key != s[i].key ==> Has(t, key))
  {
    var t := s[..i] + s[i + 1..];
    forall key | Has(s, key) && key != s[i].key
      ensures Has(t, key)
    {
      var j :| 0 <= j < |s| && s[j].key == key;
      assert t[if j < i then j else j - 1].key == key;
    }
  }

  lemma Step(calls: seq<Call>, call: Call, k: Key)
    ensures LastGet(calls, k) <= |calls|
    ensures k != call.key ==> Outstanding(calls + [call], k) == Outstanding(calls, k)
    ensures k != call.key || call.PutCall? ==> LastGet(calls + [call], k) == LastGet(calls, k)
  {
    LastGetBound(calls, k);
    OneMoreCall(calls, call, k);
  }

  // The entries after a call, but the one of its key, are entries from before.
  lemma GetEntries(s: seq<Held>, key: Key)
    ensures var i, s' := Find(s, key), Get(s, key);
      var kept := if i < |s| then s[..i] + s[i + 1..] else s;
      && s' == kept + [s'[|s'| - 1]]
      && s'[|s'| - 1] == Held(key, if i < |s| then s[i].refs + 1 else 1)
      && (forall k :: k != key && Has(s, k) ==> Has(s', k)) && Has(s', key)
  {
    var i, s' := Find(s, key), Get(s, key);
    var kept := if i < |s| then s[..i] + s[i + 1..] else s;
    if i < |s| {
      Dropped(s, i);
    }
    assert s'[|kept|].key == key;
    forall k | k != key && Has(s, k)
      ensures Has(s', k)
    {
      var j :| 0 <= j < |kept| && kept[j].key == k;
      assert s'[j].key == k;
    }
  }

  lemma GetKeepsOrder(calls: seq<Call>, s: seq<Held>, key: Key)
    requires Ordered(calls, s)
    ensures Ordered(calls + [GetCall(key)], Get(s, key))
  {
    hide LastGet;
    var calls', s', i := calls + [GetCall(key)], Get(s, key), Find(s, key);
    GetEntries(s, key);
    if i < |s| {
      Dropped(s, i);
    }
    OneMoreCall(calls, GetCall(key), key);
    forall j, k | 0 <= j < k < |s'|
      ensures LastGet(calls', s'[j].key) < LastGet(calls', s'[k].key)
    {
      Step(calls, GetCall(key), s'[j].key);
      Step(calls, GetCall(key), s'[k].key);
      assert s'[j].key != key;
    }
  }

  lemma GetKeepsCounts(calls: seq<Call>, s: seq<Held>, key: Key)
    requires Ordered(calls, s) && Counted(calls, s) && Complete(calls, s) && Outstanding(calls, key) >= 0
    ensures var calls' := calls + [GetCall(key)];
      Counted(calls', Get(s, key)) && Complete(calls', Get(s, key))
  {
    hide Outstanding, LastGet;
    var calls', s', i := calls + [GetCall(key)], Get(s, key), Find(s, key);
    GetEntries(s, key);
    if i < |s| {
      Dropped(s, i);
    }
    OneMoreCall(calls, GetCall(key), key);
    forall j | 0 <= j < |s'|
      ensures s'[j].refs > 0 && Outstanding(calls', s'[j].key) == s'[j].refs
    {
      Step(calls, GetCall(key), s'[j].key);
      if j < |s'| - 1 {
        assert s'[j].key != key;
      } else if i == |s| {
        assert !Has(s, key);
      }
    }
    forall k | Outstanding(calls', k) > 0
      ensures Has(s', k)
    {
      Step(calls, GetCall(key), k);
    }
  }

  // Where the entries after a putdb come from.
  lemma PutEntries(s: seq<Held>, key: Key)
    requires Find(s, key) < |s|
    ensures var i, s' := Find(s, key), Put(s, key);
      && (forall j :: 0 <= j < |s'| ==>
            var from := if s[i].refs <= 1 && j >= i then j + 1 else j;
            from < |s| && s'[j].key == s[from].key
            && s'[j].refs == if from == i then s[i].refs - 1 else s[from].refs)
      && (forall k :: Has(s, k) && (k != key || s[i].refs > 1) ==> Has(s', k))
  {
    var i, s' := Find(s, key), Put(s, key);
    if s[i].refs <= 1 {
      Dropped(s, i);
    } else {
      forall k | Has(s, k)
        ensures Has(s', k)
      {
        var j :| 0 <= j < |s| && s[j].key == k;
        assert s'[j].key == k;
      }
    }
  }

  lemma PutKeepsOrder(calls: seq<Call>, s: seq<Held>, key: Key)
    requires Ordered(calls, s) && Find(s, key) < |s|
    ensures Ordered(calls + [PutCall(key)], Put(s, key))
  {
    hide Outstanding, LastGet, Put;
    var s' := Put(s, key);
    PutEntries(s, key);
    forall j, k | 0 <= j < k < |s'|
      ensures LastGet(calls + [PutCall(key)], s'[j].key) < LastGet(calls + [PutCall(key)], s'[k].key)
    {
      Step(calls, PutCall(key), s'[j].key);
      Step(calls, PutCall(key), s'[k].key);
    }
  }

  lemma PutKeepsCounts(calls: seq<Call>, s: seq<Held>, key: Key)
    requires Ordered(calls, s) && Counted(calls, s) && Complete(calls, s) && Find(s, key) < |s|
    ensures var calls' := calls + [PutCall(key)];
      Counted(calls', Put(s, key)) && Complete(calls', Put(s, key))
  {
    hide Outstanding, LastGet, Put;
    var calls', s', i := calls + [PutCall(key)], Put(s, key), Find(s, key);
    PutEntries(s, key);
    OneMoreCall(calls, PutCall(key), key);
    forall j | 0 <= j < |s'|
      ensures s'[j].refs > 0 && Outstanding(calls', s'[j].key) == s'[j].refs
    {
      Step(calls, PutCall(key), s'[j].key);
      var from := if s[i].refs <= 1 && j >= i then j + 1 else j;
      assert from != i ==> s[from].key != key;
    }
    forall k | Outstanding(calls', k) > 0
      ensures Has(s', k)
    {
      Step(calls, PutCall(key), k);
    }
  }

  // After any run in which only handles that are out are put back, the list
  // has one entry per database with handles out, counts them, and is in the
  // order of the last getdb of each.
  lemma {:induction false} RunDescribed(calls: seq<Call>)
    requires Balanced(calls)
    ensures Counted(calls, Run(calls)) && Complete(calls, Run(calls)) && Ordered(calls, Run(calls))
    ensures forall key :: Outstanding(calls, key) >= 0
  {
    if calls == [] {
      return;
    }
    var front, last := calls[..|calls| - 1], calls[|calls| - 1];
    RunDescribed(front);
    assert front + [last] == calls;
    match last
    case GetCall(key) =>
      GetKeepsOrder(front, Run(front), key);
      GetKeepsCounts(front, Run(front), key);
    case PutCall(key) =>
      assert Has(Run(front), key);
      PutKeepsOrder(front, Run(front), key);
      PutKeepsCounts(front, Run(front), key);
      forall k {
        OneMoreCall(front, last, k);
      }
  }

  // An entry leaves exactly when its last handle is put.
  lemma EntryWhileHandlesAreOut(calls: seq<Call>, key: Key)
    requires Balanced(calls)
    ensures Has(Run(calls), key) <==> Outstanding(calls, key) > 0
  {
    RunDescribed(calls);
  }
}
