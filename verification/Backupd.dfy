// The backup daemon's list of open backups, and the two commands of the
// reserve exchange.

module Backupd {
  import opened Options
  import opened Log
  import R = Reserve

  datatype Code = Ok | ProtocolError | Failed

  // An open backup: the GUIDs in its index, and its reserved_guids list.
  class OpenBackup {
    const name: R.Owner
    var stored: set<Guid>
    var reserved: set<Guid>

    constructor (name: R.Owner, stored: set<Guid>)
      ensures this.name == name && this.stored == stored && reserved == {}
    {
      this.name, this.stored, this.reserved := name, stored, {};
    }

    ghost function Value(): R.Open
      reads this
    {
      R.Open(stored, reserved)
    }

    // backup_append of a line with these messages; it may fail.
    method AppendMessages(guids: set<Guid>) returns (ok: bool)
      modifies this`stored
      ensures stored == if ok then old(stored) + guids else old(stored)
    {
      ok := *;
      if ok {
        stored := stored + guids;
      }
    }
  }

  // The GUIDs of the messages in a MESSAGE list.
  function FileGuids(items: seq<MessageItem>): set<Guid> {
    set item | item in items && item.File? :: item.guid
  }

  lemma FileGuidsOfOneMore(items: seq<MessageItem>, item: MessageItem)
    ensures FileGuids(items + [item]) == FileGuids(items) + if item.File? then {item.guid} else {}
  {
    assert forall x :: x in items + [item] <==> x in items || x == item;
  }

  ghost function Elems<T(!new)>(s: seq<T>): set<T> {
    set x | x in s
  }

  lemma ElemsOfOneMore<T(!new)>(s: seq<T>, e: T)
    ensures Elems(s + [e]) == Elems(s) + {e}
  {
    assert forall x :: x in s + [e] <==> x in s || x == e;
  }

  lemma NoElems<T(!new)>(s: seq<T>)
    ensures Elems(s[..0]) == {}
  {
  }

  lemma NotAmongThose<T(!new)>(s: seq<T>, k: nat)
    requires k < |s| && forall i, j :: 0 <= i < j < |s| ==> s[i] != s[j]
    ensures s[k] !in Elems(s[..k])
  {
  }

  predicate Genuine(guidOf: string -> Guid, items: seq<MessageItem>) {
    forall item :: item in items && item.File? ==> guidOf(item.content) == item.guid
  }

  ghost function Names(open: seq<OpenBackup>): set<R.Owner> {
    set o | o in open :: o.name
  }

  lemma NamesAdded(b: OpenBackup, open: seq<OpenBackup>)
    ensures Names([b] + open) == Names(open) + {b.name}
  {
    assert forall o :: o in [b] + open <==> o == b || o in open;
  }

  // What a MESSAGE line does to one backup when some backup wants it.
  ghost function Sent(o: R.Open, all: set<Guid>): R.Open {
    if R.Wanted(o, all) then R.Open(o.stored + all, o.reserved - R.Listed(all)) else o
  }

  lemma WantedByName(open: seq<OpenBackup>, s: R.State, all: set<Guid>)
    requires s.Keys == Names(open)
    ensures (exists n :: n in s && R.Wanted(s[n], all)) <==>
      exists j :: 0 <= j < |open| && R.Wanted(s[open[j].name], all)
  {
    if n :| n in s && R.Wanted(s[n], all) {
      var o :| o in open && o.name == n;
      var j :| 0 <= j < |open| && open[j] == o;
    }
    forall j | 0 <= j < |open|
      ensures open[j].name in s
    {
      assert open[j] in open;
    }
  }

  class Daemon {
    const disk: R.Disk
    var open: seq<OpenBackup>

    // No two open backups belong to the same owner.
    ghost predicate Valid()
      reads this
    {
      forall i, j :: 0 <= i < j < |open| ==> open[i].name != open[j].name && open[i] != open[j]
    }

    ghost predicate IsState(s: R.State)
      reads this, open
    {
      && (forall o :: o in open ==> o.name in s && s[o.name] == o.Value())
      && s.Keys == Names(open)
    }

    constructor (disk: R.Disk)
      ensures Valid() && open == [] && IsState(map[]) && this.disk == disk
    {
      this.disk := disk;
      open := [];
    }

    // open_backups_list_find
    method Find(name: R.Owner) returns (b: OpenBackup?)
      ensures b != null ==> b in open && b.name == name
      ensures b == null ==> forall j :: 0 <= j < |open| ==> open[j].name != name
    {
      var i := 0;
      while i < |open|
        invariant 0 <= i <= |open|
        invariant forall j :: 0 <= j < i ==> open[j].name != name
      {
        if open[i].name == name {
          return open[i];
        }
        i := i + 1;
      }
      b := null;
    }

    // open_backups_list_add, at the front
    method Add(b: OpenBackup, ghost s: R.State)
      requires Valid() && IsState(s) && b !in open && b.name !in s
      modifies this
      ensures Valid() && open == [b] + old(open) && IsState(s[b.name := b.Value()])
    {
      forall o | o in open
        ensures o.name in Names(open) && o.name != b.name
      {
      }
      NamesAdded(b, open);
      hide Names;
      open := [b] + open;
    }

    // backupd_open_backup
    method OpenFor(name: R.Owner, ghost s: R.State) returns (b: OpenBackup)
      requires Valid() && IsState(s)
      modifies this
      ensures Valid() && b in open && b.name == name
      ensures IsState(s[name := R.Opened(s, disk, name)])
      ensures forall i :: 0 <= i < |open| ==> open[i] in old(open) || fresh(open[i])
    {
      var found := Find(name);
      if found != null {
        assert s[name := R.Opened(s, disk, name)] == s;
        b := found;
      } else {
        b := new OpenBackup(name, disk(name));
        Add(b, s);
      }
    }

    // cmd_apply_mailbox, cmd_apply_unmailbox and the like: the line goes to the
    // backup of one owner, which is opened if it was not and stays open even if
    // the line cannot be appended.
    method ApplyOther(name: R.Owner, ghost s: R.State) returns (ok: bool)
      requires Valid() && IsState(s)
      modifies this, open
      ensures Valid()
      ensures IsState(R.ApplyOther(s, disk, name))
    {
      var b := OpenFor(name, s);
      ghost var before := b.Value();
      ok := b.AppendMessages({});
      assert before.stored + {} == before.stored;
      assert forall o :: o in open && o != b ==> o.name != name;
    }

    // Takes the listed GUIDs out of one backup's reserved list, and counts them.
    method Unreserve(b: OpenBackup, guids: seq<Guid>) returns (wanted: nat)
      modifies b`reserved
      ensures b.reserved == old(b.reserved) - Elems(guids)
      ensures wanted > 0 <==> old(b.reserved) * Elems(guids) != {}
    {
      wanted := 0;
      var k := 0;
      while k < |guids|
        invariant 0 <= k <= |guids|
        invariant b.reserved == old(b.reserved) - Elems(guids[..k])
        invariant wanted > 0 <==> exists g :: g in guids[..k] && g in old(b.reserved)
      {
        assert guids[..k + 1] == guids[..k] + [guids[k]];
        ElemsOfOneMore(guids[..k], guids[k]);
        if guids[k] in b.reserved {
          wanted := wanted + 1;
          b.reserved := b.reserved - {guids[k]};
        }
        k := k + 1;
      }
      assert guids[..k] == guids;
      assert forall g :: g in old(b.reserved) * Elems(guids) <==> g in guids && g in old(b.reserved);
    }

    // The GUIDs of a MESSAGE list, once each and without the null GUID, or an
    // error if one does not match its message.
    method DigOut(items: seq<MessageItem>, guidOf: string -> Guid) returns (ok: bool, guids: seq<Guid>)
      ensures ok <==> Genuine(guidOf, items)
      ensures ok ==> Elems(guids) == R.Listed(FileGuids(items))
    {
      guids := [];
      var k := 0;
      while k < |items|
        invariant 0 <= k <= |items|
        invariant Genuine(guidOf, items[..k])
        invariant Elems(guids) == R.Listed(FileGuids(items[..k]))
      {
        assert items[..k + 1] == items[..k] + [items[k]];
        FileGuidsOfOneMore(items[..k], items[k]);
        if items[k].File? {
          if guidOf(items[k].content) != items[k].guid {
            assert items[k] in items;
            return false, guids;
          }
          if items[k].guid != NULL_GUID && items[k].guid !in guids {
            ElemsOfOneMore(guids, items[k].guid);
            guids := guids + [items[k].guid];
          }
        }
        k := k + 1;
      }
      assert items[..k] == items;
      ok := true;
    }

    method SendToReserver(b: OpenBackup, guids: seq<Guid>, all: set<Guid>) returns (sent: bool, failed: bool)
      requires Elems(guids) == R.Listed(all)
      modifies b
      ensures !failed ==> b.Value() == Sent(old(b.Value()), all)
      ensures !failed ==> (sent <==> R.Wanted(old(b.Value()), all))
    {
      var wanted := Unreserve(b, guids);
      sent, failed := wanted > 0, false;
      if sent {
        var ok := b.AppendMessages(all);
        failed := !ok;
      } else {
        assert b.reserved == old(b.reserved);
      }
    }

    // The line goes to every backup that had reserved one of its messages.
    method SendToReservers(guids: seq<Guid>, all: set<Guid>, ghost s: R.State) returns (appended: nat, failed: bool)
      requires Valid() && IsState(s) && Elems(guids) == R.Listed(all)
      modifies open
      ensures Valid() && open == old(open)
      ensures !failed ==> forall o :: o in open ==> o.Value() == Sent(s[o.name], all)
      ensures !failed ==> (appended > 0 <==> exists n :: n in s && R.Wanted(s[n], all))
      ensures open == [] ==> appended == 0 && !failed
    {
      hide Sent, R.Wanted, R.Listed, Elems, Names;
      appended, failed := 0, false;
      var i := 0;
      while i < |open|
        invariant 0 <= i <= |open|
        invariant forall j :: 0 <= j < i ==> open[j].Value() == Sent(s[open[j].name], all)
        invariant forall j :: i <= j < |open| ==> open[j].Value() == s[open[j].name]
        invariant appended > 0 <==> exists j :: 0 <= j < i && R.Wanted(s[open[j].name], all)
      {
        var sent, broken := SendToReserver(open[i], guids, all);
        if broken {
          return appended, true;
        }
        if sent {
          appended := appended + 1;
        }
        i := i + 1;
      }
      WantedByName(open, s, all);
    }

    method SendToAll(all: set<Guid>, ghost s: R.State) returns (failed: bool)
      requires Valid() && IsState(s)
      modifies open
      ensures Valid() && open == old(open)
      ensures !failed ==> forall o :: o in open ==> o.Value() == R.Open(s[o.name].stored + all, s[o.name].reserved)
    {
      var i := 0;
      while i < |open|
        invariant 0 <= i <= |open|
        invariant forall j :: 0 <= j < i ==>
          open[j].Value() == R.Open(s[open[j].name].stored + all, s[open[j].name].reserved)
        invariant forall j :: i <= j < |open| ==> open[j].Value() == s[open[j].name]
      {
        var ok := open[i].AppendMessages(all);
        if !ok {
          return true;
        }
        i := i + 1;
      }
      failed := false;
    }

    // cmd_apply_message. When it succeeds, the open backups have made the step.
    method ApplyMessage(items: seq<MessageItem>, guidOf: string -> Guid, ghost s: R.State) returns (r: Code)
      requires Valid() && IsState(s)
      modifies open
      ensures Valid() && open == old(open)
      ensures r == Ok ==> IsState(R.ApplyMessage(s, FileGuids(items)))
      ensures r == ProtocolError <==> !Genuine(guidOf, items) || R.Listed(FileGuids(items)) == {} || open == []
      ensures r == ProtocolError ==> IsState(s)
    {
      var ok, guids := DigOut(items, guidOf);
      if !ok || guids == [] {
        assert ok ==> Elems(guids) == {};
        return ProtocolError;
      }
      assert guids[0] in R.Listed(FileGuids(items));
      var appended, failed := SendToReservers(guids, FileGuids(items), s);
      if failed {
        return Failed;
      }
      if appended > 0 {
        return Ok;
      }
      if |open| == 0 {
        return ProtocolError;
      }
      failed := SendToAll(FileGuids(items), s);
      r := if failed then Failed else Ok;
    }

    // Each GUID that the index lacks is reserved and added to the missing ones.
    method ReserveGuids(b: OpenBackup, gl: seq<Guid>, missing: set<Guid>) returns (missing': set<Guid>)
      modifies b`reserved
      ensures b.reserved == old(b.reserved) + R.Listed(Elems(gl) - b.stored)
      ensures missing' == missing + R.Listed(Elems(gl) - b.stored)
    {
      missing' := missing;
      var k := 0;
      while k < |gl|
        invariant 0 <= k <= |gl|
        invariant b.reserved == old(b.reserved) + R.Listed(Elems(gl[..k]) - b.stored)
        invariant missing' == missing + R.Listed(Elems(gl[..k]) - b.stored)
      {
        assert gl[..k + 1] == gl[..k] + [gl[k]];
        ElemsOfOneMore(gl[..k], gl[k]);
        if gl[k] !in b.stored && gl[k] != NULL_GUID {
          b.reserved := b.reserved + {gl[k]};
          missing' := missing' + {gl[k]};
        }
        k := k + 1;
      }
      assert gl[..k] == gl;
    }

    // reserve_one, which first appends the RESERVE line itself
    method ReserveOne(name: R.Owner, gl: seq<Guid>, missing: set<Guid>, ghost s: R.State)
        returns (ok: bool, missing': set<Guid>)
      requires Valid() && IsState(s)
      modifies this, open
      ensures Valid()
      ensures forall i :: 0 <= i < |open| ==> open[i] in old(open) || fresh(open[i])
      ensures ok ==> IsState(s[name := R.ReserveOne(R.Opened(s, disk, name), Elems(gl))])
      ensures ok ==> missing' == missing + R.Listed(Elems(gl) - R.Opened(s, disk, name).stored)
    {
      missing' := missing;
      var b := OpenFor(name, s);
      ghost var before := b.Value();
      ok := b.AppendMessages({});
      if !ok {
        return;
      }
      assert before.stored + {} == before.stored;
      missing' := ReserveGuids(b, gl, missing);
      assert forall o :: o in open && o != b ==> o.name != name;
    }

    // cmd_apply_reserve: every user named once, and the shared mailboxes last.
    method ApplyReserve(owners: seq<R.Owner>, gl: seq<Guid>, ghost s: R.State) returns (ok: bool, missing: set<Guid>)
      requires Valid() && IsState(s)
      modifies this, open
      ensures Valid()
      ensures ok ==> IsState(R.ApplyReserve(s, disk, Elems(owners), Elems(gl)))
      ensures ok ==> missing == R.Missing(s, disk, Elems(owners), Elems(gl))
    {
      hide R.ApplyReserve, R.Missing, R.ReserveOne, R.Opened, R.Listed, Elems, Daemon.IsState, Daemon.Valid;
      var names := Once(owners);
      missing := {};
      ghost var done := {};
      ghost var start := open;
      R.ReserveNone(s, disk, Elems(gl));
      NoElems(names);
      var k := 0;
      while k < |names|
        invariant 0 <= k <= |names|
        invariant Valid()
        invariant done == Elems(names[..k])
        invariant IsState(R.ApplyReserve(s, disk, done, Elems(gl)))
        invariant missing == R.Missing(s, disk, done, Elems(gl))
        invariant forall i :: 0 <= i < |open| ==> open[i] in start || fresh(open[i])
      {
        NotAmongThose(names, k);
        R.ReserveOneMore(s, disk, done, Elems(gl), names[k]);
        assert names[..k + 1] == names[..k] + [names[k]];
        ElemsOfOneMore(names[..k], names[k]);
        ok, missing := ReserveOne(names[k], gl, missing, R.ApplyReserve(s, disk, done, Elems(gl)));
        if !ok {
          return;
        }
        done := done + {names[k]};
        k := k + 1;
      }
      assert names[..k] == names;
      ok := true;
    }

    // The users in the order they are named, without repeats; then None, for
    // the shared mailboxes, if they are named at all.
    method Once(owners: seq<R.Owner>) returns (names: seq<R.Owner>)
      ensures Elems(names) == Elems(owners)
      ensures forall i, j :: 0 <= i < j < |names| ==> names[i] != names[j]
    {
      names := [];
      var shared := false;
      var k := 0;
      while k < |owners|
        invariant 0 <= k <= |owners|
        invariant forall n :: n in names <==> n in owners[..k] && n.Some?
        invariant shared <==> None in owners[..k]
        invariant forall i, j :: 0 <= i < j < |names| ==> names[i] != names[j]
      {
        if owners[k].None? {
          shared := true;
        } else if owners[k] !in names {
          names := names + [owners[k]];
        }
        assert owners[..k + 1] == owners[..k] + [owners[k]];
        k := k + 1;
      }
      assert owners[..k] == owners;
      if shared {
        names := names + [None];
      }
    }
  }
}
