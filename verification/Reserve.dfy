// The RESERVE / MESSAGE exchange, on the open backups and their reserved sets.

module Reserve {
  import opened Options
  import opened Log

  // The user a backup belongs to; None for the shared mailboxes.
  type Owner = Option<string>

  // The GUIDs an open backup has indexed, and those it has been promised.
  datatype Open = Open(stored: set<Guid>, reserved: set<Guid>)

  type State = map<Owner, Open>

  // What a backup holds before it is opened.
  type Disk = Owner -> set<Guid>

  function Listed(guids: set<Guid>): set<Guid> {
    guids - {NULL_GUID}
  }

  predicate Wanted(o: Open, guids: set<Guid>) {
    o.reserved * Listed(guids) != {}
  }

  // MESSAGE: to every backup that reserved one of the GUIDs, or else to all.
  function ApplyMessage(s: State, guids: set<Guid>): State {
    if exists n :: n in s && Wanted(s[n], guids) then
      map n | n in s ::
        if Wanted(s[n], guids) then Open(s[n].stored + guids, s[n].reserved - Listed(guids)) else s[n]
    else
      map n | n in s :: Open(s[n].stored + guids, s[n].reserved)
  }

  function Opened(s: State, disk: Disk, n: Owner): Open {
    if n in s then s[n] else Open(disk(n), {})
  }

  function ReserveOne(o: Open, guids: set<Guid>): Open {
    Open(o.stored, o.reserved + Listed(guids - o.stored))
  }

  function ApplyReserve(s: State, disk: Disk, names: set<Owner>, guids: set<Guid>): State {
    map n | n in s.Keys + names ::
      if n in names then ReserveOne(Opened(s, disk, n), guids) else s[n]
  }

  // The other commands open the backup they are for, and store no messages.
  function ApplyOther(s: State, disk: Disk, n: Owner): State {
    s[n := Opened(s, disk, n)]
  }

  // The GUIDs reported as MISSING.
  function Missing(s: State, disk: Disk, names: set<Owner>, guids: set<Guid>): set<Guid> {
    set n, g | n in names && g in guids && g !in Opened(s, disk, n).stored && g != NULL_GUID :: g
  }

  lemma ReportedMissing(s: State, disk: Disk, names: set<Owner>, guids: set<Guid>, n: Owner, g: Guid)
    requires n in names && g in guids && g != NULL_GUID && g !in Opened(s, disk, n).stored
    ensures g in Missing(s, disk, names, guids)
  {
  }

  lemma ReserveNone(s: State, disk: Disk, guids: set<Guid>)
    ensures ApplyReserve(s, disk, {}, guids) == s && Missing(s, disk, {}, guids) == {}
  {
  }

  lemma ReserveOneMore(s: State, disk: Disk, names: set<Owner>, guids: set<Guid>, n: Owner)
    requires n !in names
    ensures var s1 := ApplyReserve(s, disk, names, guids);
      && Opened(s1, disk, n) == Opened(s, disk, n)
      && ApplyReserve(s, disk, names + {n}, guids) == s1[n := ReserveOne(Opened(s1, disk, n), guids)]
      && Missing(s, disk, names + {n}, guids)
         == Missing(s, disk, names, guids) + Listed(guids - Opened(s, disk, n).stored)
  {
  }

  // ---- runs of successful commands ----

  datatype Command =
    | ReserveCmd(names: set<Owner>, guids: set<Guid>)
    | MessageCmd(sent: set<Guid>)
    | OtherCmd(owner: Owner)

  function Step(s: State, disk: Disk, cmd: Command): State {
    match cmd
    case ReserveCmd(names, guids) => ApplyReserve(s, disk, names, guids)
    case MessageCmd(sent) => ApplyMessage(s, sent)
    case OtherCmd(n) => ApplyOther(s, disk, n)
  }

  function Run(disk: Disk, cmds: seq<Command>): State {
    if cmds == [] then map[] else Step(Run(disk, cmds[..|cmds| - 1]), disk, cmds[|cmds| - 1])
  }

  // Stored and reserved never overlap, and the null GUID is never reserved.
  ghost predicate Disjoint(s: State) {
    forall n :: n in s ==> s[n].stored !! s[n].reserved && NULL_GUID !in s[n].reserved
  }

  lemma StepIsDisjoint(s: State, disk: Disk, cmd: Command)
    requires Disjoint(s)
    ensures Disjoint(Step(s, disk, cmd))
  {
    match cmd
    case ReserveCmd(_, _) =>
    case OtherCmd(_) =>
    case MessageCmd(sent) =>
      forall n | n in s && !Wanted(s[n], sent)
        ensures forall g :: g in s[n].reserved ==> g !in sent
      {
        assert forall g :: g in s[n].reserved && g in sent ==> g in s[n].reserved * Listed(sent);
      }
  }

  predicate Covers(cmd: Command, n: Owner, g: Guid) {
    cmd.ReserveCmd? && n in cmd.names && g in cmd.guids
  }

  lemma {:induction false} RunIsDisjoint(disk: Disk, cmds: seq<Command>)
    ensures Disjoint(Run(disk, cmds))
  {
    if cmds != [] {
      RunIsDisjoint(disk, cmds[..|cmds| - 1]);
      StepIsDisjoint(Run(disk, cmds[..|cmds| - 1]), disk, cmds[|cmds| - 1]);
    }
  }

  // Nothing is forgotten: a stored GUID stays stored, and a
  // reserved one is stored as soon as it is sent.
  lemma StepKeeps(s: State, disk: Disk, cmd: Command, n: Owner, g: Guid)
    requires n in s && g != NULL_GUID
    ensures var s' := Step(s, disk, cmd);
      && n in s'
      && (g in s[n].stored ==> g in s'[n].stored)
      && (g in s[n].reserved ==> g in s'[n].reserved || g in s'[n].stored)
      && (g in s[n].reserved && cmd.MessageCmd? && g in cmd.sent ==> g in s'[n].stored)
  {
    if cmd.MessageCmd? && g in cmd.sent && g in s[n].reserved {
      assert g in s[n].reserved * Listed(cmd.sent);
      assert Wanted(s[n], cmd.sent);
    }
  }

  lemma StepKeepsStored(s: State, disk: Disk, cmd: Command, n: Owner)
    requires n in s
    ensures n in Step(s, disk, cmd) && s[n].stored <= Step(s, disk, cmd)[n].stored
  {
  }

  // A GUID named in a RESERVE that covers a backup is stored or reserved
  // there, whatever commands came in between and after.
  lemma {:induction false} ReservedIsNeverForgotten(disk: Disk, cmds: seq<Command>, i: nat, n: Owner, g: Guid)
    requires i < |cmds| && Covers(cmds[i], n, g) && g != NULL_GUID
    ensures n in Run(disk, cmds)
    ensures g in Run(disk, cmds)[n].stored || g in Run(disk, cmds)[n].reserved
  {
    var last := |cmds| - 1;
    if i < last {
      ReservedIsNeverForgotten(disk, cmds[..last], i, n, g);
      StepKeeps(Run(disk, cmds[..last]), disk, cmds[last], n, g);
    }
  }

  lemma {:induction false} StoredStays(disk: Disk, cmds: seq<Command>, i: nat, n: Owner, g: Guid)
    requires i <= |cmds| && n in Run(disk, cmds[..i]) && g in Run(disk, cmds[..i])[n].stored
    ensures n in Run(disk, cmds) && g in Run(disk, cmds)[n].stored
  {
    hide Step;
    if i == |cmds| {
      assert cmds[..i] == cmds;
    } else {
      var last := |cmds| - 1;
      assert cmds[..last][..i] == cmds[..i];
      StoredStays(disk, cmds[..last], i, n, g);
      StepKeepsStored(Run(disk, cmds[..last]), disk, cmds[last], n);
    }
  }

  lemma RunStep(disk: Disk, cmds: seq<Command>, i: nat)
    requires i < |cmds|
    ensures Run(disk, cmds[..i + 1]) == Step(Run(disk, cmds[..i]), disk, cmds[i])
  {
    hide Step;
    assert cmds[..i + 1][..i] == cmds[..i];
  }

  lemma HeldIsKept(s: State, disk: Disk, cmd: Command, n: Owner, g: Guid)
    requires Covers(cmd, n, g) && g in Opened(s, disk, n).stored
    ensures n in Step(s, disk, cmd) && g in Step(s, disk, cmd)[n].stored
  {
  }

  // A reserved GUID that is sent later is stored at the end.
  lemma SentIsStored(disk: Disk, cmds: seq<Command>, i: nat, j: nat, n: Owner, g: Guid)
    requires i < j < |cmds| && Covers(cmds[i], n, g) && g != NULL_GUID
    requires cmds[j].MessageCmd? && g in cmds[j].sent
    ensures n in Run(disk, cmds) && g in Run(disk, cmds)[n].stored
  {
    hide Run, Step;
    ReservedIsNeverForgotten(disk, cmds[..j], i, n, g);
    RunStep(disk, cmds, j);
    StepKeeps(Run(disk, cmds[..j]), disk, cmds[j], n, g);
    StoredStays(disk, cmds, j + 1, n, g);
  }

  // Once every GUID that a RESERVE reported as MISSING has been sent, every
  // backup it covered holds every GUID it named.
  lemma ReserveIsFulfilled(disk: Disk, cmds: seq<Command>, i: nat, n: Owner, g: Guid)
    requires i < |cmds| && Covers(cmds[i], n, g) && g != NULL_GUID
    requires forall m :: m in Missing(Run(disk, cmds[..i]), disk, cmds[i].names, cmds[i].guids) ==>
      exists j :: i < j < |cmds| && cmds[j].MessageCmd? && m in cmds[j].sent
    ensures n in Run(disk, cmds) && g in Run(disk, cmds)[n].stored
  {
    hide Run, Step, Opened, Missing;
    var before := Run(disk, cmds[..i]);
    if g in Opened(before, disk, n).stored {
      RunStep(disk, cmds, i);
      HeldIsKept(before, disk, cmds[i], n, g);
      StoredStays(disk, cmds, i + 1, n, g);
    } else {
      ReportedMissing(before, disk, cmds[i].names, cmds[i].guids, n, g);
      var j :| i < j < |cmds| && cmds[j].MessageCmd? && g in cmds[j].sent;
      SentIsStored(disk, cmds, i, j, n, g);
    }
  }

  // ---- where a message goes ----

  lemma MessageGoesTo(s: State, disk: Disk, sent: set<Guid>, n: Owner)
    requires n in s
    ensures var s' := Step(s, disk, MessageCmd(sent));
      var someone := exists m, g :: m in s && g in s[m].reserved && g in sent && g != NULL_GUID;
      var here := exists g :: g in s[n].reserved && g in sent && g != NULL_GUID;
      && s'.Keys == s.Keys
      && (here || !someone ==> s'[n].stored == s[n].stored + sent)
      && (someone && !here ==> s'[n] == s[n])
  {
    forall m | m in s
      ensures Wanted(s[m], sent) <==> exists g :: g in s[m].reserved && g in sent && g != NULL_GUID
    {
      if g :| g in s[m].reserved && g in sent && g != NULL_GUID {
        assert g in s[m].reserved * Listed(sent);
      }
    }
  }

  // Every GUID of a MESSAGE that comes while a backup is open is in some backup
  // from then on.
  lemma SentIsStoredSomewhere(disk: Disk, cmds: seq<Command>, i: nat, g: Guid)
    requires i < |cmds| && cmds[i].MessageCmd? && g in cmds[i].sent && Run(disk, cmds[..i]) != map[]
    ensures exists n :: n in Run(disk, cmds) && g in Run(disk, cmds)[n].stored
  {
    hide Run, Step;
    var s, sent := Run(disk, cmds[..i]), cmds[i].sent;
    var n :| n in s;
    if m, g' :| m in s && g' in s[m].reserved && g' in sent && g' != NULL_GUID {
      n := m;
    }
    MessageGoesTo(s, disk, sent, n);
    RunStep(disk, cmds, i);
    StoredStays(disk, cmds, i + 1, n, g);
  }

  // If no open backup has reserved any of its GUIDs, a MESSAGE is in every open
  // backup from then on.
  lemma UnreservedIsStoredEverywhere(disk: Disk, cmds: seq<Command>, i: nat, n: Owner, g: Guid)
    requires i < |cmds| && cmds[i].MessageCmd? && g in cmds[i].sent
    requires forall m, g' :: m in Run(disk, cmds[..i]) && g' in Run(disk, cmds[..i])[m].reserved && g' != NULL_GUID ==>
      g' !in cmds[i].sent
    requires n in Run(disk, cmds[..i])
    ensures n in Run(disk, cmds) && g in Run(disk, cmds)[n].stored
  {
    hide Run, Step;
    MessageGoesTo(Run(disk, cmds[..i]), disk, cmds[i].sent, n);
    RunStep(disk, cmds, i);
    StoredStays(disk, cmds, i + 1, n, g);
  }

  // ---- what is reported ----

  // Exactly those of the GUIDs named are MISSING that some backup covered has
  // reserved after the RESERVE.
  lemma MissingIsReserved(disk: Disk, cmds: seq<Command>, i: nat, g: Guid)
    requires i < |cmds| && cmds[i].ReserveCmd?
    ensures g in Missing(Run(disk, cmds[..i]), disk, cmds[i].names, cmds[i].guids) <==>
      && g in cmds[i].guids
      && exists n :: n in cmds[i].names && n in Run(disk, cmds[..i + 1]) && g in Run(disk, cmds[..i + 1])[n].reserved
  {
    hide Run;
    var s, names, guids := Run(disk, cmds[..i]), cmds[i].names, cmds[i].guids;
    RunIsDisjoint(disk, cmds[..i]);
    RunStep(disk, cmds, i);
    var s' := ApplyReserve(s, disk, names, guids);
    if g in Missing(s, disk, names, guids) {
      var n :| n in names && g in guids && g !in Opened(s, disk, n).stored && g != NULL_GUID;
      assert n in s' && g in s'[n].reserved;
    }
    if n :| n in names && n in s' && g in s'[n].reserved {
      assert g !in Opened(s, disk, n).stored;
    }
  }

  // ---- and where it comes from ----

  ghost predicate WasSent(cmds: seq<Command>, g: Guid) {
    exists cmd :: cmd in cmds && cmd.MessageCmd? && g in cmd.sent
  }

  // A backup holds what it held before it was opened, and of all else only what
  // has been sent.
  lemma {:induction false} StoredComesFrom(disk: Disk, cmds: seq<Command>, n: Owner, g: Guid)
    requires n in Run(disk, cmds)
    ensures g in disk(n) ==> g in Run(disk, cmds)[n].stored
    ensures g in Run(disk, cmds)[n].stored ==> g in disk(n) || WasSent(cmds, g)
  {
    var last := |cmds| - 1;
    var before := Run(disk, cmds[..last]);
    assert cmds == cmds[..last] + [cmds[last]];
    assert forall cmd :: cmd in cmds <==> cmd in cmds[..last] || cmd == cmds[last];
    if n in before {
      StoredComesFrom(disk, cmds[..last], n, g);
    }
  }
}
