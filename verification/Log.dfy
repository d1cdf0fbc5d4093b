// The data stream of a backup: parsed dlist lines, gzip members made of such
// lines, and the byte offset at which each line of a member starts.

module Options {
  datatype Option<+T> = None | Some(value: T)

  function GetOr<T>(o: Option<T>, default: T): T {
    match o
    case None => default
    case Some(v) => v
  }
}

module Log {
  import opened Options

  // A message GUID, in the encoded form in which it is stored and compared.
  type Guid = string

  // message_guid_isnull: the GUID lists silently refuse this one.
  const NULL_GUID: Guid := "0000000000000000000000000000000000000000"

  // One child of a MESSAGE dlist; anything dlist_tofile refuses is NotFile.
  datatype MessageItem =
    | File(partition: string, guid: Guid, size: nat, content: string)
    | NotFile

  // One child of the RECORD list of a MAILBOX dlist. A None field is missing
  // or not of the type asked for.
  datatype Record = Record(
    uid: Option<nat>,
    modseq: Option<nat>,
    lastUpdated: Option<nat>,
    internaldate: Option<nat>,
    guid: Option<Guid>,
    size: Option<nat>,
    flags: Option<seq<string>>,
    annotations: Option<string>)

  datatype MailboxDlist = MailboxDlist(
    uniqueid: Option<string>,
    mboxname: Option<string>,
    mboxtype: Option<string>,
    lastUid: Option<nat>,
    highestModseq: Option<nat>,
    recentUid: Option<nat>,
    recentTime: Option<int>,
    lastAppendDate: Option<int>,
    pop3LastLogin: Option<int>,
    pop3ShowAfter: Option<int>,
    uidvalidity: Option<nat>,
    partition: Option<string>,
    acl: Option<string>,
    options: Option<string>,
    syncCrc: Option<nat>,
    syncCrcAnnot: Option<nat>,
    xconvmodseq: Option<nat>,
    annotations: Option<string>,
    records: Option<seq<Record>>)

  datatype SeenDlist = SeenDlist(
    uniqueid: Option<string>,
    lastRead: Option<int>,
    lastUid: Option<nat>,
    lastChange: Option<int>,
    seenUids: Option<string>)

  datatype RenameDlist = RenameDlist(
    oldName: Option<string>,
    newName: Option<string>,
    partition: Option<string>,
    uidvalidity: Option<nat>)

  datatype SieveDlist = SieveDlist(
    filename: Option<string>,
    lastUpdate: Option<int>,
    content: Option<string>)

  datatype Dlist =
    | Message(items: seq<MessageItem>)
    | Mailbox(mbox: MailboxDlist)
    | Unmailbox(mboxname: string)
    | Rename(rename: RenameDlist)
    | Reserve(guids: seq<Guid>)
    | Seen(seen: SeenDlist)
    | Sub(subName: Option<string>)
    | Unsub(unsubName: Option<string>)
    | Sieve(sieve: SieveDlist)
    | Unsieve(unsieveName: Option<string>)
    | Unrecognised(name: string)

  // "<ts> APPLY <dlist>\r\n"
  datatype Line = Line(ts: int, dl: Dlist)

  // A gzip member: the lines it decompresses to, and its compressed bytes.
  datatype Member = Member(lines: seq<Line>, bytes: string)

  // How a line is printed, "<ts> APPLY <dlist>\r\n", is a parameter of the
  // model: nothing below depends on the dlist syntax.
  type Printer = Line -> string

  const HEADER: string := "# cyrus backup: chunk start\r\n"
  const HEADER_LENGTH: nat := 29

  lemma HeaderLength()
    ensures |HEADER| == HEADER_LENGTH
  {
  }

  function LinesText(pr: Printer, lines: seq<Line>): string {
    if lines == [] then "" else LinesText(pr, lines[..|lines| - 1]) + pr(lines[|lines| - 1])
  }

  // The decompressed text of a member that holds the given lines.
  function MemberText(pr: Printer, lines: seq<Line>): string {
    HEADER + LinesText(pr, lines)
  }

  function LinesLength(pr: Printer, lines: seq<Line>): nat {
    if lines == [] then 0 else LinesLength(pr, lines[..|lines| - 1]) + |pr(lines[|lines| - 1])|
  }

  function MemberLength(pr: Printer, lines: seq<Line>): nat {
    HEADER_LENGTH + LinesLength(pr, lines)
  }

  lemma {:induction false} TextLength(pr: Printer, lines: seq<Line>)
    ensures |LinesText(pr, lines)| == LinesLength(pr, lines)
    ensures |MemberText(pr, lines)| == MemberLength(pr, lines)
  {
    HeaderLength();
    if lines != [] {
      TextLength(pr, lines[..|lines| - 1]);
    }
  }

  // The bytes of the data file.
  function FileBytes(members: seq<Member>): string {
    if members == [] then "" else FileBytes(members[..|members| - 1]) + members[|members| - 1].bytes
  }

  // Where line i of a member starts.
  function LineOffset(pr: Printer, lines: seq<Line>, i: nat): nat
    requires i <= |lines|
  {
    MemberLength(pr, lines[..i])
  }

  // No line is printed as nothing.
  ghost predicate PrintsSomething(pr: Printer) {
    forall line :: pr(line) != ""
  }

  lemma {:induction false} LineOffsetsIncrease(pr: Printer, lines: seq<Line>, i: nat, j: nat)
    requires i < j <= |lines| && PrintsSomething(pr)
    ensures LineOffset(pr, lines, i) < LineOffset(pr, lines, j)
    decreases j
  {
    assert lines[..j][..j - 1] == lines[..j - 1];
    assert pr(lines[j - 1]) != "";
    if i < j - 1 {
      LineOffsetsIncrease(pr, lines, i, j - 1);
    }
  }

  // The line that starts at an offset, if one does. The parser skips a header
  // line, so that offset 0 reads the first line.
  function LineAt(pr: Printer, lines: seq<Line>, offset: nat): Option<Line> {
    if lines == [] then None
    else if offset == 0 then Some(lines[0])
    else if MemberLength(pr, lines[..|lines| - 1]) == offset then Some(lines[|lines| - 1])
    else LineAt(pr, lines[..|lines| - 1], offset)
  }

  lemma {:induction false} LineAtFinds(pr: Printer, lines: seq<Line>, i: nat)
    requires i < |lines| && PrintsSomething(pr)
    ensures LineAt(pr, lines, LineOffset(pr, lines, i)) == Some(lines[i])
  {
    var last := |lines| - 1;
    if i < last {
      LineOffsetsIncrease(pr, lines, i, last);
      LineAtFinds(pr, lines[..last], i);
      assert lines[..last][..i] == lines[..i];
    }
  }
}
