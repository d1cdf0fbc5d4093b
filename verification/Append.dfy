// Appending to a backup: the write loop, and the start / append / end
// bookkeeping of mode, offset, length and checksum.

module Append {
  import opened Options
  import opened Log
  import opened Index
  import opened IndexDb

  const INT32_MAX: nat := 0x7fff_ffff

  // A zlib output stream, reduced to the text it has accepted so far.
  class GzFile {
    var text: string

    constructor ()
      ensures text == ""
    {
      text := "";
    }

    // Accepts some of what it is given, or fails.
    method Gzwrite(p: string, n: nat) returns (wrote: int)
      requires n <= |p|
      modifies this
      ensures wrote <= n
      ensures text == if wrote > 0 then old(text) + p[..wrote] else old(text)
    {
      wrote :| wrote <= n;
      if wrote > 0 {
        text := text + p[..wrote];
      }
    }
  }

  // retry_gzwrite: everything is written, or, on a failure, a prefix.
  method RetryGzwrite(gz: GzFile, str: string) returns (ok: bool)
    modifies gz
    ensures ok ==> gz.text == old(gz.text) + str
    ensures !ok ==> exists n :: 0 <= n < |str| && gz.text == old(gz.text) + str[..n]
  {
    var left := |str|;
    while left > 0
      invariant 0 <= left <= |str|
      invariant gz.text == old(gz.text) + str[..|str| - left]
    {
      var p := str[|str| - left..];
      var n := if left < INT32_MAX then left else INT32_MAX;
      var wrote := gz.Gzwrite(p, n);
      if wrote <= 0 {
        return false;
      }
      assert str[..|str| - left] + p[..wrote] == str[..|str| - left + wrote];
      left := left - wrote;
    }
    ok := true;
  }

  datatype ChunkRow = ChunkRow(
    tsStart: int, tsEnd: Option<int>, offset: nat, length: Option<nat>, fileSha1: string, dataSha1: Option<string>)

  // fatal() ends the process.
  datatype Outcome = Return(code: Code) | Fatal

  // What the index must say of a finished chunk, its times aside.
  ghost predicate ChunkDescribes(pr: Printer, sha1: string -> string, row: ChunkRow, members: seq<Member>, k: nat)
    requires k < |members|
  {
    && row.offset == |FileBytes(members[..k])|
    && row.fileSha1 == sha1(FileBytes(members[..k]))
    && row.length == Some(MemberLength(pr, members[k].lines))
    && row.dataSha1 == Some(sha1(MemberText(pr, members[k].lines)))
  }

  // The length of a finished chunk is that of its decompressed text, of which
  // the data checksum is taken.
  lemma LengthIsOfTheText(pr: Printer, sha1: string -> string, row: ChunkRow, members: seq<Member>, k: nat)
    requires k < |members| && ChunkDescribes(pr, sha1, row, members, k)
    ensures var text := MemberText(pr, members[k].lines);
      row.length == Some(|text|) && row.dataSha1 == Some(sha1(text))
  {
    TextLength(pr, members[k].lines);
  }

  lemma EmptyMember(pr: Printer, chunk: nat)
    ensures MemberText(pr, []) == HEADER && MemberLength(pr, []) == |HEADER|
    ensures "" + HEADER == HEADER
    ensures MemberEntries(pr, [], chunk) == []
  {
    HeaderLength();
  }

  class Backup {
    const pr: Printer
    const sha1: string -> string
    const db: Db
    const gz: GzFile

    var file: seq<Member>        // the finished members of the data file
    var chunk: seq<ChunkRow>     // the chunk table; ids count from one
    var active: bool
    var indexOnly: bool
    var chunkId: nat
    var wrote: nat
    var shaText: string          // what the hash context has been fed
    var pending: seq<Line>       // the lines of the open chunk

    ghost var closed: seq<Entry> // what finished chunks have indexed
    ghost var intact: bool       // no write has failed

    ghost function Indexed(): seq<Entry>
      reads this
    {
      if active then closed + MemberEntries(pr, pending, chunkId) else closed
    }

    ghost predicate Valid()
      reads this, db, gz
    {
      && db.Valid()
      && (active ==> chunkId == |chunk| != 0)
      && (intact ==> db.Contents() == IndexEntries(Indexed()))
      && (intact && active ==>
            && wrote == MemberLength(pr, pending)
            && shaText == MemberText(pr, pending)
            && (!indexOnly ==> gz.text == MemberText(pr, pending)))
    }

    // The chunk table of a backup that is only ever appended to.
    ghost predicate ChunksDescribed()
      reads this
    {
      && |chunk| == |file| + (if active then 1 else 0)
      && (forall k :: 0 <= k < |file| ==> ChunkDescribes(pr, sha1, chunk[k], file, k))
      && (active ==> chunk[|file|].offset == |FileBytes(file)| && chunk[|file|].fileSha1 == sha1(FileBytes(file)))
    }

    // A backup that is only ever appended to, as long as no write fails.
    ghost predicate Live()
      reads this, db, gz
    {
      Valid() && !indexOnly && (intact ==> closed == Entries(pr, file) && ChunksDescribed())
    }

    constructor (pr: Printer, sha1: string -> string, file: seq<Member>)
      ensures Valid() && !active && closed == [] && chunk == [] && fresh(db) && fresh(gz) && intact
      ensures this.pr == pr && this.sha1 == sha1 && this.file == file
      ensures file == [] ==> Live()
    {
      this.pr, this.sha1, this.file := pr, sha1, file;
      db := new Db();
      gz := new GzFile();
      chunk, active, indexOnly, chunkId, wrote, shaText, pending := [], false, false, 0, 0, "", [];
      closed, intact := [], true;
    }

    // The second half of backup_real_append_start: the header has been written, and
    // the chunk gets its row.
    method InsertChunk(ts: int, offset: nat, fileSha1: string)
      requires Valid() && !active && pending == []
      requires intact && !indexOnly ==> gz.text == HEADER
      modifies this
      ensures Valid() && active && pending == []
      ensures file == old(file) && closed == old(closed) && indexOnly == old(indexOnly) && intact == old(intact)
      ensures chunk == old(chunk) + [ChunkRow(ts, None, offset, None, fileSha1, None)]
    {
      hide IndexEntries, MemberEntries, MemberText, MemberLength, Db.Valid, Db.Contents;
      EmptyMember(pr, |chunk| + 1);
      shaText := HEADER;
      wrote := |HEADER|;
      chunk := chunk + [ChunkRow(ts, None, offset, None, fileSha1, None)];
      chunkId := |chunk|;
      active := true;
      assert Indexed() == closed;
    }

    // backup_real_append_start
    method RealAppendStart(ts: int, offset: nat, fileSha1: string, indexOnly: bool) returns (r: Outcome)
      requires Valid()
      modifies this, gz
      ensures Valid() && file == old(file) && closed == old(closed)
      ensures r == Fatal <==> old(active)
      ensures r == Fatal ==> unchanged(this)
      ensures r == Return(Ok) ==>
        && active && pending == [] && this.indexOnly == indexOnly && intact == old(intact)
        && chunk == old(chunk) + [ChunkRow(ts, None, offset, None, fileSha1, None)]
      ensures r != Fatal && r != Return(Ok) ==> !active && !intact && !indexOnly
      ensures !old(active) ==> this.indexOnly == indexOnly
    {
      hide IndexEntries, MemberEntries, MemberText, MemberLength, Db.Valid, Db.Contents;
      if active {
        return Fatal;
      }
      this.indexOnly := indexOnly;
      pending := [];
      if !indexOnly {
        gz.text := "";
        var ok := RetryGzwrite(gz, HEADER);
        if !ok {
          intact := false;
          return Return(Internal);
        }
      }
      InsertChunk(ts, offset, fileSha1);
      r := Return(Ok);
    }

    // backup_append_start: at the end of the data file
    method AppendStart(ts: int) returns (r: Outcome)
      requires Live()
      modifies this, gz
      ensures Live() && file == old(file)
      ensures r == Fatal <==> old(active)
      ensures r == Fatal ==> unchanged(this)
      ensures r == Return(Ok) ==> active && pending == [] && intact == old(intact)
      ensures r != Fatal && r != Return(Ok) ==> !active && !intact
    {
      r := RealAppendStart(ts, |FileBytes(file)|, sha1(FileBytes(file)), false);
    }

    // backup_append
    method AppendLine(ts: int, dl: Dlist) returns (r: Outcome)
      requires Valid()
      modifies this, db, gz
      ensures Valid()
      ensures active == old(active) && indexOnly == old(indexOnly) && file == old(file) && chunk == old(chunk)
      ensures closed == old(closed)
      ensures r == Fatal <==> !old(active)
      ensures r == Fatal ==> unchanged(this) && unchanged(db)
      ensures old(active) && indexOnly ==> intact == old(intact)
      ensures intact ==> old(intact)
      ensures old(intact) && r == Return(Ok) ==> intact
      ensures intact && old(active) ==>
        && pending == old(pending) + [Line(ts, dl)]
        && (r == Return(Ok) <==> LineOk(dl))
    {
      hide IndexEntries, MemberEntries, MemberText, MemberLength, IndexLine, LineOk, Db.Valid, Db.Contents;
      if !active {
        return Fatal;
      }
      var line := Line(ts, dl);
      var start := wrote;
      var text := pr(line);
      shaText := shaText + text;
      if !indexOnly {
        var ok := RetryGzwrite(gz, text);
        if !ok {
          intact := false;
          return Return(Internal);
        }
      }
      wrote := wrote + |text|;
      LineAppended(pr, pending, line, chunkId, closed);
      pending := pending + [line];
      var code := db.IndexDlist(Place(chunkId, start, ts), dl);
      r := Return(code);
    }

    // backup_real_append_end; bytes are what zlib makes of the member.
    method RealAppendEnd(ts: int, bytes: string) returns (r: Outcome)
      requires Valid()
      modifies this
      ensures Valid() && indexOnly == old(indexOnly) && intact == old(intact)
      ensures r == Fatal <==> !old(active)
      ensures r == Fatal ==> unchanged(this)
      ensures r != Fatal ==>
        && r == Return(Ok) && !active
        && closed == old(Indexed())
        && file == (if indexOnly then old(file) else old(file) + [Member(old(pending), bytes)])
        && |chunk| == old(|chunk|)
        && var row := old(chunk)[old(chunkId) - 1];
        var ended := ChunkRow(
          row.tsStart, Some(ts), row.offset, Some(old(wrote)), row.fileSha1, Some(sha1(old(shaText))));
        chunk == old(chunk)[old(chunkId) - 1 := ended]
    {
      if !active {
        return Fatal;
      }
      var row := chunk[chunkId - 1];
      chunk := chunk[chunkId - 1 :=
        ChunkRow(row.tsStart, Some(ts), row.offset, Some(wrote), row.fileSha1, Some(sha1(shaText)))];
      if !indexOnly {
        file := file + [Member(pending, bytes)];
      }
      closed := Indexed();
      active := false;
      wrote := 0;
      r := Return(Ok);
    }

    // backup_append_end
    method AppendEnd(ts: int, bytes: string) returns (r: Outcome)
      requires Live()
      modifies this
      ensures Live() && intact == old(intact)
      ensures r == Fatal <==> !old(active)
      ensures r == Fatal ==> unchanged(this)
      ensures r != Fatal ==> r == Return(Ok) && !active && file == old(file) + [Member(old(pending), bytes)]
    {
      ghost var before, wasPending := file, pending;
      r := RealAppendEnd(ts, bytes);
      if r != Fatal && intact {
        MemberAppended(pr, before, Member(wasPending, bytes));
        forall k | 0 <= k < |file|
          ensures ChunkDescribes(pr, sha1, chunk[k], file, k)
        {
          DescribesGrown(pr, sha1, chunk[k], before, Member(wasPending, bytes), k);
        }
      }
    }
  }

  lemma DescribesGrown(pr: Printer, sha1: string -> string, row: ChunkRow, members: seq<Member>, m: Member, k: nat)
    requires k <= |members|
    requires k < |members| ==> ChunkDescribes(pr, sha1, row, members, k)
    requires k == |members| ==>
      && row.offset == |FileBytes(members)| && row.fileSha1 == sha1(FileBytes(members))
      && row.length == Some(MemberLength(pr, m.lines)) && row.dataSha1 == Some(sha1(MemberText(pr, m.lines)))
    ensures ChunkDescribes(pr, sha1, row, members + [m], k)
  {
    assert (members + [m])[..k] == members[..k];
    assert members[..|members|] == members;
  }

  lemma LineAppended(pr: Printer, lines: seq<Line>, line: Line, chunk: nat, closed: seq<Entry>)
    ensures MemberLength(pr, lines + [line]) == MemberLength(pr, lines) + |pr(line)|
    ensures MemberText(pr, lines + [line]) == MemberText(pr, lines) + pr(line)
    ensures MemberEntries(pr, lines + [line], chunk)
         == MemberEntries(pr, lines, chunk) + [Entry(chunk, MemberLength(pr, lines), line)]
    ensures IndexEntries(closed + MemberEntries(pr, lines + [line], chunk))
         == IndexLine(IndexEntries(closed + MemberEntries(pr, lines, chunk)),
                      Place(chunk, MemberLength(pr, lines), line.ts), line.dl)
  {
    var more := lines + [line];
    assert more[..|lines|] == lines;
    forall i | 0 <= i < |lines|
      ensures LineOffset(pr, more, i) == LineOffset(pr, lines, i)
    {
      assert more[..i] == lines[..i];
    }
    var es := closed + MemberEntries(pr, more, chunk);
    assert MemberEntries(pr, more, chunk) ==
      MemberEntries(pr, lines, chunk) + [Entry(chunk, MemberLength(pr, lines), line)];
    assert es[..|es| - 1] == closed + MemberEntries(pr, lines, chunk);
  }

  lemma MemberAppended(pr: Printer, members: seq<Member>, m: Member)
    ensures Entries(pr, members + [m]) == Entries(pr, members) + MemberEntries(pr, m.lines, |members| + 1)
  {
    assert (members + [m])[..|members|] == members;
  }
}
