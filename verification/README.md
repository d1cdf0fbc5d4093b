# Verification of the replication backup and the annotation store

A Dafny model of two parts of the Cyrus IMAP server, with proofs of what they
keep. `dafny verify dfyconfig.toml` checks everything.

**The backup store** (`backup/`). A backup is an append-only data file and an
index. The data file is a sequence of gzip members (section 2.2 of RFC 1952);
each holds a header line and time-stamped APPLY lines. The index is a set of
tables that append builds as it goes. The model has the tables twice: as maps
(`Index`), where a line is a function from tables to tables, and as rows with
ids, changed by UPDATE and INSERT (`IndexDb`), which refine the maps. On top of
that are the operations that have to agree with one another:

- *append* (`Append`): starting, appending to and ending a chunk, with its
  mode, offset, length and checksums, and the loop that writes;
- *reindex* (`Reindex`, `Relabel`): the replay of a data file;
- *verify* (`Verify`, `Checklist`, `VerifyComplete`): the two checks of a chunk
  against the index, sound and complete;
- *compact* (`Pruning`, `Boundaries`, `ChunkSizes`, `Pieces`, `Compact`, and what it
  preserves in `Conservation`, `Mailboxes`, `Metadata`, `UserState`, `Contents`,
  `Compacted`; whether to start at all in `Required`);
- *RESERVE and MESSAGE* (`Reserve`, `Backupd`): which messages a server still
  has to be sent, and which backups those it is sent go to;
- *giving back* (`Dlists`): turning rows of the index into the dlists they came
  from;
- *restore* (`RestorePlan`, `Restore`, `RestoreLists`, `Restoration`): the list
  of mailboxes to restore, spliced together from linked lists.

`Agreement` states what the index says of the log after every run, and
`Pitfalls` has the logs on which stronger claims fail.

**The annotation store** (`imap/annotate.c`): keys and values (`AnnotKeys`,
`AnnotValues`), the prefix search (`FindAll`), writing and the storage charged
for it (`AnnotRows`, `AnnotStore`), copying and deleting (`AnnotRename`,
`AnnotCopied`), and the list of open databases (`OpenDbs`, `DbList`).

How a line is printed, the hashes, the compressed bytes of a member and the time
are parameters. The functions that specify a run are executed by methods with
the loops, fields and lists of the original; each method's contract says which
function it computes, and the lemmas are about those functions.

## What the code does not do

Some claims that one would like to make are false of the code. The exact
condition, or a condition with a counterexample beside it, is proved instead.

- Reindexing gives no chunk row to a member without lines, so that chunk ids
  shift (`Reindex.ReindexLive`). It stops with a fatal error exactly if a member
  starts before the one in front of it, or a line is older than the first of its
  member.
- A link is in the compacted backup exactly if a MESSAGE line in the message's
  last chunk comes before a copied RECORD for the link
  (`Conservation.CompactionKeepsLiveLinks`); storing a message a second time
  breaks that (`Pitfalls.StoringAgainLosesTheLink`). Its values are those of the
  last copied RECORD, which are the original ones if that line was indexed when
  it was appended.
- A line that failed can be indexed when it is copied, because its bad record is
  pruned. It can then change a link or a mailbox
  (`Pitfalls.MendedLineChangesALink`, `Pitfalls.FailedLineIsMended`).
- A link is expunged in the copy exactly if a copied RECORD has the flag
  (`Conservation.CompactionKeepsExpunge`), so that an expunged link can come back
  (`Pitfalls.ExpungedLinkComesBack`).
- UNMAILBOX and RENAME do not keep the chunk they are in. A mailbox not renamed
  since the last MAILBOX line from which it is copied is deleted in the copy exactly
  if an UNMAILBOX since that line is in a copied chunk, and one renamed once has its
  new name exactly if the RENAME is (`Mailboxes.DeletionSurvives`,
  `Mailboxes.RenameSurvives`). Otherwise a deleted mailbox comes back, and a renamed
  one gets its old name back (`Pitfalls.DeletedMailboxComesBack`,
  `Pitfalls.RenameIsForgotten`). A deleted mailbox whose own last chunk is dropped
  comes back too, if an older MAILBOX line for it is copied
  (`Pitfalls.DroppedMailboxComesBack`).
- UNSUB keeps its chunk until it is old enough, and UNSIEVE keeps none. A name is
  subscribed in the copy exactly if the last copied SUB or UNSUB of it is a SUB,
  and a file name has an undeleted script exactly if the last copied line about it
  is a complete SIEVE (`UserState.SubscriptionAfterCompaction`,
  `UserState.ScriptAfterCompaction`). So an ended subscription or a deleted script
  can come back (`Pitfalls.EndedSubscriptionComesBack`,
  `Pitfalls.DeletedScriptComesBack`).
- A split compares what it has written with the length of the whole chunk. Where
  lines are copied whole, what it really leaves is less by what the splits before
  it have taken, and is more than the minimum exactly if there is that much to
  spare (`ChunkSizes.SplitLeaves`). So the first split leaves enough
  (`ChunkSizes.FirstSplitLeavesEnough`), and a later one can leave too little
  (`Pitfalls.LaterSplitLeavesTooLittle`). A chunk joined to the one before is
  never split (`ChunkSizes.JoinedChunksAreNotSplit`).
- The null GUID is never kept, reserved or reported: the GUID lists refuse it.
- An expunge at time zero is stored as no expunge at all
  (`Index.BoundExpunge`).
- `write_entry` charges a mailbox for a value under a NULL userid that it does
  not store, and stores a value of an expunged message that it does not charge
  for. And a charge that is less than the old value is clipped to zero, so that
  it goes down by less (`AnnotStore.ClippingDrifts`). Those are the only ways in
  which charge and contents drift apart (`AnnotStore.SurplusKept`).
- Renaming a user merges two private annotations if the old and the new user
  both have one under the same name (`AnnotCopied.CopyConserves`), in a run in
  which every write succeeds (`AnnotCopied.UsersClash`).
- Two mailboxes that are restored under one name become one, on the partition of
  the first. The messages of the second are reserved on the second's partition
  (`RestorePlan.ReservedElsewhere`), so that a message is reserved where it will be
  wanted only if the partitions agree (`RestorePlan.PlanIsReservedThere`).
- A link given back as a dlist and indexed again has its flags exactly if none of
  them is a second `\Expunged` (`Dlists.RecordComesBack`).
- Restoring a message to a mailbox of the user's choice, or a mailbox without a
  list of records, while selecting or excluding expunged messages looks for
  records in a list that is not there (`Restoration.Restorer.AddMessage`,
  `Restoration.Restorer.AddMailbox`).

Time stamps read from a data file are never negative (backup/lcb_internal.c:72
and imap/imapparse.c:340 accept digits only), hence never the -1 that stands for
"no chunk started" in compaction.

## Model

| member | source | states |
|---|---|---|
| Index.LastExpunged | backup/lcb_indexw.c:160-182 | finds the last `\Expunged` flag, and none exactly if there is none |
| IndexDb.GetMagicFlags | backup/lcb_indexw.c:160-182 | the loop over the flags reports `\Expunged` if and only if it is there, and takes out the last occurrence and nothing else |
| IndexDb.BindRecord | backup/lcb_indexw.c:345-390 | the values bound are those of the record, one `\Expunged` flag aside; an earlier expunge time wins, and a zero time binds no expunge |
| Effects.StripLeavesTheRest | backup/lcb_indexw.c:160-182 | putting one `\Expunged` back in front of a rest without it gives the flags again, and without the flag nothing is taken out |
| Effects.LastItemCounts | backup/lcb_indexw.c:446-491 | after a MESSAGE line the row of a message has partition and size of the last of its items for it, at the place of the line |
| Effects.LineSaysWhat | backup/lcb_indexw.c:312-404 | after a MAILBOX line the link of a stored message has uid, modseq, times, annotations and flags, one `\Expunged` aside, of the last of its records for the message |
| Effects.LineExpungesWhenFlagged | backup/lcb_indexw.c:345-390 | it keeps an expunge time it has, and gets the time of the line, unless that is zero, exactly if one of those records has the flag |
| KeyedTable.Upsert | backup/lcb_sqlconsts.c:442-463 | UPDATE, and INSERT if that changed nothing, keeps keys unique and sets exactly one key |
| KeyedTable.MapHolds | backup/lcb_sqlconsts.c:472-477 | selecting by a unique key finds the row that the map has, and an UPDATE of it changes one row or none |
| IndexDb.NamedUpsert | backup/lcb_sqlconsts.c:362-406 | storing a link under (mailbox id, message id) stores it under (uniqueid, GUID) and moves no other row |
| IndexDb.Db.IndexMessage | backup/lcb_indexw.c:446-491 | the rows after a MESSAGE line are what the line means on the maps |
| IndexDb.Db.IndexRecord | backup/lcb_indexw.c:312-404 | one RECORD changes the link table as stated on the maps, ids and names agreeing |
| IndexDb.Db.IndexMailbox | backup/lcb_indexw.c:184-421 | a MAILBOX line succeeds exactly if it and all its records are complete; then it has its full effect, and otherwise the tables are as they were |
| IndexDb.Db.IndexUnmailbox | backup/lcb_indexw.c:423-444 | marks every mailbox of the name as deleted and nothing else |
| IndexDb.Db.IndexRename | backup/lcb_indexw.c:493-537 | renames every mailbox of the old name; fails and changes nothing if a field is missing |
| IndexDb.Db.IndexSeen | backup/lcb_indexw.c:539-590 | one seen row per uniqueid is replaced or added |
| IndexDb.Db.IndexSub | backup/lcb_indexw.c:592-636 | one subscription row per name, with or without an end time |
| IndexDb.Db.IndexSieve | backup/lcb_indexw.c:638-708 | the old script is marked as deleted, even when the rest of the line then fails |
| IndexDb.Db.IndexDlist | backup/lcb_indexw.c:74-109 | every line, whatever its name, has the effect and the result code stated on the maps |
| Agreement.RunKeepsInvariants | backup/lcb_indexw.c:184-491 | after any run every link names an existing mailbox and message, and a file name has at most one undeleted script |
| Agreement.ExpungeSticks | backup/lcb_sqlconsts.c:362-378 | an expunge time, once set, is the same after whatever is appended later |
| Agreement.FlaggedRecordExpunges | backup/lcb_indexw.c:345-390 | a record with the flag, of a message stored before, leaves the link expunged for good |
| Effects.RecordsExpunge | backup/lcb_sqlconsts.c:371-376 | of a list of records the first expunge time counts, unless the row has one |
| Agreement.MessageRowsAddressTheirLine | backup/lcb_append.c:186-241 | chunk and offset of a message row are those of a MESSAGE line that stores it with that partition and size |
| Agreement.LinkRowsHaveTheirRecord | backup/lcb_indexw.c:312-404 | the chunk of a link row holds a MAILBOX line with a record that states the row |
| Append.RetryGzwrite | backup/lcb_append.c:60-91 | success means that everything was written, failure that a proper prefix was |
| Append.Backup.RealAppendStart | backup/lcb_append.c:93-163 | fatal exactly if an append is open; otherwise a chunk row with offset and file checksum, and an empty chunk |
| Append.Backup.AppendLine | backup/lcb_append.c:178-246 | fatal exactly if no append is open; otherwise the line is written, hashed, counted and indexed at the offset it starts at |
| Append.Backup.RealAppendEnd | backup/lcb_append.c:248-295 | the chunk row gets its end, length and data checksum; the member joins the file |
| Append.Backup.AppendEnd | backup/lcb_append.c:297-301 | a backup whose index and chunk table describe its file does so with the new member as well |
| Append.LengthIsOfTheText | backup/lcb_append.c:261-281 | the recorded length of a chunk is that of its decompressed text, of which the data checksum is taken |
| Relabel.Replay | backup/lcb_indexw.c:74-109 | replaying a log under other chunk ids and offsets gives the same tables under those labels |
| Reindex.RenumberingKeepsOrder | backup/lcb.c:626-635 | skipping members without lines keeps the order of chunk ids |
| Reindex.ReplayIsRenumbered | backup/lcb.c:590-664 | the entries a reindex makes build the appended tables, renumbered |
| Reindex.ReplayLine | backup/lcb.c:626-652 | one line: the first opens a chunk, and it is fatal exactly if the time goes back |
| Reindex.BackupReindex | backup/lcb.c:565-674 | fatal exactly if time stamps are out of order; otherwise tables and chunk rows are those of the log, renumbered |
| Reindex.ReindexLive | backup/lcb.c:565-674 | reindexing a backup in use gives the index its appends have built, renumbered, with the same offsets, lengths and checksums; never fatal if the clock never went back |
| Reindex.SteadyClockIsInOrder | backup/lcb.c:626-637 | a clock that never goes back meets what reindex asks of the time stamps |
| Verify.StrikeMailbox | backup/lcb_verify.c:563-571 | a MAILBOX line strikes the row of its uniqueid exactly if it matches |
| Verify.StrikeLink | backup/lcb_verify.c:577-597 | a RECORD strikes the row of its uid exactly if it matches |
| Verify.StrikeAll | backup/lcb_verify.c:533-605 | after the whole chunk exactly the rows that some line accounts for are struck |
| Verify.VerifyChunkMailboxLinks | backup/lcb_verify.c:451-651 | passes if and only if keys are distinct and every row is one that a MAILBOX line or RECORD of the chunk would set, as far as the comparison goes |
| Verify.MailboxFoundIsStated | backup/lcb_verify.c:341-412 | a MAILBOX line matches a row exactly if indexing the line would set the row, but for type, POP3 times, annotations and deletion |
| Verify.LinkFoundIsStated | backup/lcb_verify.c:414-446 | a RECORD matches a row exactly if indexing it would set the row, but for flags, annotations and expunge time, and it states GUID and size |
| Verify.AccountedForIsStated | backup/lcb_verify.c:451-651 | so a chunk passes exactly if its lines would set every row of it, and keys are distinct |
| Verify.CheckItems | backup/lcb_verify.c:257-299 | true exactly if the line is a MESSAGE line whose first item with the GUID is there and, if asked, hashes to it |
| Verify.VerifyChunkMessages | backup/lcb_verify.c:210-339 | passes if and only if at every row's offset a MESSAGE line starts that holds the message, with contents that hash to its GUID if asked |
| Verify.VerifiedIsStated | backup/lcb_verify.c:210-300 | a message passes exactly if a MESSAGE line starts at its offset, or is the first for offset zero, whose first item with the GUID hashes to it if asked |
| Checklist.IndexAdded | backup/lcb_verify.c:496-518 | adding a row keeps list and hash together; of equal keys the hash knows the last |
| VerifyComplete.AppendedMessagesVerify | backup/lcb_verify.c:210-300 | every message that was appended passes the message check of its chunk, GUID check included |
| VerifyComplete.AppendedLinksVerify | backup/lcb_verify.c:414-446 | every link that was appended is found in its chunk if the records state the size of the message |
| VerifyComplete.AppendedMailboxesVerify | backup/lcb_verify.c:341-412 | every mailbox not renamed since its last MAILBOX line is found in its chunk |
| VerifyComplete.AppendedChunksVerify | backup/lcb_verify.c:451-651 | all that the link check asks of an appended chunk holds, distinct keys included, if no mailbox was renamed since, record sizes are right and uids are distinct |
| LinkedList.List.Add | backup/lcb_indexr.c:104-119 | head, tail, count and links describe the list with the node at the end |
| LinkedList.List.Remove | backup/lcb_indexr.c:121-156 | unlinks the node if it is there and leaves the rest in order |
| Compact.WantAppendMessage | backup/lcb_compact.c:287-317 | the in-place loop leaves the wanted items in order, and wants the line if any are left |
| Compact.PruneRecordList | backup/lcb_compact.c:333-375 | the same for the records of a MAILBOX line |
| Pruning.ItemsKept | backup/lcb_compact.c:287-317 | of the items exactly the files go whose GUID is not wanted |
| Pruning.RecordsKept | backup/lcb_compact.c:333-375 | of the records exactly those go whose message is not linked into the mailbox, or was last in another chunk |
| Compact.WantAppendMailbox | backup/lcb_compact.c:319-397 | which MAILBOX lines are wanted, and what is left of them |
| Compact.CompactLine | backup/lcb_compact.c:541-567 | the start time is -1 exactly when no append is open, before and after; the fatal errors do not happen |
| Compact.CompactChunk | backup/lcb_compact.c:505-588 | a chunk is copied, split and joined as the run function says |
| Required.CompactRequired | backup/lcb_compact.c:248-285 | in spite of its early exits, asks whether discarded chunks and, between sensible boundaries, joins and splits reach the threshold |
| Required.NoWork | backup/lcb_compact.c:268-282 | there is nothing to count exactly if no chunk is to be split or joined to the next |
| Required.WorkCounts | backup/lcb_compact.c:268-282 | the count is the number of chunks to be joined to the next and the number of those to be split |
| Required.NoWorkChangesNothing | backup/lcb_compact.c:248-285 | if there is nothing to count and nothing is pruned, a compaction would write the chunks as they are |
| Compact.BackupCompact | backup/lcb_compact.c:442-614 | never fatal; unless a write fails, it succeeds exactly if every kept line can be indexed, and then the new file is the run's output and the new index is that of the new file |
| Boundaries.BoundariesKeepContent | backup/lcb_compact.c:505-594 | for all sizes, the output chunks' lines one after another are the kept lines in order, and no append is left open |
| Boundaries.LiveIdsKeepAll | backup/lcb_sqlconsts.c:213-243 | copying only the live chunks keeps every line that is kept at all |
| Pieces.CopiedChunks | backup/lcb_sqlconsts.c:213-243 | the chunks copied are those that are named by a seen row, or by a mailbox, link, subscription, script or linked message that was not gone by the retention time |
| Pieces.DroppedChunks | backup/lcb_compact.c:488-500 | a chunk of which all that was gone contributes no line |
| Pieces.LiveChunksHaveLines | backup/lcb_sqlconsts.c:213-243 | a chunk that is copied has lines |
| Pieces.JoinsAreMade | backup/lcb_compact.c:193-213 | of two chunks written one after the other, the second goes on where the first was split, or begins with a chunk such that both have the minimum or are too long together |
| Pieces.JoinsAreCalledFor | backup/lcb_compact.c:193-213 | a piece is left open for the next chunk only if one of them is below the minimum and they do not exceed the maximum together |
| Pieces.NoMaximumFills | backup/lcb_compact.c:193-213 | without a maximum, every chunk written but the last has the minimum length |
| Pieces.PiecesAreBounded | backup/lcb_compact.c:215-246 | with one, no chunk written is longer than maximum, minimum and longest line together |
| ChunkSizes.JoinedChunksStayWithinMaximum | backup/lcb_compact.c:193-213 | with a maximum, an output chunk fed by two or more input chunks is no longer than the maximum |
| ChunkSizes.SplitSubtractionNeverWraps | backup/lcb_compact.c:218-246 | wherever a run subtracts what is written from the chunk's length, it is no more than that length |
| ChunkSizes.EndChunkWithin | backup/lcb_compact.c:193-213 | the addition does not wrap, and a chunk left open has room for all of the next |
| ChunkSizes.SplitLeaves | backup/lcb_compact.c:215-246 | after any split that ends lines copied whole since the one before it: what is written is at least the maximum, and what is left is more than the minimum exactly if the whole length less what is written exceeds it by what earlier splits took |
| ChunkSizes.JoinedChunksAreNotSplit | backup/lcb_compact.c:193-246 | a chunk that begins in a piece left open for it is not split, so that every split is of a chunk that began with none |
| ChunkSizes.FirstSplitLeavesEnough | backup/lcb_compact.c:215-246 | in particular the first split leaves more than the minimum of the chunk |
| Conservation.CompactionKeepsExactlyTheLiveMessages | backup/lcb_sqlconsts.c:486-494 | a message is in the copy exactly if a link to it is unexpunged or expunged after the retention time, with its partition and size |
| Conservation.CompactionKeepsLiveLinks | backup/lcb_compact.c:319-397 | a link is in the copy exactly if its message is stored before a copied record for it; then it is as the last of those states it, and as it was if that one was indexed |
| Conservation.CompactionKeepsExpunge | backup/lcb_sqlconsts.c:362-378 | a link of the copy is expunged exactly if a copied record has the flag, at the time of the first; never newly, if the copied lines were indexed |
| Conservation.MessagesStoredInOneChunkKeepTheirLinks | backup/lcb_compact.c:319-397 | every live link of a message stored in one chunk only is in the copy, with the message, and has its values if its last copied line was indexed |
| Conservation.CompactionInventsNoLink | backup/lcb_compact.c:319-397 | the copy has no link that the original does not have |
| Contents.ReadsWhatWasStored | backup/lcb_read.c:96-155 | the items with the GUID in the line at a message's chunk and offset, of which the first is handed over, have the contents stored last |
| Contents.CompactedMessagesReadTheSame | backup/lcb_compact.c:287-317 | every message of the compacted backup reads as it did from the original |
| Dlists.ToDlist | backup/lcb_indexr.c:578-665 | the loop over the records makes the dlist of a mailbox |
| Dlists.LineComesBack | backup/lcb_indexr.c:578-612 | a MAILBOX line that was indexed comes back field by field, fields left out as zero |
| Dlists.RecordComesBack | backup/lcb_indexr.c:616-659 | indexing the record made of a link sets the same row, exactly if its flags hold no `\Expunged` that the expunge time does not stand for |
| Dlists.MailboxComesBack | backup/lcb_indexr.c:578-665 | indexing the dlist made of a mailbox, elsewhere, sets the same mailbox and links, undeleted, and expunged at the time of the line |
| Dlists.SeenComesBack | backup/backupd.c:1294-1313 | seen state comes back as it was, both ways |
| Metadata.CompactionKeepsUserData | backup/lcb_sqlconsts.c:231-238 | every seen row and every subscription that is current, or ended after the retention time, is kept as it is |
| Metadata.CompactionKeepsActiveScripts | backup/lcb_sqlconsts.c:240-243 | every undeleted script is kept, undeleted |
| UserState.SubscriptionAfterCompaction | backup/lcb_compact.c:399-414 | a name has a subscription in the copy exactly if a SUB or UNSUB of it is copied, and its end time is that of the last one copied; in the original the same of all lines |
| UserState.ScriptAfterCompaction | backup/lcb_compact.c:399-414 | the undeleted script of a file name in the copy is that of the last copied SIEVE or UNSIEVE about it, if that is a complete SIEVE, and else there is none; in the original the same of all lines |
| Mailboxes.MailboxPresence | backup/lcb_compact.c:377-397 | a mailbox is in the copy exactly if a line that sets it is copied |
| Mailboxes.LiveMailboxesAreCopied | backup/lcb_sqlconsts.c:213-222 | a mailbox whose last chunk is copied is in the copy, deleted or not |
| Mailboxes.MailboxIsCopiedWhen | backup/lcb_compact.c:319-397 | an indexed MAILBOX line of a live chunk is copied exactly if the mailbox is unknown or was last set in that chunk, or one of its records is for a link that was |
| Mailboxes.RowSince | backup/lcb_sqlconsts.c:285-297 | a mailbox is what all lines since the last MAILBOX line that set it have made of that |
| Mailboxes.MailboxAfterCompaction | backup/lcb_sqlconsts.c:285-297 | in the copy it is what the lines of copied chunks have made of the last MAILBOX line from which it is copied, whether or not that was indexed and its last chunk is copied |
| Mailboxes.CopiedFromTheLast | backup/lcb_compact.c:385-397 | if its last chunk is copied and the MAILBOX line it is copied from was indexed, that line is the last that set it |
| Mailboxes.DeletedInTheLog | backup/lcb_sqlconsts.c:293-297 | a mailbox not renamed since its last MAILBOX line is as that says, and deleted exactly if an UNMAILBOX came since, at the time of the last |
| Mailboxes.DeletionSurvives | backup/lcb_sqlconsts.c:293-297 | one not renamed since the last MAILBOX line it is copied from is in the copy as that says, and deleted exactly if an UNMAILBOX since is in a copied chunk, at the time of the last such |
| Mailboxes.RenamedInTheLog | backup/lcb_sqlconsts.c:285-291 | a mailbox renamed once since its last MAILBOX line has the new name, partition and uidvalidity, and is else as that says |
| Mailboxes.RenameSurvives | backup/lcb_sqlconsts.c:285-291 | one renamed once since the last MAILBOX line it is copied from has the new name, partition and uidvalidity in the copy exactly if the RENAME is in a copied chunk, and else the old ones |
| Mailboxes.CompactionKeepsMailboxes | backup/lcb_compact.c:385-397 | a mailbox is kept with all its values if every line that has changed it since its MAILBOX line is in a copied chunk |
| Mailboxes.MailboxesLastSetByTheirLineSurvive | backup/lcb_compact.c:385-397 | in particular if no line has changed it since |
| Compacted.IndexIsContent | backup/lcb_indexw.c:74-109 | chunk ids and offsets aside, an index depends only on the lines of the log |
| Compacted.CompactedMessages | backup/lcb_compact.c:442-614 | the index of the compacted file has exactly the live messages |
| Compacted.CompactedLinks | backup/lcb_compact.c:442-614 | and the links, with values and expunge times, exactly as above |
| Compacted.CompactedUserData | backup/lcb_compact.c:399-414 | and the seen rows and subscriptions |
| Compacted.CompactedScripts | backup/lcb_compact.c:399-414 | and the undeleted scripts |
| Compacted.CompactedSubscriptions | backup/lcb_compact.c:399-414 | and the subscriptions, current and ended, exactly as the copied lines say |
| Compacted.CompactedActiveScript | backup/lcb_compact.c:399-414 | and of each file name the undeleted script that the last copied line about it leaves |
| Compacted.CompactedMailboxes | backup/lcb_compact.c:385-397 | and the mailboxes, each as the lines of copied chunks since the last MAILBOX line it is copied from have left it |
| Pitfalls.StoringAgainLosesTheLink | backup/lcb_indexw.c:336-343 | a log in which a message stored twice loses an unexpunged link |
| Pitfalls.DeletedMailboxComesBack | backup/lcb_sqlconsts.c:293-297 | a log in which a deleted mailbox is undeleted after compaction |
| Pitfalls.RenameIsForgotten | backup/lcb_sqlconsts.c:285-291 | a log in which a renamed mailbox has its old name after compaction |
| Pitfalls.DroppedMailboxComesBack | backup/lcb_sqlconsts.c:219-222 | a log in which a deleted mailbox whose last chunk is dropped is undeleted after compaction, from an older chunk |
| Pitfalls.EndedSubscriptionComesBack | backup/lcb_sqlconsts.c:231-234 | a log in which an ended subscription is current after compaction |
| Pitfalls.DeletedScriptComesBack | backup/lcb_sqlconsts.c:239-242 | a log in which a deleted script is undeleted after compaction |
| Pitfalls.FailedLineIsMended | backup/lcb_compact.c:340-397 | a log in which a failed MAILBOX line renames a mailbox after compaction |
| Pitfalls.MendedLineChangesALink | backup/lcb_compact.c:340-375 | a log in which a failed MAILBOX line changes the modseq of an unexpunged link after compaction |
| Pitfalls.ExpungedLinkComesBack | backup/lcb_sqlconsts.c:371-376 | a log in which an expunged link is unexpunged after compaction |
| Pitfalls.LaterSplitLeavesTooLittle | backup/lcb_compact.c:233-243 | a file of which, with sizes of 1 and 2 KiB, a second split leaves a piece below the minimum |
| Reserve.RunIsDisjoint | backup/backupd.c:940-1030 | after any interleaving of RESERVE, MESSAGE and other lines no backup has a GUID both stored and reserved |
| Reserve.ReservedIsNeverForgotten | backup/backupd.c:994-1079 | a GUID named in a RESERVE that covers a backup is from then on stored or reserved there |
| Reserve.ReserveIsFulfilled | backup/backupd.c:940-1079 | once all that was reported MISSING has been sent, every covered backup holds every GUID named |
| Reserve.MessageGoesTo | backup/backupd.c:940-985 | a MESSAGE goes to the backups that had reserved one of its GUIDs and to no other, or to all open ones if none had |
| Reserve.SentIsStoredSomewhere | backup/backupd.c:964-985 | every GUID sent while a backup is open is in some backup from then on |
| Reserve.UnreservedIsStoredEverywhere | backup/backupd.c:970-982 | every GUID of a MESSAGE that nobody had reserved is in every open backup from then on |
| Reserve.MissingIsReserved | backup/backupd.c:994-1100 | reported MISSING are exactly the GUIDs named that some backup covered has reserved afterwards |
| Reserve.StoredComesFrom | backup/backupd.c:487-520 | an open backup holds what it held before, and of all else only what was sent |
| Backupd.Daemon.ApplyMessage | backup/backupd.c:892-992 | the open backups make the MESSAGE step; refused exactly if an item does not hash to its GUID, none is left, or no backup is open |
| Backupd.Daemon.ApplyOther | backup/backupd.c:858-890 | any other line opens the backup it is for and stores and reserves nothing |
| Backupd.Daemon.SendToReservers | backup/backupd.c:935-965 | the line goes to exactly the backups that had reserved one of its messages |
| Backupd.Daemon.ReserveOne | backup/backupd.c:994-1030 | what the backup lacks is reserved and added to the missing GUIDs |
| Backupd.Daemon.ApplyReserve | backup/backupd.c:1032-1100 | the open backups make the RESERVE step, and MISSING is reported exactly |
| RestorePlan.PlanConserves | backup/restore.c:520-557 | after any additions names are distinct, they are those added, and each has all the records added under it, in order |
| RestorePlan.PlanKeepsRecords | backup/restore.c:520-557 | the records of the plan are, as a multiset, all those added |
| RestorePlan.KeptAre | backup/restore.c:656-695 | filtering by expunged state keeps exactly the records asked for, as often as they occur |
| RestorePlan.PlanIsReserved | backup/restore.c:698-790 | the message of every planned record, the null GUID aside, is reserved on the partition of a mailbox of that name that was added with it |
| RestorePlan.AddedIsReserved | backup/restore.c:698-790 | the message of every record added, the null GUID aside, is reserved on the partition of the mailbox added |
| RestorePlan.ReservedExactly | backup/restore.c:698-790 | a message is reserved on a partition exactly if some request added it to a mailbox there |
| RestorePlan.PlanHasTheFirst | backup/restore.c:520-557 | records aside, a mailbox of the plan is as the first added under its name |
| RestorePlan.PlanIsReservedThere | backup/restore.c:698-790 | if all mailboxes added under one name are on one partition, the messages planned for it are reserved there |
| RestorePlan.ReservedElsewhere | backup/restore.c:520-557 | two mailboxes of one name on two partitions, after which a message is planned for one and reserved on the other |
| RestorePlan.NothingAsked | backup/restore.c:585-696 | options that ask for nothing change nothing |
| RestorePlan.MessageToChosenMailbox | backup/restore.c:733-770 | a message restored to a mailbox of the user's choice is planned there once, on the partition asked for or else on its own |
| RestorePlan.OptionsWin | backup/restore.c:585-654 | overrides win, an empty ACL removes the ACL, and without keep-uidvalidity nothing of the identity is left |
| RestorePlan.OneMoreRequest | backup/restore.c:698-790 | plan and reserve lists of a sequence of requests grow by one request at a time |
| LinkedList.List.Splice | backup/restore.c:531-546 | takes over all nodes of the other list; both lists stay well formed |
| Restore.FilterList | backup/restore.c:656-695 | removing nodes while walking the list leaves the records that are kept, in order |
| Restore.Mailbox.ApplyOptions | backup/restore.c:585-696 | the mailbox has the overridden fields and filtered records; fails exactly if it would filter a missing list |
| Restore.Mailbox.TakeRecords | backup/restore.c:530-547 | all records of the other mailbox follow the own ones, whichever lists are missing or empty |
| RestoreLists.MailboxList.AddMailbox | backup/restore.c:520-557 | the list of mailboxes becomes the plan with the mailbox added, and no record list is shared |
| RestoreLists.SeparateAfterMerge | backup/restore.c:530-547 | splicing leaves no list or node of records in two mailboxes |
| Restoration.Restorer.AddMailbox | backup/restore.c:698-731 | plan and reserve lists go on being those of all the requests so far; does not return exactly if it filters a mailbox without records |
| Restoration.Restorer.AddMessage | backup/restore.c:733-790 | the same for a message; does not return exactly if it filters the mailbox made for it |
| AnnotKeys.GlobalKeyRoundTrip | imap/annotate.c:881-957 | splitting a key of the global database gives the fields it was made of; a NULL userid is not an empty one |
| AnnotKeys.MessageKeyRoundTrip | imap/annotate.c:881-957 | the same in the database of a mailbox, with the uid in decimal |
| AnnotKeys.GlobalKeysAreInjective | imap/annotate.c:881-909 | two keys of the global database are equal only if all their fields are |
| AnnotKeys.KeysAreInjective | imap/annotate.c:881-909 | two keys of the database of a mailbox likewise |
| AnnotKeys.WriteKey | imap/annotate.c:881-909 | the buffer holds the key up to the length returned |
| AnnotKeys.ReadKey | imap/annotate.c:911-957 | the pointer loops compute the split of a key |
| AnnotValues.EntryRoundTrip | imap/annotate.c:979-1034 | value, modseq and flags read back as written, for values with any bytes; deleted entries read as empty |
| AnnotValues.BigEndianRoundTrip | imap/annotate.c:2814-2852 | numbers in network order read back as they were |
| FindAll.SelectedKeysHavePrefix | imap/annotate.c:1160-1177 | a key that the patterns select starts with the fixed prefix |
| FindAll.FindAll | imap/annotate.c:1047-1185 | visiting only the keys with the prefix reports exactly the selected records, tombstones and older ones aside as asked |
| FindAll.FullScanIs | imap/annotate.c:1075-1132 | a search reports the selected records, in order, without tombstones unless asked for and newer than the modseq unless that is zero |
| FindAll.SinceReportsTheNewer | imap/annotate.c:1111-1118 | since a modseq it reports what it does since zero and is newer |
| FindAll.OthersAreNoTombstones | imap/annotate.c:1120-1128 | without tombstones it reports what it does with them and is neither flagged nor empty |
| FindAll.StarMatches | lib/glob.c:58-146 | a star stands for any characters |
| FindAll.PercentMatches | lib/glob.c:58-146 | a percent sign stands for any characters but the separator |
| FindAll.SelectsByFields | imap/annotate.c:1047-1073 | in the global database a record is selected by having a userid and by both patterns |
| FindAll.SelectsByMessageFields | imap/annotate.c:1047-1073 | in the database of a mailbox by its uid as well |
| FindAll.LiteralMatch | lib/glob.c:58-146 | a pattern without wildcards matches itself alone, for the names that mailboxes can have |
| AnnotRows.TotalAfterStore | imap/annotate.c:2940-2948 | storing a record changes what its mailbox holds by the difference in length |
| AnnotRows.TotalAfterDelete | imap/annotate.c:2909-2918 | deleting one takes its length away |
| AnnotStore.Store.WriteEntry | imap/annotate.c:2854-2959 | records and charge after a call; it is refused, with which error, exactly if it would change the value and may not, or has no room, and then changes nothing |
| AnnotStore.Store.AnnotChanged | imap/mailbox.c:3071-3110 | the charge after a change, which does not go below zero and skips missing messages |
| AnnotStore.WriteReads | imap/annotate.c:2854-2959 | the key then reads as the value written, unless the write was refused or had a value for a NULL userid; all others as before |
| AnnotStore.Clearing | imap/annotate.c:2909-2938 | clearing leaves a tombstone with its modseq for a message, and nothing for a mailbox |
| AnnotStore.RecordReads | imap/annotate.c:2881-2949 | what is stored reads back with the modseq given, or the highest of the mailbox for a message, or none, and flagged as deleted if empty |
| AnnotStore.RunFails | imap/annotate.c:2876-2900 | a run of writes fails exactly if one of them would change a value and may not, or has no room |
| AnnotStore.SurplusKept | imap/mailbox.c:3103-3109 | charge minus contents changes exactly at writes that are charged and not stored, or stored and not charged, or whose old value is clipped |
| AnnotStore.ClippingDrifts | imap/mailbox.c:3103-3109 | a state in which clearing an annotation makes the charge catch up with the contents |
| AnnotStore.AccountingTelescopes | imap/annotate.c:2881-2949 | over any run of calls with a userid and a message that is there, charge and contents change alike |
| AnnotRename.ScanIsExact | imap/annotate.c:3793-3813 | the scan finds exactly the live annotations of the mailbox or message that have a userid |
| AnnotRename.Rewrite | imap/annotate.c:3708-3813 | scan and callback perform the writes of the records found, up to the first that fails |
| AnnotCopied.CopyConserves | imap/annotate.c:3708-3743 | every live annotation but `snoozed` and `displayname` arrives, private ones under the new user, if and only if no two users' annotations clash; the source and all else are unchanged |
| AnnotCopied.RewriteSucceeds | imap/annotate.c:3708-3813 | a run in which the quota has room for every key ends without an error |
| AnnotCopied.UsersClash | imap/annotate.c:3708-3743 | two annotations with which a run ends without an error and one of the two is lost |
| AnnotCopied.WrittenModseq | imap/annotate.c:3708-3743 | a record that copying, moving or deleting wrote has the highest modseq of the mailbox if it is of a message, and else none |
| AnnotCopied.DeletingClears | imap/annotate.c:3815-3842 | deleting leaves no annotation with a userid there, and changes nothing elsewhere |
| AnnotCopied.RewriteKeepsCharges | imap/annotate.c:3708-3743 | copying and deleting keep every mailbox's charge in step, even when they stop half-way |
| OpenDbs.RunDescribed | imap/annotate.c:641-774 | after any run the list has one entry per database with handles out, counts them, and is in order of the last getdb |
| OpenDbs.EntryWhileHandlesAreOut | imap/annotate.c:728-774 | an entry leaves exactly when its last handle is put |
| DbList.List.GetDb | imap/annotate.c:641-716 | finds or opens the database, counts the handle and moves the node to the end; head, tail and links stay right |
| DbList.List.PutDb | imap/annotate.c:728-774 | gives back a handle, and unlinks the node with the last one |

## Left out

- SHA-1, zlib, sqlite and file locking: hashes are functions of the bytes, a member is its lines and some bytes, a savepoint is a saved copy of the tables.
- Errors of sqlite itself; a write to the data file may fail, and then nothing is claimed about the index.
- The dlist parser and printer: a line is its parsed form, and printing is a function. Lines that do not parse, and members that are corrupt, end the readable lines of a member.
- ChunkSizes.JoinedChunksStayWithinMaximum: assumes that pruning never makes a line print longer, since the printer is not part of this model.
- Mailboxes.CompactionKeepsMailboxes: one direction only, as a line that is not copied may be made up for by a later one; the state in the copy is exact in `Mailboxes.MailboxAfterCompaction`.
- Contents.ReadsWhatWasStored: reads the contents of all items with the GUID in the line; staging the content to a file is not modelled.
- Dlists.MailboxComesBack: rows whose record came without a list of flags. Their flags are stored as empty text, and what the dlist parser makes of that is not part of this model.
- Chunk start and end times after a reindex, which differ from those of the appends.
- The order in which sqlite returns rows without ORDER BY; chunks are taken in order of id.
- The EXPUNGE line, which backupd never accepts; RENAME between users and `backup_rename`, which are unfinished; `backup_append_abort`.
- The renaming of the compacted files into place.
- Verification of chunk checksums: a comparison of two hashes.
- Timing out and closing backups in backupd: a run of commands keeps every backup open. Opening one does not fail.
- The hash tables inside GUID lists: sets that refuse the null GUID. The list of open backups is a sequence, newest first.
- Sorting of the users named in a RESERVE: each is taken once, the shared mailboxes last.
- The folder list of a restore, and everything after the plan is made. The mailboxes a message is in are handed over as a sequence.
- Parsing of mailbox names: taking off the deleted prefix is a function of the name.
- FindAll.LiteralMatch: patterns have the usual meaning of `*` and `%`. The regular expression that lib/glob.c builds leaves `|`, `{` and `}` as they are; names of mailboxes cannot have them (imap/mboxname.c:1632-1636).
- AnnotKeys.WriteKey: the buffer is large enough; what strlcpy truncates otherwise is not modelled.
- AnnotValues.EntryRoundTrip: values below 4 GiB, which is what the length field holds, on a little-endian machine with 8-byte longs.
- AnnotStore.Store.WriteEntry: the quota check, the index record of the message and the modseq of the mailbox are parameters; synccrcs and the dirty marks are not modelled.
- AnnotRename.Rewrite: the records are found before the first of them is written. A place is not copied onto itself.
- The databases' transactions and their commit; getters, access control, definition files and proxying of annotations.
- Command-line tools, text and JSON output, SASL, TLS and sockets.
