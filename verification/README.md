# Verification of the Data Storage (DS) application

DS is the cFS application that receives packets from the software bus, decides by a table of packet filters which of
them to keep, and writes them to up to sixteen destination files that it creates, names, limits by size and age, closes
and moves. This project models DS and the two Python tools that read its files, and proves what the whole is for: what
ends up on disk and under which conditions it stays there, that nothing is repeated, reordered or leaked, when the
message index works and when it does not, and that the readers get back what was stored.

## How the model is built

Each function of ds_file.c, ds_table.c, ds_cmds.c, ds_app.c and ds_dispatch.c that matters here appears twice. Class
`DataStorage.Storage` and class `HashTable.LinkTable` hold `DS_AppData` and update it in place, loop by loop and field
by field, and so do the buffer methods of `NameBuffer` and the reading loops of `FileReaders`. Each method is proved to
compute a function on values (`DestFile`, `App`, `HashChains`, `HashIndex`, `FileName`), and the theorems are about
runs of those functions. `DataStorage.Storage.AppProcessMsg` closes the circle: it takes exactly the steps of the state
machine `App.Step`.

- `HashChains`, `HashIndex`, `HashRuns`, `HashTable`: the index of message IDs, 256 buckets of lists threaded through
  one array of links. Nothing assumes that a list ends; a search is defined only where it ends.
- `FilterAlgorithm`, `FileName`, `NameBuffer`: the N-of-X-at-O filter, and file names.
- `FileFormat`, `FileReaders`: the file layout, packets framed as in section 4.1.3.5 of CCSDS 133.0-B-2, and the tools.
- `FileSystem`: what the OS calls do to names, files and handles.
- `DestFile`, `DestFileProofs`, `DestDisk`, `DestKept`, `NameReuse`: one destination over its life, its files on disk,
  the names it touches, and three ways to lose a file by using its name again.
- `App`, `AppCore`, `AppSteps`, `AppRuns`: the whole application and its invariant. One input is one software bus message
  (a command, a housekeeping request, or any packet), a timeout of the main loop, or a processor reset.
- `AppCommands`: what each command, table load and offered packet does, field by field.
- `AppNames`, `AppDisk`, `AppKept`, `AppCalm`: numbering, and what is on disk, over whole runs. `AppLimits`, `AppFilters`:
  size and age limits, and the filters that packets can meet.
- `DataStorage`: the application data and the code that updates it.

The operating system and the cFE are arguments. Every call of `OS_OpenCreate`, `OS_write`, `OS_lseek`, `OS_mv`, the CDS
calls and the table loads has an outcome argument, and the theorems hold for all of them, except that
`OS_OpenCreate` returns an unused handle, `OS_write` never reports more than it was asked to write (an error counts as
no byte written), the cFE header is 64 bytes that begin with "cFE1", the time is 8 bytes, and the CDS keeps what the
last good copy put there. Where a theorem needs successful calls, it says so (`WritesSucceed`, `Succeeds`).
`CFE_TIME_Print` yields any 23 characters. Stored messages are framed packets.

The calls that change the file system are recorded in order (`Os.ops`), and `FileSystem.Replay` carries them out:
opening a name creates a file or empties the one that is there, a write changes the file behind its handle, whatever
has become of its name, and a move takes the name away from the file that had it. The file system outlives a reset.
It starts without files.

Some fields of the model are history only and are never read by the modelled code: the bytes, packets and creating call
of the open file (`data`, `packets`, `life`), the files closed so far (`log`), the files numbered so far (`made`), the
age tests seen (`tests`), the buckets added to since the last build (`added`) and the packets offered (`attempts`).

Constants are those of the platform headers: 256 filter entries with 4 filters, 16 destinations, 64-byte names, 8
digits, 4 seconds per housekeeping cycle. The highest valid message ID is 0x1FFF, from
sample_defs/example_platform_cfg.h:1159.

## What was found

1. ADD MID can break the index. It reuses a link that is still on the list of unused entries and does not clear its
   `Next` pointer, so lists come to share tails. The index is right, and every list ends, if and only if the low bytes
   of the IDs added since the index was last built are non-zero and pairwise distinct
   (`HashRuns.ListsEndIffAddsAreGood`). Two accepted adds with one low byte are enough to make every later search for
   an absent ID of that bucket spin forever (`HashRuns.TwoAddsOfOneLowByte`). An accepted REMOVE MID, or a table load,
   repairs it (`HashRuns.RemoveRestores`). A caller can avoid the failure by looking at the low bytes alone.
2. The comment that no list has more than eight links (apps/DS/fsw/src/ds_table.c:1005-1013) holds of a built index if
   and only if at most eight entries, used or not, share a low byte (`HashRuns.LinksIff`). IDs that differ in their low
   11 bits are enough for that outside bucket 0 (`HashRuns.AtMostEightLinks`); valid IDs alone are not
   (`HashRuns.NineLinks`), and bucket 0, which also lists the unused entries, can have all 256
   (`HashRuns.AllLinksInBucketZero`).
3. DS opens files so that an existing file of the name is emptied (apps/DS/fsw/src/ds_file.c:523). A stored packet stays
   on disk if and only if its file's name is not used again (`AppDisk.ClosedFileOnDiskIff`). It is used again after SET
   COUNT back to an old count (`NameReuse.SetCountBackLosesFile`), named by time after two rotations within one
   second (`NameReuse.SameSecondLosesFile`), and where two destinations yield one name
   (`NameReuse.SameNamesLoseFile`). It is not where the table passes `AppCalm.SimpleTable` and the inputs pass
   `AppCalm.CalmRun`, both of which can be checked beforehand (`AppCalm.CalmStorage`).
4. Closing by age works if and only if the limit is at most 2^32-4 seconds (`DestFileProofs.AgeLimitWorksIff`). A table
   loaded by a housekeeping request comes after the age tests of that request, so a file may outlive a lowered limit
   until the next one (`AppSteps.NoneOverAge`).
5. A reset restores the sequence counts if and only if the destination table is loaded at start-up and the CDS was up to
   date, or a table loaded later holds the same counts anyway; a table loaded later overwrites the counts and their copy
   in the CDS (`AppRuns.ResetRestoresIff`). After a failed CDS copy it restores an old count and reuses a name
   (`AppRuns.FailedCopyReusesName`).
6. REMOVE MID unsubscribes too much if and only if it is given DS's own command or request ID, or an ID that the table
   holds twice (`AppRuns.RemoveSubscribesIff`).
7. `iter_packets` ends with an uncaught `struct.error` if and only if a complete packet in the file is under 12 bytes
   (`FileReaders.ReadBack`); `extract_chunks`, if and only if a complete photo packet is under 18 bytes
   (`FileReaders.ExtractBack`).
8. SET FILTER PARMS on an unused filter leaves its type at 0. The command is accepted, and the filter passes nothing;
   it can pass packets if and only if it had a type before (`AppFilters.SetParmsUsableIff`).
9. apps/DS/fsw/src/ds_file.h:153-157 says that a write error also updates a critical table in the CDS; the code
   (apps/DS/fsw/src/ds_file.c:483-499) does not, and the model follows the code.

## Model

| member | source | states |
|---|---|---|
| HashChains.AppendEndsIff | apps/DS/fsw/src/ds_table.c:1073-1091 | the exact condition for one append: the bucket's list still ends if and only if the bucket was empty or its last link differs from the last link of the list hanging off the appended link |
| HashChains.AppendReachableCycles | apps/DS/fsw/src/ds_table.c:1065-1091 | appending a link that the bucket already reaches always makes the bucket's list endless, because `Next` of a reused link is never cleared |
| HashChains.EndlessStaysEndless | apps/DS/fsw/src/ds_table.c:1073-1091 | no later append ever repairs a list that does not end |
| HashChains.AppendJoins | apps/DS/fsw/src/ds_table.c:1073-1091 | otherwise the bucket's list becomes its old list followed by everything hanging off the appended link, i.e. lists come to share tails |
| HashChains.AppendKeepsOthers | apps/DS/fsw/src/ds_table.c:1073-1091 | the list of another bucket is untouched unless it shares the link that was appended to |
| HashChains.AddPointers | apps/DS/fsw/src/ds_table.c:1058-1095 | exactly one NULL pointer in the whole structure is redirected, and exactly one link changes its ID and index |
| HashChains.CycleNeverEnds | apps/DS/fsw/src/ds_table.c:1080-1087 | a list that returns to its start has no end |
| HashIndex.BuiltStep | apps/DS/fsw/src/ds_table.c:1046-1049 | one round of the build loop links entry `k` in at the end of its bucket and disturbs no other bucket |
| HashIndex.BucketIs | apps/DS/fsw/src/ds_table.c:1036-1050 | the build order puts into bucket b exactly the entries whose low byte is b, in ascending order |
| HashIndex.FreshIndexCorrect | apps/DS/fsw/src/ds_table.c:1036-1050 | a freshly built index partitions all 256 links into finite lists, ascending within each bucket; every search ends and returns the least index that holds the ID, or -1 |
| HashIndex.EmptyIndexFindsNothing | apps/DS/fsw/src/ds_table.c:1103-1138 | with no filter table loaded every search ends at once with -1 |
| HashIndex.AbsentSearchNeverEnds | apps/DS/fsw/src/ds_table.c:1119-1135 | a search for an absent ID in a bucket whose list does not end never ends |
| HashIndex.GrownLookup | apps/DS/fsw/src/ds_table.c:1103-1138 | shared tails do no harm while every bucket other than 0 received at most one add: each search ends with the linear scan's answer |
| HashIndex.FreeSlot | apps/DS/fsw/src/ds_cmds.c:1159-1179 | the unused entry that ADD MID finds by looking up ID 0 lies in bucket 0 behind every entry taken before |
| HashIndex.GoodAdd | apps/DS/fsw/src/ds_cmds.c:1148-1193 | an add to a bucket other than 0 that received none since the last build keeps that structure |
| HashIndex.BadAdd | apps/DS/fsw/src/ds_cmds.c:1148-1193 | any other accepted add closes a cycle in its bucket |
| HashRuns.StepKeepsInvariant | apps/DS/fsw/src/ds_cmds.c:1116-1300 | table load, ADD MID and REMOVE MID keep the invariant that ties the state of the index to the adds since the last build |
| HashRuns.ListsEndIffAddsAreGood | apps/DS/fsw/src/ds_cmds.c:1148-1179 | in every reachable state all lists end if and only if the low bytes added since the last build are non-zero and pairwise distinct; then every lookup is the linear scan, otherwise some bucket never answers for an absent ID |
| HashRuns.RemoveRestores | apps/DS/fsw/src/ds_cmds.c:1262-1272 | REMOVE MID restores a correct index from any state in which it is accepted, and changes no other valid ID's lookup |
| HashRuns.TwoAddsOfOneLowByte | apps/DS/fsw/src/ds_cmds.c:1148-1179 | the failure is reachable: from every table with two unused entries, two accepted adds with one low byte leave a bucket stuck |
| HashRuns.AcceptedIff | apps/DS/fsw/src/ds_cmds.c:1116-1165 | before any bad add, ADD MID is accepted exactly for valid absent IDs while some entry is unused |
| HashRuns.BucketSize | apps/DS/fsw/src/ds_table.c:1036-1050 | a bucket of the built index holds as many links as entries have its low byte |
| HashRuns.LinksIff | apps/DS/fsw/src/ds_table.c:1005-1013 | the exact length of every list of a built index, and so when the bound of eight links holds of it: if and only if at most eight entries, used or not, have its low byte |
| HashRuns.AtMostEightLinks | apps/DS/fsw/src/ds_table.c:1005-1013 | if used IDs differ in their low 11 bits, every list of a built index except bucket 0 has at most eight links |
| HashRuns.NineLinks | apps/DS/fsw/src/ds_table.c:1005-1013 | the bound fails without that condition: nine valid IDs with one low byte make a list of nine links |
| HashRuns.AllLinksInBucketZero | apps/DS/fsw/src/ds_table.c:1005-1013 | and it fails for bucket 0: with no entry in use its list has all 256 links |
| HashTable.LinkTable.AddMsgID | apps/DS/fsw/src/ds_table.c:1058-1095 | in-place append: walks to the last link, terminates whenever the list ends, and leaves exactly the index of `HashChains.Add` |
| HashTable.LinkTable.FindMsgID | apps/DS/fsw/src/ds_table.c:1103-1138 | the pointer-chasing search returns what `HashIndex.Find` says whenever the search ends, and only an entry that holds the ID |
| HashTable.LinkTable.CreateHash | apps/DS/fsw/src/ds_table.c:1036-1050 | clears both arrays and links in all entries, giving the index of `FreshIndexCorrect` |
| FilterAlgorithm.FilteredIff | apps/DS/fsw/src/ds_file.c:58-181 | by count a filter compares the sequence count, by time 16*(seconds mod 2048) + subseconds/2^28; a packet passes if and only if 1 <= N <= X, O < X and that value v has O <= v and (v - O) mod X < N; without one of the two types nothing passes |
| FilterAlgorithm.PassesIff | apps/DS/fsw/src/ds_file.c:58-181 | the values counted by the next two rows are those that pass |
| FilterAlgorithm.PassedUpTo | apps/DS/fsw/src/ds_file.c:152-176 | of the first k values from O on exactly N*(k/X) + min(N, k%X) pass |
| FilterAlgorithm.WindowPassesN | apps/DS/fsw/src/ds_file.c:152-176 | any X consecutive values at or above O pass exactly N |
| FilterAlgorithm.TimeValueIs | apps/DS/fsw/src/ds_file.c:114-146 | masks and shifts give 16*(seconds mod 2048) + subseconds/2^28 as a number, for all 64 time bits |
| AppFilters.ReachableFilters | apps/DS/fsw/src/ds_file.c:78-105 | in every state of every run each filter behind a valid ID has a file index below 16, parameters that validation accepts and type 0, 1 or 2; when a packet reaches it, none of the guards on X = 0, N > X, O >= X fires, and without a type it passes nothing |
| AppFilters.TypeZeroOrigin | apps/DS/fsw/src/ds_table.c:566-635 | in every run a filter without a type behind a valid ID goes back to a loaded table in which this filter of this ID was unused |
| AppFilters.SetParmsUsableIff | apps/DS/fsw/src/ds_cmds.c:358-456 | an accepted SET FILTER PARMS with N other than 0 makes a filter that can pass packets if and only if it had a type before |
| AppFilters.SetParmsOnUnusedPassesNothing | apps/DS/fsw/src/ds_cmds.c:358-456 | the failing input: on an unused filter the command is accepted and no packet ever passes |
| FileName.EightDigitsDecode | apps/DS/fsw/src/ds_file.c:673-700 | every count up to 99999999 is recovered from its eight-digit text |
| FileName.DigitsDecode | apps/DS/fsw/src/ds_file.c:673-700 | n digits decode to the count if and only if it is below 10^n |
| FileName.CountsGiveDistinctNames | apps/DS/fsw/src/ds_file.c:583-654 | different counts give different exact names, whatever path, base and extension are |
| FileName.TimeTextIs | apps/DS/fsw/src/ds_file.c:701-770 | the text YYYY-DDD-HH:MM:SS.sssss becomes YYYYDDDHHMMSS |
| FileName.NameForIs | apps/DS/fsw/src/ds_file.c:583-654 | for every path, with or without final slash, and every extension, with or without leading dot, the name is directory, one slash, base, sequence, and one dot before the extension if there is one; it is accepted if and only if it has fewer than 64 characters, and nothing is without a path |
| FileName.NameForIsUsable | apps/DS/fsw/src/ds_file.c:583-654 | an accepted name is non-empty, holds a separator, has no NUL and fits its 64-byte buffer |
| FileName.MoveKeepsFileName | apps/DS/fsw/src/ds_file.c:849-910 | a closed file keeps everything from its last slash on when it is moved, and the new name fits its buffer |
| FileName.MoveTargetIs | apps/DS/fsw/src/ds_file.c:849-883 | for every directory, table entry and name: a file is moved to the directory less one final slash, then a slash and what follows the last slash of its name, if and only if there is a directory and this is shorter than 64 characters; a name without slash is not moved |
| FileName.LastSlashIsInside | apps/DS/fsw/src/ds_file.c:866-868 | what `strrchr` points at is the end of the name itself |
| NameBuffer.StrRChr | apps/DS/fsw/src/ds_file.c:866-868 | finds the last separator, or none if there is none |
| NameBuffer.MovePath | apps/DS/fsw/src/ds_file.c:849-883 | the target of a move, built in the 64-byte `PathName` without overrunning it: the one of `FileName.MoveTargetIs` |
| NameBuffer.CreateName | apps/DS/fsw/src/ds_file.c:583-654 | character by character in a 128-byte buffer that is never overrun: a name is accepted if and only if the untruncated path, separator, base, sequence, dot and extension is shorter than 64 characters, and then it is exactly that string |
| NameBuffer.MessageStringGet | apps/DS/fsw/src/ds_file.c:600-634 | copies up to the first NUL or to the bound, terminates, and writes nothing for size 0 |
| NameBuffer.CountSequence | apps/DS/fsw/src/ds_file.c:673-700 | the digits of the count, written from the right, terminated |
| NameBuffer.TimeSequence | apps/DS/fsw/src/ds_file.c:701-770 | the cFE time text squeezed in place to YYYYDDDHHMMSS, terminated |
| App.RefillHolds | apps/DS/fsw/src/ds_cmds.c:592-640 | SET PATH, BASE and EXT leave the command's string, cut to the field, whatever was there before |
| FileFormat.FramesOfFlatten | tools/ds_hk_parser/parse_hk_to_csv.py:318-354 | packets written back to back, even with part of another packet behind them, are framed apart again exactly |
| FileFormat.CutIsPrefix | tools/ds_hk_parser/parse_hk_to_csv.py:325-342 | a cut anywhere leaves whole packets and the beginning of one |
| FileFormat.ParseOfLayout | tools/ds_hk_parser/parse_hk_to_csv.py:304-315 | the parser of the DS header recovers destination index, name type and name, and finds the packets where DS put them |
| FileFormat.ParseOfFields | tools/ds_hk_parser/parse_hk_to_csv.py:287-315 | the parsers recover every field of the cFE header and the close time |
| FileFormat.HeadersAcceptedIff | tools/ds_hk_parser/parse_hk_to_csv.py:271-315 | a file is accepted if and only if it has 140 bytes and begins with cFE1, and what follows those 140 bytes is left for the packets |
| FileFormat.OverlayKeepsLayout | apps/DS/fsw/src/ds_file.c:792-824 | rewriting the close time, even in part, changes nothing else in the file |
| FileReaders.IterPackets | tools/ds_hk_parser/parse_hk_to_csv.py:318-354 | the reading loop computes what `FileReaders.ReadBack` is about |
| FileReaders.ExtractChunks | tools/gvcp-bringup/extract_photo_from_ds.py:66-97 | the chunk loop computes what `FileReaders.ExtractBack` and `FileReaders.PhotoReassembled` are about |
| FileReaders.ReadFrame | tools/ds_hk_parser/parse_hk_to_csv.py:325-342 | the two reads at the head of both loops deliver the next frame, or nothing where the data ends |
| FileReaders.ReadBack | tools/ds_hk_parser/parse_hk_to_csv.py:318-354 | on any packets, with any part of another behind them: the reader yields, in order, seconds + subseconds/65536 and the payload of exactly the packets with its ID, up to the first complete packet under 12 bytes; it stops with an uncaught error if and only if there is one |
| FileReaders.DecodeBack | tools/ds_hk_parser/parse_hk_to_csv.py:335-347 | a packet built from any ID, sequence word, 32-bit seconds, 16-bit subseconds, spare bytes and payload frames itself, and its ID, time and payload are read back exactly |
| FileReaders.EveryPacketEncodes | tools/ds_hk_parser/parse_hk_to_csv.py:335-347 | every packet of 12 bytes or more is built from such fields |
| FileReaders.EveryListEncodes | tools/ds_hk_parser/parse_hk_to_csv.py:335-354 | so every list of packets is of the form that `FileReaders.ReadBack` is about |
| FileReaders.ChunkIs | tools/gvcp-bringup/extract_photo_from_ds.py:89-97 | a photo packet that announces n bytes yields the first n bytes behind the announcement, or all if there are fewer |
| FileReaders.ExtractBack | tools/gvcp-bringup/extract_photo_from_ds.py:66-97 | the photo extractor yields exactly the chunks up to the first complete photo packet under 18 bytes; it stops with an uncaught error if and only if there is such a packet |
| FileReaders.CutYieldsPrefix | tools/ds_hk_parser/parse_hk_to_csv.py:318-354 | a file cut anywhere behind the headers yields a prefix of what the whole file yields, for both readers |
| FileReaders.PhotoReassembled | tools/gvcp-bringup/extract_photo_from_ds.py:66-97 | any cutting of an image into chunks, with any other packets between, is put together to the image again |
| DestFileProofs.CloseIs | apps/DS/fsw/src/ds_file.c:831-934 | closing gives back exactly this handle, clears age, size and name, and archives the file with all its packets |
| DestFileProofs.UseFaultIff | apps/DS/fsw/src/ds_file.c:373-399 | a write or header update goes wrong if and only if there is no open handle |
| DestFileProofs.CloseFaultIff | apps/DS/fsw/src/ds_file.c:831-910 | a close goes wrong if and only if there is no open handle, or a directory is set and the name has no slash |
| DestFileProofs.CloseKeepsFileName | apps/DS/fsw/src/ds_file.c:849-910 | moved or not, the closed file keeps the last component of its name, and its header |
| DestFileProofs.UpdateKeepsClosable | apps/DS/fsw/src/ds_file.c:792-824 | the header update at close, however far it gets, leaves everything behind the headers as it was, and the close time is in its place if seek and write went through |
| DestFileProofs.RegularClose | apps/DS/fsw/src/ds_file.c:792-934 | update and close together lose no packet and touch no other handle |
| DestFileProofs.WriteDataIs | apps/DS/fsw/src/ds_file.c:373-399 | a full write appends the packet, size staying equal to the file length; a short one archives the file without the packet and disables the destination |
| DestFileProofs.WriteHeaderIs | apps/DS/fsw/src/ds_file.c:407-499 | both headers are written, or the file is archived and the destination disabled |
| DestFileProofs.CreateDestIs | apps/DS/fsw/src/ds_file.c:506-576 | for every combination of naming, open and write outcomes: a headed open file, numbered if named by count, or a closed and disabled destination; which one is decided exactly |
| DestFileProofs.HeaderNamesFile | apps/DS/fsw/src/ds_file.c:407-576 | a reader finds in the headers of every new file its destination, its name type and the name it was given, for names of 8-bit characters |
| DestFileProofs.SetupWriteIs | apps/DS/fsw/src/ds_file.c:298-365 | for every combination of outcomes the packet ends appended to an open file, or the destination ends closed and disabled with what was stored before; which one is decided exactly |
| DestFileProofs.SetupWriteWithinSize | apps/DS/fsw/src/ds_file.c:324-357 | every packet but the first of a file leaves it within the size limit in force at that write, also right after the limit was lowered |
| DestFileProofs.SetupWriteTests | apps/DS/fsw/src/ds_file.c:324-357 | a write makes no file older, and a new file starts at age 0 |
| DestFileProofs.NamesNotReused | apps/DS/fsw/src/ds_file.c:551-573 | files with different numbers, from the same name parts, have different names |
| DestFileProofs.NumberReadsBack | apps/DS/fsw/src/ds_file.c:551-573 | the number of every numbered file is what the eight digits in its stored name say |
| DestFileProofs.AgeTestIs | apps/DS/fsw/src/ds_file.c:941-973 | one age test closes an open file at its limit and otherwise only makes it four seconds older |
| DestFileProofs.AgeLimitWorksIff | apps/DS/fsw/src/ds_file.c:941-973 | a file is closed by age, at the latest by test ceil(limit/4), if and only if the limit is at most 2^32-4; above that the 32-bit age wraps first |
| FileSystem.DestroysIff | apps/DS/fsw/src/ds_file.c:523-524 | exactly which call ends the presence of a file: opening its name again, moving another file there, or a write through a handle from before it was created; nothing brings a file back |
| FileSystem.OthersKeepContents | apps/DS/fsw/src/ds_file.c:381 | only a write through its own handle changes what a file holds |
| FileSystem.OnDiskIff | apps/DS/fsw/src/ds_file.c:883 | over any sequence of calls a file stays on disk if and only if none of them destroys it |
| DestDisk.SetupWriteStep | apps/DS/fsw/src/ds_file.c:298-365 | for every combination of outcomes: what DS remembers of its files is what the file system holds, every file of another destination is spared but for its name being used, and new files are new |
| DestDisk.CloseRegularlyStep | apps/DS/fsw/src/ds_file.c:792-934 | so does a header update and close, move included |
| DestKept.CreateDestKept | apps/DS/fsw/src/ds_file.c:506-576 | creating a file by count touches the names of its number only, whatever fails |
| DestKept.SetupWriteKept | apps/DS/fsw/src/ds_file.c:298-365 | a write touches no name of an earlier number but that of the open file, and leaves every file with packets standing under its name |
| NameReuse.ReuseDestroys | apps/DS/fsw/src/ds_file.c:523-524 | creating a file destroys the one that stands under its name, for good |
| NameReuse.SetCountBackLosesFile | apps/DS/fsw/src/ds_cmds.c:936-947 | store, close, SET COUNT back to the old count, store: although every OS call succeeds, the first packet is gone from the disk |
| NameReuse.SameSecondLosesFile | apps/DS/fsw/src/ds_file.c:701-770 | named by time, two rotations within one second: although every OS call succeeds, the first packet is gone |
| NameReuse.SameNamesLoseFile | apps/DS/fsw/src/ds_file.c:583-654 | two destinations whose entries yield one name: the second destroys the file that the first still has open |
| NameReuse.PlainEntryIsReady | apps/DS/fsw/src/ds_file.c:583-654 | a plain entry with nothing stored yet is one to which all three apply |
| AppNames.SetupWriteContinues | apps/DS/fsw/src/ds_file.c:551-573 | one write adds to the numbered files only, with the next number, and raises the count by as many |
| AppNames.NextContinues | apps/DS/fsw/src/ds_cmds.c:936-947 | so does every input other than SET COUNT for the destination, a destination table load, or a reset that does not restore a good CDS |
| AppNames.RunNamesNotReused | apps/DS/fsw/src/ds_file.c:551-573 | over any stretch of a run of such inputs without rollover: numbered files are only added, the new ones have consecutive numbers from the count on and the names of their numbers, and names from the same parts differ |
| AppDisk.NextDisk | apps/DS/fsw/src/ds_dispatch.c:375-412 | every message and every reset keeps true what DS remembers of its files, and forgets none |
| AppDisk.ClosedFileOnDiskIff | apps/DS/fsw/src/ds_file.c:523-524 | in every run a closed file is still on disk if and only if no later call created its name again, moved another file there, or wrote through an older handle; if it is, a reader recovers exactly its packets |
| AppKept.RunFilesKept | apps/DS/fsw/src/ds_file.c:506-934 | in every run in which names cannot clash and no count is lowered or rolls over, each file with packets stands on disk under the name DS gave it last |
| AppKept.FilesReadBack | tools/ds_hk_parser/parse_hk_to_csv.py:287-354 | in every such run, failed OS calls included, reading a destination's files from disk by name recovers exactly the packets whose writes went through |
| AppKept.WholeRunStorage | apps/DS/fsw/src/ds_file.c:189-399 | in every such run without write failures each destination's files on disk hold, in creation order, exactly the packets of `AppRuns.WrittenIsPromised`: in arrival order, once for each filter that takes the packet while the destination is enabled |
| AppCalm.SimpleTableHasNoClash | apps/DS/fsw/src/ds_file.c:583-654 | a check on the table that rules out all clashes: named by count, no separator in base and extension, and any two bases or extensions of one length that differ |
| AppCalm.CalmRunIsSteady | apps/DS/fsw/src/ds_cmds.c:886-955 | a check on the inputs that keeps a run steady: a first start with the table, then no command that changes counts or names, no table load, resets only where a good CDS is restored, and counts four below the greatest |
| AppCalm.CalmStorage | apps/DS/fsw/src/ds_file.c:189-399 | the storage theorem from these two checks alone |
| AppCore.StoreOneKeeps | apps/DS/fsw/src/ds_file.c:298-365 | one write keeps the invariant of all destinations, handles and CDS, and changes no other destination |
| AppCore.StoreFiltersKeeps | apps/DS/fsw/src/ds_file.c:225-271 | the filter loop, for any mix of failures, adds exactly the packets of the writes that went through |
| AppCore.AddedIsCopies | apps/DS/fsw/src/ds_file.c:225-271 | without failures the filters write what the state before the packet selects, once per filter |
| AppCore.CopiesAreTaken | apps/DS/fsw/src/ds_file.c:225-257 | and that is one copy for each filter of the entry that names the destination, while the state of the destination is 1, whose type is 1 or 2, with 1 <= N <= X and O < X, and for which the sequence count or 16*(seconds mod 2048) + subseconds/2^28 is among the first N of its group of X from O on |
| AppCore.AgeAllKeeps | apps/DS/fsw/src/ds_file.c:941-973 | after the age loop no open file is at or above its limit, and nothing that was stored has changed |
| AppCore.CloseAllKeeps | apps/DS/fsw/src/ds_cmds.c:1004-1023 | CLOSE ALL leaves nothing open and loses nothing that was stored |
| AppCore.LoadKeeps | apps/DS/fsw/src/ds_table.c:186-286 | a validated destination table load leaves open files and stored packets alone and keeps the CDS mirror |
| AppSteps.StoreAccounts | apps/DS/fsw/src/ds_app.c:397-421 | each packet offered for storage is counted once: disabled, ignored, filtered or passed, modulo 2^32 |
| AppCommands.StoreCounts | apps/DS/fsw/src/ds_file.c:189-290 | which of the four counters it is: disabled while the enable state is 0; ignored while a table is missing or its ID is in no entry; passed if some filter of the entry takes it; filtered otherwise, and then nothing is written |
| AppCommands.MessagesAre | apps/DS/fsw/src/ds_dispatch.c:375-412 | what one message comes to: one that is not for DS is counted and stored as above; one for DS is handled, and stored too only if its ID is in an entry; a timeout stores and counts nothing |
| AppCommands.StoredStatusIs | apps/DS/fsw/src/ds_file.c:298-365 | a stored packet makes its destination grow by its size, and by 140 bytes if it needs a new file; that is named by the eight digits of the count, which then goes up by one and from 99999999 to the count of the table, or by the time, or by neither |
| AppCommands.AddMidIs | apps/DS/fsw/src/ds_cmds.c:1116-1206 | ADD MID, where its searches end: rejected exactly for 0, above 0x1FFF, an ID that is found, no table or no unused entry; otherwise the unused entry found gets the ID and four filters by count with file index, N, X and O all 0, nothing else of the table changes, and DS subscribes |
| AppCommands.AddedIsFound | apps/DS/fsw/src/ds_table.c:1058-1138 | right after it the search for the new ID ends at its entry, even if the index has been broken by earlier adds |
| AppCommands.AddedStoresNothing | apps/DS/fsw/src/ds_cmds.c:1181-1191 | so a packet with that ID is counted as filtered and nothing is written |
| AppCommands.RemoveMidIs | apps/DS/fsw/src/ds_cmds.c:1214-1300 | REMOVE MID, where its search ends: rejected exactly for 0, above 0x1FFF, an ID that is not found or no table; otherwise the entry gets ID 0 and the same four filters, nothing else of the table changes, and DS unsubscribes |
| AppCommands.FilterCommandsAre | apps/DS/fsw/src/ds_cmds.c:156-456 | the three filter commands: when each is rejected, and which field of which filter it sets to what |
| AppCommands.ValueCommandsAre | apps/DS/fsw/src/ds_cmds.c:464-878 | SET DEST TYPE, SIZE and AGE: when each is rejected, and which field of which entry it sets to what |
| AppCommands.SetDestPathIs | apps/DS/fsw/src/ds_cmds.c:592-640 | SET PATH leaves the string of the command, cut to the field, in the path of that entry and nothing else changed |
| AppCommands.SetDestBaseIs | apps/DS/fsw/src/ds_cmds.c:648-695 | SET BASE does the same with the base name |
| AppCommands.SetDestExtIs | apps/DS/fsw/src/ds_cmds.c:703-750 | SET EXT does the same with the extension |
| AppCommands.StatusCommandsAre | apps/DS/fsw/src/ds_cmds.c:529-955 | SET DEST STATE and SET DEST COUNT give table entry and status the same new value, within the ranges 0..1 and 0..99999999 |
| AppCommands.CloseCommandsAre | apps/DS/fsw/src/ds_cmds.c:963-1023 | CLOSE FILE closes the destination it names and touches no other; CLOSE ALL leaves none open |
| AppCommands.OtherCommandsAre | apps/DS/fsw/src/ds_cmds.c:57-148 | NOOP and GET FILE INFO only count, RESET clears every counter, SET APP STATE takes 0 and 1 and sets the enable state to it |
| AppCommands.GoodDestIff | apps/DS/fsw/src/ds_table.c:398-506 | what validation accepts for a destination: an entry zero throughout, or name type 1 or 2, state 0 or 1, size limit from 1024, age limit from 60, count up to 99999999 |
| AppCommands.DestLoadIs | apps/DS/fsw/src/ds_table.c:186-286 | a destination table comes into use if and only if all entries are such; then every destination takes state and count from its entry, and nothing else of its status changes |
| AppCommands.FilterLoadIs | apps/DS/fsw/src/ds_table.c:294-390 | a filter table comes into use if and only if each filter of each valid ID is zero throughout, or has file index below 16, type 1 or 2, and N <= X with O < X or all three 0 |
| AppCommands.RatesAre | apps/DS/fsw/src/ds_app.c:279-389 | a housekeeping request turns the bytes by which each destination has grown into a fourth of them per second, and starts counting again |
| AppCommands.LoadsHappen | apps/DS/fsw/src/ds_app.c:279-389 | such loads come with a housekeeping request and with a timeout of the main loop, which changes nothing else |
| AppCommands.StartLoads | apps/DS/fsw/src/ds_app.c:176-271 | and with start-up, where there is no other table |
| AppCommands.LoadSubscriptionsAre | apps/DS/fsw/src/ds_table.c:809-865 | after a filter table load DS is subscribed to the valid IDs of the new table, and to what it was subscribed to but for those of the old one; its own two IDs are left alone |
| AppCommands.StartCdsIs | apps/DS/fsw/src/ds_table.c:873-937 | after start-up the CDS is in use if and only if a new area could be filled or an existing one read, and then holds the counts and the enable state that DS has |
| AppCommands.StartIs | apps/DS/fsw/src/ds_app.c:176-271 | start-up clears counters, handles and status, and enables DS unless the CDS says otherwise; each destination takes its state from the table, or is disabled without one, and its count from the CDS, else from the table, else 0 |
| AppSteps.CommandKeeps | apps/DS/fsw/src/ds_dispatch.c:420-571 | every command, accepted or rejected, keeps the invariant of the whole application and every stored packet |
| AppSteps.HousekeepingKeeps | apps/DS/fsw/src/ds_app.c:279-389 | so does the housekeeping request, with its age tests, table loads and growth rates |
| AppSteps.NoneOverAge | apps/DS/fsw/src/ds_app.c:296-305 | for every housekeeping request, table loads included: exactly the files below the limit in force before it stay open, four seconds older; none is at the limit in force afterwards if and only if no survivor is at or above the limit of the table just loaded |
| AppSteps.RestartKeeps | apps/DS/fsw/src/ds_app.c:176-271 | so does a processor reset with any loads and any answer of the CDS |
| AppRuns.NextKeeps | apps/DS/fsw/src/ds_dispatch.c:375-412 | every message and every reset keeps the invariant and adds exactly the packets of its successful writes |
| AppRuns.RunKeeps | apps/DS/fsw/src/ds_dispatch.c:375-412 | the invariant holds throughout every run, whatever the OS calls return |
| AppRuns.WrittenIsPromised | apps/DS/fsw/src/ds_file.c:189-399 | over every run without write failures what DS writes for a destination, one file after the other, is exactly this: for each packet offered while the enable state is not 0, both tables are loaded and its ID is found, as many copies as filters of its entry take it, with the filter arithmetic written out |
| AppRuns.WrittenReadsBack | tools/ds_hk_parser/parse_hk_to_csv.py:287-354 | in every run, failures included, every file as DS wrote it gives its packets back, and each complete header names the destination |
| AppRuns.AttemptsAreOffers | apps/DS/fsw/src/ds_dispatch.c:375-412 | in every run the number of messages offered for storage since the counters were last reset, counted from the inputs |
| AppRuns.RunHandlesAndCounters | apps/DS/fsw/src/ds_file.c:298-365 | in every run the OS-open handles are exactly the defined ones, one per destination, none leaked, closed twice or misused; a closed destination has no name, age and size; an open one has a name with a separator, a packet, and its true size; the four packet counters add up to the offered messages, modulo 2^32 |
| AppRuns.RunNoneOverAge | apps/DS/fsw/src/ds_app.c:296-305 | in every run, right after every housekeeping request no open file is at the age limit in force when it came |
| AppRuns.ResetRestoresIff | apps/DS/fsw/src/ds_table.c:873-937 | the counts after any reset: those of the CDS if it is restored on top of the table, the table's otherwise; so a restored reset brings the counts back if and only if the table is loaded at start-up and the CDS was up to date, or the later table has the very same counts |
| AppRuns.FailedCopyReusesName | apps/DS/fsw/src/ds_table.c:967-984 | when the CDS copy after a creation fails, the CDS keeps the count from before, and a reset that restores it makes DS give the next file the last one's name |
| AppRuns.RunSearchesAndCds | apps/DS/fsw/src/ds_table.c:945-986 | in every run a good CDS handle means that the CDS holds all counts and the enable state; and lookups are exact while the adds were good, stuck otherwise |
| AppRuns.LoadSubscribes | apps/DS/fsw/src/ds_table.c:361-388 | a filter table load turns subscriptions to DS's own IDs and the old table's into DS's own and the new table's |
| AppRuns.AddSubscribes | apps/DS/fsw/src/ds_cmds.c:1181-1193 | ADD MID keeps the subscriptions exact |
| AppRuns.RemoveSubscribesIff | apps/DS/fsw/src/ds_cmds.c:1262-1286 | an accepted REMOVE MID keeps them exact if and only if the ID is not DS's own and does not occur twice |
| AppRuns.RunSubscribes | apps/DS/fsw/src/ds_table.c:809-865 | in every run without such a REMOVE MID, DS is subscribed to its own messages and the table's valid IDs, and to nothing else |
| AppLimits.RunWithinLimits | apps/DS/fsw/src/ds_file.c:941-973 | under fixed limits, at every moment of every run a file holds a single packet or is within the size limit, and has been open for fewer than ceil(limit/4) housekeeping cycles |
| DataStorage.Storage.UpdateCDS | apps/DS/fsw/src/ds_table.c:945-986 | copies all counts and the enable state through a buffer, or gives the CDS up when the copy fails |
| DataStorage.Storage.CreateCDS | apps/DS/fsw/src/ds_table.c:873-937 | fills a new area, or takes counts and enable state over from an existing one, or gives the CDS up |
| DataStorage.Storage.CloseDest | apps/DS/fsw/src/ds_file.c:831-934 | field by field, does what `DestFileProofs.CloseIs` is about |
| DataStorage.Storage.WriteError | apps/DS/fsw/src/ds_file.c:483-499 | closes and disables |
| DataStorage.Storage.WriteData | apps/DS/fsw/src/ds_file.c:373-399 | does what `DestFileProofs.WriteDataIs` is about, sizes in 32 bits |
| DataStorage.Storage.WriteHeader | apps/DS/fsw/src/ds_file.c:407-476 | does what `DestFileProofs.WriteHeaderIs` is about |
| DataStorage.Storage.CreateSequence | apps/DS/fsw/src/ds_file.c:661-784 | count text, time text or nothing, by the name type |
| DataStorage.Storage.CreateName | apps/DS/fsw/src/ds_file.c:583-654 | stores the exact name, or disables the destination |
| DataStorage.Storage.CreateDest | apps/DS/fsw/src/ds_file.c:506-576 | does what `DestFileProofs.CreateDestIs` is about, with the CDS update for a new number |
| DataStorage.Storage.UpdateHeader | apps/DS/fsw/src/ds_file.c:792-824 | seeks and rewrites the close time |
| DataStorage.Storage.SetupWrite | apps/DS/fsw/src/ds_file.c:298-365 | does what `DestFileProofs.SetupWriteIs` is about, with the CDS update at most once |
| DataStorage.Storage.FileStorePacket | apps/DS/fsw/src/ds_file.c:189-290 | lookup, filter loop and counters together are the storing step of the state machine, the one of `AppCommands.StoreCounts` |
| DataStorage.Storage.StoreByFilters | apps/DS/fsw/src/ds_file.c:219-275 | the loop over the four filters of one entry, each seeing what the earlier ones did: it writes the copies of `AppCore.CopiesAreTaken` |
| DataStorage.Storage.TestAge | apps/DS/fsw/src/ds_file.c:941-973 | the loop over all destinations is the age step of the state machine |
| DataStorage.Storage.ManageDestFile | apps/DS/fsw/src/ds_table.c:186-286 | a validated load sets all states and counts and updates the CDS |
| DataStorage.Storage.ManageFilterTable | apps/DS/fsw/src/ds_table.c:294-390 | a validated load unsubscribes, subscribes and rebuilds the index |
| DataStorage.Storage.SubscribeAll | apps/DS/fsw/src/ds_table.c:809-833 | adds exactly the foreign valid IDs of the table |
| DataStorage.Storage.UnsubscribeAll | apps/DS/fsw/src/ds_table.c:841-865 | removes exactly those |
| DataStorage.Storage.AppInitialize | apps/DS/fsw/src/ds_app.c:176-271 | zeroes, loads tables, then consults the CDS: the restart step of the state machine |
| DataStorage.Storage.SetAppStateCmd | apps/DS/fsw/src/ds_cmds.c:115-148 | sets the enable state and the CDS, or rejects |
| DataStorage.Storage.SetFilterFileCmd | apps/DS/fsw/src/ds_cmds.c:156-249 | changes the file index of one filter, or rejects |
| DataStorage.Storage.SetFilterTypeCmd | apps/DS/fsw/src/ds_cmds.c:257-350 | changes the type of one filter, or rejects |
| DataStorage.Storage.SetFilterParmsCmd | apps/DS/fsw/src/ds_cmds.c:358-456 | changes N, X and O of one filter, or rejects |
| DataStorage.Storage.SetDestTypeCmd | apps/DS/fsw/src/ds_cmds.c:464-521 | changes the name type of one entry, or rejects |
| DataStorage.Storage.RefillField | apps/DS/fsw/src/ds_cmds.c:592-640 | copies the command's string into the field, bounded and terminated |
| DataStorage.Storage.SetDestPathCmd | apps/DS/fsw/src/ds_cmds.c:592-640 | changes the path of one entry, or rejects |
| DataStorage.Storage.SetDestBaseCmd | apps/DS/fsw/src/ds_cmds.c:648-695 | changes the base name of one entry, or rejects |
| DataStorage.Storage.SetDestExtCmd | apps/DS/fsw/src/ds_cmds.c:703-750 | changes the extension of one entry, or rejects |
| DataStorage.Storage.SetDestSizeCmd | apps/DS/fsw/src/ds_cmds.c:758-814 | changes the size limit of one entry, or rejects |
| DataStorage.Storage.SetDestAgeCmd | apps/DS/fsw/src/ds_cmds.c:822-878 | changes the age limit of one entry, or rejects |
| DataStorage.Storage.SetDestStateCmd | apps/DS/fsw/src/ds_cmds.c:529-584 | changes table and status, or rejects |
| DataStorage.Storage.SetDestCountCmd | apps/DS/fsw/src/ds_cmds.c:886-955 | changes table, status and CDS, or rejects |
| DataStorage.Storage.CloseFileCmd | apps/DS/fsw/src/ds_cmds.c:963-996 | closes one destination if it is open |
| DataStorage.Storage.CloseAllCmd | apps/DS/fsw/src/ds_cmds.c:1004-1023 | closes all that are open |
| DataStorage.Storage.AddMIDCmd | apps/DS/fsw/src/ds_cmds.c:1116-1206 | wherever its searches end, does what `AppCommands.AddMidIs` is about, and appends the link |
| DataStorage.Storage.RemoveMIDCmd | apps/DS/fsw/src/ds_cmds.c:1214-1300 | wherever its search ends, does what `AppCommands.RemoveMidIs` is about, and rebuilds the index |
| DataStorage.Storage.AppProcessCmd | apps/DS/fsw/src/ds_dispatch.c:420-571 | dispatches every command to its handler |
| DataStorage.Storage.AppSendHkCmd | apps/DS/fsw/src/ds_app.c:279-389 | age tests, table loads, growth rates, in this order |
| DataStorage.Storage.AppStorePacket | apps/DS/fsw/src/ds_app.c:397-421 | counts a packet as disabled or ignored, or stores it |
| DataStorage.Storage.AppProcessMsg | apps/DS/fsw/src/ds_dispatch.c:375-412 | wherever the state machine can take a step, the updating code takes exactly that step |

## Left out

- Event messages, syslog, performance log, the hex dump of packets, and the telemetry of housekeeping and file information: output only.
- The counters of file writes, header updates and table loads, which nothing else reads.
- The length check of each command: all wrong lengths and unknown codes are one `Malformed` command that only counts a rejection.
- Outcomes of `CFE_TBL_GetAddress` other than "a new table passed validation" and "nothing new", and tables kept in the CDS (`DS_MAKE_TABLES_CRITICAL` is 0).
- Start-up failures of event services, pipe or subscriptions, after which DS does not run.
- Files that were on disk before the first start or are changed by others, directories, and a move that copies instead of renaming.
- DestFileProofs.SetupWriteWithinSize: the sum of size and packet length is taken in a `size_t` wider than 32 bits; on a 32-bit target it could wrap for limits near 2^32.
- HashTable.LinkTable.FindMsgID: stated for searches that end; where they do not, the original spins, and the state machine has no next state.
- DataStorage.Storage.CloseFileCmd: requires a loaded destination table wherever a file is open, which `AppRuns.RunHandlesAndCounters` proves of every run; the original would follow a NULL pointer.
- FileFormat.ParseOfLayout: names are compared as bytes; decoding them to text is not modelled.
- `decode_payload`, which can raise `ValueError` on a payload of the wrong length, `flatten`, the CSV output, the comparison with automations, and the writing of the photo file: what happens to the packets that the readers deliver.
- The TCP listener, the HK application and the scheduler: no part of the storage path.
