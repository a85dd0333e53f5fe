# Crabline, verified

Crabline gives a test driver for OpenClaw: fake chat servers, providers that
record what they see, and the files by which two processes find each other. This
project models the parts of it that must hold under crashes, interleavings and
growing files, and proves what they are for. `dafny verify dfyconfig.toml` checks
all of it.

* **MutationClaim** - the lock of `private-file.ts` that is made only of `link`,
  `rename`, `unlink` and reads. A state machine takes one file operation of one
  attempt per step; any operation may fail and any process may crash at any step.
  An `Id` stands for an attempt, its file and its owner contents at once (owner
  contents are unique), and `Next(id)` is the digest name of a claim's successor.
  The inode number of a file is given to a new one once the file has no name and
  no open handle; the sweep and the duplicate test compare numbers.
  **MutationClaimRuns** has what holds in every run, **MutationClaimAlone** the
  undisturbed acquisition, release and rollback, **MutationClaimFaults** what
  checks, failures and overtaken reads do, **MutationClaimMoves** the larger steps
  of which runs are made, and **MutationClaimReuse** where the lock fails.
* **RecorderLog, RecorderReader, RecorderAppend, RecorderWait** - the append-only
  record log: what a log says, the incremental reader, torn-tail repair, the
  bounded index of identities, batch appends of several processes across crashes
  and failed writes, and waiting for events. JSON enters through a `Codec`. Its
  laws: white space does not parse; a batch line has no newline and no proper
  prefix of it parses; it parses back if each event passes the envelope check
  (`WellFormed`), and is refused otherwise, which the writer does not look at.
  **RecorderCodec** shows that the laws can be met together.
* **ArtifactStore** - generations of artifacts that are staged, installed,
  validated, made current by one switch of the artifact pointer file, pruned and
  rolled back. Every operation may throw or be the last one before a crash.
* **FeishuFragments, FeishuChats, FeishuBroker** - the Feishu event broker: the
  fragments of an event, chats and reply threads, and the queue of events with
  the reservations of each socket. The code between two awaits is one method.
* **JsonSize** - the early-exit byte counter against the text that
  `JSON.stringify` writes (section 25.5.2 of ECMA-262, section 3 of RFC 3629).
* **LazyProvider** - operations, watches and cleanup of a provider that is made
  on first use. `Allowed` says what may follow what at the provider's edge.
* **JwtKeys, CacheControl** - the key resolver's fetches, cooldown and table of
  unknown key ids, and the cutting of a cache-control header.
* **ReadinessLease** - time stamps of the readiness lock under a clock that may
  go back.
* **QaTarget, ProviderIds** - the printer and the parser of QA targets over
  UTF-16 code units, and the registry of provider ids.
* **DiscordState** - reactions with their actors, voice states with their
  sessions.

Four promises do not hold on every input. For each the project has an input, and
says when it holds:

* Two live attempts can own the mutation claim at once: `TwoOwners`. A contender
  that remembers a dead claim, whose file is gone, takes a new claim file with the
  same inode number for a duplicate of it, and unlinks it (`WalksAreSimple`: what
  it takes for a duplicate never is one). An unlink of that branch keeps the
  invariant and everybody's links exactly if no other live attempt relies on the
  path (`DuplicateKeepsIff`). Where all of them are such, one attempt holds the
  claim (`MutualExclusion`); after one that is, nobody comes to own it a second
  time without another unlink of that branch (`SparedIsSafe`). After one that is
  not, two attempts can come to own it without another, if somebody walked over
  the path and can still rename over the root, if the path is the checked link of
  somebody who can, or if somebody who rolls back is about to unlink what is there
  (`UnlinkLoses`). The other ways to rely on a path are a link that is not checked
  yet, or of an attempt that has renamed or rolls back otherwise, the next entry
  of a sweep, and a walk without its candidate, with outdated reads or at a
  duplicate itself. The invariant speaks of them; whether they alone let the claim
  be lost is not decided here. Where no new file gets a number that a live attempt
  remembers, the branch is not reached at all (`RememberedNumbersAreSafe`). The
  sweep takes a live attempt's link, its candidate, exactly if that attempt's
  number is one that is swept (`LiveLinksAreSafe`, `SweepTakesIff`). In every run,
  the lost ones too, an acquisition that runs alone succeeds (`AcquireAlone`), and a
  rollback leaves no name of its file but one that the release of another attempt
  has given it (`RollBack`, `ReleaseTakesAnother`).
* An event that the envelope check refuses, say with an empty id, is written, and
  from then on every read and append of that log fails: `EmptyIdDooms`,
  `DoomedForGood`. A log stays readable exactly until the whole text of such a
  batch is in it: `AppendKeepsBatchLogIff`, `AppendAll`.
* The byte counter is off where a symbol or a bigint is a value, where a primitive
  is boxed (it is counted by its properties and written as the primitive), or where
  a function is the whole value. It is right about a value without cycles and
  everything in it exactly if there is no symbol and no bigint in it, each boxed
  primitive is as long as an object with its properties, and it is not itself a
  function or a bigint: `ExactIffPlain`, with the errors in
  `SymbolItemIsUndercounted`, `SymbolPropertyIsOvercounted`,
  `BigIntPropertyIsMissed`, `BoxedNumberCountsTwo`, `BoxedBigIntIsMissed` and
  `BoxedCycleIsRefused`.
* The lease stamp in the owner's own directory, unlike the one in the
  reservation, can go back after a renewal that failed between its two writes:
  `OwnedMayDecrease`. Over a sequence of renewals it never does exactly if none
  of them meets the guard `SetsBack`: `NeverBackIff`.

## Model

| member | source | states |
|---|---|---|
| MutationClaim.RunStepKeeps | src/openclaw/private-file.ts:1772-2091 | every step of every attempt, any failed operation and any crash keep what holds in every run: successor links follow the order of death, walks are chained and in that order, the links of an attempt that can fail are on its list unless a release has renamed them, files in use have different numbers |
| MutationClaim.StepKeeps | src/openclaw/private-file.ts:1772-2091 | every step of every attempt, any failed operation and any crash keep the full invariant, if the unlink of a supposed duplicate spares what other live attempts rely on: besides, a walk stays in place while the root does, an attempt has exactly the names it believes to have |
| MutationClaimRuns.EveryRunKeeps | src/openclaw/private-file.ts:1772-2091 | what every step keeps holds after every run of any number of attempts |
| MutationClaimRuns.RunKeeps | src/openclaw/private-file.ts:1772-2091 | the full invariant holds after every run of any number of attempts in which no unlink of a supposed duplicate takes what another live attempt relies on |
| MutationClaimRuns.MutualExclusion | src/openclaw/private-file.ts:1895-2048 | in every run whose unlinks of supposed duplicates are such, at most one live attempt stands between installing its claim and releasing it, and the root names its file all that time; that a release gives the root back is `ReleaseAlone` |
| MutationClaimRuns.DuplicateKeepsIff | src/openclaw/private-file.ts:1875-1889 | the unlink of a supposed duplicate keeps the invariant and the links of all other live attempts exactly if none of them has, remembers or is about to sweep that path |
| MutationClaimReuse.UnlinkLoses | src/openclaw/private-file.ts:1875-1889 | after the unlink of a supposed duplicate that another live attempt has walked over, and can go on from to rename over the root, that is its checked link before it renames, or that its rollback is about to unlink, a continuation without another such unlink ends with two owners |
| MutationClaimReuse.SparedIsSafe | src/openclaw/private-file.ts:1875-1889 | after one that takes nothing that another live attempt relies on, no continuation without another such unlink ends with two owners |
| MutationClaimReuse.TwoOwners | src/openclaw/private-file.ts:1875-1889 | there is a run with one unlink of a supposed duplicate after which two live attempts own the claim |
| MutationClaimReuse.ReleaseTakesAnother | src/openclaw/private-file.ts:2019-2024 | there is a run with one such unlink in which a release has renamed the file of another attempt, which rolls back |
| MutationClaimMoves.DropsDuplicate | src/openclaw/private-file.ts:1833-1889 | a dead claim with a number that was met before is read twice and unlinked, and the walk starts over |
| MutationClaimRuns.LiveLinksAreSafe | src/openclaw/private-file.ts:1724-1765 | in runs whose unlinks of supposed duplicates spare what others rely on, no step of another attempt gives a live attempt's file a name or takes one away, unless its number is one that the other attempt walked, or the step is the unlink of that very path as a duplicate |
| MutationClaimRuns.SweepTakesIff | src/openclaw/private-file.ts:1727-1754 | the sweep takes a live attempt's link exactly if the attempt's number is one that is swept, and then it is the candidate |
| MutationClaimRuns.RememberedNumbersAreSafe | src/openclaw/private-file.ts:1724-1889 | where no new file gets a number that a live attempt remembers, no claim is taken for a duplicate, and nobody else touches a live attempt's links |
| MutationClaim.OpenFilesHaveTheirNumber | src/openclaw/private-file.ts:1604-1635 | what has the number of a file that is open is that file, so checks by number of one's own or of the opened file are exact |
| MutationClaim.OneTail | src/openclaw/private-file.ts:1821-1893 | the chain that starts at one root ends in at most one live claim |
| MutationClaimRuns.WalksAreSimple | src/openclaw/private-file.ts:1821-1893 | in every run the cycle error is unreachable, a walk meets each dead claim once, and what is taken for a duplicate is another file than the claim with its number, which is gone |
| MutationClaim.OperateKeeps | src/openclaw/private-file.ts:1821-2083 | an operation touches names of its own file only, except for the promotion, which replaces a dead owner's name; what the operations together achieve is in `AcquireAlone`, `ReleaseAlone` and `RollBack` |
| MutationClaim.PickedIsRemovable | src/openclaw/private-file.ts:1727-1754 | what the sweep chooses to unlink is a name of a dead owner, or the candidate of a live attempt with a swept number |
| MutationClaim.PromotionIsExclusive | src/openclaw/private-file.ts:1895-1924 | when one live attempt is about to rename over the root, no other holds it or is about to |
| MutationClaimAlone.AcquireAlone | src/openclaw/private-file.ts:1772-2010 | from every reachable state in which all names are of crashed attempts, also after the claim was lost, an undisturbed acquisition ends owning the root; it has walked the whole chain of dead claims from the old root on, all names of these are gone, and no other name is changed |
| MutationClaimAlone.ReleaseAlone | src/openclaw/private-file.ts:2012-2048 | in every such run an undisturbed release of an owned claim ends done: the root and every name of the owner's file are gone, and no other name or attempt has changed |
| MutationClaimAlone.HandOver | src/openclaw/private-file.ts:1772-2048 | after the release of the only live owner another acquisition, undisturbed, owns the root |
| MutationClaimAlone.RefusedAlone | src/openclaw/private-file.ts:1840-1862 | while a live attempt owns the claim, an undisturbed acquisition by another ends without it and leaves every name as it was |
| MutationClaimAlone.RollBack | src/openclaw/private-file.ts:2051-2083 | in every run an undisturbed rollback removes the names of the failed attempt's file and no other name; left are only names that another attempt's release has given the file, and none where no unlink of a supposed duplicate took what others rely on |
| MutationClaimAlone.FailureStartsRollBack | src/openclaw/private-file.ts:2051-2083 | in every run, whatever step fails an acquisition, an exception, a live owner or a check, starts that rollback, with every linked path still to visit, and every name of the file is one of them, its candidate, or given by another attempt's release; an exception and a live owner always do, and no other way leads out of an acquisition |
| MutationClaimFaults.LeftIsFailed | src/openclaw/private-file.ts:2051-2083 | whatever steps of a rollback fail, it goes on: at its end a name that was to be removed is left only if its unlink was tried and failed |
| MutationClaimFaults.FailedRelease | src/openclaw/private-file.ts:2019-2047 | a release that fails up to its rename leaves the claim owned, one that fails later has given the root back; neither failure changes a name |
| MutationClaimFaults.ChecksHold | src/openclaw/private-file.ts:1604-1635 | in every run, the lost ones too, an attempt passes a check of its links, that before owning and that before releasing among them, exactly if its file has the names it should have and no others |
| MutationClaimFaults.DuplicateIsChecked | src/openclaw/private-file.ts:1875-1883 | a supposed duplicate is unlinked only after its path still had the number that was read |
| MutationClaimFaults.ReadsStartOver | src/openclaw/private-file.ts:1840-1874 | whatever becomes of a path while the walk reads it, the acquisition does not fail: it starts over at the root, with nothing remembered, exactly if the path is gone, names another file than was opened, or the second read is of another file than the first |
| MutationClaimFaults.MissingNameFails | src/openclaw/private-file.ts:1821-2050 | if the name that the next operation needs was taken away, the acquisition fails and changes no name before its rollback |
| MutationClaim.OwnerIsActive | src/openclaw/private-file.ts:2145-2163 | a running owner is never judged dead, an absent pid is, an earlier process with the contender's own pid is told by its start, and the verdict is exact where identities tell processes apart |
| RecorderReader.IncrementalReader.Reset | src/providers/recorder.ts:257-270 | a reset reader has read nothing, and is in a new generation unless it was blank |
| RecorderReader.IncrementalReader.ConsumeRecordedChunk | src/providers/recorder.ts:291-324 | the remembered bytes are the last 4096 of all read; it fails with the length error exactly if what is unfinished is over 4 MiB, and otherwise gives what the lines that the chunk completes say, with the rest pending |
| RecorderReader.IncrementalReader.ReadAppend | src/providers/recorder.ts:1137-1206 | one read, of at most 256 KiB and with any short reads, goes on from the offset exactly if the file still has there what was read last, and otherwise starts over in a new generation; it gives what the completed lines say, a replaced file is a new generation in either case, and a read that throws leaves the reader as it was |
| RecorderReader.ReadOn | src/providers/recorder.ts:1137-1206 | a reader that stands in a log still does after a read of it, the events so far are those of the completed lines before its offset, and a failure proves the log unsound |
| RecorderReader.PrefixesAgree | src/providers/recorder.ts:291-324 | from any offset to any later one, tail, completed lines and remembered bytes of the longer prefix follow from those of the shorter |
| RecorderReader.FollowGrowth | src/providers/recorder.ts:1137-1206 | over every growth of a file and all cut points, the events read are the one-shot reading of the completed lines, which with the pending tail is the one-shot reading of the log; no log with short lines trips the length error |
| RecorderReader.ShortLinesIff | src/providers/recorder.ts:291-324 | no cut leaves more than 4 MiB unfinished exactly when every line and the tail are within 4 MiB |
| RecorderReader.BrokenIsUnsound | src/providers/recorder.ts:1137-1206 | a read fails only on a log whose completed lines do not parse or that has a line over the bound |
| RecorderLog.LinesOfConcat | src/providers/recorder.ts:291-324 | the lines of a longer log are those of the shorter and those of its tail with what is new |
| RecorderLog.ReadRecordedInbound | src/providers/recorder.ts:1339-1374 | the loop over lines gives the events of all completed lines and of a whole tail, and ignores a tail that is a syntax error |
| RecorderLog.OneMoreLine | src/providers/recorder.ts:1339-1374 | in terms of the parser: a line adds nothing if it is blank, its events if it is read, and is an error otherwise, except that an unfinished line may be a syntax error |
| RecorderLog.PrepareRecorderTail | src/providers/recorder.ts:535-570 | the search for a newline in one window at the end decides the repair as the whole file would |
| RecorderLog.RepairIs | src/providers/recorder.ts:548-569 | a repair is refused exactly for a tail over 4 MiB and for one that fails the envelope check; otherwise the log gains a newline or loses its tail, as the tail parses or not |
| RecorderLog.WindowTail | src/providers/recorder.ts:535-570 | the last newline of the window is the last of the file |
| RecorderLog.RepairKeepsReads | src/providers/recorder.ts:535-570 | if white space is no JSON text, a repaired log has no tail, keeps every completed line, reads as before, and needs no more repair |
| RecorderLog.CrashIsAllOrNothing | src/providers/recorder.ts:1262-1281 | whatever prefix of a batch line a crash leaves, the repaired log holds the batch or not a byte of it; the repair is refused exactly for the whole text, without its newline, of a batch with an event that the envelope check refuses |
| RecorderCodec.LawsCanBeMet | src/providers/recorder.ts:207-255 | the laws assumed of JSON text and of the envelope check do not contradict each other |
| RecorderAppend.SpacedWindow | src/providers/recorder.ts:164-179 | where equal keys are more than 4096 apart, the first-in-first-out index is the last 4096 keys in order |
| RecorderAppend.WindowConcat | src/providers/recorder.ts:164-179 | remembering a log piece by piece gives the index of the whole log |
| RecorderAppend.RecordIdentityIndex.Sync | src/providers/recorder.ts:1306-1337 | after a sync the index is that of the whole log, also when the generation has changed; it fails only on an unsound log, and can be used again |
| RecorderAppend.RecordIdentityIndex.UsedIndexTrusts | src/providers/recorder.ts:1306-1337 | an index that knows a log can be used on whatever that log has grown to |
| RecorderAppend.FilterBatch | src/providers/recorder.ts:1241-1261 | the loop with its set of pending identities gives the events whose key is neither indexed nor earlier in the batch; what keys and index mean is in `SameKeyIff` and `AddedAreNew` |
| RecorderLog.SameKeyIff | src/providers/recorder.ts:1302-1304 | two events have the same identity exactly if they agree in provider, thread, id and direction, which is the recorded one or else that of the raw payload |
| RecorderAppend.AddedAreNew | src/providers/recorder.ts:1241-1261 | what is added to a batch log are the events of the batch, in order, that differ so from the last 4096 records and from all earlier ones of the batch |
| RecorderAppend.AppendRecordedInboundBatch | src/providers/recorder.ts:1229-1300 | an append leaves the repaired log with the new events' line, without it, or with the part that was written before a crash or an error; one that reports success has added, in order, exactly those events of the batch that differ in provider, thread, id or direction from each of the last 4096 records and from each earlier event of the batch; on a batch log that stays one the index stands at the end of what was confirmed, and in every case it can be used again |
| RecorderAppend.AppendKeepsBatchLogIff | src/providers/recorder.ts:1241-1291 | after an append the log is again one of readable batches with equal keys more than 4096 records apart exactly if the append did not bring in the whole text of a batch with an event that the envelope check refuses; other errors leave the log as it was |
| RecorderAppend.DoomedForGood | src/providers/recorder.ts:207-237 | after such a batch every read fails, whatever is written behind it |
| RecorderAppend.EmptyIdDooms | src/providers/recorder.ts:1241-1291 | an event with an empty id is written, the append fails, and nothing can be read from then on |
| RecorderAppend.RepairKeepsBatchLog | src/providers/recorder.ts:535-570 | such a log can always be repaired after a crash, to one without a tail that keeps every line |
| RecorderAppend.KnownBatchAddsNothing | src/providers/recorder.ts:1241-1261 | while the log has at most 4096 records, appending known events again adds nothing |
| RecorderAppend.AppendAll | src/providers/recorder.ts:1229-1300 | from an empty log on, over appends of any processes, each with the index it keeps until it dies or drops it, and with any crash or failed write, the log is one of readable batches with equal keys more than 4096 records apart exactly until an append brings in a batch that cannot be read back, and then it does not change |
| RecorderAppend.Recorders.Work | src/providers/recorder.ts:1229-1300 | over jobs of any processes, a batch of events each of which was in a batch that any of them recorded adds nothing in any later job while the log is readable and has at most 4096 records; the log is repaired and no more |
| RecorderAppend.Recorders.Handle | src/providers/recorder.ts:1229-1337 | whatever one process does, the indexes of all others still fit the log |
| RecorderWait.RecordedInboundCursor.WaitForRecordedInbound | src/providers/recorder.ts:1376-1430 | calls with one cursor return, in order, what the reference selection chooses of everything read, losing nothing that shared a read with an earlier match; what is returned is in the filter's direction, not early, and matches |
| RecorderWait.RecordedInboundCursor.Poll | src/providers/recorder.ts:1389-1414 | a read that throws leaves cursor and reader as they were |
| RecorderWait.SelectionGrows | src/providers/recorder.ts:1376-1430 | what is chosen stays chosen, in order, when more is read |
| RecorderWait.PassingRecordIsChosen | src/providers/recorder.ts:1389-1414 | a record that passes all filters and is not known in the window is chosen at its place |
| RecorderWait.ChosenIff | src/providers/recorder.ts:1389-1414 | without passing records one by one: chosen are, in order, exactly the records that pass the direction filter, have no other of their identity among the last 4096 different ones that passed before them since the file was replaced, are not early, and match |
| RecorderWait.FollowLog | src/providers/recorder.ts:1376-1430 | calls with one new cursor on a growing log find a prefix of what the reference chooses from the log, in order, and all that it chooses from what was read once nothing is buffered; each answer is one of the records that `ChosenIff` describes |
| ArtifactStore.Store.Publish | src/openclaw/artifact-generation.ts:660-926 | with failures and a crash anywhere: a present pointer file names a complete installed generation, and its predecessor is in the store; a publication that is reported names the new generation, whether it has a recorder snapshot, and the generation that was current as predecessor, whose directory is what it was; it switches to nothing else; an unreadable pointer file or an incomplete current generation fails it with nothing changed; without trouble it succeeds exactly when its artifacts are sound and its id is not taken, and then, or when it is refused, only referenced generations are left |
| ArtifactStore.Store.PublishAll | src/openclaw/artifact-generation.ts:660-926 | that over every run of publications: after one that is reported its generation is current, with its artifacts, after two the one before it is the predecessor, with its artifacts; after one that ends without warnings the store has the referenced generations only |
| ArtifactStore.Store.Prune | src/openclaw/artifact-generation.ts:619-658 | pruning never touches a retained generation, wherever it stops, and leaves nothing else when it ends |
| ArtifactStore.Store.RollBack | src/openclaw/artifact-generation.ts:887-920 | a failed publication removes its own directory, and no other, unless it is installed and the pointer file names it or cannot be read, when nothing changes |
| ArtifactStore.Store.Attempt | src/openclaw/artifact-generation.ts:813-859 | the pointer file is switched only to a generation that is installed and complete, even when the switch then throws |
| ArtifactStore.Store.RemoveDirectory | src/openclaw/private-file.ts:1118-1200 | a removal takes away one directory, by way of a tombstone, and no other |
| ArtifactStore.Store.ReadPointer | src/openclaw/artifact-generation.ts:357-441 | a missing file is no pointer, a malformed one or one that names a generation twice is an error |
| ArtifactStore.ReadValidCurrent | src/openclaw/artifact-generation.ts:586-617 | the pointer that is returned was read both before and after its generation was found complete; it gives up exactly when the file changed in each of the eight rounds |
| ArtifactStore.Settled | src/openclaw/artifact-generation.ts:813-920 | from a healthy store, whatever was installed and then kept leaves a healthy store with its referenced generations as they were |
| FeishuFragments.Reassembles | src/servers/feishu.ts:453-471 | sorting the frames of any order by their number and joining the slices gives the event back |
| FeishuFragments.CutsAscend | src/servers/feishu.ts:467-470 | the slices begin at 0, end at the length, and do not overlap |
| FeishuFragments.NoEmptySlice | src/servers/feishu.ts:442-470 | with no more fragments than bytes no slice is empty |
| FeishuFragments.SomeEmptySlice | src/servers/feishu.ts:442-444 | with more there is an empty one, so the bound is exact |
| FeishuChats.RootIsEnd | src/servers/feishu.ts:600-603 | the root of a reply is the end of its finite parent chain, in the same chat |
| FeishuChats.PersonAgrees | src/servers/feishu.ts:331-341 | a peer can be taken into the chat table exactly when neither the chat nor the peer is known otherwise |
| FeishuBroker.Broker.ChatConflict | src/servers/feishu.ts:329-341 | a conflict is found exactly when the table with the claim added would not say so or would give a peer two chats; spelled out for groups, persons and the bot |
| FeishuBroker.Broker.Retain | src/servers/feishu.ts:342-359 | a message is kept exactly within both bounds, with what it says of its chat; table and threads stay consistent, no entry changes, the bot is never a peer |
| FeishuBroker.Broker.Admit | src/servers/feishu.ts:378-477 | admission succeeds exactly under the listed bounds and identities, enters the peer or the group of a new chat, and queues one delivery: fragment by fragment in the order asked for, with the next two numbers each, and with the bytes that its index cuts out; otherwise nothing is kept |
| FeishuBroker.Broker.IsOrder | src/servers/feishu.ts:404-412 | the test of length, set size and range is that of a permutation |
| FeishuBroker.Broker.Reply | src/servers/feishu.ts:554-606 | a reply goes to the chat of its parent, and its root is the end of the chain |
| FeishuBroker.Broker.Create | src/servers/feishu.ts:582-606 | after a message to a person the table has that person's only chat |
| FeishuBroker.Broker.Take | src/servers/feishu.ts:273-290 | the oldest pending event is reserved on one open socket, which no event taken before can be |
| FeishuBroker.Broker.Sent | src/servers/feishu.ts:298-313 | a written event has its timer started, a failed one is released once, and one already released is left alone |
| FeishuBroker.Broker.ClearAck | src/servers/feishu.ts:214-221 | a reservation is released at most once, and the count goes down with it |
| FeishuBroker.Broker.Flush | src/servers/feishu.ts:267-328 | a flush that ends leaves nothing that could be sent, and events go first come, first sent |
| FeishuBroker.Broker.Receive | src/servers/feishu.ts:712-736 | a frame is accepted exactly when it is for an event that its own socket holds, matches its headers, has code 200 or 500, and has the two numbers of the last fragment, by the number with which the event was admitted and its count of fragments; it then releases that event only |
| FeishuBroker.Broker.Expire | src/servers/feishu.ts:303-311 | a timer releases only a reservation whose timer runs |
| FeishuBroker.Broker.Connect | src/servers/feishu.ts:652-677 | a socket is taken exactly while the server is open and below its bound |
| FeishuBroker.Broker.Disconnect | src/servers/feishu.ts:679-685 | a closed socket has its reservations released, and no others are |
| FeishuBroker.Broker.Close | src/servers/feishu.ts:774-786 | after close every admitted event is resolved and nothing is outstanding |
| FeishuBroker.InOnePlace | src/servers/feishu.ts:267-328 | every admitted event is in exactly one of pending, reserved on one socket, or resolved |
| FeishuBroker.ReservationKeeps | src/servers/feishu.ts:285-290 | taking an event moves it from pending to one socket and adds one to the count of all reservations |
| FeishuBroker.Broker.Run | src/servers/feishu.ts:190-786 | in every interleaving the counts equal the reservations, all bounds hold, every reservation has a running timer or is being sent, and no event gets a second socket or a second outcome |
| JsonSize.JsonStringByteLength | src/core/run.ts:154-183 | the count of a string is the UTF-8 length of its quoted text within the limit, and passes the limit otherwise, for negative limits too |
| JsonSize.QuotedConcat | src/core/run.ts:154-183 | a quoted text is as long as its pieces, if it is not cut between the halves of a surrogate pair |
| JsonSize.QuotedUnit | src/core/run.ts:154-183 | one code unit takes 2 bytes with a short escape, 6 with another, and 1 to 3 otherwise |
| JsonSize.BoundedJsonByteLength | src/core/run.ts:185-244 | within the limit the answer is the full count, past it the answer is past it, and a cycle is reported unless the limit was passed before |
| JsonSize.ArraySize | src/core/run.ts:215-226 | the text of an array is as long as its items, 4 for one that is left out, its brackets and the commas between |
| JsonSize.RecordSize | src/core/run.ts:227-240 | the text of a record is as long as the entries that are not left out, each with its quoted key and a colon, its braces and the commas between |
| JsonSize.ScriptStdinPayloadFits | src/core/run.ts:246-252 | a payload without symbols and bigints, with boxed primitives only that are as long as they are counted, which is not a function, fits exactly when its serialized text does |
| JsonSize.CountIsSize | src/core/run.ts:185-244 | where serialization does not throw, the full count is the serialized size plus the excess; without boxed primitives, where there is no count, it throws |
| JsonSize.ThrowsIff | src/core/run.ts:203-212 | serialization throws exactly where, with each boxed primitive replaced by what it boxes, the calculator meets a cycle or there is a bigint, which the calculator counts as nothing |
| JsonSize.ExactIffNoExcess | src/core/run.ts:185-252 | the calculator is right under every limit exactly when it meets a cycle and serialization throws, or neither is so and the excess is zero |
| JsonSize.ExactIffPlain | src/core/run.ts:185-252 | on a value without cycles it is right about the value and every object in it exactly when there is no symbol and no bigint in it, each boxed primitive is as long as it is counted, and the value is not a function or a bigint |
| JsonSize.NoExcess | src/core/run.ts:203-236 | there is no excess in a value without symbols whose boxed primitives are as long as they are counted |
| JsonSize.SymbolItemIsUndercounted | src/core/run.ts:203-205 | an array of one symbol counts 2 and is written in 6 bytes |
| JsonSize.SymbolPropertyIsOvercounted | src/core/run.ts:227-236 | a record with one symbol counts 5 and is written in 2 bytes |
| JsonSize.BigIntPropertyIsMissed | src/core/run.ts:203-236 | a record with one bigint counts 6 and cannot be written |
| JsonSize.BoxedNumberCountsTwo | src/core/run.ts:227-236 | an array of one boxed number counts 4 and is written with the digits of the number |
| JsonSize.BoxedBigIntIsMissed | src/core/run.ts:227-236 | a boxed bigint counts 2 and cannot be written |
| JsonSize.BoxedCycleIsRefused | src/core/run.ts:206-236 | a boxed number that is its own property is refused as a cycle and is written |
| JsonSize.CycleThrows | src/core/run.ts:206-242 | a cycle that the calculator meets in a value with such boxed primitives only is one that serialization throws on |
| JsonSize.CountedIsAcyclic | src/core/run.ts:206-212 | what is counted holds no cycle |
| JsonSize.AcyclicIsCounted | src/core/run.ts:206-242 | what holds no cycle is counted, shared parts included |
| LazyProvider.CleanupIsLast | src/providers/registry.ts:395-450 | in an orderly log provider.beginCleanup comes once at most, after every admitted operation was handed over or failed, and nothing is admitted, made, handed over or watched after it; provider.cleanup comes later |
| LazyProvider.Lazy.Run | src/providers/registry.ts:303-493 | in every interleaving of operations, aborts, watches, factory results and cleanup the log is orderly, and provider.beginCleanup has run exactly when it could |
| LazyProvider.Lazy.RunOperation | src/providers/registry.ts:452-474 | an operation is admitted exactly before cleanup and with a live signal |
| LazyProvider.Lazy.Resume | src/providers/registry.ts:471-486 | an operation whose provider is ready is handed over or has failed, and then no longer holds back cleanup |
| LazyProvider.Lazy.BeginProviderCleanupIfReady | src/providers/registry.ts:440-450 | provider.beginCleanup runs exactly when cleanup has begun, the provider is there and every operation is dispatched |
| LazyProvider.Lazy.CleanProvider | src/providers/registry.ts:395-426 | provider.cleanup runs after all dispatch barriers, those of watches included |
| LazyProvider.Lazy.ResumeWatch | src/providers/registry.ts:364-387 | a watch whose provider is ready and supports it starts, exactly if it is not aborted, and never after cleanup; nothing else happens at the provider's edge |
| LazyProvider.Lazy.Provider | src/providers/registry.ts:349-362 | the factory is called again only after it has failed, and nobody waits for a promise that has |
| JwtKeys.Append | src/providers/signed-jwt.ts:305-378 | each start, failure, first timeout or success keeps the order of fetches: times ascend, none starts within the cooldown of a failure, and none within that of a first timeout unless the very fetch that timed out has succeeded |
| JwtKeys.Resolver.Run | src/providers/signed-jwt.ts:289-378 | in every interleaving fetches are patient, only the current one counts, and the table of unknown ids has at most 128 entries |
| JwtKeys.Resolver.FetchKeys | src/providers/signed-jwt.ts:305-356 | a caller joins the fetch in flight if it has no retry time or is before it; otherwise that fetch is dropped, and the caller is refused exactly within the cooldown and starts the next fetch after it |
| JwtKeys.Resolver.Settle | src/providers/signed-jwt.ts:321-352 | only the current fetch changes anything: it is cached if it has not expired, its keys leave the table and the cooldown ends; a failure starts one from now |
| JwtKeys.Resolver.TimeOut | src/providers/signed-jwt.ts:359-369 | the first timeout of the current fetch sets its retry time and starts the cooldown, later ones do not move it |
| JwtKeys.Resolver.RejectUnknownKey | src/providers/signed-jwt.ts:289-303 | the key is entered, all expired entries go, and of the live ones only the oldest, if the table was full and none had expired; the table keeps its bound |
| JwtKeys.ValidateKeySet | src/providers/signed-jwt.ts:217-252 | accepted are exactly 1 to 128 non-empty, distinct key ids with a finite expiry |
| CacheControl.Split | src/providers/signed-jwt.ts:123-150 | the directives join to the header, each has closed quotes and no comma outside them; none exactly when the header's quotes are open |
| CacheControl.SplitIsUnique | src/providers/signed-jwt.ts:123-150 | there is only one such cut |
| CacheControl.ClosedIff | src/providers/signed-jwt.ts:128-148 | a text ends outside quotes exactly if it is made of quoted strings, with backslash escapes, and of characters other than quotes |
| ReadinessLease.NeverDecreases | src/openclaw/provider-readiness-lock.ts:1375-1403 | over every sequence of clock readings and failures the reservation's stamp never decreases |
| ReadinessLease.RenewalKeeps | src/openclaw/provider-readiness-lock.ts:1380-1399 | a renewal with the clock behind the last one or the last reading adds one to the stamp, another takes the clock's reading; it succeeds exactly if both writes do and the stamp is a safe integer |
| ReadinessLease.RenewalIsSeen | src/openclaw/provider-readiness-lock.ts:656-676 | a contender that confirms across such a renewal, among any others, reports it as renewed whatever its own clock says |
| ReadinessLease.Confirm | src/openclaw/provider-readiness-lock.ts:639-676 | changed is answered exactly for a suspected owner whose record now has another token, renewed exactly for one whose record has another stamp or is active again |
| ReadinessLease.FreshIsActive | src/openclaw/provider-readiness-lock.ts:623-637 | after a renewal in step with the clock the owner counts as active exactly within the lease |
| ReadinessLease.Owner.Renew | src/openclaw/provider-readiness-lock.ts:1375-1403 | the updates of the closure are the function that the lemmas speak of, and it succeeds exactly when both writes do and the stamp is a safe integer |
| ReadinessLease.OwnedMayDecrease | src/openclaw/provider-readiness-lock.ts:1392-1399 | the stamp in the owner's directory goes back in two runs, at once after a half renewal and one renewal later |
| ReadinessLease.NeverBackIff | src/openclaw/provider-readiness-lock.ts:1375-1403 | from any lease and over every sequence of clock readings and failures, that stamp never goes back exactly when no renewal of the sequence meets a guard on its clock reading and the stamps before it |
| ReadinessLease.WithoutHalves | src/openclaw/provider-readiness-lock.ts:1392-1399 | it never does where no renewal fails between its two writes |
| QaTarget.RoundTrip | src/openclaw/shared.ts:418-496 | printing and parsing gives back kind, trimmed conversation id and trimmed thread id, for all texts |
| QaTarget.PrintIsInjective | src/openclaw/shared.ts:485-496 | two inputs print alike exactly when these agree |
| QaTarget.Canonical | src/openclaw/shared.ts:418-496 | whatever parses, other than as a native target, means the same when it is printed again |
| QaTarget.Written | src/openclaw/shared.ts:485-496 | how a person, a group and a thread are written, in code units; a blank conversation id is an error |
| QaTarget.NativeIff | src/openclaw/shared.ts:418-475 | a target is native, with its trimmed text as the id of a person, exactly if it is not blank and does not begin with the name of a kind, in any case, that ends it or is followed by white space and a colon |
| QaTarget.ChannelIsNative | src/openclaw/shared.ts:459-462 | a channel is a group by its native id |
| QaTarget.PlainThread | src/openclaw/shared.ts:428-458 | a thread target without the version is one of a group, its components taken as they are |
| QaTarget.EscapedIff | src/openclaw/shared.ts:441-448 | the escapes of the UTF-8 octets of a code point decode to its code units |
| QaTarget.OnlyEscaped | src/openclaw/shared.ts:441-448 | no other escape decodes |
| QaTarget.DecodeEncode | src/openclaw/shared.ts:441-448 | decodeURIComponent undoes the two replacements |
| ProviderIds.Registry.ResolveLogical | src/openclaw/shared.ts:186-199 | a key gets its candidate exactly when no other key and no native id has it, and keeps it |
| ProviderIds.Registry.ReserveNative | src/openclaw/shared.ts:200-207 | a native id is refused exactly when it is the id of a key |
| DiscordState.Reactions.Update | src/servers/discord.ts:696-737 | a message lists an emoji once, exactly when it has actors, with their number; all other emojis and messages stay |
| DiscordState.Reactions.Replay | src/servers/discord.ts:607-746 | after any sequence of posts, deletions and reactions each message lists exactly the emojis with which somebody reacts, once, with the number of users whose last reaction was an addition |
| DiscordState.KeyIsText | src/servers/discord.ts:739-746 | the key of a parsed emoji is its text, so different emojis have different keys |
| DiscordState.CustomIff | src/servers/discord.ts:739-742 | an emoji is custom exactly if its text has 17 to 20 digits after a colon and one line before it; both parts are kept |
| DiscordState.KeysDiffer | src/servers/discord.ts:744-746 | equal keys come from equal messages and emojis |
| DiscordState.Voice.UpdateVoiceState | src/servers/discord.ts:1164-1259 | an update is refused exactly for an unknown guild or a channel that is no voice channel of it; voice states and live sessions stay in bijection with matching guild and user, and each guild lists the states of its members; staying keeps the session, moving and leaving end it, and no other member is touched |
| DiscordState.Voice.Replay | src/servers/discord.ts:1164-1259 | after any sequence of guilds, channels and voice updates that holds, and each member is where its last admitted update has put it |

## Left out

- Platform detail of `private-file.ts`: the directory fallback, removal or relocation of the containing directory, the claim chain over ancestors, waiting with a timeout, ACLs and `fsync`.
- Two identity checks that follow each other without an operation in between are one step of `MutationClaim`, and a link count is read in one step.
- MutationClaimReuse.UnlinkLoses: the ways to rely on a path that are named above as not decided.
- After a release that failed, the file of a claim is taken as still open.
- MutationClaim.OwnerIsActive: parsing of owner records and of the platform's process listings is not modelled; identities are given.
- Owner contents that two attempts share.
- JSON text itself in the recorder: parsing and printing are a `Codec` with laws, `recordedAt` is a stamp that is not compared, and of `raw`, which is taken as plain JSON data, only the direction matters.
- The least-recently-used limit of 128 indexed files (a dropped index is a job of its own), the retry of an append when the file is rotated meanwhile, locks, appends of single events, `watchRecordedInbound`, and a replaced file that collides with the 4096 continuity bytes (`Trusts`).
- RecorderWait.RecordedInboundCursor.WaitForRecordedInbound: timers are a given sequence of reads; matching is a given predicate.
- Contents of artifacts: `sound` stands for the field checks of `assertArtifactGenerationExists`; the readiness lock is taken as held, and the file that stages a pointer switch is not part of the store.
- ArtifactStore.ReadValidCurrent: `Publish` runs under the lock, where the pointer file does not change, so it uses the one-round form.
- HTTP parsing, tokens and the wire format of Feishu; sizes of JSON texts are parameters, and `valid` stands for the identifier checks.
- FeishuBroker.Broker.Create: the id of a new message and the digest of a receiver are parameters; random ids are taken as new.
- `toJSON`, on values and on the prototype of bigints, getters, and boxed primitives with a conversion of their own.
- A provider that calls back into cleanup while it is being handed an operation, errors that cleanup collects, and the iterator protocol of watches.
- LazyProvider.Lazy.FactorySettles: the settling of the factory's promise and its handlers are one step.
- Of the key resolver: lookup in the cached set, the refresh cooldown of unknown keys, signature and claim checks, and expiry from response headers.
- JwtKeys.Resolver.RejectUnknownKey: the empty key id, which `readHeader` refuses, is excluded.
- Of the readiness lock: acquisition, recovery, the commit fence and release.
- ReadinessLease.Owner.Renew: a write either succeeds or has no effect.
- DiscordState.Reactions.Replay: message ids are taken as new, as the clock and the counter make them; the actors of a deleted message stay in the table.
- DiscordState.Voice.Replay: session ids are random, and taken as new; closing a gateway session does not end voice states here.
- Rendering of reactions per user, gateway dispatch, and the keys of voice states, which are pairs here.
