# Verified model of the chat backend's stateful core

This project models four stateful parts of the chat backend as tables and transactions, and proves what
every run of them keeps:

1. **Resumable uploads and storage accounting.** The upload session machine (pending, committing, committed,
   with reset, stale takeover, cancel, expiry and purge), the one-shot upload, downloads, deletes, cleanup and
   account reset, which all move one counter, `users.storage_used`; and the binary container that every chunk
   is checked against.
2. **The mailbox.** The offline queue with leases and acknowledgements, online delivery with its timeout, and
   deduplicated lifecycle events.
3. **Admission control.** Token buckets with safe mode, and the sliding-window limiters with their shared wipe.
4. **Read cursors, the unread table and the backfill migration.**

## How it is built

Each component has the same four layers.

- A module of *tables and transactions* (`Uploads`, `Mailbox`, `Storm`, `RateLimits`, `ReadCursor`, `Unread`):
  a record of maps, and one function per committed transaction with the code's own branches.
- A module of *handlers* (`UploadStore`, `MailStore`, `StormGuard`, `RateStore`, `ReadStore`, `Backfill`): a
  class whose fields are the tables and whose methods work statement by statement, with the loops the code has.
  Every method is proved to make exactly the transition of its function, in whatever order rows come back.
- Modules of *outcomes* (`UploadOutcomes`, `CommitOutcomes`, `FileOutcomes`, `MailOutcomes`, `StormOutcomes`): what each
  transaction replies and leaves, told from the tables before and after it and from its arguments alone, with
  limits and lifetimes in numbers. `Replies` states how an ordered list of checks decides a reply.
- Modules of *runs and theorems* (`UploadRuns`, `UploadInvariant`, `UploadTheorems`, `UploadContent`,
  `UploadReports`, `UploadFileIds`, `UploadLifetimes`, `UploadRoundTrip`, `LateCleanup`, `MailRuns`, `MailTheorems`,
  `StormRuns`): arbitrary interleavings of all transactions from the empty server, with commit handlers that may
  stand between any two of their transactions and between any two chunk files they read. `UploadExamples` holds
  complete runs of the upload server.

`Container` and `Ledger` hold the chunk format and the sums over tables; `Sorting`, `Text` and `Wrappers` are helpers.
Times are one non-decreasing clock: seconds for uploads, milliseconds for the mailbox, exact reals for
admission control. SHA-256 is a function parameter `sha` about which nothing is assumed; where equal digests
are turned into equal bytes, the statement says that it needs a digest without collisions, and the round trip that
the digests are in hexadecimal.
Identifiers drawn at random (upload, file, delivery ids and lease tokens) are new whenever they are drawn.

`dafny verify dfyconfig.toml` checks everything.

## Findings

Where the code does not meet what one would expect of it, the model keeps the code's behaviour, and a lemma
gives the case and the exact condition.

- *The session may name a file that was never registered.* The finishing transaction does not look at the
  session's `file_id`. `UploadFileIds.NamesItsRow`: the committed session names the registered file if and only
  if nobody reset the session between that handler's claim and its finish. `UploadExamples.NamesUnregisteredFile`
  is a run of the empty server that gets there; it takes a stale takeover, and a chunk file that vanishes
  after the first handler has read it and before the second has.
- *The expiry cleanup reads its rows before its write transaction.* Runs model it as one step.
  `LateCleanup.LateExpireExactly` says for which later steps of a run the rows read still keep the accounts: no
  session read as uncommitted has since been committed or deleted, or the sessions that are left hold all
  of the user's counter. `UploadExamples.CleanupLosesCounter` is a run where a commit in between empties the counter.
- *A lifecycle event may never be counted unread.* If the "persisted" notice to the sender fails, routing stops,
  and every resend is a duplicate: `MailTheorems.UnreadWithFirst`, `MailTheorems.UnreadLost`.
- *The retry hint may be too short* by what truncation cuts off: `Storm.HintSuffices`, `Storm.HintTooShort`.
- *A refused call may still spend the user's token*: `Storm.RefusalSpends`, exactly when the user is not in safe
  mode and the user's bucket held a token before the call. The seventh login of a session: `StormRuns.SeventhLogin`.
- *A limiter can let twice its limit through one window* around a wipe, and never more:
  `RateLimits.DoubleBound`, `RateLimits.DoubleReached`.
- *The first copy of a message decides* which read marks count, later copies with another peer or rank are ignored:
  `Unread.IgnoredCopy`.

## Model

| member | source | states |
|---|---|---|
| Container.CheckSound | chat_backend/resumable_uploads.py:99-132 | a chunk that passes is the header (first chunk only) followed by the length-prefixed encoding of one legal frame |
| Container.CheckComplete | chat_backend/resumable_uploads.py:99-132 | the encoding of every legal frame passes, and the frame is read back |
| Container.HeaderExactly | chat_backend/resumable_uploads.py:99-118 | a header is its 16 fixed bytes and any 32 more |
| Container.AcceptedExactly | chat_backend/resumable_uploads.py:99-132 | byte for byte, which chunk lists are accepted: framed as their length bytes say, all full but the last, which is empty only if it is alone |
| Container.FaultIsFirst | chat_backend/resumable_uploads.py:99-132 | the fault reported is the first one, from header through length to size |
| Container.AcceptedSize | chat_backend/resumable_uploads.py:119-132 | every accepted chunk but the last is full, and none exceeds the default chunk limit |
| Container.ChunksOfFileOf | chat_backend/resumable_uploads.py:99-132 | accepted chunks decode to a legal file whose encoding is those chunks |
| Container.FileOfChunks | chat_backend/resumable_uploads.py:99-132 | a legal file encodes to accepted chunks that decode to that file |
| Container.ParseOfConcat | chat_backend/resumable_uploads.py:692-712 | round trip through the whole file: the joined chunks of a legal file parse back to it |
| Container.ConcatOfParse | chat_backend/resumable_uploads.py:692-712 | whatever the whole-file parser accepts is the join of its own chunks |
| Container.AcceptedParses | chat_backend/resumable_uploads.py:692-712 | chunk-by-chunk acceptance makes the assembled file parse, to exactly the accepted frames |
| Container.ParsesExactlyAccepted | chat_backend/resumable_uploads.py:99-132 | a byte string is the join of some accepted chunk list if and only if it parses |
| Container.UniqueSplit | chat_backend/resumable_uploads.py:99-132 | two accepted chunk lists with the same join are equal |
| Container.SizeFixesLayout | chat_backend/resumable_uploads.py:119-132 | the size alone gives the chunk count, ceil((size - 48) / (4 MiB + 20)), and every chunk boundary |
| Conservation.CreateConserves | chat_backend/resumable_uploads.py:369-396 | opening a session keeps every user's counter equal to reservations plus registered files |
| Conservation.CancelConserves | chat_backend/resumable_uploads.py:832-853 | so does cancelling, and MAX(0, ...) changes nothing |
| Conservation.FinishConserves | chat_backend/resumable_uploads.py:734-773 | so does a commit, which trades the reservation for a registry row of the same size |
| Conservation.DropSessionsConserves | chat_backend/resumable_uploads.py:221-298 | so does dropping any set of sessions, in any order, and no MAX(0, ...) takes effect |
| Conservation.RollbackConserves | chat_backend/legacy_app.py:3112-3132 | so does rolling a one-shot upload back |
| Conservation.CleanFilesConserves | chat_backend/legacy_app.py:1599-1622 | so do both loops of the scheduled cleanup, of which only the first has MAX(0, ...) |
| Conservation.EarlyReturnSound | chat_backend/legacy_app.py:4426-4431 | a user without files ends the purge with a counter of zero, so returning before the reset to zero loses nothing |
| Conservation.RemoveUserFilesConserves | chat_backend/legacy_app.py:4426-4455 | account reset keeps the accounts |
| Conservation.DeregisterConserves | chat_backend/legacy_app.py:4350-4399 | deleting an account keeps the accounts of everyone else |
| UploadRuns.StepConserves | chat_backend/resumable_uploads.py:221-298 | every step of every handler keeps the accounts, with and without the MAX(0, ...) clamps alike |
| UploadTheorems.ClampsNeverMatter | chat_backend/legacy_app.py:3189-3208 | a run with the MAX(0, ...) clamps and the same run without them go through the same states |
| UploadTheorems.StorageConserved | chat_backend/resumable_uploads.py:392-395 | in every reachable state each counter is the sum of the user's uncommitted reservations and registry rows |
| UploadContent.CommittedContent | chat_backend/resumable_uploads.py:686-769 | in every reachable state each row made by a commit has the declared owner, size and digest, and its file, unless the disk lost it, is the in-order join of bytes of accepted puts that pass the chunk check |
| UploadContent.CommitMadeOf | chat_backend/resumable_uploads.py:692-769 | whatever interleaves, a handler that adds its row has read each chunk in a step of its own after reading the session, each was as its row said, and each is the bytes of an accepted put for its index |
| UploadContent.PartFitsAt | chat_backend/resumable_uploads.py:503-549 | in every reachable state a stored chunk file has the size and digest of its row |
| UploadContent.AssemblyOutcome | chat_backend/resumable_uploads.py:692-730 | in any interleaving that leaves the session's chunk files alone, a handler that links has joined exactly these files in order, and it fails only if they do not assemble to the declaration |
| UploadTheorems.CommittedDeclared | chat_backend/resumable_uploads.py:717-730 | every row made by a commit has the declared owner, size and digest, and its file has them too and parses into the declared number of frames |
| UploadTheorems.CommittedLayout | chat_backend/resumable_uploads.py:717-721 | the declared size fixes the frame count and every frame boundary of such a file |
| UploadTheorems.CommittedIsFinal | chat_backend/resumable_uploads.py:734-786 | a committed session never changes again, except by being deleted for good |
| UploadTheorems.InsertSettles | chat_backend/resumable_uploads.py:744-769 | a commit adds one row, of exactly the reserved size, the session's owner and digest |
| UploadTheorems.OneRowPerSession | chat_backend/resumable_uploads.py:736-744 | over its whole life a session adds at most one registry row, whatever handlers overlap |
| UploadTheorems.TakeoverOnce | chat_backend/resumable_uploads.py:658-684 | a lease is taken over at most once: two takeovers of a session end two different leases, the second begun after the first takeover |
| UploadTheorems.ClaimsSeparated | chat_backend/resumable_uploads.py:671-684 | two first claims of one session have a reset after a 409 between them |
| UploadTheorems.ChunkRowsMove | chat_backend/resumable_uploads.py:503-549 | no step ever rewrites a stored chunk row or a chunk file; it can only add or remove it |
| UploadTheorems.AcceptedPutsAgree | chat_backend/resumable_uploads.py:503-549 | as long as an index is not reset, healed or deleted, all puts accepted for it carry the same size and digest |
| UploadRoundTrip.RoundTrip | chat_backend/resumable_uploads.py:306-819 | whoever has room for a legal file, opens an upload, puts the chunks in any order and even repeatedly, and commits, downloads the same bytes and parses them to the same file |
| UploadLifetimes.StaysReadable | chat_backend/legacy_app.py:3177-3212 | whatever everybody else does, a finished file can be downloaded by its owner, row unchanged, until it is due or the owner gives it up, unless the disk loses it |
| UploadLifetimes.StepSessions | chat_backend/resumable_uploads.py:221-298 | a session goes only when its owner cancels it before the commit or leaves, or when it is due |
| UploadLifetimes.StaysReceived | chat_backend/resumable_uploads.py:147-187 | resuming works: a received chunk stays received, byte for byte, while its session is uncommitted, unless a failed commit was reset or the disk lost it |
| UploadLifetimes.CommitAnswers | chat_backend/resumable_uploads.py:734-792 | the handler that adds the row answers success, success means that the session is committed, and any other answer means that nothing changed |
| UploadOutcomes.CreateOutcome | chat_backend/resumable_uploads.py:337-396 | a create adds at most the session asked for and never beyond the quota, and succeeds exactly if the request then has a session and all its sessions declare the same |
| UploadOutcomes.CreateReply | chat_backend/resumable_uploads.py:314-373 | a new request is accepted exactly if declaration, account, running uploads and quota allow it, and is otherwise refused for the first that does not |
| UploadOutcomes.CreateAgain | chat_backend/resumable_uploads.py:337-358 | a repeated request changes nothing, and succeeds exactly if it declares the same |
| UploadOutcomes.PutReply | chat_backend/resumable_uploads.py:439-549 | a chunk is accepted exactly if its checks hold, among them agreement with what is stored, and is otherwise refused for the first that does not |
| UploadOutcomes.PutOutcome | chat_backend/resumable_uploads.py:503-563 | an accepted chunk has row and file as declared, the file being the data sent unless one was there, and nothing else changes; a refused one changes nothing |
| UploadOutcomes.ReportedExactly | chat_backend/resumable_uploads.py:147-187 | received are exactly the chunks whose row and file are there and fit, missing all others |
| UploadOutcomes.HealOutcome | chat_backend/resumable_uploads.py:153-175 | a report keeps exactly the rows of the received chunks of a pending session, and touches nothing else |
| UploadOutcomes.ExpireOutcome | chat_backend/resumable_uploads.py:221-258 | the expiry takes exactly the sessions that are due, with their chunks and what they were about to register |
| UploadOutcomes.PurgeOutcome | chat_backend/resumable_uploads.py:264-298 | a purge takes exactly the sessions of the user |
| UploadOutcomes.CancelOutcome | chat_backend/resumable_uploads.py:824-858 | only the owner cancels, only before the commit, and then session and chunks are gone |
| CommitOutcomes.ReadReply | chat_backend/resumable_uploads.py:581-650 | a commit goes on exactly if its checks hold: lease over, manifest complete, listing every stored row, sizes adding up; otherwise it is refused for the first that does not |
| CommitOutcomes.ReadOutcome | chat_backend/resumable_uploads.py:581-657 | nobody else's session is looked at, and the handler carries on with the session, its rows, and the file id chosen first |
| CommitOutcomes.ClaimOutcome | chat_backend/resumable_uploads.py:658-684 | the update takes effect exactly if the session is still as it was read |
| CommitOutcomes.AssemblesExactly | chat_backend/resumable_uploads.py:692-721 | the chunk files assemble exactly if all are there, as the manifest says, acceptable in sequence, and their join is as declared |
| CommitOutcomes.LinkOutcome | chat_backend/resumable_uploads.py:722-730 | linking never changes a file, and succeeds if there is none or one of the same size and digest |
| CommitOutcomes.FinishOutcome | chat_backend/resumable_uploads.py:732-792 | the reply is success exactly if the session is there and committed afterwards; a row is added exactly for a session being committed under a free file id |
| CommitOutcomes.ResetOutcome | chat_backend/resumable_uploads.py:793-815 | a reset acts exactly on the owner's session being committed, and leaves it pending without file id and chunks |
| FileOutcomes.ReserveReply | chat_backend/legacy_app.py:3055-3092 | a one-shot upload is accepted exactly if size, account and quota allow it |
| FileOutcomes.ReserveOutcome | chat_backend/legacy_app.py:3055-3092 | it then has one pending row that describes its data, and the counter stays within the limit |
| FileOutcomes.PublishOutcome | chat_backend/legacy_app.py:3094-3110 | success means that the row became ready and the file holds the data; otherwise there is no file |
| FileOutcomes.RollbackOutcome | chat_backend/legacy_app.py:3112-3132 | no file is left, and the row goes exactly if it is pending |
| FileOutcomes.DeleteOutcome | chat_backend/legacy_app.py:3268-3290 | only the owner deletes, and then row and bytes are gone |
| FileOutcomes.TokenOutcome | chat_backend/legacy_app.py:3150-3175 | a token gets exactly the readable files; a row without bytes is dropped |
| FileOutcomes.SessionOutcome | chat_backend/legacy_app.py:3177-3212 | a session gets exactly its own readable files; rows that are over or without bytes are dropped |
| FileOutcomes.CleanFilesOutcome | chat_backend/legacy_app.py:1599-1622 | the cleanup takes exactly the rows that are over or pending for six hours, with their bytes |
| FileOutcomes.ResetAccountOutcome | chat_backend/legacy_app.py:4426-4455 | an account reset takes exactly the user's files and sessions |
| FileOutcomes.DeregisterOutcome | chat_backend/legacy_app.py:4350-4399 | deregistration takes exactly the account, its files and its sessions |
| UploadReports.CreateTwice | chat_backend/resumable_uploads.py:337-368 | repeating an accepted create finds the one session of the request and changes nothing |
| UploadReports.ReportPartitions | chat_backend/resumable_uploads.py:147-187 | in every reachable state the received and missing lists divide 0 .. chunk_count - 1 between them |
| UploadReports.ReadyManifest | chat_backend/resumable_uploads.py:617-650 | the one-directional checks of a commit force the manifest to be exactly the stored rows, one per index |
| UploadContent.CommitOutcome | chat_backend/resumable_uploads.py:686-819 | a commit whose handler nobody disturbs registers the in-order join of the chunk files if they assemble to the declaration, and otherwise leaves the session pending without chunks |
| UploadReports.UniqueAt | chat_backend/resumable_uploads.py:337-368 | in every reachable state a user has at most one session per request id |
| LateCleanup.LateExpireNow | chat_backend/resumable_uploads.py:228-258 | rows that are current make the two-phase cleanup the atomic one |
| LateCleanup.LateExpireExactly | chat_backend/resumable_uploads.py:228-258 | rows read at one step of a run and cleaned up at a later one keep the accounts if and only if, for each user, no session read as uncommitted has been committed or deleted in between, or what the deleted sessions still hold is the user's whole counter |
| UploadExamples.CleanupLosesCounter | chat_backend/resumable_uploads.py:228-258 | a run of the empty server: a commit between the read and the write leaves a registered file and a counter of zero |
| UploadFileIds.NamesItsRow | chat_backend/resumable_uploads.py:736-769 | the committed session names the registered file if and only if no reset happened between the finishing handler's claim and its finish |
| UploadFileIds.NamesUnregistered | chat_backend/resumable_uploads.py:736-769 | wherever a linked handler overlaps a failing one, reset, retry and a new claim let the slow one commit the session under an unregistered file id |
| UploadExamples.NamesUnregisteredFile | chat_backend/resumable_uploads.py:736-769 | a run of the empty server at whose end the committed session names a file id without a row |
| UploadStore.Store.CleanupExpired | chat_backend/resumable_uploads.py:221-261 | the loop drops exactly the expired sessions, whatever their order, and counts them |
| UploadStore.Store.PurgeUser | chat_backend/resumable_uploads.py:264-298 | one summed release equals releasing each reservation |
| UploadStore.Store.CreateSession | chat_backend/resumable_uploads.py:306-410 | the create transaction, which keeps requests unique per owner |
| UploadStore.Store.PutChunk | chat_backend/resumable_uploads.py:439-563 | the put transaction with its conflict checks, and the duplicate flag |
| UploadStore.Store.SessionPayload | chat_backend/resumable_uploads.py:147-187 | the report lists, in index order, and the healing of broken chunks |
| UploadStore.Store.BuildManifest | chat_backend/resumable_uploads.py:620-634 | the loop accepts a manifest exactly when every entry is in range, new, sized and well formed |
| UploadStore.Store.Agree | chat_backend/resumable_uploads.py:644-648 | the comparison loop decides whether every stored row is in the manifest |
| UploadStore.Store.ReadCommit | chat_backend/resumable_uploads.py:581-657 | the checks of a commit in order, with the file id it will use |
| UploadStore.Store.ClaimCommit | chat_backend/resumable_uploads.py:658-684 | the conditional update wins exactly when the state, and for a takeover the timestamp, is still the one read |
| UploadStore.Store.AssembleParts | chat_backend/resumable_uploads.py:686-721 | the loop succeeds if and only if every chunk file passes and the whole is as declared, and yields the in-order join |
| UploadStore.Store.LinkFinal | chat_backend/resumable_uploads.py:722-730 | an existing file is never replaced and must have the same size and digest |
| UploadStore.Store.FinishCommit | chat_backend/resumable_uploads.py:732-791 | the finishing transaction: inserts unless another handler has committed |
| UploadStore.Store.ResetCommit | chat_backend/resumable_uploads.py:793-815 | the reset after a 409: back to pending, rows and chunk files gone |
| UploadStore.Store.CancelSession | chat_backend/resumable_uploads.py:824-858 | cancel releases the reservation and drops the session |
| UploadStore.Store.ReserveFile | chat_backend/legacy_app.py:3055-3092 | the reservation of a one-shot upload |
| UploadStore.Store.PublishFile | chat_backend/legacy_app.py:3094-3110 | publishing a one-shot upload, or taking its file away when the row is gone |
| UploadStore.Store.RollbackFile | chat_backend/legacy_app.py:3112-3132 | releases the size only if the pending row was still there |
| UploadStore.Store.TokenDownload | chat_backend/legacy_app.py:3150-3175 | a download by token drops the row of a missing file |
| UploadStore.Store.SessionDownload | chat_backend/legacy_app.py:3177-3212 | a download by session drops an expired or unreadable row, whoever asks when it is expired |
| UploadStore.Store.DeleteFile | chat_backend/legacy_app.py:3268-3290 | deletion by the owner, without MAX(0, ...) |
| UploadStore.Store.CleanupFiles | chat_backend/legacy_app.py:1599-1622 | the two cleanup loops, the second over what the first left |
| UploadStore.Store.RemoveOwnedFiles | chat_backend/legacy_app.py:4426-4455 | purge, early return, removal loop and reset to zero |
| UploadStore.Store.DeregisterUser | chat_backend/legacy_app.py:4350-4399 | the storage part of account deletion |
| Mailbox.PickedLowest | chat_backend/legacy_app.py:4843-4860 | a fetch picks the lowest unleased ids in increasing order, as many as limit and supply allow |
| Mailbox.AckExact | chat_backend/legacy_app.py:4936-4976 | an acknowledgement removes exactly the messages under a live lease of its token that it names, or all of them if it names none |
| Mailbox.AckReleases | chat_backend/legacy_app.py:4983-4987 | what a partial acknowledgement leaves can be fetched again at once |
| Mailbox.AckSparesOthers | chat_backend/legacy_app.py:4969-4987 | no row and no lease of another user changes |
| Mailbox.RoundsDrain | chat_backend/legacy_app.py:4792-4889 | once the user's earlier leases have run out, k rounds of fetch and full acknowledgement leave exactly max(0, n - k * limit) of n messages |
| Mailbox.RoundsDrainAll | chat_backend/legacy_app.py:4792-4889 | from any mailbox, the rounds after the standing leases ran out empty the queue once they are as many as the messages |
| MailOutcomes.RouteOutcome | chat_backend/legacy_app.py:4132-4239 | a plain message reaches a socket and awaits its acknowledgement, or reaches nobody and becomes the one new row of its recipient |
| MailOutcomes.LifecycleOutcome | chat_backend/legacy_app.py:4038-4061 | a lifecycle message is stored exactly if its event is not remembered, and goes out only after its sender was told |
| MailOutcomes.UnreadOutcome | chat_backend/legacy_app.py:4062-4124 | every copy of a plain message counts unread, whatever the state; a lifecycle message when it is stored |
| MailOutcomes.DeliveryAckOutcome | chat_backend/legacy_app.py:896-922 | an acknowledged delivery stops waiting, and the stored copy of its event goes |
| MailStore.PassIs | chat_backend/legacy_app.py:925-970 | after a timeout pass nothing overdue waits, all else does, and each overdue plain delivery has exactly one new row with its recipient and payload |
| MailOutcomes.PickedIsOffered | chat_backend/legacy_app.py:4843-4860 | a fetch picks a message exactly if it is free and fewer than the limit, between 1 and 200, are older |
| MailOutcomes.FetchOutcome | chat_backend/legacy_app.py:4837-4904 | the picked messages that can be read and are not past their deadline are kept and leased for 20 s, the other picked ones go, nothing else changes |
| MailOutcomes.AckOutcome | chat_backend/legacy_app.py:4936-4990 | a message goes exactly if it is under a live lease of the token and the request names it as handled in one of its two lists, or names nothing |
| MailOutcomes.DrainOutcome | chat_backend/legacy_app.py:4673-4706 | the older fetch takes exactly the user's messages |
| MailOutcomes.CleanUpOutcome | chat_backend/legacy_app.py:1625-1646 | the upkeep takes exactly the rows older than seven days, the events older than two, and the rows of these |
| MailOutcomes.PurgeOutcome | chat_backend/legacy_app.py:4366-4388 | a purge takes exactly the messages to the user or naming the user, and the user's leases |
| MailTheorems.Accounted | chat_backend/database.py:58-63 | every id ever given out is still queued or left at exactly one step |
| MailTheorems.GoneForGood | chat_backend/database.py:59 | an id that left the queue never returns |
| MailTheorems.RemovalJustified | chat_backend/legacy_app.py:4402-4423 | a message leaves only by its receiver's leased acknowledgement or drain, as stale, too old or purged, or with its own lifecycle event |
| MailTheorems.LeaseExclusive | chat_backend/legacy_app.py:4837-4904 | two fetches hand out the same message only if the first lease ran out or its token was acknowledged in between, and only to one user |
| MailTheorems.LeaseReceiver | chat_backend/legacy_app.py:4892-4901 | every lease on a queued message is its receiver's |
| MailTheorems.DeliveryEndsOnce | chat_backend/legacy_app.py:896-942 | a registered delivery ends once, by its acknowledgement or, when due, by its timeout |
| MailTheorems.DeliveryAccounted | chat_backend/legacy_app.py:801-817 | a delivery is pending until it ends |
| MailTheorems.DeliveryOneRow | chat_backend/legacy_app.py:943-970 | one delivery id causes at most one mailbox row |
| MailTheorems.NoMessageLost | chat_backend/legacy_app.py:4132-4224 | a routed message is at every later moment queued with its payload, or awaits an acknowledgement with it, or was acknowledged or taken from the queue |
| MailTheorems.EventStays | chat_backend/legacy_app.py:870-884 | an event stays known for its two days and never gets another row |
| MailTheorems.LifecycleOnce | chat_backend/legacy_app.py:846-893 | within its life an event is stored once and counted unread at most once, however often it is resent |
| MailTheorems.UnreadWithFirst | chat_backend/legacy_app.py:4040-4124 | the unread entry is made with the first copy, exactly when the sender could be told |
| MailTheorems.UnreadLost | chat_backend/legacy_app.py:4050-4061 | if that notice fails, no resend is counted |
| MailTheorems.EventRowIsItsOwn | chat_backend/legacy_app.py:1631-1646 | the row an event points at was stored for it, so expiry deletes no other row |
| MailTheorems.LifecycleAckFinal | chat_backend/legacy_app.py:902-921 | an online acknowledgement removes the row for good, and no resend within the life stores it again |
| MailStore.Store.PersistLifecycle | chat_backend/legacy_app.py:868-893 | expired events go first, then the envelope is stored unless known |
| MailStore.Store.RouteMessage | chat_backend/legacy_app.py:4038-4239 | storing, unread entry, the loop over sockets and the offline fallback |
| MailStore.Store.ConsumeDeliveryAck | chat_backend/legacy_app.py:896-922 | the acknowledged delivery, and the row of its lifecycle event |
| MailStore.Store.TimeoutPass | chat_backend/legacy_app.py:925-970 | popping every overdue delivery first and queueing afterwards comes to timing them out one by one; afterwards none is overdue and each plain one has its row |
| MailStore.Store.FetchPending | chat_backend/legacy_app.py:4837-4904 | the leased fetch with its loop over rows: it returns exactly the offered messages that are of use, in id order |
| MailStore.Store.AckPending | chat_backend/legacy_app.py:4936-4990 | the loops over both request lists; what goes is what the lists name under the token, and the count is what went |
| MailStore.Store.DrainPending | chat_backend/legacy_app.py:4673-4706 | the older fetch takes everything, leased or not, and returns what is of use in id order |
| MailStore.Store.CleanUpBox | chat_backend/legacy_app.py:1625-1646 | retention and event expiry |
| MailStore.Store.PurgeUser | chat_backend/legacy_app.py:4366-4388 | every row that is the user's or names the user |
| Storm.RefillComposes | chat_backend/storm_guard.py:55-60 | refilling over a and then b is refilling over a + b |
| Storm.TakeLevels | chat_backend/storm_guard.py:50-69 | a call spends one token exactly when it finds one; a refused one changes nothing later calls can see |
| Storm.RefusedInvisible | chat_backend/storm_guard.py:62-69 | leaving the refused calls out of any sequence changes no decision and no later level |
| Storm.HintSuffices | chat_backend/storm_guard.py:66-69 | the hint plus one second is always enough; the hint alone exactly when truncation lost nothing |
| Storm.HintTooShort | chat_backend/storm_guard.py:66-69 | a login hint that is half a second short |
| Storm.AllowOutcome | chat_backend/storm_guard.py:98-127 | from the levels before the call: it is admitted exactly when the user is not in safe mode and both buckets hold a token; the session pays exactly then, the user whenever the user's own bucket holds one |
| Storm.RefusalSpends | chat_backend/storm_guard.py:105-125 | a refused call costs the user a token if and only if the user is not in safe mode and the user's bucket held one |
| StormRuns.SeventhLogin | chat_backend/storm_guard.py:105-125 | from the empty guard, the seventh login of a session is refused and takes one of the user's four tokens left |
| StormRuns.BudgetBound | chat_backend/storm_guard.py:98-127 | over any stretch of time T, admissions per user key and per session key are at most cap + T * cap / window |
| StormRuns.SafeModeHolds | chat_backend/storm_guard.py:84-101 | until the deadline no call of that user is admitted, whatever happens in between |
| StormRuns.SafeModeEarned | chat_backend/storm_guard.py:72-81 | safe mode begins only after 24 refusals or noted storms within two minutes |
| StormOutcomes.SafeModeExactly | chat_backend/storm_guard.py:72-95 | the event that makes it 24 within two minutes since safe mode last ended sets the deadline, and nothing else moves one |
| StormOutcomes.BucketsExactly | chat_backend/storm_guard.py:45-47 | two calls share a bucket exactly if endpoint and stripped name are the same; blank names share the anonymous one |
| StormOutcomes.ForeignCall | chat_backend/storm_guard.py:98-127 | a call changes no bucket of another user, session or endpoint, and neither safe mode nor events of another user |
| StormOutcomes.OwnBudget | chat_backend/storm_guard.py:98-127 | a caller outside safe mode who has not yet used up what the endpoint grants a user and a session is admitted, whatever others did |
| StormOutcomes.EndpointBound | chat_backend/storm_guard.py:36-69 | in numbers, endpoint by endpoint: at most the burst and as many a minute |
| StormOutcomes.RetryHint | chat_backend/storm_guard.py:98-127 | a refusal names what refused, and one second more than its hint clears it |
| StormGuard.Store.TokenBucketAllow | chat_backend/storm_guard.py:50-69 | one bucket step |
| StormGuard.Store.RecordStormEvent | chat_backend/storm_guard.py:72-81 | the rolling event list and the start of safe mode |
| StormGuard.Store.SafeModeRetryAfter | chat_backend/storm_guard.py:84-95 | the deadline check, which forgets events when safe mode is over |
| StormGuard.Store.AllowHeavyEndpoint | chat_backend/storm_guard.py:98-127 | safe mode, then the user's bucket, then the session's |
| RateLimits.AcceptedExactly | chat_backend/auth.py:439-458 | a call is accepted exactly when fewer than its limit were accepted for the key within the window since the last wipe |
| RateLimits.AcceptedByCount | chat_backend/auth.py:439-521 | in numbers: an address its limit a minute, a lookup key 90 in 30 s, a registration 10 an hour, counted since the last wipe |
| RateLimits.TimerExactly | chat_backend/auth.py:362-447 | when a call wipes, and what starts the shared timer again |
| RateLimits.WindowBound | chat_backend/auth.py:454-458 | at most the limit in a window no wipe interrupts |
| RateLimits.WipesApart | chat_backend/auth.py:362-365 | wipes are more than an hour apart, and session checks only delay them |
| RateLimits.DoubleBound | chat_backend/auth.py:439-521 | never more than twice the limit in any window |
| RateLimits.DoubleReached | chat_backend/auth.py:444-458 | for every limit some run gets twice as many through in a second |
| RateStore.Store.CheckRateLimit | chat_backend/auth.py:439-458 | the address limiter |
| RateStore.Store.CheckLookupRateLimit | chat_backend/auth.py:487-508 | the lookup limiter |
| RateStore.Store.CheckRegisterRateLimit | chat_backend/auth.py:511-521 | the registration limiter, which never wipes |
| ReadCursor.UpsertStores | chat_backend/legacy_app.py:472-534 | the stored rank is the maximum, the returned triple is the stored row, and the keep-old branches are never taken |
| ReadCursor.ClampExactly | chat_backend/legacy_app.py:482-492 | a rank is stored as the nearest 64-bit one |
| ReadCursor.CursorFold | chat_backend/legacy_app.py:472-534 | over any run the rank is the largest ever submitted and the message that of the last update reaching it |
| ReadCursor.RankAnyOrder | chat_backend/legacy_app.py:472-534 | the order of updates does not matter for the rank |
| ReadCursor.RankGrows | chat_backend/legacy_app.py:482-492 | no update lowers a rank |
| Backfill.BatchIsReplay | chat_backend/migrate_read_cursor.py:65-115 | upserting one best entry per pair gives, from any table, the rows of upserting every receipt in order |
| Backfill.BatchIsLive | chat_backend/migrate_read_cursor.py:89-115 | and the message, rank and time that the live upsert gives |
| Backfill.BackfillRow | chat_backend/migrate_read_cursor.py:65-115 | the row of a pair told from the receipts: the last of those with the largest rank, which is the rank, else the time stamp, else the time of the migration, unless the old row has a larger one |
| Backfill.Migration.BackfillReceipts | chat_backend/migrate_read_cursor.py:65-118 | the two loops leave the table of the one-by-one replay |
| Unread.UnreadExactly | chat_backend/unread_state.py:112-165 | a message is unread if and only if an insert of it took effect and no later mark on its peer reached its rank |
| Unread.UnreadWhenStable | chat_backend/unread_state.py:112-165 | with stable peers and ranks every insert counts |
| Unread.IgnoredCopy | chat_backend/unread_state.py:135-143 | without stability an ignored copy can be uncovered and still not unread |
| Unread.ClearedExactly | chat_backend/unread_state.py:112-165 | a message that counts is cleared exactly by its recipient's marks on its group, or on its sender if it has none, that reach its rank |
| Unread.GroupCleared | chat_backend/unread_state.py:112-165 | a mark on a group clears its messages, a mark on a sender none of a group |
| Unread.MarkExactly | chat_backend/unread_state.py:146-165 | a mark takes exactly the rows of reader and peer up to its rank |
| Text.StripExactly | chat_backend/unread_state.py:112-143 | stripping takes the blanks from both ends and nothing else |
| Unread.BadgeExactly | chat_backend/unread_state.py:168-187 | the badge counts exactly those messages |
| Unread.CursorIsMaximum | chat_backend/legacy_app.py:3833-3864 | in every run the cursor's rank is the largest clamped rank submitted since the last purge, and its message that of the last mark reaching it |
| ReadStore.Store.UpsertReadCursor | chat_backend/legacy_app.py:472-534 | the live cursor upsert |
| ReadStore.Store.UpsertUnreadMessage | chat_backend/unread_state.py:112-143 | the unread insert and its return value |
| ReadStore.Store.MarkReadUpTo | chat_backend/unread_state.py:146-165 | the read mark and the number of rows it deletes |
| ReadStore.Store.UnreadCount | chat_backend/unread_state.py:168-187 | the badge count |
| ReadStore.Store.HandleReadUpTo | chat_backend/legacy_app.py:3833-3864 | a read mark deletes up to the rank the cursor ended at, not the rank it was sent with |

## Left out

- Limits, lifetimes and budgets that the environment can change are taken at their defaults.
- Request parsing: the syntax of upload ids, request ids, labels and lifecycle envelopes, and the conversion of text to ranks and times; the model starts from the parsed values.
- HTTP and WebSocket plumbing, Redis fanout, push delivery, metrics and logging; a send only succeeds or fails.
- Cryptography and passwords; SHA-256 is an arbitrary function.
- UploadStore.Store.PutChunk: one step with two clock readings (the expiry is checked before the body is read). The scratch file, the link, the second check of the session state, the row insertion and the removal of a file linked by a put that then fails are not separate steps.
- UploadStore.Store.TokenDownload: starts from a valid token; the token table and the expiry of tokens are left out.
- UploadStore.Store.AssembleParts: reads the chunk files of a disk that nobody changes meanwhile; in runs each chunk file is read in a step of its own.
- A create first runs the expiry cleanup, and one that finds its session also reports on it; cleanup and report, with its healing, are the separate steps CleanupExpired and SessionPayload.
- A commit handler reads each chunk file once, in one step; the source opens it twice, for the frame check and for the copy.
- Removing files after a committed transaction belongs to the step of that transaction; a crash or a failing database between two statements of one handler is not modelled.
- Downloads, deletes and the file part of the scheduled cleanup are one step each, although the source reads before it writes.
- The expiry cleanup is one step in runs; LateCleanup applies rows read at one step of a run to the tables of a later one, without letting the run go on from there.
- Download tokens, attachment device envelopes, web socket tickets and session rows.
- Purging uploads without deleting their files when an account is only reset in part; the file part of a reset and the mailbox part are separate actions.
- Routing one message to all sockets of its recipient is one step; an acknowledgement that overtakes the registration of its delivery has no effect, as in the source.
- Messages from blocked senders, which are dropped before routing; the self-sync copy, broadcasts and role events only appear as rows that are enqueued.
- Per-device delivery: the mailbox is used only when no session of the user received the message, so delivery is stated per user.
- One call of admission control reads the clock once, where the source reads it for each bucket; the pending-fetch deduplication and the failure counter of admin logins are not part of the model.
- Floating-point rounding of times and tokens: admission control is over exact reals.
- Lower-casing follows ASCII, and so does stripping, with the four separators that Python takes for blanks.
- The default storage limit of a user and its donations: a limit is a parameter of each reservation.
- Device-key rotation, licences, pin lists, welcome messages, statistics and the desktop tools, which hold no invariant beyond their own rows.
