# Verified model of arvolo's core

arvolo moves files end to end encrypted: a relay holds what neither side can hand over
directly, a short code pairs two people, and one identity may live on several machines.
This project models the parts of it where a mistake would be silent, and proves what the
rest of the program relies on.

| file | models |
|---|---|
| `Bytes.dfy`, `Aead.dfy` | little-endian integers, division, slices; chunk nonces, associated data and sealing over an AEAD that is a parameter |
| `SealedLayout.dfy` | a deposit's ciphertext as arithmetic, any byte range of it made alone |
| `UploadRelay.dfy`, `Upload.dfy` | the relay's upload sessions behind a network that loses things, and the client that drives them |
| `Link.dfy`, `LinkWitness.dfy` | the browser-link container, written and read; a link that meets every premise |
| `Sync.dfy`, `SyncClocks.dfy`, `SyncReplicas.dfy`, `SyncOutcomes.dfy`, `SyncBook.dfy` | the address book: merge rules and their algebra, clocks, every run of a set of devices, what comes of it for its user, and the maps updated in place |
| `Rendezvous.dfy`, `CodeHost.dfy`, `CodeText.dfy` | pairing codes: the protocol against whoever runs the relay, the counters that retire a code, the code as text |
| `Positional.dfy`, `Wire.dfy` | the positional encoding, and the three decoders that try the newest shape first |
| `Chunks.dfy`, `Swarm.dfy`, `Backfill.dfy`, `Delivery.dfy` | hashing on several workers, regenerating a chunk, have-bitfields, what a relay holds, who has acked what |
| `Slots.dfy`, `Inbox.dfy`, `InboxRuns.dfy`, `InboxNotes.dfy` | rotating slots, one device's inbox subscription, every run of many of them with their sync rounds, and what those rounds may delete |

## What is assumed

- The AEAD is any pair of functions for which, under one key, nonce and associated data,
  exactly the encryptions decrypt. That holds of AES-GCM, and `Aead.MarkingIsSound` has a
  cipher for which it is plain. Unforgeability is not assumed of it: the one theorem that
  needs it (`Link.NothingElseDecodes`) asks it of the blob, no part of which may open, at any
  index and count a `u32` can name, as something the sender did not seal there. A link's own
  container can meet that (`LinkWitness.UnforgedContainerReads`), and then so does every cut of it.
- PAKE, key derivation, MAC and AEAD are ideal terms in `Rendezvous.dfy`, where whoever runs
  the relay can make everything except what needs the code. The bytes under the derived keys
  are told apart in `KdfInputInjective`.
- The relay of `UploadRelay.dfy` does what relay/src/http/upload.rs and
  relay/src/mailbox/upload.rs do, behind choices (`if *`, `:|`) that stand for the network,
  a proxy, a reaper, a restart or a failing disk. It may cut a torn tail off a session's file,
  a finite number of times (`cutbacks`): within the stretches between two cuts its offset never
  goes back, which is what makes `upload` end. A `steady` relay makes none of these choices
  against the client; what an upload owes its user is stated of it, and of any other what
  each answer calls for.
- A sidecar is not lost. What follows when it is, is `LosingTheSidecarBreaksConvergence`. Loading,
  editing and saving it is one step of `SyncReplicas.dfy` and of `InboxRuns.dfy`; the source takes
  no lock in between (engine/src/book/sync_bridge.rs:150/314, 417/441, 529/533), so two processes of one device
  could overwrite each other's edit.
- In `InboxRuns.dfy` a book is the set of what it has absorbed, and only grows: of the books
  themselves that is `SyncReplicas.AbsorbedForGood`.
- `hide` statements in bodies only keep definitions the proof does not need out of the way.

## What was found

- A chunk count is a `u32` and wraps. `RegeneratesIff` and `Link.RoundTripIff` say exactly
  when that matters: any range streams correctly if and only if the count did not wrap or wrapped
  to one; a link decodes if and only if the count did not wrap and its sealed name's length fits a
  `u32`; a payload is prepared chunk for chunk if and only if its chunks can be numbered.
- The merge's comment calls it commutative and associative. Both have exact conditions
  (`MergeCommutesIff`, `DevicesAssocIff`, failing in `UnauthoredRowBreaksAssociativity`); every run meets them, unless a device's sidecar is lost
  and its clock starts over under the same device id.
- `authored_by_another_device` does not look at relays (`RelayGoesUnnoticed`).
- A snapshot in the oldest shape, whose missing field is in the middle, is read right if and only
  if no newer shape happens to read its bytes or it has no `seen` rows (`OldestExactIff`). Honest
  ones can be misread (`OldestCanBeMisread`): a device with a five-letter name on Linux whose first
  edit announced it under its own hexadecimal id, with one `seen` row, loses its own row when that
  random id starts with a small byte and three zeros (`AliceIsYoung` is one).
- `max_sessions` bounds what the host counts, not the receivers it serves. A ticket the relay has
  stored without its answer arriving, or before a crash, is there to be collected and is not
  counted: with a limit of one any number of receivers can be served in one run
  (`LostAnswersServeMore`). `AllCountedIff` is the exact condition.
- A comment calls the sync cell a row that is never acked (core/src/presence.rs:952-956), but every sync
  round acks the notes it merged. Nothing is lost by that, since a round publishes first
  (`InboxNotes.NothingSyncedIsLost`).
- A shown code gives its relay back if and only if the relay is `Carried` (`ShownResolvesIff`).

## Model

| member | source | states |
|---|---|---|
| `Aead.NonceInjective` | core/src/crypto.rs:506-510 | two chunk indices share a nonce only if they are equal |
| `Aead.AadInjective` | core/src/crypto.rs:514-519 | the associated data pins both the chunk's index and the chunk count |
| `Aead.SealedUnder` | core/src/crypto.rs:506-553 | a chunk is sealed and opened under a nonce and associated data that spell out its own index and the count |
| `SealedLayout.NewIsValid` | core/src/upload.rs:101-120 | the counted chunks cover the file exactly when the count fits a `u32`, and fall short by how much otherwise |
| `SealedLayout.UnitReadable` | core/src/upload.rs:158-178 | a unit can be made exactly while the file is long enough to hold it |
| `SealedLayout.UnitInWhole` | core/src/upload.rs:148-178 | unit `i` lies in the container at the place and with the length that arithmetic on `i` gives |
| `SealedLayout.WholeLen` | core/src/upload.rs:128-131 | `len()` bounds the container, and equals its length exactly when the file is all there |
| `SealedLayout.UnitHolding` | core/src/upload.rs:201-205 | dividing an offset by the first unit's length finds the unit that holds it and how far in |
| `SealedLayout.StreamIsRange` | core/src/upload.rs:183-234 | the pieces of `stream(from, to)` join to that range of the container, stopping with a failure where the file ends |
| `SealedLayout.RegeneratesIff` | core/src/upload.rs:101-250 | `len()` is right and every range streams, exactly when the chunk count did not wrap or there is one chunk |
| `SealedLayout.WrappedCountLosesTail` | core/src/upload.rs:101-234 | with a wrapped count the container's tail streams as nothing, without a failure |
| `SealedLayout.PlainOffsetIsProgress` | core/src/upload.rs:140-146 | progress starts at nothing, never goes back and ends at the file's size |
| `SealedLayout.PlainOffsetIsShare` | core/src/upload.rs:140-146 | in between, progress is in proportion to the ciphertext sent, rounded down |
| `SealedLayout.ToVec` | core/src/upload.rs:243-250 | the whole container, or a failure exactly when some unit cannot be filled |
| `SealedLayout.Stream` | core/src/upload.rs:183-234 | the loop yields pieces that join to the specified bytes, and ends in a failure exactly when specified |
| `UploadRelay.Relay.Pass` | relay/src/mailbox/upload.rs:345-368 | between requests a session only gains bytes of its own container, is cut back, or is forgotten |
| `UploadRelay.Relay.Open` | relay/src/http/upload.rs:81-138 | a new session is empty, is nobody else's, and touches no other |
| `UploadRelay.Relay.Status` | relay/src/http/upload.rs:141-161 | an offset that is reported is the length of what is stored; a steady relay always reports it, or says that it has no such session |
| `UploadRelay.Relay.Append` | relay/src/http/upload.rs:169-261 | bytes land at the end of what is stored, so a prefix of the container stays one; any offset reported is then its length; a steady relay takes all of it |
| `UploadRelay.Relay.Commit` | relay/src/http/upload.rs:268-294 | a success means the claim was issued for exactly the container the session was opened for, also when it is an old answer repeated; a steady relay gives it whenever everything is there |
| `UploadRelay.Relay.Deposit` | core/src/upload.rs:712-755 | a single request is kept whole or not at all; a steady relay keeps every complete one |
| `Upload.Refusal` | core/src/upload.rs:472-490 | every status is tied to its step: 413, 507, 403 and 404 each to its own, 429 and the other 5xx to a retry, the rest to none |
| `Upload.RefusalOrRetry` | core/src/upload.rs:549-661 | a drive makes the same of them, and of the rest a retry |
| `Upload.SendSegment` | core/src/upload.rs:556-570 | a request goes out with the container's bytes from the offset to its end or to the limit of one request; from a steady relay it gains something, or finds the file cut short |
| `Upload.Feed` | core/src/upload.rs:555-624 | one turn of the inner loop: it goes on, from the offset in the answer, or ends the drive as the answer calls for; going on gets further, unless the relay has cut the session back |
| `Upload.Finish` | core/src/upload.rs:619-660 | a commit answered with a success ends the drive with its claim, a conflict short of the end sends it back to the segments, and everything else breaks it off; a steady relay gives the claim |
| `Upload.SegmentBelongs` | core/src/upload.rs:560-566 | the bytes of a request are the container's at its offset |
| `Upload.AnswerStands` | core/src/upload.rs:577-611 | an offset in an answer is what the relay holds, and going further in it is real progress |
| `Upload.Drive` | core/src/upload.rs:549-661 | each request is the one the answer before it called for: status first, then a segment at the offset named, or the commit; the drive ends with the first answer that calls for none, committed exactly when that is a success of the commit, with its claim, which holds the container; else with the step the answer calls for, or a read fault of the file; it tells of progress exactly if an append showed some, and then the relay lacks less; with a steady relay a complete file is committed |
| `Upload.OpenSession` | core/src/upload.rs:502-531 | a success opens a session for this container; every refusal retries or stops as its status says and none restarts |
| `Upload.SingleRequest` | core/src/upload.rs:712-755 | a claim exactly on a success, and then the container was stored whole; every other answer as its status says; a steady relay takes a complete file |
| `Upload.Spend` | core/src/upload.rs:383-446 | each failure is charged to the right budget, and the budget that runs out is the reason given |
| `Upload.Resume` | core/src/upload.rs:383-446 | its requests are those of its turns, each turn came to what its answers say, and the upload ends as the last one calls for: deposited exactly on a commit's success, given up at the first moment its failures call for it; it ends by the measure (restarts left, cuts left, bytes lacking, quiet retries left); with a steady relay it deposits every complete file, and fails with a file fault on any other |
| `Upload.Run` | core/src/upload.rs:370-448 | the same of the whole upload, from any saved session or in a single request, leaving a session that can be resumed or none |
| `Upload.TakesUpTheRecord` | core/src/upload.rs:370-448 | a session on record is asked after first if it is of this relay and length and ignored otherwise, and none is left on record by an upload that is through |
| `Upload.RunUntilSettled` | core/src/upload.rs:257-448 | the same over any number of processes, each resuming from what the last one wrote down |
| `Link.NoncesDistinct` | core/src/link.rs:126-142 | no two units of a link, its name included, are sealed under one nonce |
| `Link.HeaderFields` | core/src/link.rs:126-142 | the header reads back field by field and opens to the name |
| `Link.LinkErrors` | core/src/link.rs:199-227 | each refusal of a link exactly when its own cause is the first there is |
| `Link.ChunksReadIff` | core/src/link.rs:217-224 | the chunks are read exactly if each of them is there and opens |
| `Link.ChunkErrors` | core/src/link.rs:217-224 | else the refusal names the first that is not, or does not |
| `Link.UnitReadsBack` | core/src/link.rs:199-227 | a unit in place is read as the part of the file sealed in it |
| `Link.RoundTripIff` | core/src/link.rs:73-227 | decoding what was encoded gives the name and the file, for every size and whatever follows it, exactly when the chunk count fits a `u32` and so does the sealed name's length |
| `Link.ChunksAuthentic` | core/src/link.rs:217-226 | chunks that all open, in a blob no part of which was sealed by anybody else, are the file's, in order, and all of them |
| `Link.NothingElseDecodes` | core/src/link.rs:199-227 | truncated, reordered, re-headed or stitched together, a blob no part of which was sealed by anybody else decodes to the sender's name and file or to nothing |
| `Link.TruncationForgesNothing` | core/src/link.rs:199-227 | cutting such a blob short leaves it such a blob |
| `LinkWitness.UnforgedContainerReads` | core/src/link.rs:126-227 | there are a sound cipher and a link whose own container is such a blob and reads |
| `Link.Cursor.Take` | core/src/link.rs:172-194 | the next bytes are consumed, or nothing is when they are not there |
| `Link.DecryptLink` | core/src/link.rs:199-227 | the reader with its cursor computes the specified result, error by error |
| `Link.DecryptChunks` | core/src/link.rs:217-223 | and so does its loop over the chunks |
| `Sync.ClockTotal` | core/src/sync.rs:60-77 | of two clocks exactly one is earlier, or they are the same |
| `Sync.ClockTrans` | core/src/sync.rs:60-77 | the clock order is transitive |
| `Sync.ClockOrder` | core/src/sync.rs:71-77 | the counter decides, and at equal counters the first byte in which the device ids differ |
| `Sync.LexByFirstDifference` | core/src/sync.rs:71-77 | byte strings, and so the keys of a snapshot, are ordered where they first differ |
| `Sync.DeviceKeyIsHex` | core/src/sync.rs:228-230 | a device key is its id in lower-case hexadecimal |
| `Sync.DeviceKeyInjective` | core/src/sync.rs:228-230 | two devices have one key only if they are one device |
| `Sync.MergeKeepsWellFormed` | core/src/sync.rs:718-739 | merging anything whatever into a well-formed book leaves every live device row authored by the device it describes |
| `Sync.MergedMark` | core/src/sync.rs:741-756 | a merged mark is a row one side had, no earlier than either, and at equal clocks a removal wins |
| `Sync.MergedLww` | core/src/sync.rs:617-650 | a merged contact, name or relay is no earlier than either side's, and at equal clocks the current row stays |
| `Sync.MergedRows` | core/src/sync.rs:617-756 | register by register of the whole merge: each row is one side's, the later one, a removal at equal clocks for marks; an exchange count and date is the higher of the two sides'; a key on one side alone keeps its row; a device row is taken from the other side only if its device wrote it or it is removed |
| `Sync.MergeIdempotent` | core/src/sync.rs:617-663 | a book merged into itself is itself |
| `Sync.MergeAssociative` | core/src/sync.rs:617-663 | merging associates on all books whose middle one is well-formed, coherent or not |
| `Sync.DevicesAssocIff` | core/src/sync.rs:718-739 | exactly when two device merges associate |
| `Sync.UnauthoredRowBreaksAssociativity` | core/src/sync.rs:718-739 | three books whose merge depends on the grouping: a row not written by its device shadows that device's own older one |
| `Sync.LwwCommutesIff` | core/src/sync.rs:617-650 | a last-writer-wins register commutes exactly when one clock names one row |
| `Sync.MarksCommuteIff` | core/src/sync.rs:741-756 | marks commute exactly when two with the same clock and tombstone are the same |
| `Sync.DevicesCommuteIff` | core/src/sync.rs:718-739 | devices commute exactly when so do the authored rows and no unauthored row survives on one side only |
| `Sync.MergeCommutesIff` | core/src/sync.rs:617-663 | two arbitrary books merge to the same one in either order exactly when no tie is left to the order |
| `Sync.MergeCoherent` | core/src/sync.rs:617-663 | a merge clashes with nothing that neither side clashed with |
| `Sync.FoldAbsorbs` | core/src/sync.rs:617-663 | a book absorbed once adds nothing more, however many came after it |
| `Sync.Converge` | core/src/sync.rs:617-663 | whoever has absorbed the same books holds the same book, whatever the order, repetition and starting point |
| `SyncClocks.MergeClocks` | core/src/sync.rs:617-697 | a merge invents no clock and loses none but to a later one |
| `SyncClocks.MaxCounterOfMerge` | core/src/sync.rs:667-697 | the counter of a merge is the higher of the two sides', refused rows left out |
| `SyncClocks.WitnessIgnoresRelays` | core/src/sync.rs:406-428 | another device's authorship is seen exactly as if the book had no relays, and is real when it is seen |
| `SyncClocks.RelayGoesUnnoticed` | core/src/sync.rs:406-428 | a relay set by another device goes unnoticed |
| `SyncReplicas.Planned` | engine/src/book/sync_bridge.rs:93-316 | an edit writes one row, under the fresh clock, and a live device row only of the device itself |
| `SyncReplicas.EditShows` | engine/src/book/sync_bridge.rs:93-520 | what an edit sets is shown, what it removes is not, and nothing else moves |
| `SyncReplicas.StoreCoherent` | engine/src/book/sync_bridge.rs:149-316 | a row under an unseen clock clashes with nothing |
| `SyncReplicas.LocalKeeps` | engine/src/book/sync_bridge.rs:149-520 | an edit keeps the invariant of the whole set of devices |
| `SyncReplicas.AbsorbKeeps` | engine/src/book/sync_bridge.rs:524-537 | absorbing a published snapshot keeps it, and the device's counter stays past everything it holds |
| `SyncReplicas.AbsorbsFold` | engine/src/book/sync_bridge.rs:524-537 | what a device holds after others and it have absorbed is its own intake folded in |
| `SyncReplicas.RunKeeps` | engine/src/book/sync_bridge.rs:75-537 | over every run of any devices that join, edit, publish and absorb, one clock never names two rows |
| `SyncReplicas.RunLaws` | core/src/sync.rs:617-663 | on every book of any run merging commutes, associates and absorbs itself |
| `SyncReplicas.RunsConverge` | engine/src/book/sync_bridge.rs:524-537 | devices of any run that go on to absorb published snapshots, interleaved in any order and repeated, hold the same book at the end if they had the same ones to go by |
| `SyncReplicas.EditSurvives` | core/src/sync.rs:667-697 | an edit stamped above everything in the book stands against every book merged before |
| `SyncReplicas.AbsorbedForGood` | engine/src/book/sync_bridge.rs:524-537 | a snapshot a device of a run has absorbed changes nothing when it comes again, whatever was edited or absorbed in between |
| `SyncReplicas.ForeignClockMeansDevice` | core/src/sync.rs:406-428 | in any run, seeing another's clock is proof of another device |
| `SyncOutcomes.ExchangeAgrees` | engine/src/book/sync_bridge.rs:524-537 | two devices of any run that publish and absorb each other's snapshot hold one book, the merge of what they had |
| `SyncOutcomes.CounterIsLeast` | engine/src/book/sync_bridge.rs:529-533 | after absorbing, the counter is the least that is behind nothing seen |
| `SyncOutcomes.EditTakesNextNumber` | engine/src/book/sync_bridge.rs:149-316 | an edit is stamped with the next number of the device's own counter |
| `SyncOutcomes.WritesIff` | engine/src/book/sync_bridge.rs:149-466 | an edit is skipped exactly when it removes what is not shown, or when a device that finds itself removed would announce itself |
| `SyncOutcomes.RemovalKeeps` | engine/src/book/sync_bridge.rs:416-442 | a removal keeps the row it removes, with a new clock |
| `SyncOutcomes.MarkRemovalKeeps` | engine/src/book/sync_bridge.rs:149-316 | but for a mark, whose date goes |
| `SyncOutcomes.ForgottenForGood` | engine/src/book/sync_bridge.rs:444-466 | a device that has learned it was forgotten never announces itself again, in any run, whatever it or anyone absorbs |
| `SyncReplicas.LosingTheSidecarBreaksConvergence` | engine/src/book/sync_bridge.rs:74-84 | a device that lost its sidecar can publish two snapshots that do not commute |
| `SyncBook.SortedUnique` | core/src/sync.rs:522-610 | one book has one sorted list of rows |
| `SyncBook.SnapshotDeterministic` | core/src/sync.rs:522-610 | two devices write the same rows, one for one, exactly when they hold the same book |
| `SyncBook.SnapshotReads` | core/src/sync.rs:431-517 | each list of a snapshot is read into its own register: a key is there with a row exactly when the last entry for it has that row |
| `SyncBook.MergeLwwInto` | core/src/sync.rs:618-625 | the loop over incoming rows computes the last-writer-wins merge |
| `SyncBook.MergeMarksInto` | core/src/sync.rs:741-756 | the loop over incoming marks computes the mark merge |
| `SyncBook.MergeDevicesInto` | core/src/sync.rs:718-739 | the loop that skips rows not authored by their device computes the device merge |
| `SyncBook.SyncState.FromSnapshot` | core/src/sync.rs:431-517 | the book read from a snapshot, each register from its own list, the last row for a key standing |
| `SyncBook.SyncState.ToSnapshot` | core/src/sync.rs:522-610 | a sorted snapshot in which each register stands in its own list, and which reads back as the book |
| `SyncBook.SyncState.Merge` | core/src/sync.rs:617-663 | the book in place becomes the merge of the two, whose rows `Sync.MergedRows` names |
| `SyncBook.SyncState.MaxCounter` | core/src/sync.rs:667-697 | the highest counter of any register |
| `Rendezvous.OneReceiver` | core/src/code.rs:607-657 | a key the host shares with a receiver is that receiver's alone |
| `Rendezvous.CheckConfirmKeeps` | core/src/code.rs:980-1011 | the host seals only to a receiver that used its code in this slot and session |
| `Rendezvous.ReportedAs` | core/src/code.rs:968-1011 | a session ends as a wrong code exactly when the confirmation is not the one for its own key, slot and session; as rejected exactly on a reflected message or nobody confirming; the payload is handed over exactly on the right confirmation |
| `Rendezvous.WrongCodeIsCharged` | core/src/code.rs:994-1007 | in any run, a receiver with another secret that confirms is reported as a wrong code, and nothing is handed over for it |
| `Rendezvous.RightCodeIsNot` | core/src/code.rs:977-995 | a receiver with the right one, in the slot and session, is never taken for a wrong code |
| `Rendezvous.OwnMessageIsRefused` | core/src/code.rs:967-974 | until it restarts the host turns its own messages away, in every run, uncharged |
| `Rendezvous.OneTry` | core/src/code.rs:1165-1219 | a receiver goes on with what its ticket opened to, or stops; a restart of the host forgets its session and what it sent |
| `Rendezvous.ReadExtrasKeeps` | core/src/code.rs:1017-1054 | reply and extras that open come from that one receiver, whatever rows the relay swapped |
| `Rendezvous.RunKeeps` | core/src/code.rs:946-1255 | the invariant of the protocol over every interleaving, restart and forgery of which the relay is capable |
| `Rendezvous.ReceiverGotPayload` | core/src/code.rs:1165-1219 | a receiver that used the code and opened a ticket has exactly the host's payload, which the host sealed for that receiver's own session under a key it shares with no other |
| `Rendezvous.PairedWithReceiver` | core/src/code.rs:830-845 | every pairing reported is with exactly one receiver, which used this slot and session, and what is reported with it is what that receiver sealed |
| `Rendezvous.EachPairedOnce` | core/src/code.rs:830-845 | no receiver is reported twice, and no more pairings are than payloads were handed over, whatever is replayed and however often the host restarts |
| `Rendezvous.FaithfulExchange` | core/src/code.rs:946-1255 | whatever happened before, a receiver that the relay serves faithfully gets the payload, and the host hears its reply and extras |
| `Rendezvous.KdfInputInjective` | core/src/code.rs:607-641 | two sessions derive from the same bytes only if key, slot and session are the same |
| `Rendezvous.ZeroInSlotCollides` | core/src/code.rs:607-641 | with a zero byte in a slot they would not be told apart |
| `CodeHost.OneRun` | core/src/code.rs:760-862 | in one run every answer starts within both limits with all earlier counts saved, the counters are those of the answers that were counted, and only the last can have crashed |
| `CodeHost.ClosesOver` | core/src/code.rs:782-814 | a run closes for a limit only when that limit was reached |
| `CodeHost.EndsOn` | core/src/code.rs:782-814 | and whatever went before, a turn ends the run by the caller's cancelling, else the session limit, else the failure limit, else as the poll says, each with its own reason |
| `CodeHost.AllAnswered` | core/src/code.rs:816-860 | every session listed is answered in order, unless a limit is reached, the caller cancels or the process dies |
| `CodeHost.BrokenOffOnlyBy` | core/src/code.rs:816-860 | a listing ends the run only by a cancelling or a crash |
| `CodeHost.LimitsHoldOverLifetime` | core/src/code.rs:760-862 | over any number of runs both counters stay within their limits; wrong codes told are those counted and those lost to a crash; payloads handed over are those counted, those lost to a crash, and those whose stored ticket was not acknowledged |
| `CodeHost.AllCountedIff` | core/src/code.rs:826-858 | every payload handed over is counted exactly when no crash and no lost answer falls between storing a ticket and counting it |
| `CodeHost.LostAnswersServeMore` | core/src/code.rs:1009-1011 | with one session allowed, any number of receivers can be served in one run without a crash |
| `CodeHost.Run` | core/src/code.rs:760-862 | the loop ends, saves and answers as the specification says |
| `CodeHost.AnswerAll` | core/src/code.rs:816-860 | and so does its loop over one listing |
| `CodeText.ShownParses` | core/src/code.rs:37-48 | a shown code parses to its slot, its secret and its relay with the end trimmed |
| `CodeText.ParsesAs` | core/src/code.rs:37-48 | a code is taken exactly if its slot is not empty and two dashes stand before any `@`, with a relay exactly if one follows |
| `CodeText.NoDashIsRefused` | core/src/code.rs:43-46 | one without a dash before its `@` is refused |
| `CodeText.EndsInAt` | core/src/code.rs:39-42 | one that ends at its `@` has the `@` in its secret and no relay |
| `CodeText.TrimIs` | core/src/code.rs:38-54 | trimming takes the spaces at the ends and nothing else |
| `CodeText.TrimSlashesIs` | core/src/code.rs:278 | and the slashes at the end likewise |
| `CodeText.StrippedIff` | core/src/code.rs:263-279 | nothing is trimmed off a relay exactly when there is nothing at its ends to trim |
| `CodeText.ShownResolvesIff` | core/src/code.rs:37-86 | a shown code resolves to the host's slot, secret and relay exactly when the relay is one a code can carry |
| `Positional.ReadsBack` | core/src/sync.rs:762-791 | every value of a shape reads back, whatever follows it |
| `Positional.Consumes` | core/src/sync.rs:773-791 | whatever is read took up at least the bytes that would write it |
| `Positional.VarintIs` | core/src/sync.rs:762-791 | a number is written in groups of seven bits, the lowest first, in as few as it takes |
| `Positional.EndingReads` | core/src/sync.rs:762-791 | a number that ends within its width is read to the value of its groups |
| `Positional.ReadNumberEnds` | core/src/sync.rs:762-791 | and no other is |
| `Positional.DecodedFits` | core/src/sync.rs:773-791 | whatever decodes is a value its shape can hold |
| `Positional.SameLengthSameBytes` | core/src/sync.rs:773-791 | bytes that decode to a value and are no longer than what would be written are what would be written |
| `Positional.OlderRunsOut` | core/src/sync.rs:866-919 | bytes written before fields were added fail the newer shape by running out of input |
| `Positional.OlderShapeDropsFields` | core/src/sync.rs:773-779 | read as an older shape, newer bytes decode without the newer fields |
| `Positional.NewestFirstIsExact` | core/src/sync.rs:773-791 | tried newest first, bytes of any append-only shape decode to what was written and the stated defaults |
| `Positional.NewestKeepsAll` | core/src/sync.rs:773-783 | current bytes never lose a field to an older shape |
| `Positional.OldestFirstForgets` | core/src/sync.rs:774-779 | in the other order they do |
| `Wire.SnapshotAppendOnly` | core/src/sync.rs:854-919 | the last three snapshot shapes only ever grew at the end |
| `Wire.SnapshotExact` | core/src/sync.rs:773-791 | a snapshot in any of them is read as written, with no relays and no own name where it had none |
| `Wire.OldestExactIff` | core/src/sync.rs:773-850 | a snapshot in the oldest shape is read as written, rows dated never, exactly when no newer shape happens to read its bytes or it has no `seen` rows |
| `Wire.OldestCanBeMisread` | core/src/sync.rs:806-850 | it does happen: the first snapshot of a young device whose random id starts with a small byte and three zeros reads as a current one without that device |
| `Wire.PairExact` | core/src/sync.rs:307-323 | the secret and the snapshot of a pairing payload are read as each would be alone |
| `Wire.OfferExact` | core/src/presence.rs:1371-1378 | an offer in either shape is read as written, the older with no relay |
| `Wire.OfflineExact` | core/src/offline.rs:98-130 | an offline ticket in either shape likewise, the older with no name |
| `Chunks.Fill` | core/src/chunked.rs:43-52 | however short the reads, the buffer gets as much of the file from here as fits |
| `Chunks.ReadFullAt` | core/src/source.rs:166-177 | the same from an offset, without moving the file's position |
| `Chunks.NeverStuck` | core/src/chunked.rs:1023-1072 | for every interleaving, something can happen until everything is hashed |
| `Chunks.FinishedReports` | core/src/chunked.rs:1023-1072 | and then each chunk was reported once, with its own digest |
| `Chunks.IndexInverts` | core/src/chunked.rs:1085-1092 | every digest has an index, which is the last place that has it, repeats included |
| `Chunks.Collect` | core/src/chunked.rs:1074-1099 | results in any order come back into file order, refused exactly when one is missing |
| `Chunks.Compute` | core/src/chunked.rs:1012-1101 | for every worker count, schedule and run of short reads the payload is prepared as if in one go, exactly when its chunks can be numbered by a `u32` |
| `Chunks.PiecesAreData` | core/src/chunked.rs:1023-1045 | the pieces are the file, in order, with nothing left over |
| `Chunks.CiphertextOpens` | core/src/chunked.rs:1046-1062 | and each ciphertext opens under its own index to its piece |
| `Chunks.FromDigests` | core/src/chunked.rs:1116-1133 | a digest list is taken exactly when it is as long as the size says |
| `Chunks.DigestsRebuild` | core/src/chunked.rs:1116-1133 | a preparation's own digests are accepted exactly when the chunk count did not wrap, and give that preparation again |
| `Chunks.ProduceOnTheFly` | core/src/chunked.rs:237-252 | every digest of the ticket and no other is served, by a ciphertext that hashes to it, and nothing when a read fails |
| `Chunks.ProduceReseal` | core/src/chunked.rs:254-274 | and by a receiver, exactly for the pieces it has verified |
| `Chunks.RegeneratedIsOriginal` | core/src/chunked.rs:237-276 | with a hash that does not collide it is the ciphertext the hashing pass saw |
| `Swarm.NewIsEmpty` | core/src/swarm.rs:24-31 | a fresh bitfield has room for its pieces and marks none |
| `Swarm.Set` | core/src/swarm.rs:34-38 | the array in place gets that bit, or nothing when out of range |
| `Swarm.SetFrame` | core/src/swarm.rs:34-45 | setting a bit sets that bit and no other |
| `Swarm.HasIsShift` | core/src/swarm.rs:41-45 | index `i` is the bit `i % 8` places above the lowest of byte `i / 8` |
| `Swarm.Count` | core/src/swarm.rs:48-50 | the count is the number of pieces marked |
| `Backfill.RelayHave` | core/src/backfill.rs:193-228 | across batches, exactly the indices whose bit the relay set, or what its first unanswered batch calls for |
| `Backfill.IndicesAreGlobal` | core/src/backfill.rs:221-225 | for lists a `u32` can index, those are positions in the list asked about |
| `Backfill.BatchHolds` | core/src/backfill.rs:201-204 | each chunk is asked about at its place in its batch, and no batch is larger than the relay takes |
| `Backfill.HonestRelay` | core/src/backfill.rs:193-228 | from a relay that answers truthfully, exactly the positions of the chunks it holds are reported |
| `Backfill.SeedOne` | core/src/backfill.rs:108-119 | a chunk is kept exactly if it is as long as announced and hashes to its name, unless the disk fails; no other file is touched |
| `Backfill.SeedChunks` | core/src/backfill.rs:85-105 | a success holds every chunk, with the bytes fetched, under its own digest, and comes exactly when every chunk not yet held was genuine and could be written; a failure restores the store but for files of this call the disk would not give up |
| `Delivery.MissingIsComplement` | core/src/chunked.rs:934-939 | a tail is in order and exactly what a receiver lacks |
| `Delivery.FullIsAll` | core/src/chunked.rs:1305-1317 | as many acks in range as there are chunks can only be all of them |
| `Delivery.Deliveries.Handle` | core/src/chunked.rs:896-945 | the record says of each receiver what it said of itself, invented indices dropped; a departure reports what that receiver lacks |
| `Delivery.TailPerDeparture` | core/src/chunked.rs:925-945 | one tail is reported for each departure and none for a receiver that aborts, each what that receiver lacked of what it had said by then |
| `Delivery.Deliveries.DeliveredCount` | core/src/chunked.rs:1291-1299 | what the best-served receiver has |
| `Delivery.Deliveries.CompletedPeers` | core/src/chunked.rs:1305-1317 | exactly the receivers holding every chunk, none for no chunks |
| `Delivery.Serve` | core/src/chunked.rs:879-953 | over any interleaving of receivers, every departure is reported once, in order, with what that receiver then lacked |
| `Slots.InboxSlotsAt` | core/src/presence.rs:141-151 | the loop gives this epoch's slot and the one before, once each |
| `Slots.CurrentComesFirst` | core/src/presence.rs:141-151 | the current slot comes first, and after it at most the one before |
| `Slots.LiveRowIsInWindow` | core/src/presence.rs:141-151 | a row with a clamped lifetime is in the reader's window as long as it lives |
| `Slots.WindowIsExact` | core/src/presence.rs:141-151 | a slot is in the window exactly in its own epoch and the next |
| `Slots.LifetimeIs` | core/src/presence.rs:483-485 | a life of at most an epoch is granted as asked, a longer one for exactly an epoch |
| `Slots.LongerLivesAreLost` | core/src/presence.rs:483-485 | any longer life than the clamp allows would outlive the window |
| `Slots.BeaconIsAsked` | core/src/presence.rs:173-188 | with clocks no more than the grace apart the published slot is asked, and none twice |
| `Slots.AskedIsWithinGrace` | core/src/presence.rs:173-188 | exactly the slots of clocks within the grace are asked, the asker's own first |
| `Slots.GraceIsTight` | core/src/presence.rs:77-88 | with any more skew, either way, a beacon can be missed |
| `Inbox.ShownExactly` | core/src/presence.rs:896-916 | exactly the offers a device may have are shown |
| `Inbox.ShownIff` | core/src/presence.rs:896-916 | an offer is kept from a device exactly if it knows itself and the offer is its own or is aimed at another |
| `Inbox.PutAllHolds` | core/src/presence.rs:935-945 | each row is remembered under the slot it was last read from, and no other row moves |
| `Inbox.Subscription.RememberRows` | core/src/presence.rs:935-945 | the memory in place, cleared first past its cap |
| `Inbox.Subscription.BackfillDue` | core/src/presence.rs:966-974 | whether the older slots are due, the clock stamped only if so |
| `Inbox.Subscription.ItemsAcrossSlots` | core/src/presence.rs:1121-1176 | held or not, exactly the rows of the slots it looked in that answered, in order; older slots are looked in exactly when they are due; it fails exactly with the current slot or on a malformed reply; and what it then holds and remembers |
| `Inbox.ReadIs` | core/src/presence.rs:1121-1176 | the same of the specification every run uses |
| `Inbox.Subscription.PollWait` | core/src/presence.rs:1055-1105 | a poll shows what was read and may be shown, notes what makes no sense, and takes nothing |
| `Inbox.PollShows` | core/src/presence.rs:1055-1176 | for every wait, a poll shows exactly the offers this device may have among the rows of the slots it looked in, unless it fails |
| `Inbox.Subscription.Ack` | core/src/presence.rs:1212-1225 | the slot asked to delete is the one remembered, or else the current one |
| `InboxRuns.RunKeeps` | core/src/presence.rs:796-1225 | the invariant of many devices on one inbox, their polls, acks and sync rounds in every interleaving |
| `InboxRuns.OnlyShownWhereMeant` | core/src/presence.rs:896-916 | a device that knows itself is never shown an offer it posted or one aimed at another |
| `InboxRuns.GoesOnlyToItsReader` | core/src/presence.rs:1055-1112 | short of expiring or being taken back with its token, an offer goes only by the ack of a device that may have it, never by its poster or a sync round; a note only by a round that read it and has published since; junk not at all |
| `InboxRuns.AimedOfferWaits` | core/src/presence.rs:1073-1080 | where every device knows itself an aimed offer stays until its aim takes it, it expires or it is taken back |
| `InboxRuns.AckHitsTheRow` | core/src/presence.rs:1212-1225 | an ack deletes a row exactly when it is remembered or is in the current slot |
| `InboxRuns.MemoryMoves` | core/src/presence.rs:1093-1225 | an accepted ack forgets where that one row was, a restart forgets all, a poll notes exactly the rows that made no sense |
| `InboxRuns.ShownIsRemembered` | core/src/presence.rs:935-945 | whatever a poll shows, again or for the first time, it remembers where, unless it cleared its memory past the cap |
| `InboxRuns.ShownCanBeAcked` | core/src/presence.rs:1121-1225 | from the poll that showed it until a restart, a clearing or an accepted ack, the device's ack deletes the row, whatever slot it is in and whatever others do |
| `InboxRuns.OneShotShowsAll` | core/src/presence.rs:1121-1176 | a one-shot poll shows a device every offer meant for it that is in a slot it looks in |
| `InboxRuns.HeldPollShows` | core/src/presence.rs:1055-1176 | a held poll that is answered shows every permitted offer in the current slot, and in the older ones when they are due, and then holds the current slot's rows |
| `InboxRuns.LiveOfferIsShown` | core/src/presence.rs:141-151 | and so every offer meant for it that still lives, whenever it was posted and whatever life was asked for |
| `InboxNotes.NothingSyncedIsLost` | engine/src/sync.rs:59-100 | over every run of any devices' rounds, all that a snapshot held is in one still on the relay, or one no older that expired or was taken back |
| `InboxNotes.NewestSnapshotStays` | engine/src/sync.rs:90-100 | no round ever deletes the newest snapshot |
| `InboxNotes.RoundMergesAll` | engine/src/sync.rs:66-88 | a round that is answered merges every snapshot in the slots it looks in |
| `InboxNotes.BrokenOffMerges` | engine/src/sync.rs:65-87 | a round that breaks off has merged exactly the snapshots it came to |
| `InboxNotes.RoundWillDelete` | engine/src/sync.rs:68-100 | a round that is answered will delete every note in its slots that is to go, and remembers where each is unless they were too many |
| `InboxNotes.RoundHitsTheRow` | engine/src/sync.rs:97-100 | its request takes the note off the relay exactly if it remembers the row or the slot is the current one |
| `InboxNotes.SyncedReachesEveryRound` | engine/src/sync.rs:59-100 | while no snapshot expires, a device that syncs has all that any snapshot ever held, however many rounds deleted it in between |

## Left out

- Link.NothingElseDecodes: its premise `Unforged` covers every part of the blob at every index and count, since which parts the decoder tries depends on the blob.
- Chunks.Compute: a worker that dies is not modelled; what a payload of more than 2^32 chunks prepares to is left open.
- Upload.Run: the file's contents do not change during an upload, other than being cut short; a session resumed belongs to the same container, as its caller promises.
- UploadRelay.Relay.Commit: that a deposit is fetched, revoked or expires is not modelled; `blobs` is what each claim was issued for, and an old claim is answered whether its deposit is still there or not.
- Upload.Drive: waiting, stalls and backoff are the choices of the network; 64-bit overflow of lengths is not modelled.
- Rendezvous.PairedWithReceiver: a holder of the code that does not follow the protocol is not modelled; nor are several hosts on one slot.
- SyncReplicas.RunKeeps: reconciling the ledgers is any sequence of the edits it can make; counters are unbounded rather than 64-bit.
- Wire.SnapshotExact: a snapshot is the list of its field values, not the typed record; the oldest shape, which is not a prefix of the next, has its own condition in `Wire.OldestExactIff`.
- Inbox.Subscription.PollWait: session tokens, their cache and the request that carries `held` are not modelled; a round the relay holds may answer anything truthful.
- InboxRuns.AimedOfferWaits: a person settles only offers that were shown on that device.
- InboxNotes.NothingSyncedIsLost: a snapshot is the set of what it can teach a book; its encryption, and a note that only refers to a deposit, which nothing writes yet, are not modelled.
- CodeText.ShownResolvesIff: which protocol a slot speaks is not modelled.
- CodeHost.Run: `drain`, which only delays retiring a code, and the parsing of the sessions listing are left out; each network outcome is an input.
- Delivery.Deliveries.Handle: connections and idle timers are events of one sequence.
- `run`'s dedupe of polled offers by id, `PeerCount`, `ConnPool` and `read_body_or_stall`: would add only easy members.
- Rendezvous v1, the tracker, stored ciphertext files as a chunk source, snapshot encryption: not modelled.
- HPKE, SPAKE2, BLAKE3, AES-GCM, blinded keys and base32: library code, taken as ideal functions or left to the caller.
- Network clients, endpoints, the daemon, the command line and the relay's other services are not part of this model.
