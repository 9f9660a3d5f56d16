# A verified model of the post-quantum chat client

The client keeps its state around a relay it does not trust: chat archives that several devices append to, deletion
that needs everyone's agreement, messages that may arrive by several paths and more than once, files fetched in pieces,
and two key files that must survive a crash. This project models that state and the byte formats it is signed, hashed and
stored in, and proves what the code keeps true of them, over every input and every run.

Cryptography is ideal and appears only as parameters. A hash is a function; where collisions would matter, a lemma asks
only that the inputs it talks about do not collide. A signature is the key that made it and what was signed.
Authenticated encryption opens what was sealed under the same key, nonce and associated data. The clock, the network, the
disk and the random numbers are parameters of each step, and each database method is one atomic step.

| file | what it holds |
|---|---|
| `Wire.dfy`, `Buffers.dfy` | the length-prefixed formats as an algebra of codecs, and the growing buffer and moving offset they are used through |
| `SigningInputs.dfy` | every byte string that is signed or hashed for a relay or an archive |
| `Archive.dfy` | the hash chain, what one device keeps of it, checkpoints and forks, against any relay |
| `ArchiveProtocol.dfy`, `ArchiveProgress.dfy` | any number of devices and an honest relay, in every interleaving, checkpoints included: what is kept, and what gets done |
| `ArchiveForks.dfy` | any run of one device's syncs and appends against a relay that answers anything, and two such devices |
| `Deletion.dfy`, `DeletionProtocol.dfy`, `DeletePayload.dfy` | deleting by agreement: one device, the relay's check, all of them together with anyone hostile, and the request's bytes |
| `DeletionProgress.dfy` | what agreement gets done: every answer and verdict exactly, and the whole run in which everyone agrees |
| `DeletionAnswers.dfy`, `DeletionCases.dfy` | when an answer is written over, when someone is let in without a say, and a run from nothing for each |
| `Intake.dfy`, `Handling.dfy`, `Redelivery.dfy` | every path into the message history; exactly what each stores and leaves waiting; crashes, redelivery, prekeys and acknowledgements |
| `Delivery.dfy` | delivery status per member and overall |
| `Chunks.dfy`, `Download.dfy`, `AttachmentKeys.dfy` | chunk plans, the resumable download, and how a file's key reaches its row |
| `Utf8.dfy`, `SafeNames.dfy` | strict UTF-8 and safe file names |
| `Envelope.dfy`, `Record.dfy`, `Recipients.dfy`, `Keyring.dfy`, `KeyringTransport.dfy`, `Base64Url.dfy` | the formats |
| `KeyProtection.dfy` | the two private-key files and their passphrase |

Where the source updates an object in place, a class with those fields has methods whose contracts tie the new state to a
function of the old one, and the protocol modules use the same functions. `dafny verify dfyconfig.toml` checks the project.

## What the code does not keep

Several things one might expect of the code are false of it. Each has a lemma with the case, and one that says exactly when
it does hold.

- An honest relay can be suspected: it reads the entries of a fetch and then, separately, the head, so an append in between
  makes a fetch that found nothing look like a relay that went back. `ArchiveProtocol.HonestRelayWarnedOf` is such a run;
  `ArchiveProtocol.RunWarns` says that a run warns a device if and only if some append got in between those two reads.
- Two sessions of one device, open at once against a relay that forks, can mix two chains in one table
  (`ArchiveForks.TwoSessionsMixForks`), and a member's checkpoint may then not show the fork. `ArchiveForks.StepHolds` says
  exactly which steps keep the table one chain; with one session at a time all do (`ArchiveForks.OneAtATimeMeets`).
- Everyone registered for a chat's archive is meant to have had a say in all that was redacted there. If the relay's clock
  goes back before the closing time, or a request to join goes by an older reading of it, someone can still take a free place
  (`DeletionCases.LateJoiner`).
  `DeletionAnswers.HeardStep` and `DeletionAnswers.LateExactly` say exactly when: a key is registered that was not registered
  when an entry of that log was redacted. A clock that does not go back prevents it (`DeletionAnswers.ForwardsAllHeard`).
- A row that is declined, done or expired does not always stay so. A call writes a row's state by the copy it read, and an
  answer given in between is written over (`DeletionCases.DeclinedThenExpired`). `DeletionAnswers.FinalChanges` says exactly
  when; calls that are not overtaken change no final answer (`DeletionAnswers.FreshFinal`).
- A stranger's messages that wait as a request are lost, though acknowledged, if the stranger becomes a contact some other
  way: listing the requests then deletes them unread (`Redelivery.ContactAddedMeanwhile`). Accepting a request or an
  invitation likewise deletes what arrived after it was read. `Handling.ItemStays` says exactly which step takes something
  away, and `Redelivery.NothingUnread` exactly when a run takes something away unread.
- Two envelopes sealed to the same one-time prekey: the second is acknowledged without being opened
  (`Redelivery.SharedPrekey`). A one-time prekey opens one envelope and is erased exactly when it has (`Redelivery.OpensOnce`).
- A redelivered envelope can store more than it did the first time, when a group was joined in between
  (`Redelivery.JoinedMeanwhile`); `Redelivery.RedeliveredLater` says exactly when it changes nothing.
- Resuming a download ignores a failure to cut the part file, so bytes of an earlier attempt can stay under the new ones
  (`Download.StrayBytesStay`); `Download.BeginCovers` is the exact condition. Finishing ignores a failure to write out the
  end of the file, so it can be saved short (`Download.SavedShort`); `Download.FinishSaves` says that the saved file is
  whole exactly when it was written out.
- Changing one passphrase to another and stopping between the two writes leaves two files no passphrase opens;
  `KeyProtection.ChangeCutShort` is an equivalence.
- A sanitised name may be 201 bytes long (`SafeNames.OneByteOver`) and may end in a dot or a space
  (`SafeNames.CutMayEndInDot`, `SafeNames.CutMayEndInSpace`), though the header promises 200 and neither.
  `SafeNames.SanitizedIsSafe` says exactly when: the first, when the cut name is reserved and fills the limit; the second,
  when it is cut, has no short extension, and a dot or space stands before the cut.
- The writer of a deletion request accepts an entry named twice and the reader does not; `DeletePayload.RequestRoundTrip`
  is an equivalence. Likewise `AttachmentKeys.OrderIrrelevant` for the order in which a file's key and record arrive.

## Model

| member | source | states |
|---|---|---|
| `Wire.U64Accepts` | protocol/protocol.cpp:51-57 | whatever is read as a 64-bit number is what would have been written for it, followed by the rest |
| `Wire.BlobAccepts` | protocol/protocol.cpp:66-70 | a blob that is read has at most the allowed length, and the bytes consumed are exactly its encoding |
| `Wire.ThenLawful` | protocol/protocol.cpp:9-70 | two lawful formats one after the other are lawful: read back whatever follows, and nothing accepted but what is written |
| `Wire.ListLawful` | protocol/relay_protocol.cpp:394-408 | a count within bounds and that many items is lawful if the item is |
| `Wire.WholeReads` | protocol/relay_protocol.cpp:16 | a strict reader inverts the writer on everything the writer accepts |
| `Wire.WholeAccepts` | protocol/relay_protocol.cpp:16 | the writer inverts a strict reader on everything the reader accepts, so no bytes may follow |
| `Buffers.Writer.PutBlobs` | protocol/protocol.cpp:9-33 | the loop appends each item's length and bytes in order, and changes nothing written before |
| `Buffers.Reader.GetU32` | protocol/protocol.cpp:38-49 | reads exactly when four bytes are left, and moves the offset past them |
| `Buffers.Reader.GetBlob` | protocol/protocol.cpp:59-70 | reads exactly when the announced length is allowed and present |
| `Buffers.Reader.GetBlobs` | protocol/protocol.cpp:66-70 | the loop over a count reads what the list format reads, and fails exactly when it does |
| `SigningInputs.InputsInjective` | protocol/relay_protocol.cpp:638-723 | two inputs, of the same or of different purposes, have the same bytes exactly when they are the same request with the same arguments, lists of entry hashes included |
| `SigningInputs.LengthsWrap` | protocol/protocol.cpp:25-28 | the bound on lengths is needed: 2^32 bytes and none are written with the same length |
| `Archive.VerifyChain` | client/archive.cpp:50-61 | the loop accepts exactly the lists in which each entry has the next number and, unless a tombstone, the hash of what it says, and returns the end |
| `Archive.VerifiedInParts` | client/archive.cpp:50-61 | verifying a concatenation is verifying the parts in turn |
| `Archive.AgreeBackwards` | client/archive.cpp:50-61 | two verified chains with the same hash at m have the same hashes and contents back to the nearest tombstone in either |
| `Archive.ForkPersists` | client/archive.cpp:50-61 | chains that differ at k differ at every later m with no tombstone between |
| `Archive.TombstoneHidesFork` | client/archive.cpp:54-56 | the tombstone condition is needed: any beginning of the right length goes with what follows a tombstone |
| `Archive.TakeKeepsChain` | client/messaging_engine.cpp:1635-1675 | against any relay, a round leaves the device with a verified chain, the old one or the old one and all that was sent, and warns when it does not verify |
| `Archive.CatchUpKeepsChain` | client/messaging_engine.cpp:1633-1677 | over a whole catch-up with any relay, what is returned is what was added, in order, to the chain held |
| `Archive.CatchUpMarks` | client/messaging_engine.cpp:1647-1667 | over a whole catch-up with any relay, exactly the tombstones handed on become marked as redacted |
| `Archive.CheckpointCompared` | client/messaging_engine.cpp:1810-1824 | a checkpoint leaves a warning exactly when one was set or it names a held entry with another hash, and the highest number seen is noted |
| `Archive.CheckpointExposesFork` | client/messaging_engine.cpp:1810-1824 | a checkpoint at m from a member whose chain differs at k, with nothing redacted from k + 1 to m, leaves a warning |
| `Archive.ShaBinds` | protocol/relay_protocol.cpp:704-713 | if SHA-256 does not collide on the bytes hashed, an entry's hash fixes its number, the hash before and the ciphertext |
| `Archive.ArchiveClient.SaveArchiveHashes` | client/history_store.cpp:832-838 | adds the hashes of numbers not yet in the table and changes none that are |
| `Archive.ArchiveClient.TakeAnswer` | client/messaging_engine.cpp:1635-1676 | one round on the device's fields does what the specified round does, warning, head and table included |
| `Archive.ArchiveClient.CatchUp` | client/messaging_engine.cpp:1633-1677 | the loop returns and leaves exactly what the specification of a whole catch-up gives |
| `Archive.ArchiveClient.ProcessCheckpoint` | client/messaging_engine.cpp:1810-1824 | a checkpoint of a stranger, for others or malformed changes nothing; otherwise the specified comparison |
| `ArchiveProtocol.StepKeeps` | client/messaging_engine.cpp:1633-1850 | every action of any device or of the relay, posting and reading checkpoints included, keeps the invariant, only adds to or redacts the log, and moves no head back |
| `ArchiveProtocol.RunKeeps` | client/messaging_engine.cpp:1633-1850 | in every interleaving each device's head and table are those of a beginning of the relay's log, every session has handed on exactly what it missed in order, no two appends got one number, every checkpoint names an entry of the log, nothing is overwritten and no head goes back |
| `ArchiveProtocol.KeepAppend` | server/relay_store.cpp:700-731 | the compare-and-swap lets an entry in only on the head it was made for, and keeps the invariant either way |
| `ArchiveProtocol.DevicesAgree` | client/history_store.cpp:840-847 | any two devices hold the same hash for every number both hold |
| `ArchiveProtocol.CheckpointAgrees` | client/messaging_engine.cpp:1810-1850 | a checkpoint another member made, whenever it is read, contradicts no member's table |
| `ArchiveProtocol.RunWarns` | server/relay_service.cpp:562-567 | a run against an honest relay, checkpoints included, warns some device if and only if, for some fetch that found nothing, an append got in between the reading of the entries and the reading of the head |
| `ArchiveProtocol.LateIsOvertaken` | server/relay_service.cpp:562-567 | the head read at k makes its device warn exactly when its entries were read, to nothing, at some i, undisturbed since, and an append succeeded between |
| `ArchiveProtocol.LogBetween` | server/relay_store.cpp:700-731 | the log is longer later exactly when an append succeeded in between |
| `ArchiveProtocol.OvertakenFetchWarns` | server/relay_service.cpp:562-567 | every append that overtakes such a fetch makes its device warn |
| `ArchiveProtocol.HonestRelayWarnedOf` | client/messaging_engine.cpp:1668-1674 | a run of two devices and an honest relay in which one is warned |
| `ArchiveProtocol.SnapshotNeverLate` | server/relay_service.cpp:562-567 | a fetch whose two reads have nothing between them never is |
| `ArchiveProtocol.CatchUpGetsAll` | client/messaging_engine.cpp:1633-1677 | on a log that stands still the loop ends, succeeds, returns exactly the missed entries and ends at the relay's head without a warning |
| `ArchiveProgress.SyncGetsAll` | client/messaging_engine.cpp:1678-1689 | a session opened on any device, in any interleaving in which nobody gets an append in, ends level with the relay and has handed on exactly the entries the device had missed |
| `ArchiveProgress.RefusedGoesAgain` | client/messaging_engine.cpp:1700-1731 | an append refused because someone got in first, with fewer than nine refusals before: after its own catch-up, whatever others do short of appending, its next append makes the log longer by exactly its own entry, which the reply puts in the device's table |
| `ArchiveProgress.GivesUpAtTen` | client/messaging_engine.cpp:1700-1731 | over any run a refusal ends the session if and only if nine came before |
| `ArchiveProgress.RedactedForGood` | server/relay_store.cpp:748-781 | once redacted, an entry's content is gone in every later state, its hash stays, and a fetch gets the tombstone |
| `ArchiveProgress.CheckpointNoted` | client/messaging_engine.cpp:1810-1850 | a checkpoint one member posts and another reads is noted there without a warning |
| `ArchiveForks.StepHolds` | client/messaging_engine.cpp:1633-1731 | whatever the relay sends or replies to any of a device's open sessions, a step leaves one verified chain in the table exactly when the session has the stored hash where it passes the stored head, or a tombstone follows there |
| `ArchiveForks.RunGood` | client/messaging_engine.cpp:1633-1731 | so over any number of syncs and appends, if every step meets the stored chain, the table is a verified chain |
| `ArchiveForks.OneAtATimeMeets` | client/messaging_engine.cpp:1678-1731 | a device that opens one session at a time meets it at every step, whatever the relay does |
| `ArchiveForks.ForkingRelayExposed` | client/messaging_engine.cpp:1633-1824 | after any such runs of two devices against any relay, if their chains differ at an entry and nothing is redacted from the next to m, a checkpoint of one at m warns the other |
| `ArchiveForks.TwoSessionsMixForks` | client/history_store.cpp:832-838 | the condition is needed: two sessions open at once put two forks into one table, and nobody is warned |
| `Deletion.FindSignature` | server/relay_service.cpp:535-536 | the inner loop finds the signature given for a key, the last one if there are several |
| `Deletion.JudgeMembers` | server/relay_service.cpp:533-541 | an order passes exactly when every registered key has a signature of this very order in it; otherwise the first that has not decides the answer |
| `Deletion.ErasesExactly` | client/messaging_engine.cpp:2331-2336 | a message loses its content exactly when it is placed at the number of a named entry, exactly the known named numbers become redacted, and nothing else changes |
| `Deletion.NumberFound` | client/history_store.cpp:1088-1094 | an entry's number is found exactly when its hash is in the table, and holds that hash |
| `Deletion.DeletionBook.AddDeletionAccept` | client/history_store.cpp:1052-1055 | one acceptance for each key: a second is ignored |
| `Deletion.DeletionBook.ReceiveDeletionRequest` | client/messaging_engine.cpp:2242-2264 | a row appears, pending, only for a member's live, well-formed request for a chat with an archive, and never replaces one |
| `Deletion.DeletionBook.ReceiveDeletionAccept` | client/messaging_engine.cpp:2267-2277 | an acceptance is kept only from a member, for this chat, while the row is neither done nor expired |
| `Deletion.DeletionBook.AcceptDeletion` | client/messaging_engine.cpp:2279-2314 | succeeds exactly for a pending, unexpired row of a chat whose archive this device has joined |
| `Deletion.DeletionBook.DeclineDeletion` | client/messaging_engine.cpp:2316-2323 | only a pending row is declined |
| `Deletion.DeletionBook.EraseNumber` | client/history_store.cpp:1096-1112 | the loop erases every message placed at the number and no other |
| `Deletion.DeletionBook.ApplyDeletionLocally` | client/messaging_engine.cpp:2326-2341 | the chat's tables and the row become what the order says, and no other chat or row changes |
| `DeletionProtocol.StepKeeps` | client/messaging_engine.cpp:2140-2413 | every action, hostile ones and calls that act on old copies of rows included, keeps the invariant, leaves every row there with what it asks, makes none pending again, and forgets no order carried out |
| `DeletionProtocol.RunKeeps` | client/messaging_engine.cpp:2140-2413 | so does every run |
| `DeletionProtocol.MemberSigned` | server/relay_service.cpp:532-538 | a signature that verifies on the order's bytes was made for exactly this order, because the signed bytes determine it |
| `DeletionProtocol.EveryoneAgreed` | client/messaging_engine.cpp:2140-2197 | an order the relay carried out was signed by every key registered then, and every device among them has a row with exactly these contents that its user asked for or agreed to |
| `DeletionProtocol.ErasedByAgreement` | client/messaging_engine.cpp:2326-2413 | in every reachable state, a step that makes a device lose a message is a call of that device acting on a request to which its user had said yes and which names the chat or the entry; a whole chat goes only after an order for it that everyone registered signed and agreed to, this device too under the key the call signed in with; a message's content only after such an order for its entry, this device too unless its key was registered late |
| `DeletionProtocol.GoneArchive` | client/messaging_engine.cpp:2391-2395 | a refused sign-in to an archive the device had joined means the chat was deleted by agreement while this device's key was registered |
| `DeletionProtocol.TombstoneMeans` | server/relay_service.cpp:529-531 | an entry a signed-in device sees redacted was redacted by an order this device's key was registered for, unless that key was registered late |
| `DeletionProtocol.DoneByAgreement` | client/messaging_engine.cpp:2338 | a row that is done was asked for or agreed to by its user, and all it names was deleted by orders everyone registered signed and agreed to, with a key of this device for that chat among those registered, for entries unless it was registered late |
| `DeletionProtocol.AgreementSuffices` | client/messaging_engine.cpp:2345-2374 | once every registered key's signature of the order is among the acceptances held, submitting carries it out at the relay, and hearing of it carries it out on the device |
| `DeletionProgress.EveryoneDeletes` | client/messaging_engine.cpp:2140-2413 | for any number of members: one asks, every other is asked and agrees, their acceptances arrive, the one who asked submits and the others check; then the relay has carried the order out, exactly the named entries or the whole archive are gone, and on every device the row is done and the chat, or those messages, erased |
| `DeletionProgress.AcceptanceHeld` | client/messaging_engine.cpp:2267-2277 | an acceptance that arrives is added to those held exactly when it is from a member for a row of that chat that is neither done nor expired and its key has none there yet; nothing else changes |
| `DeletionProgress.VerdictExactly` | server/relay_service.cpp:521-556 | an order is carried out exactly when it is well formed, in time, for an archive that is closed, signed by every registered key and names only entries there; it is called expired exactly when it came too late |
| `DeletionProgress.ExecutesExactly` | server/relay_service.cpp:521-556 | over any step of anyone, the relay carries out exactly the order handed to it if that is due, and nothing else |
| `DeletionProgress.CheckSuffices` | client/messaging_engine.cpp:2389-2410 | a check that finds the archive gone, or all named entries redacted, makes this device erase the same and its row done |
| `DeletionProgress.TooLate` | client/messaging_engine.cpp:2366-2372 | an order the relay calls expired makes the row expire and changes nothing else |
| `DeletionProgress.AsksExactly` | client/messaging_engine.cpp:2146-2197 | a row is made exactly when the archive is joined, the order is valid and new, and for a whole chat no request is still open |
| `DeletionProgress.AskedExactly` | client/messaging_engine.cpp:2242-2264 | a request makes a waiting row exactly when it is from a member, for the members, valid, new, live and not too long, for a chat with an archive |
| `DeletionProgress.YesExactly` | client/messaging_engine.cpp:2279-2314 | by the copy read, a yes counts exactly for a waiting, live row of a joined archive, and leaves the user's signature |
| `DeletionProgress.NoExactly` | client/messaging_engine.cpp:2316-2323 | by the copy read, a no counts exactly for a waiting row, and nothing is sent |
| `DeletionProgress.NotAgain` | client/messaging_engine.cpp:2345-2356 | an order is not submitted again before another acceptance has arrived |
| `DeletionProgress.CatchesUp` | client/messaging_engine.cpp:1645-1667 | after a catch-up the device has every hash of the log and knows exactly the tombstones |
| `DeletionProgress.SweepsExactly` | server/relay_store.cpp:783-793 | the sweep takes away exactly the archives nobody joined in time |
| `DeletionProtocol.RowOverRun` | client/history_store.cpp:1002-1050 | over any run, under replays, other contents under the same operation and overtaken calls, a row never goes, changes what it asks or is pending again, and one accepted or done has its user's word |
| `DeletionAnswers.RowAfterStep` | client/history_store.cpp:1047-1050 | what any step of anyone does to a row: nothing, or it writes the state a call decided on by the copy it had read |
| `DeletionAnswers.FinalChanges` | client/messaging_engine.cpp:2377-2413 | a declined, done or expired row changes exactly when a call writes another state, and then the row was not yet final in the copy the call had read |
| `DeletionAnswers.FinalStays` | client/history_store.cpp:1047-1050 | over any run without such a write a final row stays as it is |
| `DeletionAnswers.FreshInOrder` | client/messaging_engine.cpp:2279-2413 | a call whose row is still as it read it moves it only from pending, or from accepted to done or expired |
| `DeletionAnswers.FreshFinal` | client/messaging_engine.cpp:2279-2413 | so over any run in which no call on the row is overtaken, a final answer stays |
| `DeletionCases.DeclinedThenExpired` | client/messaging_engine.cpp:2382-2386 | a run from nothing in which the user's refusal is overwritten by a check that had read the row before |
| `DeletionAnswers.HeardStep` | server/relay_store.cpp:634-690 | a step of anyone ends that every registered key was registered when each redacted entry was redacted exactly when it registers a key for which that is not so |
| `DeletionAnswers.LateExactly` | server/relay_store.cpp:634-690 | over any run, no key is late exactly when no step did that, and then everyone registered has had a say in everything redacted |
| `DeletionAnswers.ForwardsAllHeard` | server/relay_service.cpp:529-531 | from nothing, as long as the relay's clock does not go back, everyone registered has had a say in everything redacted |
| `DeletionCases.LateJoiner` | server/relay_store.cpp:634-690 | a run from nothing in which the clock goes back and a key is registered that had no say |
| `DeletePayload.RequestRoundTrip` | client/message_record.cpp:374-411 | exactly what is in range is written, and it is read back exactly when no entry is named twice |
| `DeletePayload.RequestStrict` | client/message_record.cpp:390-411 | whatever is read is a valid order, and its bytes are those that would be written for it |
| `Intake.StepKeeps` | client/messaging_engine.cpp:597-841 | every way in keeps every stored incoming message authentic and unique, and changes nothing stored |
| `Intake.HistoryIsAuthentic` | client/messaging_engine.cpp:597-2054 | over any run of envelopes, requests, invitations, archives and restores, each stored incoming message was signed by a member of its conversation, for that conversation, and for exactly this user and the stored members |
| `Intake.RecordKeeps` | client/messaging_engine.cpp:597-661 | handling a verified record of a contact keeps it |
| `Intake.GroupKeeps` | client/messaging_engine.cpp:1134-1222 | so does handling a verified record in a group, or holding it for an invitation |
| `Intake.AcceptInviteKeeps` | client/messaging_engine.cpp:1304-1356 | so does accepting an invitation and handling what it held |
| `Intake.AcceptRequestKeeps` | client/messaging_engine.cpp:802-841 | so does accepting a request |
| `Intake.ArchivedKeeps` | client/messaging_engine.cpp:1780-1806 | so do archive catch-up and restoring, record by record |
| `Intake.Inbox.StoreMessage` | client/history_store.cpp:413-429 | a message is added exactly when its conversation has none with its ID |
| `Intake.Inbox.HandleGroupRecord` | client/messaging_engine.cpp:1134-1222 | the device's tables become what the specification says |
| `Intake.Inbox.HandleContactRecord` | client/messaging_engine.cpp:597-633 | likewise, and it throws exactly when the one-to-one ID is taken by something else |
| `Intake.Inbox.ReceiveGroupInvite` | client/messaging_engine.cpp:1226-1280 | likewise for an invitation and the people it introduces |
| `Intake.Inbox.HandleRecords` | client/messaging_engine.cpp:713-719 | the loop over an envelope's records does what handling them in order does, up to an exception |
| `Handling.OneRecord` | client/messaging_engine.cpp:597-633 | a record is stored exactly when it is accepted and not yet held, throws exactly when the ID is taken, and changes nothing that decides about the next |
| `Handling.StoredExactly` | client/messaging_engine.cpp:597-2054 | for every way in, what is stored after a step is exactly what was and what the step brings: an envelope, an accepted request, an accepted invitation, an archived or restored record, one's own message |
| `Handling.ContactComesIn` | client/messaging_engine.cpp:673-719 | every message for this user in a contact's envelope is stored, up to the first record that throws |
| `Handling.DirectComesIn` | client/messaging_engine.cpp:597-633 | a contact's text, or attachment that can be read, for the two of them is stored unless the ID of their chat is taken |
| `Handling.EnvelopeKinds` | client/messaging_engine.cpp:608-633 | nothing but texts and readable attachments comes in by an envelope |
| `Handling.MemberComesIn` | client/messaging_engine.cpp:673-719 | so is every message for a shared group from someone introduced as a member |
| `Handling.StrangerComesIn` | client/messaging_engine.cpp:720-774 | a stranger's verified records wait as one request if they sent their bundle and there is room; anyone else changes nothing |
| `Handling.RequestComesIn` | client/messaging_engine.cpp:802-841 | every message for this user in a request that was read and accepted is stored |
| `Handling.RequestWaitsExactly` | client/messaging_engine.cpp:822-838 | what waits after accepting a request is exactly what did, but for that sender's requests, and the invitations in it there was room for |
| `Handling.HeldComesIn` | client/messaging_engine.cpp:1304-1356 | what was held for a group is stored when its invitation is accepted, if its sender is known |
| `Handling.ArchiveComesIn` | client/messaging_engine.cpp:1780-1806 | every record of a chat's archive that is for this user is stored by the catch-up |
| `Handling.RestoreComesIn` | client/messaging_engine.cpp:2016-2054 | every record of a chat that is bound to its members and from a known one, or this user's own, is stored by a restore |
| `Handling.GroupRestored` | client/messaging_engine.cpp:1984-2054 | a group rebuilt from its creation record gets all its messages back |
| `Handling.DirectRestored` | client/messaging_engine.cpp:1971-2054 | a one-to-one chat rebuilt with a contact does too |
| `Handling.EnvelopeWaitsExactly` | client/messaging_engine.cpp:673-774 | what waits after an envelope is exactly what did and what it leaves: a request, invitations, records for invitations |
| `Handling.IntroducedExactly` | client/messaging_engine.cpp:1226-1280 | exactly the members an invitation brings the bundles of, who are not contacts, become known, and only by a valid one |
| `Handling.ChatsExactly` | client/messaging_engine.cpp:1304-2000 | which chats there are after one is made, rebuilt or joined: those there were, unchanged, and that one if its ID was free |
| `Redelivery.CrashThenRedelivery` | client/messaging_engine.cpp:673-774 | a crash after any number of an envelope's records and then the envelope again leaves the messages of one undisturbed delivery |
| `Redelivery.RedeliveryChangesNothing` | client/messaging_engine.cpp:673-774 | delivered whole and again up to any record, the messages are unchanged |
| `Redelivery.RedeliveredLater` | client/messaging_engine.cpp:673-774 | in any later state a redelivery changes nothing exactly when all it would now store is held |
| `Redelivery.JoinedMeanwhile` | client/messaging_engine.cpp:1223 | a case in which it stores more |
| `Redelivery.NothingLost` | client/messaging_engine.cpp:3201-3231 | over every schedule of deliveries, crashes and redeliveries no message is stored twice, and an envelope is acknowledged, or its one-time prekey erased if that was handed out once, only after it was handled: every message it held for this user is stored, and every request, invitation and record under an invitation there was room for waits, or was declined, or was taken up and the messages it promised are stored, or was taken away unread |
| `Handling.ItemsWait` | client/messaging_engine.cpp:713-774 | handled to the end, a stranger's verified records are a request, and each invitation and each record under one is in its place, unless the tables were full |
| `Handling.ItemStays` | client/messaging_engine.cpp:776-1356 | a step takes such an item away exactly when the sender's requests are accepted or declined, or listed when the sender is a contact, or the invitation is accepted or declined |
| `Redelivery.NothingUnread` | client/messaging_engine.cpp:776-841 | a run takes something away that the user never decided about exactly when a listing finds a waiting request of a contact, or an acceptance deletes what came after it had read |
| `Redelivery.ContactAddedMeanwhile` | client/messaging_engine.cpp:776-782 | a run in which a stranger's acknowledged message is lost that way |
| `Redelivery.OpensOnce` | client/messaging_engine.cpp:3201-3231 | over every schedule, a one-time prekey is erased exactly when it has opened an envelope, and never opens another |
| `Redelivery.SharedPrekey` | client/messaging_engine.cpp:3201-3231 | a run in which one of two envelopes sealed to one prekey is acknowledged unopened |
| `Delivery.OnlyUp` | client/history_store.cpp:525-556 | no sequence of calls lowers a member's status or the overall one |
| `Delivery.OverallIsLowest` | client/history_store.cpp:543-553 | the overall status is always the higher of where it began and the lowest over all members |
| `Delivery.OrderDoesNotMatter` | client/history_store.cpp:525-556 | two lists with the same calls, in any order and number, end in the same tables |
| `Delivery.RowsAfter` | client/history_store.cpp:528-541 | after any calls each member's row is the highest they gave it; strangers and incoming messages get none |
| `Delivery.LowestIs` | client/history_store.cpp:545-549 | the aggregate is no more than any member's status, and one of them |
| `Delivery.DeliveryTables.RaiseDelivery` | client/history_store.cpp:525-556 | the tables become what the specification says, and the answer is whether they changed |
| `Chunks.PlanExact` | client/attachment.cpp:93-100 | the count is the smallest that covers the file, one for an empty one, no cast or wrap-around loses anything, and the relay's own test accepts the plan |
| `Chunks.PlansAgree` | client/attachment.cpp:34-100 | for every size the chunks sum to the file, sealed they sum to the announced size, and each is what the other end demands |
| `Download.BeginCovers` | client/attachment.cpp:200-244 | a beginning leaves the hash covering exactly the part file if and only if nothing stray was left in it |
| `Download.BeginResumes` | client/attachment.cpp:200-244 | a beginning keeps every whole chunk on disk, or all of a complete file, if it can be read back, and otherwise starts with nothing; it succeeds exactly when there is a folder and the part file opens |
| `Download.AcceptKeeps` | client/attachment.cpp:246-273 | a chunk, taken or refused, written or not, keeps that, and the counters with it |
| `Download.AcceptExactly` | client/attachment.cpp:246-273 | a chunk counts exactly when it is the next, opens as that chunk of this file, has its planned size and can be written; otherwise nothing that counts changes |
| `Download.RunCovers` | client/attachment.cpp:200-308 | through any attempts, interruptions and truncations in which files could be cut, the hash covers exactly the part file and the counters say how far it has got |
| `Download.FinishSaves` | client/attachment.cpp:275-300 | a saved file is the hashed bytes as far as they reached the disk; it is all of them, of the signed hash and size, exactly when closing wrote everything out |
| `Download.SavedShort` | client/attachment.cpp:275-300 | a file of which nothing reached the disk is saved, empty, as complete |
| `Download.FinishExactly` | client/attachment.cpp:275-300 | a file is saved exactly when it is complete, its hash is the signed one, a name is free and the rename works; a wrong hash removes the part file |
| `Download.OriginalSaved` | client/attachment.cpp:165-300 | from any resumed beginning of the original, the remaining chunks of the unchanged file end in exactly that file |
| `Download.StrayBytesStay` | client/attachment.cpp:216-232 | when the part file cannot be cut, earlier bytes stay that the hash does not cover |
| `Download.Decryptor.ReadBack` | client/attachment.cpp:217-226 | the buffered loop reads the first bytes of the file as far as they can be read |
| `Download.Decryptor.PickUp` | client/attachment.cpp:211-232 | the file is cut to whole chunks and read back, or nothing is kept |
| `Download.Decryptor.Start` | client/attachment.cpp:200-244 | the object's fields become what the specification says, covered exactly when nothing stray is left |
| `Download.Decryptor.AcceptChunk` | client/attachment.cpp:246-273 | likewise for a chunk, and coverage is kept |
| `Download.Decryptor.Complete` | client/attachment.cpp:275-300 | likewise, and a file saved with everything written out has the signed hash and size |
| `AttachmentKeys.FindGrant` | client/messaging_engine.cpp:2528-2533 | the loop finds a grant exactly when there is one for the file, and takes the last |
| `AttachmentKeys.AnyOrder` | client/messaging_engine.cpp:2511-2556 | however often, in whatever order and whenever the archive's copy and the envelope come, one copy decides: the first envelope if its grant is of use, and otherwise the first copy; the row has the key and token of the last grant in it for this file, is available or expired exactly as a usable grant and its time say, and has exactly the notes said |
| `AttachmentKeys.OrderIrrelevant` | client/messaging_engine.cpp:2511-2556 | which of the two comes first makes no difference exactly when the grant is usable or there is none |
| `Utf8.DecodeEncode` | client/attachment.cpp:65-70 | every list of code points, none a surrogate or too large, is read back from what is written for it |
| `Utf8.EncodeDecode` | client/attachment.cpp:39-63 | every byte string that decodes is exactly what is written for what it decodes to, so no overlong form is accepted |
| `Utf8.DecodeUtf8` | client/attachment.cpp:39-63 | the loops over bytes and continuation bytes compute that decoding |
| `Utf8.CutAt` | client/attachment.cpp:326-327 | a place whose byte is not a continuation byte lies between two characters |
| `SafeNames.SanitizedIsSafe` | client/attachment.cpp:310-332 | for every name the result is not empty, valid UTF-8, without unsafe code points, leading dot or space, not a reserved device name, and at most 201 bytes; it is within 200 exactly unless a reserved name fills the limit, and ends in a dot or space exactly when the name was cut there and has no short extension |
| `SafeNames.SanitizedKeeps` | client/attachment.cpp:310-332 | what is kept of every name: unsafe code points become underscores, dots and spaces at both ends go, and the rest stays whole or is cut at the last character boundary that leaves room for a short extension |
| `SafeNames.NoSeparators` | client/attachment.cpp:310-332 | no byte of the result is a control character, a path separator or one a file system forbids |
| `SafeNames.GoodNameKept` | client/attachment.cpp:310-332 | a name that needs nothing is kept |
| `SafeNames.OneByteOver` | client/attachment.cpp:330 | long names that come out at 201 bytes |
| `SafeNames.CutMayEndInDot` | client/attachment.cpp:316-329 | long names that come out ending in a dot |
| `SafeNames.CutMayEndInSpace` | client/attachment.cpp:316-329 | long names that come out ending in a space |
| `SafeNames.TrimBlanks` | client/attachment.cpp:316-319 | the two loops remove the spaces and dots at both ends |
| `SafeNames.ShortenName` | client/attachment.cpp:321-329 | the search for the last dot and the step back to a character's beginning cut as specified |
| `Base64Url.DecodeEncode` | client/sharing.cpp:36-59 | every byte string comes back from its encoding |
| `Base64Url.EncodeDecode` | client/sharing.cpp:61-79 | every accepted text is the encoding of what it decodes to |
| `Base64Url.ShiftRefines` | client/sharing.cpp:70-75 | a step of the wrapping 32-bit accumulator gives out the same byte and keeps the same bits as exact arithmetic |
| `Base64Url.FeedDecodes` | client/sharing.cpp:61-79 | taking symbols one at a time decodes what grouping them by four decodes |
| `Base64Url.DecodeB64` | client/sharing.cpp:61-79 | the accumulator loop computes the grouped decoding, refusals included |
| `Base64Url.EncodeB64` | client/sharing.cpp:36-59 | the encoding loop computes the grouped encoding |
| `Envelope.InnerRoundTrip` | client/envelope.cpp:66-136 | what is encoded is decoded |
| `Envelope.InnerStrict` | client/envelope.cpp:97-136 | what is accepted as version 2 or 3 is what would be encoded for it, and version 1 never is |
| `Envelope.WriteInner` | client/envelope.cpp:66-95 | the checks and loops write exactly that format or refuse |
| `Envelope.ReadInner` | client/envelope.cpp:97-136 | the cursor and its loops read exactly that format, every refusal included |
| `Envelope.PadReads` | client/envelope.cpp:138-150 | padding to a bucket is undone |
| `Envelope.UnpadStrict` | client/envelope.cpp:243-250 | what is taken out of a padded plaintext is all of it but its length and zeros |
| `Envelope.SealedOpens` | client/envelope.cpp:138-251 | whatever seals, with a prekey or without, opens with the matching secrets to exactly what was sealed |
| `Envelope.OnlySealedOpens` | client/envelope.cpp:191-251 | whatever opens, with any keys, is byte for byte what one call sealed and gives what it was given, if only what was encrypted decrypts |
| `Envelope.SealsExactly` | client/envelope.cpp:138-178 | exactly what is within the limits, fits the largest padded size and the relay's, can be sealed |
| `Envelope.PadSmallest` | client/envelope.cpp:138-150 | the padded size is the smallest of the four that fits |
| `Envelope.NamedPrekey` | client/envelope.cpp:180-188 | the prekey an envelope names without being opened is the one opening it looks up |
| `Record.Fits` | client/message_record.cpp:31-56 | every record that can be signed fits the limit with any signature up to 7468 bytes |
| `Record.NoRoomForMore` | client/message_record.h:27-35 | and with none longer: the longest record then does not parse |
| `Record.SignedParses` | client/message_record.cpp:125-215 | a signed record parses as itself and verifies with the sender's key |
| `Record.ParsedStrict` | client/message_record.cpp:148-209 | what parses is well formed, and in the present version its bytes are what signing writes |
| `Record.ParsesExactly` | client/message_record.cpp:148-209 | a body parses as a record exactly when it is what is written for it in the present form, or in the first form for types 1 to 3 |
| `Record.ParsedWithin` | client/message_record.cpp:31-56 | the limits that can be relied on of a record that parses |
| `Record.OneRecord` | client/message_record.cpp:211-215 | if a signature is good for one input, two records with one signature that verify under one key are the same bytes |
| `Record.OnlySigned` | client/message_record.cpp:211-215 | if signatures cannot be forged, whatever parses and verifies is a record the key's holder signed, with exactly these contents, under that key's fingerprint |
| `Record.NoOtherPurpose` | client/message_record.cpp:22-27 | what is signed for a record is never what is signed or hashed for a relay or an archive |
| `Recipients.SamePeople` | client/message_record.cpp:115-123 | the hashed bytes of two lists are the same exactly when the lists are the same multiset |
| `Recipients.RecipientsHashTells` | client/message_record.cpp:115-123 | so are the hashes, unless these two inputs collide |
| `Recipients.SortedUnique` | client/message_record.cpp:116-117 | sorting has one outcome, so any sort will do |
| `Recipients.SamePair` | client/message_record.cpp:103-113 | both people hash the same bytes for their conversation, and no other pair does |
| `Keyring.KeyringRoundTrip` | client/keyring.cpp:28-174 | contents within the reader's limits are never refused by the writer and come back |
| `Keyring.KeyringStrict` | client/keyring.cpp:107-174 | every accepted keyring is within the limits and the one form of its contents |
| `Keyring.CountedSame` | client/keyring.cpp:97-102 | the check of a count against the bytes left refuses nothing that could be read |
| `KeyringTransport.PutKeyring` | client/relay_client.cpp:448-461 | the loop sends exactly the pieces of a keyring that is neither empty nor too large |
| `KeyringTransport.SentIsAccepted` | protocol/relay_protocol.cpp:490-505 | every piece passes the decoder's checks and comes back as it was |
| `KeyringTransport.KeyringReturns` | client/relay_client.cpp:463-496 | what was put is what is got |
| `KeyringTransport.TakenWhole` | client/relay_client.cpp:463-496 | whatever a relay sends, a keyring is only taken at the length its first piece announced |
| `KeyringTransport.GotExactly` | client/relay_client.cpp:463-496 | a keyring is got exactly when the answers begin with what putting it sends |
| `KeyringTransport.GetKeyring` | client/relay_client.cpp:463-496 | the loop over answers computes that collection, failures included |
| `KeyProtection.AlwaysRecoverable` | client/key_store.cpp:212-301 | from bare keys, after any history of protecting, unprotecting and unlocking cut short anywhere, the passphrase recovers both keys and leaves both files of one kind, protected if either was |
| `KeyProtection.SetProtects` | client/key_store.cpp:271-286 | setting a passphrase answers Yes exactly for a long enough one, with both keys at hand and both writes done; then each file opens under it and its own label, to the key loaded before, and under nothing else |
| `KeyProtection.RemoveBares` | client/key_store.cpp:288-301 | removing it answers Yes exactly with both keys at hand and both writes done, and leaves both bare |
| `KeyProtection.UnlockExactly` | client/key_store.cpp:212-258 | unlocking answers Yes exactly when both files open to keys of the right size and an interrupted protection can be finished; then the keys are at hand and, if either file was protected, both are, under this passphrase alone |
| `KeyProtection.ProtectedStaysShut` | client/key_store.cpp:212-301 | after any history, once set, the passphrase is the only one that unlocks, through anything but its removal |
| `KeyProtection.ChangeCutShort` | client/key_store.cpp:236-286 | changing the passphrase leaves files some passphrase opens exactly when it did not stop between the writes, or was no change |
| `KeyProtection.KeyStore.UnlockWith` | client/key_store.cpp:244-258 | the store's files and cache become what the specification says |
| `KeyProtection.KeyStore.ProtectWith` | client/key_store.cpp:271-286 | the store becomes what the specification says, and a Yes means each file opens under this passphrase and label alone |
| `KeyProtection.KeyStore.Unprotect` | client/key_store.cpp:288-301 | likewise for removing it, and a Yes means both files are bare |

## Left out

- Qt widgets and dialogs, the command line, wrappers over the operating system's keychain: no state of their own.
- The inside of cryptographic primitives, and sizes of keys other than those the formats fix.
- Sockets, reconnecting, rate limits and quotas: a step that fails leaves the state as it was.
- SQLite, schema migration and the sealing of rows: each table is a map or a sequence, each method one step.
- Transactions across methods: saving hashes and moving the head, or erasing messages and marking the row, are one step each.
- Exactly-once appends: a reply that is lost leads to a retry that may add the record again.
- Prekey pools, retention times and last-resort rotation; only the erasing of a used one-time prekey is modelled.
- Receipts, token grants, forwarded envelopes and contact bundles, beyond that they do not touch the messages table.
- Cards, links and invitations printed for people to copy, other than their base64url; relay messages for mailboxes.
- The older transfer path in client/transfer_engine.cpp, which repeats the attachment properties behind sockets.
- Uploading, withdrawing and expiring attachments, and choosing a free file name.
- DeletionProtocol.StepKeeps: try_submit_deletion and check_deletions are functions on values. A call reads the rows in one step and handles each row in a later one; within that step the archive's row, the acceptances and the exchange with the relay are taken together, and acting on the answer is a step of its own.
- DeletionProtocol.GoneArchive: the relay judges an order and carries it out in one step, so a key registered between its reading of the registered keys and the deletion (server/relay_service.cpp:524-556), which takes a free place and an older reading of the clock, is not modelled.
- DeletionProtocol.ErasedByAgreement: one device holds each chat key; restoring from the relay (client/messaging_engine.cpp:2056-2135) puts the same key into a second store, which is not modelled.
- DeletionProtocol.ErasedByAgreement: a key registered late is not claimed to have signed for what was redacted before; DeletionAnswers.LateExactly says when there is one.
- DeletionProtocol.DoneByAgreement: likewise, for a row about entries.
- DeletionProtocol.TombstoneMeans: likewise.
- ArchiveProgress.RefusedGoesAgain: archive_append is modelled as the steps of a session among those of others, not as a loop over the device's fields.
- Intake.StepKeeps: only what comes in is modelled, so that nothing stored is changed is about intake; erasing by agreement is in Deletion and DeletionProtocol.
- Redelivery.NothingLost: a request, invitation or held record that finds its table full is dropped, as in the source, and nothing is claimed of it.
- Handling.ItemStays: accepting a request or an invitation is one step that handles the first n rows the call read; what arrives between its reading and its deleting is what lies beyond n.
- Intake.ArchivedKeeps: archive catch-up, restoring, requests and invitations are functions on values, one record a step.
- Keyring.KeyringStrict: the reader's offset and its sticky failure flag are modelled as composed codecs, not as a cursor.
- Record.ParsedStrict: parsing a record is modelled as composed codecs, not as a cursor.
- Envelope.SealedOpens: the bucket search and the header are functions; only the inner content is written and read with loops.
- Download.OriginalSaved: the encryptor is modelled by the piece of the file it reads for an index, not as an object over a stream.
- Delivery.OrderDoesNotMatter: statuses are the four the source names, so a call with any other number is not modelled.
