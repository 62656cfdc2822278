# A verified model of the omaq helper

The helper is the C process behind a chat surface. It owns the identity, the
histories, the read receipts, group file transfers, calls and invites, and it
must survive being stopped between any two writes. This project models the parts
of it where several functions, several files or several runs have to agree, and
proves what they promise together.

| module | what it models |
|---|---|
| `IdentityReplacement`, `IdentitySafety`, `IdentityUnmarked`, `IdentityLiveness` | replacing the identity: 18 paths moved aside, import, guard, marker; a restart may strike between any two steps, those of the startup recovery included |
| `GroupTransfer`, `GroupTransferSafety`, `GroupTransferLiveness`, `GroupTransferDuplicates` | the group file protocol between one sender and its recipients over a channel that loses, duplicates and reorders |
| `GroupFilePump` | one call of the sender's pump, in place on its recipient table |
| `GroupFileWire` | the bytes of the transfer's packets |
| `ReceiptOutbox`, `UnreadTable`, `ReceiptCommit`, `ReceiptSafety`, `ReceiptDisturbed` | marking a conversation read: unread map, outbox, transaction file and committed marker |
| `Windows`, `Slots`, `MessageRate`, `MessageRateSafety`, `OfferRate`, `OfferRateSafety`, `OfferRateKeys`, `OfferRateFlood`, `SlidingLog` | the rate limiters and their bounded tables |
| `DirectState` | the migration of number-keyed files to key-bound names and archives |
| `SendQueue` | direct messages that wait for a session |
| `CallEnd` | the end of a call, its requesters and the ring of results |
| `IdStore` | the durable store of group file identifiers |
| `Utf8`, `Utf8Validators`, `JsonStrings` | the independent UTF-8 checks and JSON strings |
| `Invite`, `InviteRoundTrip`, `InvitePrecheck` | invite links: parse, format and the user interface's precheck |

## Hypotheses

- The clock does not run backwards; for the sliding log it is also positive.
- One rename or one unlink is atomic and ordered. An operation that reports a
  failure may or may not have taken effect, except that a failing single rename of
  the identity transaction has none. The identity transaction's random token is new,
  and its marker is first written in one step.
- The sent file does not change; its hash is an arbitrary function.
- A send that reports a failure did not deliver the packet.
- Call identifiers are drawn at random; a new one is not in the ring of results.
- Texts that the C code handles up to their terminator contain no zero character.

## Where the code keeps less than one might expect

- Identity: the marker's removal can report a failure after removing it. The rollback
  that follows has nothing to make a later start continue it. Every run without such
  a removal is all-or-nothing (`IdentitySafety.ReplacementIsAllOrNothing`); a run with
  one is exactly when the rollback undid nothing at all or everything: save, guard,
  every path and the recovery copy's flag, or, for a bundle of the running identity
  itself, no path or all of them and the save (`IdentityUnmarked.UnmarkedRollback`). A
  restart in its midst leaves neither identity
  (`IdentityLiveness.ExposedRollbackIsNeither`), and so does a backup that cannot be
  put back, with no restart at all (`IdentityLiveness.NeitherWithoutRestart`).
- Identity: the old reinvite marker is lost exactly when a recovery removes it after an
  earlier one had put it back (`IdentityUnmarked.NothingIsLost`); two restarts and no
  failure do it (`IdentityLiveness.ReinviteMarkerLost`).
- Group files: a duplicate of the offer can make a recipient belie the sender: taken or
  declined after it stored the file, taken after it declined or failed without having
  reserved the identifier, or accepted after it did when the store has forgotten the
  reservation. Runs without such a reaction agree; any such reaction can be continued
  to a recipient reported failed or canceled that has the file
  (`GroupTransferDuplicates.DuplicatesAreHarmlessIff`).
- Group files: the pump's search cursor wraps at 2^32, which 9 does not divide. An
  overdue call can leave a recipient active when its first nine tries straddle the
  wrap, and only then; the next overdue call ends the transfer
  (`GroupFilePump.BurstIsComplete`, `GroupFilePump.Outgoing.Pump`).
- Offers: a new key takes over the oldest entry even if its window has not run out,
  and a call denied because its actor has used up its own limit does so too. The limit
  of 5 per group and actor can therefore be exceeded even twice over
  (`OfferRateFlood.KeyLimitExceeded`). Live windows stay in the table exactly as long as
  no call takes over an entry that still counts (`OfferRateKeys.LiveStaysIff`), and
  until then the limit holds (`OfferRateKeys.KeyLimitHolds`).
- Receipts: the inference "nothing unread, so the read was committed" is misled by a
  message that arrives between the durable clear and its marker; a message on any
  other conversation can do it too, since the whole map is written
  (`ReceiptSafety.MessageAfterTheClear`, `ReceiptSafety.MessageElsewhere`).
- Sliding log: at time zero nothing is ever refused (`SlidingLog.ClockZeroAdmitsAll`).
- JSON: a carriage return is escaped as a letter the request parser does not know
  (`JsonStrings.UnescapeInvertsEscape`).

## Model

| member | source | states |
|---|---|---|
| `IdentitySafety.ReplacementIsAllOrNothing` | helper/omaq.c:14008-14202 | over every run of steps, failures and restarts in which no removal of the marker fails after its effect, a disk without the marker is wholly the old identity's or wholly the new one's |
| `IdentityUnmarked.UnmarkedRollback` | helper/omaq.c:14109-14202 | in every run with such a removal the disk is the old or the new identity's exactly when the rollback has undone everything or nothing, wherever it failed, halted or was struck by a restart; for a bundle of the running identity, exactly when no path is back or all of them and the save |
| `IdentityUnmarked.NothingIsLost` | helper/omaq.c:4064-4135 | in every run at all, every file that existed before is under its archived name or its own; the reinvite marker is gone exactly when a second recovery attempt removed it after it was put back |
| `IdentitySafety.StepKeeps` | helper/omaq.c:4466-4536 | every step of the forward path, the rollback and the recovery and every restart keeps what the recovery relies on, but for a removal of the marker that fails after its effect |
| `IdentityLiveness.RecoveryFinishes` | helper/omaq.c:4466-4536 | from any reachable start with the marker on disk, a recovery in which no operation fails restores the old identity and ends within 44 steps |
| `IdentityLiveness.ReplacementSucceeds` | helper/omaq.c:14008-14130 | a replacement in which no operation fails ends with the new identity's save and guard and every old path under its archived name, whatever the loaded identity writes and whether it has friends |
| `IdentityLiveness.ExposedRollbackIsNeither` | helper/omaq.c:14132-14202 | the marker lost and a restart in the rollback: the old save ends under the new guard |
| `IdentityLiveness.NeitherWithoutRestart` | helper/omaq.c:14141-14199 | the marker lost and the backup not put back: the process halts with the new save under the old guard, without any restart |
| `IdentityLiveness.ReinviteMarkerLost` | helper/omaq.c:4525-4531 | two restarts and no failure end in the old identity without its reinvite marker |
| `IdentityLiveness.RunDisplaceable` | helper/omaq.c:4064-4110 | moving a newer file out of the way of a restored one never meets an aborted file already there |
| `GroupTransferSafety.ReceivedIsPrefix` | helper/omaq.c:7579-7686 | whatever is lost, duplicated or reordered, a recipient holds exactly the source's prefix of its length, and a stored or completed file is the whole source |
| `GroupTransferSafety.CountsAreTrue` | helper/omaq.c:7931-7970 | in every run without a misleading reaction to a duplicate of the offer, a recipient known or counted done has stored the file; one known or counted failed or canceled never stores it afterwards, whatever happens |
| `GroupTransferSafety.VerdictsAreTrue` | helper/omaq.c:7136-7192 | a verdict is never revised and stays true for the rest of every such run; only the recipients it leaves open, told that the file is complete and not heard of since, can still store it, and none is left open without an uncertain delivery or local trouble |
| `GroupTransferSafety.OnlyUnknownIsOpen` | helper/omaq.c:7938-7967 | the pump's verdict leaves open only the recipients counted unknown |
| `GroupTransferDuplicates.DuplicatesAreHarmlessIff` | helper/omaq.c:7277-7375 | a reaction to an offer, or its acceptance, can be continued, without a further offer and with nothing further forgotten, to a recipient reported failed or canceled that has the file, exactly when it misleads |
| `GroupTransferDuplicates.MisleadingMisreports` | helper/omaq.c:7277-7388 | from every state of a run without misleading reactions, before or after the verdict, a misleading one goes on to such a recipient, counted failed or canceled unless it was unknown |
| `GroupTransferDuplicates.DuplicateOfferMisleads` | helper/omaq.c:7277-7349 | for a file of any size, a run with one duplicate of the offer in which a transfer reported stored by nobody is stored |
| `GroupTransferLiveness.TransferSucceeds` | helper/omaq.c:7931-7964 | for any file and any number of recipients some run stores the file everywhere and reports just that |
| `GroupTransferLiveness.OthersStay` | helper/omaq.c:7197-7275 | what concerns one recipient changes nothing about the others |
| `GroupFilePump.SearchIsComplete` | helper/omaq.c:7870-7884 | nine tries look at every recipient exactly when they do not straddle the cursor's wrap |
| `GroupFilePump.Outgoing.Ready` | helper/omaq.c:7194-7215 | sending starts as soon as one recipient accepted or all answered |
| `GroupFilePump.BurstIsComplete` | helper/omaq.c:7869-7930 | once everybody is silent, the sending of one call gives up on everybody, whatever the table, exactly when its first nine tries do not straddle the cursor's wrap |
| `GroupFilePump.Outgoing.Search` | helper/omaq.c:7870-7886 | finds the first recipient among nine tries that the pump may send to, or that there is none |
| `GroupFilePump.Outgoing.Serve` | helper/omaq.c:7887-7929 | one budget step is one event of the protocol; a recipient silent for over 30 s fails |
| `GroupFilePump.Outgoing.SendBurst` | helper/omaq.c:7869-7930 | the sending of one call is a run of protocol events; once everybody is silent it leaves exactly the table and cursor that giving up on one recipient after the other leaves |
| `GroupFilePump.Outgoing.Count` | helper/omaq.c:7931-7956 | overdue receipts become unknown and every recipient is counted once |
| `GroupFilePump.Outgoing.Pump` | helper/omaq.c:7854-7971 | the verdict is the protocol's; past the acceptance window, with everybody it still waits for silent for over 30 s, the transfer ends in this call exactly when its sending gives up on everybody, always when it does not start across the wrap, and otherwise in the next overdue call |
| `GroupFileWire.OfferIsCanonical` | helper/group_file.c:79-130 | a packet unpacks to an offer exactly when it is the packet of that offer, for every packet and offer |
| `GroupFileWire.ChunkIsCanonical` | helper/group_file.c:167-199 | the same for a chunk of data |
| `GroupFileWire.ControlIsCanonical` | helper/group_file.c:132-165 | the same for the control packets |
| `GroupFileWire.OneMeaning` | helper/group_file.c:32-36 | no packet is two of an offer, a chunk and a control packet |
| `GroupFileWire.PutU64` | helper/group_file.c:18-22 | writes eight bytes, the most significant first, and nothing else |
| `GroupFileWire.GetU64` | helper/group_file.c:24-30 | reads such a number below 2^64 |
| `GroupFileWire.PackOffer` | helper/group_file.c:79-104 | packs exactly the proper offers that fit the buffer |
| `GroupFileWire.UnpackOffer` | helper/group_file.c:106-130 | reads an offer or refuses the packet |
| `GroupFileWire.PackControl` | helper/group_file.c:132-144 | packs exactly the five control kinds |
| `GroupFileWire.PackData` | helper/group_file.c:167-182 | packs exactly the chunks of 1 to 1343 bytes that fit |
| `GroupFileWire.UnpackData` | helper/group_file.c:184-199 | reads a chunk or refuses the packet |
| `ReceiptSafety.ReadIsAtomic` | helper/omaq.c:3455-3535 | whenever a step makes the transaction file disappear, the read has not happened at all or has happened completely; a leftover marker decides nothing |
| `ReceiptSafety.ReceiptsStay` | helper/omaq.c:3407-3434 | a receipt whose outbox write was reported done waits, once, until it is acknowledged |
| `ReceiptSafety.NextKeeps` | helper/omaq.c:12956-12995 | every step, restart, message, request and acknowledgement keeps the invariant, but for a message that puts a durably cleared count back |
| `ReceiptSafety.RecoverySettles` | helper/omaq.c:3479-3535 | a recovery that meets no failure settles the transaction exactly when the receipts it must queue fit, and then shows the durable counts |
| `ReceiptSafety.ReadSucceeds` | helper/omaq.c:12961-12995 | an undisturbed read clears the count and queues every receipt behind those waiting |
| `ReceiptDisturbed.DisturbedOutcome` | helper/omaq.c:3506-3507 | after a message between the clear and the marker, whether the next recovery is still atomic: a rollback exactly when the count written covers what was captured and the receipts had not reached the outbox, a commit exactly when it covers only what was noted since and they had; which count it is depends on whether memory kept the old one |
| `ReceiptSafety.MessageAfterTheClear` | helper/omaq.c:2146-2176 | for every such message on the same conversation: neither unread nor queued |
| `ReceiptSafety.MessageElsewhere` | helper/omaq.c:2160-2166 | for every such message on another conversation: unread again although the receipts are queued |
| `ReceiptOutbox.MergedMeans` | helper/omaq.c:3415-3426 | adding receipts keeps order and uniqueness, holds exactly the union, and fails exactly when that exceeds 4096 |
| `ReceiptOutbox.Outbox.Find` | helper/receipt.c:213-223 | finds an entry if and only if it is there |
| `ReceiptOutbox.Outbox.Add` | helper/receipt.c:225-257 | full, present or appended, growing the array when needed |
| `ReceiptOutbox.Outbox.Remove` | helper/receipt.c:259-272 | takes the entry out and keeps the order of the rest |
| `ReceiptOutbox.Outbox.AddAll` | helper/omaq.c:3418-3426 | the loop of additions is the merge, and tells whether anything changed |
| `UnreadTable.Table.Find` | helper/conversation.c:62-73 | finds a well-formed identifier's row if and only if it is counted |
| `UnreadTable.Table.Count` | helper/conversation.c:208-213 | the count in the map the table stands for |
| `UnreadTable.Table.Increment` | helper/conversation.c:143-162 | adds one up to 999999, in place or in a new row; malformed identifiers change nothing |
| `UnreadTable.Table.Clear` | helper/conversation.c:164-180 | removes the identifier from the map and nothing else |
| `MessageRate.Limiter.Allow` | helper/rate.c:227-291 | one call decides and leaves the table as specified, malformed input leaving all unchanged |
| `MessageRateSafety.BoundedTableIsExact` | helper/rate.c:249-288 | over every run the 320-slot table decides like a limiter that forgets no key |
| `MessageRateSafety.NoLiveKeyIsEvicted` | helper/rate.c:263-270 | the slot a full table gives away has both windows run out |
| `MessageRateSafety.LiveKeys` | helper/rate.h:58-64 | at most 288 keys can have a minute window younger than 70 s: 280 by admissions, 8 by a full burst window |
| `MessageRateSafety.LimitsHold` | helper/rate.c:235-290 | per key at most 20 in any 10 s and 60 in any 60 s; over all at most 80 and 240 |
| `OfferRate.Limiter.Allow` | helper/rate.c:141-219 | one call decides and leaves both tables as specified, the cut-off name of an overlong actor included |
| `OfferRateSafety.ActorTableIsExact` | helper/rate.c:185-217 | over every run 64 actor slots decide like a table that forgets no actor |
| `OfferRateSafety.NoLiveActorIsEvicted` | helper/rate.c:199-207 | the actor slot given away has run out |
| `OfferRateSafety.LimitsHold` | helper/rate.c:151-218 | at most 20 offers of an actor and 60 in all in any 60 s |
| `OfferRateKeys.LiveStaysIff` | helper/rate.c:171-176 | in every orderly run whose live windows are all in the table, they still are after a call exactly when it does not take over an entry that still counts |
| `OfferRateKeys.LiveThroughoutIff` | helper/rate.c:158-183 | they are all along a run exactly when no call of it does |
| `OfferRateKeys.KeyLimitHolds` | helper/rate.c:158-218 | at most 10 offers of an actor to one group in any 60 s of every run without such a call |
| `OfferRateFlood.KeyLimitExceeded` | helper/rate.c:171-215 | a run in which denied calls take over live entries and 14 offers of one actor to one group are admitted within 60 s |
| `Windows.AdmitSparse` | helper/rate.c:235-248 | a window that restarts at the first call after its end bounds every interval of its length by twice its limit |
| `Slots.Find` | helper/rate.c:249-262 | the scan gives the key's slot, the first free one and the first oldest one |
| `Slots.PutMirrors` | helper/rate.c:263-270 | a bounded table that gives away only what has run out still mirrors an unbounded one |
| `SlidingLog.Log.Allow` | helper/rate.c:293-303 | refuses when all places hold recent times or the key refuses, else overwrites the earliest |
| `SlidingLog.Log.Push` | helper/rate.c:24-38 | writes the first free place, else the first earliest |
| `SlidingLog.Log.InWindow` | helper/rate.c:12-22 | counts the recent times |
| `SlidingLog.SlidingLogIsExact` | helper/rate.c:293-303 | a call is refused exactly when its key is or the window that ends now already holds as many admissions as places |
| `SlidingLog.SlidingLogBounds` | helper/rate.c:297-302 | no interval of the window's length ever holds more admissions than places |
| `SlidingLog.ClockZeroAdmitsAll` | helper/rate.c:18-18 | at time zero every call is admitted |
| `DirectState.Home.MigrateEntry` | helper/direct_state.c:131-167 | renames to the key-bound name, or to a free archive name when that is taken or there is none; nothing is lost or overwritten, whatever fails |
| `DirectState.Home.ArchiveName` | helper/direct_state.c:113-129 | the first of 10000 archive names that is free |
| `DirectState.Home.SessionNames` | helper/direct_state.c:169-250 | lists a number's sessions and removes half-written ones |
| `DirectState.Home.MoveNumber` | helper/direct_state.c:354-409 | on success nothing is left under the number, on failure everything is still accounted for |
| `DirectState.Home.Collect` | helper/direct_state.c:671-722 | every number in use, or a failure on any name that should not be there |
| `DirectState.Home.Reconcile` | helper/direct_state.c:1260-1330 | on success no number is left and the current map is saved; after any failure a further run still accounts for the original files; with no failing operation it succeeds; unclaimed files set the reinvite marker |
| `DirectState.MapOfOneToOne` | helper/direct_state.c:417-428 | a saved map binds no key twice |
| `DirectState.WhereFilesEnd` | helper/direct_state.c:1299-1325 | at the end a bound file lies under its key, every other numbered file under a fresh archive name, all else where it was |
| `DirectState.NeverMisbound` | helper/direct_state.c:1309-1318 | at any time what lies under a key was there from the start or came from the number the saved map gives that key |
| `DirectState.NothingOverwritten` | helper/direct_state.c:154-163 | no two files ever share a place |
| `SendQueue.Mailer.Add` | helper/send_queue.c:44-83 | malformed, full or queued in the first free slot with the next number and deadline |
| `SendQueue.Mailer.Oldest` | helper/send_queue.c:85-107 | the lowest number among the peers not skipped, if any |
| `SendQueue.Mailer.Remove` | helper/send_queue.c:119-126 | one entry leaves once, and only as its peer's first unless it is dropped |
| `SendQueue.Mailer.Service` | helper/omaq.c:10700-10745 | the pass ends, only serves, and empties the queue on shutdown |
| `SendQueue.Mailer.ServeOnce` | helper/omaq.c:10719-10744 | each turn makes progress, at most 64 distinct peers are found waiting, and no other peer has a message left |
| `SendQueue.Mailer.FailAll` | helper/omaq.c:10681-10690 | every queued message is reported and the queue is empty |
| `SendQueue.Mailer.OwnerDisconnect` | helper/omaq.c:10692-10698 | exactly the owner's messages are dropped |
| `SendQueue.Mailer.Send` | helper/omaq.c:13108-13117 | sends at once only if nothing of the peer's waits, else queues behind it |
| `SendQueue.DeliveredInOrder` | helper/omaq.c:10719-10744 | in every state a peer's messages, direct sends included, were served in submission order |
| `SendQueue.AllLeftOnce` | helper/send_queue.c:119-126 | once the queue is empty every accepted message has left exactly once |
| `SendQueue.LeaveConsistent` | helper/omaq.c:10743-10743 | serving a peer's first entry, or dropping any, keeps order and conservation |
| `SendQueue.DirectConsistent` | helper/omaq.c:13108-13114 | a direct send past an empty share keeps order and conservation |
| `CallEnd.Ring.Find` | helper/omaq.c:8784-8790 | a result is found if and only if the ring holds one for that call and request |
| `CallEnd.Ring.FindCall` | helper/omaq.c:8829-8848 | the request's own result if there is one, else another of the same call |
| `CallEnd.Ring.Remember` | helper/omaq.c:8776-8799 | the ring keeps the newest nine results and no requester twice |
| `CallEnd.CallControl.AddAlias` | helper/omaq.c:8850-8865 | a requester waits exactly when it was accepted, at most eight besides the first |
| `CallEnd.CallControl.QueueCallEnd` | helper/omaq.c:8868-8906 | an end becomes pending exactly when none is and the call is known; request and owner wait, a reset is requested |
| `CallEnd.CallControl.BeginCallEnd` | helper/omaq.c:8908-8927 | the call is down and a reset requested before the end is pending |
| `CallEnd.CallControl.Start` | helper/omaq.c:13636-13655 | no call starts while an end is pending, a reset is due or a call is live |
| `CallEnd.CallControl.Answer` | helper/omaq.c:13687-13698 | no call is answered while an end is pending or a reset is due |
| `CallEnd.CallControl.HookIncoming` | helper/omaq.c:9003-9048 | an incoming call is taken, refused with a reset, or ended for want of a client; never while an end is pending |
| `CallEnd.CallControl.HookActive` | helper/omaq.c:9051-9059 | a call becomes active only if it is the live one or none is |
| `CallEnd.CallControl.HookEnd` | helper/omaq.c:9062-9071 | the other side's end leaves the call down and its owner waiting |
| `CallEnd.CallControl.Stop` | helper/omaq.c:13769-13826 | every accepted stop request waits for the end or has its result already |
| `CallEnd.CallControl.Finalize` | helper/omaq.c:9087-9113 | every distinct requester has its result in the ring at once |
| `CallEnd.CallControl.ResetTransport` | helper/omaq.c:9115-9148 | a reset that runs settles the pending end for all who wait and leaves no call |
| `CallEnd.CallControl.AvStop` | helper/av.c:459-480 | stops the local side exactly when the call is the friend's |
| `CallEnd.CallControl.NoteIncoming` | helper/av.c:404-416 | one call at a time, none too soon after the last |
| `CallEnd.CallControl.NoteActive` | helper/av.c:418-431 | only the live call, or a new one, becomes active |
| `IdStore.Store.Reserve` | helper/group_file_store.c:282-321 | a fresh identifier becomes the newest of the last 4096, a remembered one is reported |
| `IdStore.Store.Seen` | helper/group_file_store.c:259-280 | tells exactly whether the identifier is remembered, which it then stays |
| `IdStore.Store.Migrate` | helper/group_file_store.c:224-257 | compaction keeps the newest and the one asked for |
| `IdStore.RememberedExactly` | helper/group_file_store.c:299-311 | an identifier is remembered through exactly the next 4095 reservations of others |
| `IdStore.CompactionKeepsNewest` | helper/group_file_store.c:232-256 | at most the oldest of the newest 4096 gives way to the one asked for |
| `Utf8.DecodeInvertsEncode` | helper/file.c:181-223 | decoding and the encoding of section 3 of RFC 3629 are inverse in both directions |
| `Utf8Validators.TextOk` | helper/text.c:3-47 | accepts exactly the well-formed texts without zero, or without controls |
| `Utf8Validators.FileNameOk` | helper/file.c:181-223 | accepts exactly the well-formed names of 1 to 128 bytes without controls, slash, separators and format controls |
| `Utf8Validators.DecodeOne` | helper/file.c:188-219 | the accumulated value is the character's, and overlong forms and surrogates are refused |
| `Utf8Validators.PassOk` | helper/identity.c:13-26 | 1 to 128 bytes, no control but the tab |
| `Utf8Validators.NewPassOk` | helper/identity.c:28-60 | well formed, no control but the tab, and the count is the number of characters, at least 8 |
| `JsonStrings.Escape` | helper/json_io.c:83-117 | the escape of the whole text if it has one and fits, else nothing |
| `JsonStrings.ParseString` | helper/json_io.c:14-54 | reads exactly the well-formed strings that fit, and stops behind the quote |
| `JsonStrings.ValidateString` | helper/json_io.c:339-370 | accepts exactly the strings of section 7 of RFC 8259 with well-formed characters |
| `JsonStrings.ValidateChar` | helper/json_io.c:314-337 | one well-formed character beyond ASCII |
| `JsonStrings.UnescapeInvertsEscape` | helper/json_io.c:14-54 | the parser reads an escaped text back exactly when it holds no carriage return |
| `JsonStrings.ValidatorAcceptsEscape` | helper/json_io.c:339-370 | the validator accepts a quoted escape exactly when the text is well formed |
| `JsonStrings.ValidatorsAgree` | helper/text.c:3-47 | a text none of whose characters any validator refuses is accepted by the byte-range, the decoding, the passphrase and the JSON form exactly when it is well formed; each stricter form implies the laxer ones, and the JSON form refuses the controls it cannot escape and nothing else |
| `Invite.Trim` | helper/invite.c:27-48 | strips surrounding ASCII white space of a link below 512 bytes |
| `Invite.ParseExpiry` | helper/invite.c:219-244 | 1 to 19 digits of value at most INT64_MAX |
| `Invite.Parse` | helper/invite.c:246-383 | the loops read the fields as specified |
| `InviteRoundTrip.ParsedIsCanonical` | helper/invite.c:246-383 | whatever is accepted is in lower case, within its lengths and complete for its kind |
| `InviteRoundTrip.FormatInvertsParse` | helper/invite.c:385-412 | every accepted link can be formatted within 512 bytes and parses to the same invite again |
| `InviteRoundTrip.ParseInvertsFormat` | helper/invite.c:385-412 | formatting and parsing an invite gives it back exactly when it is canonical |
| `InvitePrecheck.CheckParts` | Model.js:39-65 | the precheck's loop reads the parts as specified |
| `InvitePrecheck.PrecheckAdmitsAll` | Model.js:8-77 | every link the helper accepts passes the precheck |

## Left out

- Identity: the temporary files of single writes, the marker of an uncertain primary save and what a loaded identity migrates at runtime, beyond arbitrary writes to the 18 paths.
- Identity: paths absent before the replacement; a rollback may leave the new identity's file there.
- Group files: group binding checks, offers beyond the rate limit, peers that were not invited, and image canonicalisation after storing.
- Receipts: dropping a conversation, pruning unavailable ones and the creation times in the outbox.
- Rate limiters: the control limiter and the key table of the sliding log, which do not keep per-key limits under eviction.
- Direct state: the removal of a removed friend's ratchet records; only the reconciliation without a removed key is modelled.
- Send queue: the wrap of the 64-bit sequence number.
- Calls: audio threads, leases and the emission of events; whether the transport accepts a command is arbitrary.
- JSON: numbers, arrays, objects and the keys of a request.
- Invites: expiry against the clock, claims and conflicts.
- Networking, the ratchet, the poll loop, the user interface and all file permission checks: a check is the success or failure of its step.
