# Verified model of todoers

todoers is a local-first, end-to-end encrypted to-do list. Every client edits a
CRDT document of its own, signs and encrypts each edit, queues it, and uploads it
to a relay that understands nothing of the content; it pulls everybody else's
edits from the relay's log. This project models that program in Dafny and proves
what it is built on. `dafny verify dfyconfig.toml` checks the whole of it.

## How it is laid out

**The sync protocol.** `TodoDoc` is the document as a set of operations with
version vectors; `Updates` the signed envelope; `Outbound` the client's upload
queue; `ServerLog` the relay's log. `Protocol` puts any number of clients and the
log together as a transition system in which every database statement and every
message is one step, and edits, uploads (answered, failed, or stored with the
answer lost), pulls, live frames, frames of the relay's own making, process
deaths, failing statements and restarts may interleave in any order. `Upload`,
`Deltas`, `Cursor`, `Convergence`, `Readers` and `WholeRuns` hold the results about
all runs.
`StoreWorker` and `SyncEngine` are the program's own methods and loops, proved
against the protocol's steps, with lemmas that an uninterrupted loop is a run of
the protocol. `CommitOrder` looks at what `Protocol` supposes of the log: that rows
become visible in the order of their numbers. `SyncExamples` has runs that reach
the failing side of the exact conditions.

**Keys and membership.** `Keys` is the in-memory statement of adding and removing
a member, `ServerLists` the server's tables, `Ownership` whole runs of them with requests
by anybody, `StoreKeys` the client's half.
`KeyRefinement` shows when the two halves together do what the in-memory
statement says; `Rotation` follows whole runs of one owner with the command queue in
between and with the listings the sync engine discovers at a start. `Discovery` says
what a client would have to check of a listing, `Lockstep` when the server follows
the client, `KeyGuards` exactly which runs keep the keys good; `LostCommands` and
`StaleListings` have the runs that break them. `DekCache` compares the session's key
map with the stored slots.

**Authentication.** `AuthTables` and `Sessions`: logins, devices and sessions. The
finishing handlers go in four steps, every other request in one. `SessionOrigins`
traces each session of a run back to the proof it was minted for, `AuthExamples` has
the runs that fail.

**Algorithms.** `Base32` (recovery keys), `Keyboard`, `KeyChords` and `KeyStrings`
(key bindings), `Wire` (byte layouts and the path of an update), `OrderKeys` and
`ReadModel` (the rows the user interface `ReadModel` (the rows the user interface reads), `Calendar` (due dates), which
`Gregorian` holds against the calendar's own formulas. `Helpers` holds what several
modules share.

## What is taken for granted

- Signatures, sealed boxes and authenticated encryption are ideal. In the protocol
  the signature of an update is its content, and its random nonce is the number of
  updates its author produced before; `Wire` states what it needs of a cipher and a
  signature scheme as a hypothesis on arbitrary functions.
- Of Loro: importing is union, an operation shows once all earlier ones of its peer
  are there, an export beyond a version is what the version does not cover, and a
  peer id is never drawn twice. The version covers operations not committed yet, so
  that what a failed closure left behind is not exported with the next edit; and an
  export without operations is empty. Were the first otherwise, such operations would
  travel with the next edit and `abandoned` would be smaller; were the second, an
  edit without operations would queue an update, and equal documents would no longer
  mean equal absorbed updates. Random ids, tokens and keys do not repeat.
- One device per member, as `apply_remote_update` itself supposes when it takes
  entries under its own member id for already merged.
- Each SQL statement is atomic, and so are the client's transactions, over one
  connection, and the server's other than `login_finish`, whose two statements
  `Sessions` keeps apart. A request that ended in an error is not carried out later.
- `Protocol` appends a row to the server's log in one step, numbered and visible;
  `CommitOrder.HonestIffInTime` says what becomes of a cursor otherwise.
- `Protocol` follows one list. Other lists show as gaps in the server's numbering
  and before the ids of the client's queue; the lemmas `OneListAtATime`,
  `AckAndReleaseOneList` and `EnqueueOneList` of `Outbound` and
  `SyncEngine.DrainOneList` are why that is enough.
- An edit that fails counts the operations it made as made.
- A discovered listing, its members and the caller's slots are read at one moment:
  the engine handles one command at a time and one client issues them all.
- Times are whole seconds, except in `Calendar`.

## Where the code and its comments part

- A failed upload releases the failing row only. The rest of its batch stays
  `inflight` and nothing sends it again, although the comment says that the next
  push retries. `Upload.StrandsExactly` says precisely when this happens and
  `Upload.StrandedForGood` that it is final; everything else is proved with it.
  `SyncExamples.FailureStrandsTheRest` is a run in which it happens.
- The cursor is a maximum, so a live frame that arrives out of line moves it past
  entries never presented. `Cursor.LiveFrameExactly` gives the exact condition,
  `SyncExamples.LiveFrameSkipsAnEntry` such a run.
- An edit on a list without a current key, or whose closure fails halfway, changes
  the open document and then fails. Such operations are carried as "abandoned" and
  "loose" in the proofs; `Readers.ShownIff` says what readers see of such a list.
- A client that dies after queuing an edit and before saving it takes the update,
  when it comes back, for already merged, and never shows that edit
  (`Readers.CutEditIsNeverShown`).
- A failed membership command is logged and dropped.
  `LostCommands.LostAddLeavesStraySlot` and `LostCommands.LostRemovalLeavesKeyless`
  show what follows; `KeyGuards.KeysGoodIff` gives the check of each request that the
  server would have to make.
- A discovered listing overwrites the client's epoch and puts back every member it
  names, older or not. After a lost removal the removed member gets the next key
  (`StaleListings.RemovedGetsLaterKey`); a listing fetched before a removal and
  ingested after it gives an epoch two keys though nothing is lost
  (`StaleListings.EarlyListingSplitsAnEpoch`). `Discovery.UpToDateIff` gives the check
  the client would have to make: the listing's epoch is not below its own, and nobody
  it removed is named.
- The comment on `login_finish` says that a login can never be replayed. It reads
  the row and then deletes it, in a transaction for which no isolation level is
  asked: `Sessions.DoubleMintIff` says exactly when one login mints two sessions,
  `AuthExamples.OneLoginTwoSessions` is such a run.
- A device revoked between its proof and its mint keeps a session
  (`Sessions.DeviceSessionsActiveIff`, `AuthExamples.RevokedDeviceKeepsASession`).
- The layout comment gives the epoch four bytes; the code writes eight, two's
  complement.
- A test names the chain today, this week, this month; it breaks in the last week
  of most months (`Calendar.WeekInMonthIff`; `Calendar.WeekLeavesMonth` is one).

## Model

| member | source | states |
|---|---|---|
| `TodoDoc.DeltaIsTheEdit` | todoers-client/src/list_doc.rs:73-95 | exporting from the version taken before an edit gives exactly the edit's operations, whatever was merged before |
| `TodoDoc.SyncFromVersion` | todoers-client/src/list_doc.rs:73-95 | importing what a sender exports beyond the receiver's version leaves the receiver showing all the sender shows |
| `Outbound.OneListAtATime` | todoers-client/src/db.rs:653-687 | claiming for one list is the same with or without other lists' rows in the table and leaves those rows alone |
| `Outbound.AckAndReleaseOneList` | todoers-client/src/db.rs:691-708 | so are acking and releasing one of the list's rows |
| `Outbound.EnqueueOneList` | todoers-client/src/db.rs:614-635 | and enqueuing, but for an id that lies above those of all lists |
| `Outbound.SelectIsEarliest` | todoers-client/src/db.rs:653-687 | a pending row that is not claimed comes after every row that is |
| `Outbound.Table.EnqueueOutbound` | todoers-client/src/db.rs:614-635 | a new row at the end, or nothing if the signature is queued already |
| `Outbound.Table.TakeOutbound` | todoers-client/src/db.rs:653-687 | returns the first pending rows of the list in id order and marks exactly those inflight with one more attempt |
| `Outbound.Table.AckOutbound` | todoers-client/src/db.rs:691-696 | removes the row and nothing else |
| `Outbound.Table.ReleaseOutbound` | todoers-client/src/db.rs:700-708 | makes that row pending again and touches no other |
| `ServerLog.PageHasNoGap` | todoers-server/src/db.rs:164-192 | whatever lies between the cursor and a row of a page is in the page before that row |
| `ServerLog.AfterResumes` | todoers-server/src/db.rs:164-192 | resuming at a row's number continues right behind that row |
| `ServerLog.Log.InsertUpdate` | todoers-server/src/db.rs:121-160 | one row per signature; a retry gets the number of the row that is there |
| `ServerLog.Log.FetchUpdatesAfter` | todoers-server/src/db.rs:164-192 | the list's rows after the cursor, in order, cut at the limit clamped to 1..1000 |
| `Upload.LogInEnqueueOrder` | todoers-client/src/sync.rs:162-188 | in every run, with failures and lost answers anywhere, a client's entries stand in the log in the order it enqueued them and no signature twice |
| `Upload.NothingIsLost` | todoers-client/src/sync.rs:168-185 | in every run every enqueued update is in the queue or in the log |
| `Upload.OneRowForGood` | todoers-server/src/db.rs:130-159 | an update's log row stays the same row with the same number however often it is sent again |
| `Upload.StrandsExactly` | todoers-client/src/sync.rs:162-188 | an update stops being sendable exactly when a failed delivery drops the rest of its batch, or when, while it is claimed, a payload or a statement of the push fails or the process ends |
| `Upload.StrandedForGood` | todoers-client/src/db.rs:659-684 | a stranded update stays in the table and is never uploaded, whatever happens next |
| `Upload.QuietMeansUploaded` | todoers-client/src/sync.rs:162-188 | without failures, once nothing waits and no push runs, everything enqueued is in the log |
| `Deltas.DeltasPartitionTheEdits` | todoers-client/src/store.rs:599-658 | in every run a client's deltas are disjoint, are together exactly the operations of its edits that did not fail, and no two clients make the same operation |
| `Deltas.DocumentsAreGenuine` | todoers-client/src/store.rs:470-524 | whatever the relay hands over, a document holds only operations that some client of the list made |
| `Deltas.UpdatesShareNothing` | todoers-client/src/store.rs:599-658 | in every run two different genuine updates, of whatever clients, have no operation in common |
| `Deltas.SameDocumentIff` | todoers-client/src/store.rs:470-524 | in every reachable state two clients hold the same operations if and only if they absorbed the same updates and neither carries a failed edit |
| `Cursor.CursorIsHonest` | todoers-client/src/sync.rs:193-214 | in every run fed by pulls and by live frames in line, each log entry at or below the cursor has been presented |
| `Cursor.CursorNeverDecreases` | todoers-client/src/db.rs:727-737 | in every run whatsoever the cursor never goes back |
| `Cursor.LiveFrameExactly` | todoers-client/src/sync.rs:247-254 | after a live frame and all that waited before it is presented, the cursor is honest if and only if the frame came in line |
| `Cursor.PredecessorAtCursor` | todoers-client/src/store.rs:470-524 | a frame whose predecessor in the list is at or below the cursor comes in line; with nothing beyond the cursor, only such a frame does |
| `Convergence.SettledHoldsTheLog` | todoers-client/src/store.rs:470-524 | a client with nothing left to send or present and the cursor at the end has absorbed the log and nothing but the log |
| `Convergence.SettledClientsAgree` | todoers-client/src/store.rs:470-524 | two settled clients hold the same operations and so project the same items, whatever the delays and repetitions |
| `Convergence.AllSettledShowEverything` | todoers-client/src/list_doc.rs:85-95 | once all have settled, each shows exactly the operations any of them ever made |
| `WholeRuns.AlwaysHonestIff` | todoers-client/src/store.rs:470-524 | over whole runs, live frames and the relay's own entries included, a client's cursor is honest at all times if and only if it merges no entry before a predecessor and nothing joins the log at or below its cursor unseen |
| `WholeRuns.NeverStrandedIff` | todoers-client/src/sync.rs:162-188 | over whole runs nothing is ever stranded if and only if no event drops a claimed update |
| `WholeRuns.BelowTheCursor` | todoers-client/src/store.rs:484-499 | in every run in line the entries of others at or below the cursor were all presented, and exactly those are absorbed that were mergeable when they were |
| `WholeRuns.SkippedForGood` | todoers-client/src/sync.rs:193-214 | an entry skipped for want of a key or an author is never handed over by a later pull and never absorbed, unless a live frame repeats it |
| `WholeRuns.LearntIsUsable` | todoers-client/src/store.rs:530-569 | in every run, once a client has learnt the members and an epoch's key it would merge every genuine update of those members under that epoch, restarts included, until it learns other members; and it writes under the epoch it learnt |
| `Readers.ShownIff` | todoers-client/src/list_doc.rs:85-95 | in every run a client shows another's operation if and only if it and all earlier ones of its peer come from edits that did not fail and whose updates have been absorbed |
| `Readers.CutEditIsNeverShown` | todoers-client/src/store.rs:470-524 | a client that died between queuing an edit and saving it never shows that edit, whatever happens next |
| `CommitOrder.HonestIffInTime` | todoers-server/db/migrations/0001_init.sql:139 | with numbers drawn before rows are visible, a reader's cursor is honest at all times if and only if no row becomes visible at or below it |
| `CommitOrder.LateIsNeverRead` | todoers-server/src/db.rs:164-192 | a row that became visible too late is never read |
| `SyncExamples.FailureStrandsTheRest` | todoers-client/src/sync.rs:179-185 | from any start, two edits, one claim and a failed first delivery strand the second update |
| `SyncExamples.LiveFrameSkipsAnEntry` | todoers-client/src/sync.rs:247-254 | from any start, a live frame for the second of two entries moves the cursor past the first |
| `StoreWorker.OpenList.EditDoc` | todoers-client/src/store.rs:599-658 | on a table shared with other lists, the protocol's edit step: version, closure, key check, delta, queue, save, in that order; other lists' rows stay |
| `StoreWorker.OpenList.ApplyRemoteUpdate` | todoers-client/src/store.rs:470-524 | the protocol's presenting step, and reports a change exactly when the update was merged |
| `StoreWorker.MergedIff` | todoers-client/src/store.rs:484-524 | the update is absorbed and its operations are in the saved document if and only if it is another member's and the epoch's key, the author and the signature are good; otherwise the document stays |
| `StoreWorker.OpenList.ApplyRemote` | todoers-client/src/worker.rs:173-179 | presents the whole batch in order and reports whether any entry was merged |
| `StoreWorker.BatchIsRun` | todoers-client/src/worker.rs:173-179 | an uninterrupted batch is a run of the protocol |
| `SyncEngine.Push` | todoers-client/src/sync.rs:162-188 | the loop over claims, uploads, acks and the one release computes the drain defined over the tables |
| `SyncEngine.SuccessLeavesNothingWaiting` | todoers-client/src/sync.rs:162-188 | a push that reports success leaves no pending row of the list |
| `SyncEngine.PushSucceedsIff` | todoers-client/src/sync.rs:162-188 | a push reports success if and only if every row it sent was stored, answered for and acked; otherwise it stopped right at the first that was not |
| `SyncEngine.PushIsRun` | todoers-client/src/sync.rs:162-188 | an uninterrupted push, answered in any way and with statements failing anywhere, is a run of the protocol |
| `SyncEngine.DrainOneList` | todoers-client/src/sync.rs:162-188 | a push does the same to its list, to the log and to the answer with or without other lists' rows in the table, and leaves those rows alone |
| `SyncEngine.Pull` | todoers-client/src/sync.rs:193-214 | the loop terminates on a fixed log and forwards exactly the list's entries after the cursor, once each and in order, five hundred at a time |
| `SyncEngine.PullIsComplete` | todoers-client/src/sync.rs:193-214 | the pages are the list's entries after the cursor without gap or repeat if and only if the batch size is within the server's cap or the cap is not reached |
| `SyncEngine.PullIsRun` | todoers-client/src/sync.rs:193-214 | an uninterrupted pull is a run of the protocol, in which the inbox grows by exactly the list's entries after the cursor |
| `SyncEngine.RestartThenPull` | todoers-client/src/sync.rs:193-214 | a client that starts again and pulls has its saved document open and gets exactly the entries after its cursor, whatever was on its way before |
| `Keys.ListMetadata.AddMember` | todoers-client/src/crypto.rs:390-398 | one slot of the current epoch and one member more |
| `Keys.ListMetadata.RemoveMember` | todoers-client/src/crypto.rs:405-420 | the next epoch, the key sealed to each remaining member, no slot left of the removed one |
| `ServerLists.Lists.CreateList` | todoers-server/src/db.rs:377-409 | epoch 1, the caller as owner with its slot, or an error and no change |
| `ServerLists.Lists.AddMember` | todoers-server/src/routes/lists.rs:49-70 | only for a caller whose own row says owner, forbidden to everybody else: role inserted or updated, slot inserted unless one is there |
| `ServerLists.Lists.RemoveMember` | todoers-server/src/db.rs:476-537 | only for such a caller: the first faulty slot's error and no change, or the bumped epoch, the new slots and none of the removed member |
| `ServerLists.Lists.DeleteList` | todoers-server/src/routes/lists.rs:38-47 | only for such a caller: the list goes with all its rows |
| `ServerLists.AnsweredIff` | todoers-server/src/routes/lists.rs:49-100 | a change is forbidden exactly to whoever has no row that says owner, and made exactly for an owner who names registered users and an epoch from 1 on and gives the removed member no slot |
| `ServerLists.FaultIsFirst` | todoers-server/src/db.rs:476-537 | a refused rotation reports the first faulty slot's error, a bad epoch before all but a first slot for the removed member |
| `Ownership.OnlyOwnersChange` | todoers-server/src/routes/lists.rs:91-100 | in every run of requests by anybody a list's epoch, members, roles and slots stay as they are until somebody who is its owner at that moment sends one |
| `Ownership.OwnerlessIsFrozen` | todoers-server/src/routes/lists.rs:91-100 | a list that has lost its last owner never changes again |
| `Ownership.OwnersWereMade` | todoers-server/src/routes/lists.rs:49-70 | in every run each owner created the list or was added as one by an owner of that moment |
| `Ownership.OwnersAreServed` | todoers-server/src/db.rs:436-537 | an owner's well-formed request is carried out: the member is there with the role and a slot, or gone with every slot and the epoch bumped, nobody else's row changes, and a deletion leaves nothing |
| `StoreKeys.Store.CreateList` | todoers-client/src/store.rs:95-137 | the owner's rows, slot, cached key and request of a new list |
| `StoreKeys.Store.AddMemberLocal` | todoers-client/src/store.rs:378-406 | the member row and a request with the current key sealed to them, or the error |
| `StoreKeys.Store.RemoveMemberLocal` | todoers-client/src/store.rs:413-462 | the rotated epoch with the owner's slot and cached key, and a request sealing the key to each remaining member |
| `StoreKeys.Store.IngestRemoteList` | todoers-client/src/store.rs:530-569 | metadata, members and slots merged and every openable slot loaded into the map |
| `StoreKeys.Session.Rehydrate` | todoers-client/src/session.rs:47-68 | each row that opens enters the map, the others are skipped |
| `StoreKeys.RowOrderIrrelevant` | todoers-client/src/db.rs:595-608 | the order in which the slots come back does not matter |
| `KeyRefinement.AddRefinesIff` | todoers-client/src/store.rs:378-406 | client half and server half of adding equal the in-memory operation if and only if the added user is not a member yet and has no other box of that epoch |
| `KeyRefinement.RemoveRefinesIff` | todoers-client/src/store.rs:413-462 | client half and server half of removing equal the in-memory operation if and only if no remaining member has another box under the next epoch |
| `Rotation.SlotsHoldDraws` | todoers-server/src/db.rs:476-537 | in every run, whatever is lost or ingested, each stored slot holds a key drawn for its epoch, sealed to its own member |
| `Rotation.OneKeyEachIff` | todoers-client/src/store.rs:413-462 | in every run, discovery and losses included, the boxes of one epoch hold one key at all times if and only if each rotation was made without a slot for the next epoch |
| `Rotation.OneDekPerEpoch` | todoers-client/src/crypto.rs:390-420 | with such rotations all slots the server stores for one epoch wrap one key, each sealed to its own member |
| `Rotation.RemovedOutIff` | todoers-client/src/store.rs:413-462 | in every run, discovery and losses included, no box gives a removed member a key drawn since, at any time, if and only if no rotation sealed to somebody removed and not added again |
| `Rotation.RemovedStaysOut` | todoers-server/src/db.rs:476-537 | with rotations of both kinds a member removed and not added again has no slot of an epoch after the removal, and no box ever sent gives them a key drawn since |
| `Discovery.UpToDateIff` | todoers-client/src/store.rs:530-569 | in every run a rotation would be of both kinds at every moment if and only if each listing ingested has an epoch not below the client's and names nobody the client removed and did not add again |
| `Discovery.NewerListingsAreSafe` | todoers-client/src/store.rs:530-569 | with such listings each epoch has one key and removed members get none drawn since, whatever is lost |
| `Discovery.NextRotationIff` | todoers-client/src/store.rs:530-569 | after a run with such listings, the rotation right after an ingest keeps both if and only if that listing passed the same check, the member now removed aside |
| `Lockstep.InStepIff` | todoers-client/src/sync.rs:219-232 | in every run that loses no command the waiting requests take the server to the client's epoch and members with good keys at each step, at all times, if and only if no listing is ingested whose epoch is below the client's |
| `Lockstep.MembersHoldTheCurrentKey` | todoers-server/src/db.rs:377-409 | in such a run each member has a slot of the server's current epoch, no slot is beyond it or a non-member's, and with an empty queue the server has the client's epoch and members |
| `Lockstep.RolesAgreeIff` | todoers-client/src/store.rs:547-563 | in such a run the roles agree as well, at all times, if and only if no listing ingested gives anybody a role other than the client's |
| `KeyGuards.StaysGoodIff` | todoers-server/src/db.rs:436-537 | an accepted request leaves good keys good if and only if it passes a check against the server's own rows: an add with the current epoch, or an earlier one for a present member; a rotation to the next epoch for all who remain and no one else, or to the present epoch for some of them |
| `KeyGuards.KeysGoodIff` | todoers-client/src/sync.rs:113-117 | in every run, whatever is lost or ingested, the server's keys are good at all times if and only if each accepted request passed that check on arrival |
| `KeyGuards.OrderedIff` | todoers-client/src/store.rs:547-549 | in every run the waiting requests were sent in order from the server's epoch up to the client's, at all times, if and only if no listing is ingested whose epoch is below where they lead |
| `KeyGuards.NeverSentBehind` | todoers-client/src/store.rs:378-462 | in such a run no waiting request carries an epoch below the server's |
| `KeyGuards.RotationGuardIff` | todoers-client/src/store.rs:413-462 | a rotation as the client builds it passes if and only if the client lists the server's members, the removed one aside |
| `LostCommands.LostAddLeavesStraySlot` | todoers-client/src/sync.rs:113-117 | after any run in step that left nothing waiting, losing the request of an add and rotating leaves a current slot of a non-member |
| `LostCommands.LostRemovalLeavesKeyless` | todoers-client/src/sync.rs:113-117 | after any such run, losing the request of a removal and rotating leaves a member without a current slot |
| `StaleListings.RemovedGetsLaterKey` | todoers-client/src/store.rs:530-569 | after any such run, losing the request of a removal, discovering and rotating seals the new key to the removed member |
| `StaleListings.EarlyListingSplitsAnEpoch` | todoers-client/src/sync.rs:219-232 | after any such run, a listing fetched before a removal and ingested between it and another, with nothing lost, leaves two keys in one epoch, one of them in a slot of a non-member |
| `DekCache.CacheIsRehydration` | todoers-client/src/session.rs:47-78 | in every run, restarts included, the key map on a list not deleted in this session is what a new session would rehydrate |
| `DekCache.ExactStays` | todoers-client/src/session.rs:47-78 | once the map is exact on a list it stays so until that list is deleted |
| `DekCache.CurrentDekIsThere` | todoers-client/src/store.rs:625-633 | in every run the key of each stored list's current epoch is in the map and is the one in its slot |
| `DekCache.KeyIsKept` | todoers-client/src/store.rs:413-462 | in every run a key drawn for a new list or by a rotation stays in the map under its epoch, over rotations and restarts, until the list is deleted or a listing of it is ingested |
| `DekCache.InviteSucceeds` | todoers-client/src/store.rs:378-406 | in every run adding a member to a stored list succeeds, the member is there and every key as before |
| `DekCache.ReturningListIsExactIff` | todoers-client/src/store.rs:147-152 | after a deletion the map is exact again if and only if the slots offered cover every epoch left behind |
| `AuthTables.AuthDb.LoginFinish` | todoers-server/src/db.rs:679-704 | returns the row only unexpired and removes it either way |
| `AuthTables.AuthDb.Enroll` | todoers-server/src/routes/device.rs:35-54 | only a password session at most five minutes old enrols; the key is set and a revocation cleared |
| `AuthTables.AuthDb.Revoke` | todoers-server/src/routes/device.rs:65-79 | only such a session revokes; the row is marked and the device's sessions go |
| `AuthTables.AuthDb.DeviceLoginStart` | todoers-server/src/routes/device.rs:84-106 | a challenge only for an enrolled device that is not revoked |
| `AuthTables.AuthDb.FinishLogin` | todoers-server/src/routes/device.rs:110-172 | consumes the login whatever comes, and mints a session exactly for the identity proved |
| `AuthTables.PasswordLoginIff` | todoers-server/src/routes/auth.rs:231-275 | from start to finish, a password login yields a session for a member if and only if it was started for that member, who is registered, and is finished within a minute by proving the state it was started with |
| `AuthTables.DeviceLoginIff` | todoers-server/src/routes/device.rs:110-172 | a device login does if and only if the device is enrolled and not revoked and its key signed this member, device and nonce within a minute |
| `AuthTables.AuthDb.Logout` | todoers-server/src/routes/auth.rs:279-282 | ends exactly the caller's session |
| `Sessions.DoubleMintIff` | todoers-server/src/db.rs:679-704 | however requests interleave, a login id mints two sessions if and only if two finish requests both read it before either deleted it and both minted |
| `Sessions.LoginMintsOnce` | todoers-server/src/db.rs:679-704 | a login id that no two requests read before one of them deletes it mints at most one session |
| `Sessions.SessionsGoBackToAPassword` | todoers-server/src/routes/auth.rs:65-73 | every session goes back to a password login, a device's through an enrolment within five minutes of one |
| `Sessions.DeviceSessionsActiveIff` | todoers-server/src/routes/device.rs:110-172 | in every run all live device sessions belong to active devices at all times if and only if none is minted for a device revoked after its proof was checked |
| `Sessions.UninterruptedHandlersAreSafe` | todoers-server/src/routes/device.rs:110-172 | with each finish handler uninterrupted every live device session belongs to an enrolled device that is not revoked |
| `Sessions.FinishIsFourSteps` | todoers-server/src/routes/auth.rs:231-275 | the finish handler as one call is the four steps in a row |
| `Sessions.DeadStaysDead` | todoers-server/src/db.rs:618-653 | a token that stopped opening a session never opens one again |
| `Sessions.RevocationIsFinal` | todoers-server/src/db.rs:781-810 | revoking a device ends the sessions it had for good |
| `SessionOrigins.SessionsWereProven` | todoers-server/src/routes/auth.rs:228-275 | in every run each session without a device comes from a finish request that proved the state its member's login was started with, and each device session from one that signed its login's nonce with the key a fresh password session had enrolled and nobody revoked since |
| `SessionOrigins.OpenUntil` | todoers-server/src/db.rs:618-653 | in every run an open session stays open and unchanged exactly until its holder logs out, thirty days pass or a fresh password session of its member revokes its device |
| `AuthExamples.RaceMintsTwice` | todoers-server/src/db.rs:679-704 | from every reachable state in which two requests have read a login neither has deleted and can prove its identity, six more steps mint two sessions |
| `AuthExamples.OneLoginTwoSessions` | todoers-server/src/db.rs:679-704 | from any start, a run in which one login ends in two open sessions |
| `AuthExamples.RevokedDeviceKeepsASession` | todoers-server/src/routes/device.rs:110-172 | from any start, a run in which a revoked device holds an open session |
| `Base32.Base32Encode` | todoers-client/src/sqlcipher.rs:398-414 | over a 32-bit accumulator that overflows, the output is the bit string cut into fives with the last group zero-filled, for input of any length |
| `Base32.DecodeEncoded` | todoers-client/src/sqlcipher.rs:398-414 | a decoder recovers the bytes, and the length is the bits divided by five, rounded up |
| `Base32.EncodedInjective` | todoers-client/src/sqlcipher.rs:398-414 | different bytes never share an encoding |
| `Base32.LettersInUseIff` | todoers-client/src/sqlcipher.rs:370-371 | a character occurs in some encoding if and only if it is a digit or a capital other than I, L, O and U |
| `Base32.LettersInOrder` | todoers-client/src/sqlcipher.rs:370-371 | the letters stand in the order of the values they are written for |
| `Base32.RecoveryKeyKeepsItsBytes` | todoers-client/src/sqlcipher.rs:376-396 | a displayed key keeps all its bytes, a text stands for the same key if and only if it differs in separators and case only, every fifth character is a dash, and 16 bytes show as 32 characters |
| `KeyChords.Surface.Resolve` | todoers/src/config.rs:348-369 | one key's effect on the buffer and what it fires |
| `KeyChords.BufferIsProperPrefix` | todoers/src/config.rs:348-369 | after every history the buffer is empty or a proper prefix of a binding that is no binding and holds no key bound on its own |
| `KeyChords.BufferIsShort` | todoers/src/config.rs:348-369 | the buffer is shorter than the longest binding |
| `KeyChords.FiresAtItsLastKeyIff` | todoers/src/config.rs:348-369 | from an empty buffer a binding's keys fire it at the last key and nothing before, if and only if nothing obstructs it |
| `KeyChords.ResolveIsTrieWalk` | todoers/src/config.rs:348-369 | for every history the flat map with its buffer fires what a walk in the trie of the bindings fires |
| `KeyStrings.ExtractModifiers` | todoers/src/config.rs:393-416 | the loop terminates and takes off every leading modifier |
| `KeyStrings.RoundTripIff` | todoers/src/config.rs:534-548 | parsing a printed sequence gives it back if and only if it is not empty and every key is printable |
| `KeyStrings.KeyRoundTripIff` | todoers/src/config.rs:470-531 | the same for one key on its own |
| `KeyStrings.KeyOfText` | todoers/src/config.rs:372-467 | what every text parses to: its prefixes name the modifiers in any order and number, a name stands for its key, one ASCII character for itself or after "shift-" its capital, never with Shift; all else is an error |
| `KeyStrings.ShiftLetter` | todoers/src/config.rs:457-463 | "shift-" and a letter, in whatever case, is the capital 32 places before it, without Shift |
| `KeyStrings.MotionNames` | todoers/src/config.rs:425-432 | the names of the motion keys |
| `KeyStrings.EditingNames` | todoers/src/config.rs:424-439 | the names of the editing keys |
| `KeyStrings.CharacterNames` | todoers/src/config.rs:453-455 | space, hyphen and minus |
| `KeyStrings.FunctionKeyNames` | todoers/src/config.rs:440-451 | f and a number from 1 to 12 names that function key |
| `KeyStrings.NoNamesBut` | todoers/src/config.rs:423-465 | there are no other names |
| `Wire.SigningViewInjective` | todoers-types/src/lib.rs:786-836 | the signed view fixes each of its six fields |
| `Wire.ChallengeIsAnUpdateViewIff` | todoers-types/src/lib.rs:808-823 | a device challenge is some update's view for exactly one version, 116, and never for the one in use |
| `Wire.ChallengeViewReads` | todoers-types/src/lib.rs:808-823 | the challenge's view is the domain text, the version, the member, the device and the nonce, each in its place |
| `Wire.ChallengeViewInjective` | todoers-types/src/lib.rs:808-823 | so it fixes all four |
| `Wire.BuildSigningView` | todoers-types/src/lib.rs:825-836 | each field can be read back from the buffer built |
| `Wire.DeliveredIff` | todoers-client/src/crypto.rs:28-107 | an update is appended if and only if its epoch is at least 1; then through log and rebuild a reader with the epoch's key gets the original bytes if and only if the version was the one in use |
| `Wire.OnlyOwnIsStored` | todoers-server/src/routes/updates.rs:14-60 | the server refuses an update of another author, of somebody who is no member of the list, and any whose six fields are not those signed, each with its own error, and stores all others of an epoch from 1 on unchanged |
| `Wire.ReadsWhatWasProduced` | todoers-client/src/crypto.rs:70-107 | a reader with the key gets the original bytes if and only if every field and the list are as they were produced, and the error says which differs |
| `Wire.OnlyWhatWasSignedPasses` | todoers-client/src/store.rs:500-516 | a row passes the signature check if and only if the list and every stored field are the ones signed |
| `OrderKeys.KeysSortAsNumbers` | todoers-client/src/list_doc.rs:384 | below 10^8 the keys sort as text the way the positions do as numbers |
| `OrderKeys.KeysInOrderIff` | todoers-client/src/list_doc.rs:288-296 | a list's keys are in order if and only if it has at most 10^8 items |
| `ReadModel.Db.ReplaceTodoItems` | todoers-client/src/db.rs:391-426 | the list's rows become exactly the items, or nothing changes when two items share an id |
| `ReadModel.LoadsInDocumentOrderIff` | todoers-client/src/db.rs:431-489 | any result the sorted query may return is the document's list less its subtasks, if and only if it has at most 10^8 items |
| `ReadModel.SidebarMatchesDocument` | todoers-client/src/store.rs:157-182 | whatever order the rows come in, a list's aggregates are those of its document |
| `ReadModel.SummaryMeans` | todoers-client/src/store.rs:157-182 | the aggregates are the number of open items, the least due date and the greatest priority among them |
| `ReadModel.ReadModelFollowsDocuments` | todoers-client/src/store.rs:654-657 | in every run, for each list whose last operation was Ok, loaded list and sidebar follow the document |
| `Calendar.ShiftMoves` | todoers/src/components/todo_form.rs:155-161 | a month shift gives a valid date, moves the month index by exactly delta within range and otherwise nothing, and never gains days |
| `Calendar.ShiftsComposeIff` | todoers/src/components/todo_form.rs:155-161 | two shifts never end later than one and equal it if and only if the month between is long enough |
| `Calendar.UndoneIff` | todoers/src/components/todo_form.rs:142-151 | the opposite key brings the cursor back if and only if the first move was not cut short |
| `Calendar.TodoForm.MoveCursor` | todoers/src/components/todo_form.rs:142-151 | the cursor moves as the key says and is always on a valid date |
| `Calendar.KeysMoveBy` | todoers/src/components/todo_form.rs:142-161 | each key moves by one day, seven days or one month, up to the ends of the calendar, on the same day of the month or its last |
| `Calendar.OrderOfDays` | todoers/src/components/todo_form.rs:142-151 | day numbers count the calendar in order, each date its own |
| `Gregorian.YearsInDays` | todoers-client/src/model.rs:217-236 | the days before a year are 365 a year, one more for each fourth, less for each hundredth, more for each four hundredth, before the year 1 as after it |
| `Gregorian.MonthLengths` | todoers-client/src/model.rs:230-236 | from one first of a month to the next there are 31, 28 or 29, 31, 30, ... days |
| `Gregorian.ProperIff` | todoers/src/components/todo_form.rs:155-161 | a date is proper if and only if it comes before the next month's first |
| `Gregorian.FourCenturies` | todoers-client/src/model.rs:224-228 | four centuries on, every date has a day number 146097 higher and the same weekday |
| `Gregorian.JuneTheSeventeenth` | todoers-client/src/model.rs:343-355 | on 17 June 2026, a Wednesday, the three bounds are 17, 21 and 30 June at 23:59:59 |
| `Calendar.BoundsAre` | todoers-client/src/model.rs:217-236 | the week bound is the first Sunday from today on, the month bound the last day of the month |
| `Calendar.TodayIsInBoth` | todoers-client/src/model.rs:239-245 | at every instant what is due today is due this month, and this week wherever the week has an end |
| `Calendar.WeekInMonthIff` | todoers-client/src/model.rs:213-236 | what is due this week is due this month if and only if the coming Sunday is in this month |
| `Calendar.WeekLeavesMonth` | todoers-client/src/model.rs:213-236 | on 29 January of the year 1 something is due this week and not this month |
| `Calendar.DueTodayIff` | todoers-client/src/model.rs:217-245 | due today means due before today or today up to 23:59:59 sharp; among whole seconds, on a day up to today |
| `Calendar.WithoutDueDateIff` | todoers-client/src/model.rs:239-245 | without a due date an item is in the view of all tasks and in no other; that view has everything |

## Left out

- Compaction: the server deletes the updates a snapshot covers and the sync engine reads no snapshot; uploads, cursor and convergence are stated without it.
- Deleting a list in the sync protocol; it appears in the key map and in the read model.
- Failures of the client's own database in the middle of a batch of remote updates, which abandon the rest of the batch.
- Several devices of one member.
- The reconnecting of live subscriptions; a live frame is a step of its own. In the sync protocol discovery is a change of epoch, keys and members; its order and staleness are followed in `Rotation`.
- Discovery by members other than the owner, and of lists the owner's client does not know yet.
- Liveness: nothing says that a push or a pull is ever started again.
- Registration, the password exchange itself and the option to switch signature checks off.
- Two owners changing the membership of one list at once; one client issues all commands.
- List names, the role in the list row and signing keys in the client's tables of lists and members.
- Sorting and filtering of views, editing of items, tags and subtasks inside Loro, and the conversion of tags to JSON text.
- Kind and state of key events, which the parser always sets to the defaults.
- The TPM and keyring stores, SQLCipher, key derivation, HTTP, WebSocket, the hub of the server and the terminal user interface.
