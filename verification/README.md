# Mail hub: crash-and-retry protocols and the server they talk to

This project models the parts of the mail hub that have to stay right when processes crash, answers
are lost and several writers meet, and proves what those parts promise over every run.

- **Mail actions** (`ActionKinds`, `ActionLedger`, `ActionTables`, `ActionProtocol`, `ActionTheorems`,
  `ActionIdentity`, `ActionHealth`, `ActionOutcomes`, `ActionService`). One action freezes its targets; runs drive each
  target through claim, remote write, readback and receipt. `ActionProtocol` is the machine of atomic
  steps: every guarded update or transaction is one step, every remote call another, and a run that
  crashes stops. Other runs, restores, synchronization and the server act between any two steps.
  `ActionService` is the imperative service and its two-way executor; each of its steps is proved to be
  a step of the machine, so the theorems about all histories hold of it. `ActionOutcomes` says how an
  undisturbed run ends each item, from the rows and the server before it: which conflict, no-op or
  receipt, what the occurrence row shows, where a moved message stands and that the server was called for
  fresh items alone. `ActionTables` runs the transactions on mutable rows.
- **The scripted IMAP server** (`MailboxStore`, `SequenceSets`, `ImapView`, `ImapCommands`,
  `ImapConnection`, and whole sessions of many clients in `ImapSession`) and its incremental **command reader** (`CommandTokens`, `CommandPrinting`,
  `CommandReader`, `CommandWire`). The same folder values are the remote half of the mail actions.
- **Draft autosave and revision-checked drafts** (`Autosave`, `Drafts`, `DraftService`, `DraftSync`).
- **Smaller cores**: authentication ceremonies (`Auth`, `AuthService`), the classification circuit
  breaker (`Circuit`), folder roles (`Folders`) and reply addressing (`Reply`).
- Shared helpers: `Wrappers`, `Text`, `Ascending`.

## What the model takes for granted

- A database transaction or guarded update is one atomic step. A remote call that is answered with a
  rejection was not applied, one that is answered with an acceptance was; a lost answer or an exception
  leaves both open. A call that throws outside the executor ends the run, like a crash. In a run nothing
  disturbs every call is answered: a flag write is accepted, a move exactly when its destination is there.
- Folder paths do not change under an action. Resets of a folder's generation only raise it, and new
  messages take the next UID.
- The items of an action are listed in the order the service loads them, and the position of an item
  stands for its key.
- `RestoreAll` acts on one action of another recovery generation; the recovery assessment is an
  environment answer (go, blocked or stale) that may change at any time.
- The autosaver's `save` and its state callback do not call back into it synchronously, and `save` does
  not throw. Timers do not fire while a resumption is waiting to run.
- The byte reader works on one character a byte. A tokenizer that stalls for ever is an explicit final
  status.
- Cost estimates are whole millionths of a US dollar, times whole milliseconds.
- Lower-casing covers ASCII letters. Validity of an address and of a display name are parameters.

## Where the code differs from what is said about it

- `IMAP_FLAGS` in the IMAP session maps the unread flag to `\Seen` without negating it, so a write that
  asks for `unread = false` removes `\Seen`. The mailbox port promises that the value asked for is set.
  `ActionHealth.WriteReadsExactly` states exactly when a write leaves the requested value to read: on a
  session as promised, or for the starred flag. The convergence results hold under that condition.
- An interrupted move is held by one query and the pending items are read by another. Two overlapping
  runs can therefore issue one move twice (`ActionTheorems.OverlapMovesTwice`); they cannot when no
  pending read meets a claim, which serial runs guarantee.
- An append to the selected folder replaces the view without reporting expunges it had not reported;
  `ImapView.AppendMirrorsExactly` says exactly when the client still follows. That and an arrival at a
  scripted UID below what a client sees are the two events after which a client may hold another list
  (`ImapSession.Session.Play`).
- A line of exactly the limit is accepted whole and destroyed when the network cuts between its two
  terminator bytes. `CommandReader.CutIsInvisibleExactly` is the exact condition. A literal of
  zero bytes is announced and prompted for and never becomes a token, so a command comes back whole
  exactly when none of its literals is empty (`CommandWire.CommandIsWholeExactly`).
- `retry` or `keepLocalCopy` called after a save run ended and before its slot is released leaves edits
  that nothing will save (`Autosave.RetryInTheGapStrands`); the contracts of both say exactly when what
  they leave is on its way. A disposed autosaver
  still issues exactly one save when a frame was left to act on a wanted flush (`Autosave.WindDown`).
- The breaker says it resumes thirty minutes after the newest counted failure; it resumes when fewer
  than five failures of one window are younger than thirty minutes (`Circuit.OpenExactly`,
  `Circuit.ClosesAfterTheOldest`). The assessment rounds the spend to cents, so a cycle pauses half a
  cent before the cap (`Circuit.RoundedCapPausesEarly`).
- Re-importing one discovery is not a no-op (`Folders.OneRunIsNotEnough`); a further run changes
  something exactly when a role without a holder has one candidate (`Folders.ImportRestsExactly`), and
  the runs settle.
- `lockDraftForSend` locks a deleted draft; the send that calls it checks first
  (`Drafts.DeletedDraftStillLocks`).

## Model

| member | source | states |
|---|---|---|
| ActionKinds.KindsPartition | packages/actions/src/kinds.ts:21-63 | a kind may replay exactly when it sets a flag, and needs a destination exactly when it does not |
| ActionLedger.QueuedAgrees | packages/actions/src/service.ts:165-195 | the rows a submission commits start in agreement: all pending, nothing applied, nothing ended |
| ActionLedger.FinalizeAgrees | packages/actions/src/service.ts:706-739 | finalizing completes exactly the actions with no pending item, with one completion event |
| ActionLedger.CommitAgrees | packages/actions/src/service.ts:598-687 | a disposition, eligible or not, keeps receipts, status and audit telling one story |
| ActionLedger.CommitNotes | packages/actions/src/service.ts:598-687 | what an accepted disposition leaves: the receipt on its item alone, and on the one row it observed flags and sequence as shown, the revision one higher exactly when a flag changed, expunged when the message left; an expunged row stays |
| ActionLedger.ClaimAgrees | packages/actions/src/service.ts:690-703 | a claim keeps that agreement |
| ActionLedger.RestoreAgrees | packages/actions/src/service.ts:338-375 | a restore disposition keeps that agreement and ends the action once |
| ActionLedger.CommitRankExact | packages/actions/src/service.ts:612-630 | the rank falls strictly unless a superseding receipt itself reads as an interrupted hold and lands on one |
| ActionLedger.FinalReceipts | packages/actions/src/service.ts:586-597 | final are confirmed, conflicted and failed receipts and every unknown one but the hold of an interrupted claim |
| ActionTables.CountItems | packages/actions/src/service.ts:707-711 | the counting query yields the number of items in the wanted statuses |
| ActionTables.GroupByStatus | packages/actions/src/service.ts:727-738 | the grouped counts are those of every status some item has |
| ActionTables.ActionTables.MarkExecuting | packages/actions/src/service.ts:690-703 | the mutable row is claimed exactly when it was queued, as the protocol's claim |
| ActionTables.ActionTables.FinalizeActionStatus | packages/actions/src/service.ts:706-739 | the mutable rows after finalizing are the protocol's |
| ActionTables.ActionTables.ObserveOccurrence | packages/actions/src/service.ts:634-668 | flags, modification sequence, revision and expunge mark of the occurrence row after an observation, nothing on an expunged row |
| ActionTables.ActionTables.CommitDisposition | packages/actions/src/service.ts:598-687 | the disposition transaction on mutable rows is the protocol's, and keeps the agreement |
| ActionTables.ActionTables.DispositionRestored | packages/actions/src/service.ts:329-377 | queued items conflict, executing ones become unknown, with their numbers; nothing else changes and another generation is required |
| ActionProtocol.LawfulAppend | packages/actions/src/service.ts:226-280 | a lawful history extended by a legal step is lawful, and ends where the step leads |
| ActionTheorems.StepRank | packages/actions/src/service.ts:598-630 | every status write of anybody strictly lowers the rank of its item (queued, executing, interrupted hold, final), except exactly a receipt that reads as the hold marker and lands on such a hold; no write raises it |
| ActionTheorems.HoldYieldsToItsClaim | packages/actions/src/service.ts:509-551 | whatever changes an interrupted hold is the receipt of a run that holds the claim of that item |
| ActionTheorems.FinalStepStays | packages/actions/src/service.ts:612-630 | no step changes a final receipt |
| ActionTheorems.FinalForever | packages/actions/src/service.ts:586-597 | over every interleaving of runs, crashes, restores and outside changes a final receipt never changes |
| ActionTheorems.WritesAreBounded | packages/actions/src/service.ts:598-630 | an item is written at most three times in its life, however runs interleave, on top only of receipts that repeat a hold marker |
| ActionTheorems.StepAgrees | packages/actions/src/service.ts:598-746 | every legal step keeps receipts, status and audit in agreement |
| ActionTheorems.HistoryAgrees | packages/actions/src/service.ts:338-375 | in every reachable state complete means nothing pending, with exactly one ending event, and one applied event exactly for each confirmed item |
| ActionTheorems.StepOneClaim | packages/actions/src/service.ts:487-495 | a move's claim is won once and pays for one remote move |
| ActionTheorems.StepSeesNoClaim | packages/actions/src/service.ts:242-267 | runs whose pending read met no claim never hold a list with a claim in it |
| ActionTheorems.AtMostOneMove | packages/actions/src/service.ts:238-267 | over every interleaving and crash the remote move of an item is issued at most once in its life, if no pending read met a claim |
| ActionTheorems.ConfirmedWasMoved | packages/actions/src/two-way-executor.ts:134-167 | over every interleaving and crash an item confirmed by an archive or move was moved at the server into the folder the request froze |
| ActionTheorems.StepConfirms | packages/actions/src/service.ts:497-551 | a move is confirmed only by a run whose call reached the server |
| ActionTheorems.OverlapMovesTwice | packages/actions/src/service.ts:242-267 | without that condition two runs can each issue the move of any queued item |
| ActionTheorems.SharedClaimMovesAgain | packages/actions/src/service.ts:242-267 | from any state in which a live run's list holds a claim another run still carries, both can issue the move |
| ActionIdentity.StepGeneration | packages/harness/src/mailbox-store.ts:113-137 | a reset strictly raises a folder's generation and nothing else changes it |
| ActionIdentity.StepKeepsNames | packages/harness/src/mailbox-store.ts:86-136 | while its generation stands, a frozen UID holds the frozen message or none, whatever the server does |
| ActionIdentity.StepKeepsAim | packages/actions/src/service.ts:413-456 | a run that claimed an item holds its folder and a generation equal to the frozen one |
| ActionIdentity.GenerationStandsExactly | packages/harness/src/mailbox-store.ts:113-137 | a folder keeps its generation over a history exactly when no reset of it falls inside |
| ActionIdentity.PerformTouchesOnly | packages/harness/src/imap-server.ts:713-829 | a store or move changes nothing but its own UID, and what it adds is a copy of that message |
| ActionIdentity.WriteReachesFrozenExactly | packages/actions/src/service.ts:402-497 | a write reaches the message frozen at submit and nothing else as long as no reset falls between the revalidate and the write, and the folder still has the frozen generation exactly then |
| ActionIdentity.ResetMisleadsWrite | packages/actions/src/service.ts:466-497 | with a reset inside, any claimed write can be made to reach any other message under the same UID |
| ActionHealth.QueuedIsHealthy | packages/actions/src/kinds.ts:156-177 | an action frozen against rows and messages as just observed is healthy |
| ActionHealth.WriteReadsExactly | packages/sync/src/imap-session.ts:238-262 | an applied flag write leaves the requested value to read exactly on a session that spells the flag as promised, and spares every other flag and the content |
| ActionHealth.KindLeaves | packages/actions/src/kinds.ts:21-63 | what each flag kind leaves in the flags of its message: seen, not seen, flagged, not flagged, the other flag as it was |
| ActionHealth.WriteDecides | packages/sync/src/imap-session.ts:238-262 | the undisturbed write of an item still to be changed leaves its flag as desired exactly on a sound session |
| ActionHealth.ConfirmKeepsHealthy | packages/actions/src/service.ts:466-477 | confirming an item whose flag reads as desired keeps every other item on its way |
| ActionHealth.ClaimKeepsHealthy | packages/actions/src/service.ts:690-703 | so does a claim |
| ActionHealth.WriteKeepsHealthy | packages/harness/src/imap-server.ts:713-756 | a sound write, conditional or not, leaves its own flag desired, every desired flag desired and everything off target as it was |
| ActionOutcomes.MoveRelocates | packages/harness/src/imap-server.ts:776-829 | an accepted move takes the message from its UID, puts one of the same content at the old next UID of the destination and leaves every other message of every folder as it was, also within one folder |
| ActionOutcomes.ConflictEnds | packages/actions/src/service.ts:429-484 | a conflict recorded for the reason the state gives ends its item with that reason and no observation, and nothing else changes |
| ActionOutcomes.NoopEnds | packages/actions/src/service.ts:466-477 | a no-op ends its item confirmed with the flags shown, and the row notes them |
| ActionOutcomes.HoldEnds | packages/actions/src/service.ts:238-249 | an interrupted claim of a move ends unknown, and nothing else changes |
| ActionOutcomes.WriteEnds | packages/actions/src/service.ts:485-551 | the whole write of a fresh item from claim to receipt: message, receipt, row, everything off target and the calls made |
| ActionOutcomes.NothingShown | packages/actions/src/service.ts:525-551 | a lost answer and a failure leave every occurrence row as it was |
| ActionOutcomes.MovedStands | packages/actions/src/two-way-executor.ts:134-167 | a confirmed move stands under the path of the frozen destination and no longer at its frozen place |
| ActionOutcomes.DroveCompose | packages/actions/src/service.ts:264-280 | parts of a run that deal with different items add up: each item ends as the state before the run decides, the rest stands |
| ActionService.ReadDecides | packages/actions/src/service.ts:420-484 | the checks of a run, in their order, come to exactly the conflict, no-op or write that rows, generation and message decide |
| ActionService.GroupDecides | packages/actions/src/service.ts:384-401 | a folder without a row, without a recorded generation or under another one conflicts its whole group for that reason; otherwise the refresh shows every item as it is |
| ActionService.StepOnward | packages/actions/src/service.ts:226-280 | every step of a run keeps disposed items disposed, and a well action well |
| ActionService.ActionService.Do | packages/actions/src/service.ts:226-280 | a step of the service is a legal step of the protocol and extends the lawful history that leads to its state |
| ActionService.ActionService.Await | packages/actions/src/service.ts:226-280 | between two steps others may act within the stated peace and the run may die; disposed stays disposed |
| ActionService.ActionService.Settle | packages/actions/src/service.ts:598-687 | after a disposition the item is not pending and no disposed item came back; undisturbed it is the one step taken |
| ActionService.ActionService.Refuse | packages/actions/src/service.ts:755-764 | one item conflicted; undisturbed, for the reason the state gives, exactly that item ends so and the server is not called |
| ActionService.ActionService.Confirm | packages/actions/src/service.ts:466-477 | one item confirmed without a write; undisturbed, when its flag already is as desired, exactly that item ends so |
| ActionService.ActionService.ConflictItems | packages/actions/src/service.ts:755-764 | every item of the list ends disposed; undisturbed, when the state refuses them all for one reason, each with that reason and nothing else touched |
| ActionService.ActionService.JudgeFlags | packages/actions/src/two-way-executor.ts:53-128 | confirmed exactly on a readback of the value or a plain accepted write; unknown exactly when the answer or the readback was lost or an accepted write left nothing to read; failed only when rejected |
| ActionService.ActionService.WriteFlag | packages/actions/src/two-way-executor.ts:45-90 | write and readback; undisturbed, the server and the readback show the desired flag exactly on a sound session |
| ActionService.ActionService.Call | packages/actions/src/two-way-executor.ts:57-71 | an accepted write was applied, a rejected one was not; an undisturbed flag write is applied, an undisturbed move exactly when its destination is there |
| ActionService.ActionService.ApplyFlags | packages/actions/src/two-way-executor.ts:45-128 | a failed or absent receipt only for a write that did not reach the server; undisturbed, the conditional or plain write of the desired value, and the receipt its readback decides |
| ActionService.ActionService.ApplyMove | packages/actions/src/two-way-executor.ts:134-167 | a confirmed move was applied and names the destination, a failed one was not, a lost answer is neither; undisturbed, the message leaves its folder and one of its content stands at the old next UID of the destination, everything else as it was |
| ActionService.ActionService.Apply | packages/actions/src/two-way-executor.ts:28-39 | flags or move by kind; a move landing exactly for the kinds that move, in the destination |
| ActionService.ActionService.MarkExecuting | packages/actions/src/service.ts:487-491 | a run goes on to the remote call only with the claim, won or found; otherwise, alone, the item is already disposed |
| ActionService.ActionService.CommitReceipt | packages/actions/src/service.ts:497-551 | the receipt of the claim that ran the write disposes its item; a move is confirmed only after its call reached the server |
| ActionService.ActionService.ApplyClaimed | packages/actions/src/service.ts:492-551 | the recovery state once more, then write and receipt of a claimed item |
| ActionService.ActionService.ClaimAndApply | packages/actions/src/service.ts:485-551 | claim, recheck, write, receipt: finished means disposed, stopped only by the recovery state; undisturbed, a fresh item ends with what was written and nothing else changes |
| ActionService.ActionService.ExecuteItem | packages/actions/src/service.ts:420-551 | without other runs a finished item is disposed; undisturbed, it ends exactly as absent, missing, expunged, invalidated, of another generation, already as desired, at another revision, at another sequence, or written, in this order, told from the rows; the server is called in the last case alone |
| ActionService.ActionService.ExecuteChecked | packages/actions/src/service.ts:402-418 | a generation that moved conflicts the rest of the group, otherwise the item is driven; undisturbed it is driven |
| ActionService.ActionService.ExecuteItems | packages/actions/src/service.ts:402-552 | the loop over a refreshed group deals with each item once, and with nothing else |
| ActionService.ActionService.ExecuteSelected | packages/actions/src/service.ts:396-418 | select, generation and refresh of a group before its items |
| ActionService.ActionService.ExecuteFolderGroup | packages/actions/src/service.ts:384-552 | a finished group leaves every item of it disposed; undisturbed, each as the state before it decides |
| ActionService.ActionService.HoldInterrupted | packages/actions/src/service.ts:238-249 | after the hold pass of a run alone no claim of a move is left; undisturbed, exactly the claims found in flight are held |
| ActionService.ActionService.ReadPending | packages/actions/src/service.ts:264-267 | a run alone reads its list without meeting a claim |
| ActionService.FolderIds | packages/actions/src/service.ts:268-268 | each folder of the pending items once |
| ActionService.GroupOf | packages/actions/src/service.ts:269-270 | exactly the pending items of one folder |
| ActionService.ActionService.ExecuteGroups | packages/actions/src/service.ts:264-275 | every pending item of every folder is disposed, or the run says what stopped it; undisturbed, exactly the listed items end as decided |
| ActionService.ActionService.ExecuteListed | packages/actions/src/service.ts:251-276 | a missing destination conflicts every item just read as pending, otherwise they are driven by folders |
| ActionService.ActionService.ExecutePending | packages/actions/src/service.ts:251-276 | the destination is resolved, the pending items are read and dealt with; undisturbed, exactly they end as decided |
| ActionService.ActionService.Execute | packages/actions/src/service.ts:226-280 | every run is lawful; alone, `executed` leaves every target disposed; an undisturbed flag action stays well under a crash anywhere; an undisturbed run that is executed ends every item as rows and server before it decide, calls the server for fresh items alone, leaves every message off target as it was, and every confirmed archive or move stands under the frozen destination and not at its place |
| ActionService.ActionService.ExecuteLoaded | packages/actions/src/service.ts:226-280 | a loaded run: a complete action is left alone, a blocked or stale one is given back untouched under that name, any other is driven |
| ActionService.ActionService.MovesOnce | packages/actions/src/service.ts:238-267 | after any runs without an overlapping read each move was issued at most once |
| ActionService.ActionService.Reconcile | apps/worker/src/main.ts:613-637 | over serial passes that may crash anywhere a move is issued at most once an item, and an undisturbed flag action has converged once a pass ran to its end |
| ActionService.AllDisposed | packages/actions/src/service.ts:706-739 | once nothing is pending the action is complete, and a well one has every item confirmed, every flag as desired, all else untouched |
| ActionService.WellStepKeeps | packages/actions/src/service.ts:466-525 | no step of an undisturbed run undoes a desired flag or disturbs anything off target |
| MailboxStore.RunKeepsCoherent | packages/harness/src/mailbox-store.ts:86-148 | every history keeps the next UID above all UIDs and modification sequences distinct and bounded by the highest |
| MailboxStore.HistoryOf | packages/harness/src/mailbox-store.ts:86-148 | a history leaves a message as captured, gone, or stamped above everything captured |
| MailboxStore.UnchangedSinceIsExact | packages/harness/src/imap-server.ts:713-756 | a condition at a captured value holds exactly when nothing touched the message since |
| MailboxStore.LaterArrivalFailsCondition | packages/harness/src/mailbox-store.ts:86-102 | a message that arrived after the capture never meets the condition |
| MailboxStore.NextUidAlreadyClear | packages/harness/src/mailbox-store.ts:128-137 | the adjustment ending a replacement changes nothing |
| MailboxStore.ListUids | packages/harness/src/mailbox-store.ts:63-66 | the ascending listing of a folder |
| MailboxStore.ScriptedMailboxStore.AddFolder | packages/harness/src/mailbox-store.ts:72-84 | a new empty folder under a path, other folders untouched |
| MailboxStore.ScriptedMailboxStore.AddMessage | packages/harness/src/mailbox-store.ts:86-103 | one arrival at its UID, or an error that changes nothing |
| MailboxStore.ScriptedMailboxStore.Expunge | packages/harness/src/mailbox-store.ts:105-111 | exactly that UID disappears |
| MailboxStore.ScriptedMailboxStore.ResetUidValidity | packages/harness/src/mailbox-store.ts:118-126 | the generation rises by one, messages stay |
| MailboxStore.ScriptedMailboxStore.ReplaceFolder | packages/harness/src/mailbox-store.ts:128-137 | the path holds a new folder object with the loaded messages; others stay |
| MailboxStore.ScriptedMailboxStore.BumpModseq | packages/harness/src/mailbox-store.ts:144-148 | the message is stamped with the folder's new highest sequence |
| SequenceSets.CompressCovers | packages/harness/src/imap-server.ts:1313-1329 | the runs cover exactly the listed numbers |
| SequenceSets.JoinRanges | packages/harness/src/imap-server.ts:1313-1329 | the loop prints the maximal runs of the sorted numbers |
| SequenceSets.ExpandSequenceSet | packages/harness/src/imap-server.ts:1196-1216 | the loop collects exactly the identifiers an entry addresses |
| SequenceSets.SetReads | packages/harness/src/imap-server.ts:1196-1216 | what a client means by a set of numbers, ranges in either direction and stars is what its text expands to |
| SequenceSets.ExpandUndoesJoin | packages/harness/src/imap-server.ts:1313-1329 | expanding the printed runs of a non-empty list gives back exactly its members |
| SequenceSets.CopyUidPairs | packages/harness/src/imap-server.ts:801-814 | the two range sets of a COPYUID answer give back source and destination UIDs position by position |
| ImapView.ExistsMirrorsExactly | packages/harness/src/imap-server.ts:889-907 | an EXISTS answer leaves the client with the folder's listing exactly when everything unseen lies above what it has |
| ImapView.ArrivalsMirror | packages/harness/src/imap-server.ts:889-907 | reports and count of one flush end at the listing under the same condition |
| ImapView.OutsideKeepsInStep | packages/harness/src/imap-server.ts:889-907 | an outside change keeps a view in step exactly unless it is an arrival below it; expunges, flag changes, generations and arrivals above are free |
| ImapView.InStepMirrors | packages/harness/src/imap-server.ts:889-907 | whatever a command does to folders, if it let nothing arrive below a view that was in step, answers that mirror the followable views mirror this one |
| ImapView.AppendMirrorsExactly | packages/harness/src/imap-server.ts:866-878 | after an append to the selected folder the client follows exactly when nothing it holds was expunged unseen |
| ImapView.RemovalsKeepInStep | packages/harness/src/imap-server.ts:759-774 | a view that only lost what the folder lost is still in step |
| ImapConnection.FlushMirrors | packages/harness/src/imap-server.ts:889-907 | one flush with or without arrivals, seen from the client |
| ImapConnection.Connection.HandleSelect | packages/harness/src/imap-server.ts:500-529 | the view lists the folder and the client holds the same list |
| ImapConnection.Connection.HandleClose | packages/harness/src/imap-server.ts:354-359 | no folder and no view afterwards |
| ImapConnection.Connection.ReportExpunges | packages/harness/src/imap-server.ts:889-898 | the reported positions take exactly the gone messages out of the client's list |
| ImapConnection.Connection.FlushView | packages/harness/src/imap-server.ts:889-907 | the view lists the folder, and the client does exactly when the arrivals lie above what it kept |
| ImapConnection.Connection.HandleNoop | packages/harness/src/imap-server.ts:300-307 | NOOP and CHECK flush the selected folder, and with none selected only answer |
| ImapConnection.Connection.HandleStore | packages/harness/src/imap-server.ts:676-757 | the message at each position of the listing changes exactly when its UID or its number is in the range and its condition held; each unrefused one is reported as it now is unless silent; the answer names exactly the refused ones and is a NO exactly when all were |
| ImapConnection.Connection.HandleExpunge | packages/harness/src/imap-server.ts:759-774 | exactly the deleted-flagged messages go, each reported at its position |
| ImapConnection.Connection.HandleCopyMove | packages/harness/src/imap-server.ts:776-832 | the message at each position whose UID or number is in the range is copied, in order, to the next UIDs, and taken away by a move exactly then, also within one folder; the coordinates are in the answer |
| ImapConnection.Connection.HandleAppend | packages/harness/src/imap-server.ts:834-887 | one message at the next UID, and exactly when the client of the selected folder still follows |
| ImapCommands.StoreReaches | packages/harness/src/imap-server.ts:713-756 | STORE changes exactly the addressed messages whose condition held when the command began |
| ImapCommands.MatchedIsAddressed | packages/harness/src/imap-server.ts:684-687 | the matched messages are exactly the positions whose UID, or whose number counted from one, is in the range |
| ImapCommands.StoreReachesPositions | packages/harness/src/imap-server.ts:684-756 | STORE told position by position |
| ImapCommands.CopyReachesPositions | packages/harness/src/imap-server.ts:792-814 | COPY and MOVE told position by position: which message is copied to which UID |
| ImapCommands.MoveWithinReachesPositions | packages/harness/src/imap-server.ts:792-829 | a MOVE within one folder told position by position |
| ImapCommands.NextFlags | packages/harness/src/imap-server.ts:724-731 | adding unites, removing takes what is equal without case, replacing replaces |
| ImapCommands.RefusedIsExact | packages/harness/src/imap-server.ts:713-756 | the refused UIDs are exactly the addressed ones whose condition failed |
| ImapCommands.CopyAllMeans | packages/harness/src/imap-server.ts:795-806 | copies stand at consecutive fresh UIDs with the content of their originals |
| ImapCommands.CopyDuplicates | packages/harness/src/imap-server.ts:792-814 | COPY adds exactly the matched contents |
| ImapCommands.MoveConserves | packages/harness/src/imap-server.ts:792-829 | MOVE conserves the multiset of contents across two folders |
| ImapCommands.MoveWithinConserves | packages/harness/src/imap-server.ts:792-829 | so does a MOVE onto the folder itself |
| ImapCommands.CopyUidNamesTheCopies | packages/harness/src/imap-server.ts:801-814 | the reported sets, read back in order, pair each matched message with the copy of its content |
| ImapSession.StoreIsLater | packages/harness/src/imap-server.ts:713-756 | a STORE of anybody lets nothing arrive below any view |
| ImapSession.DeliveryIsLater | packages/harness/src/imap-server.ts:792-829 | neither does a COPY or MOVE, also within one folder |
| ImapSession.Session.Settled | packages/harness/src/imap-server.ts:280-387 | after one client's command every other client still holds its own view |
| ImapSession.Session.Flushed | packages/harness/src/imap-server.ts:889-907 | a client that followed holds the listing after a command that ends with a flush |
| ImapSession.Session.Append | packages/harness/src/imap-server.ts:834-887 | a client loses its list exactly when it appends to the folder it sees over an unseen expunge; every other client follows |
| ImapSession.Session.Outside | packages/harness/src/mailbox-store.ts:86-137 | a client loses its list exactly when something arrives below what it sees |
| ImapSession.Session.Perform | packages/harness/src/imap-server.ts:280-387 | any command keeps every client's list equal to its view, ends at the folder's listing when it flushes, and costs a list only as said |
| ImapSession.Session.HarmlessLosesNothing | packages/harness/src/imap-server.ts:889-907 | changes at new UIDs and commands other than appends never cost anybody a list |
| ImapSession.Session.Play | packages/harness/src/imap-server.ts:260-387 | over every session of any number of clients, every command and any outside world, a client that replays its answers holds exactly its connection's view unless one of the two named losses happened to it |
| CommandTokens.ParenthesisStalls | packages/harness/src/imap-server.ts:1039-1062 | the tokenizer's loop gets stuck at a closing parenthesis and nowhere else, and moves on everywhere else |
| CommandTokens.StallsExactly | packages/harness/src/imap-server.ts:1033-1064 | the reader reports a stall exactly for the lines on which the loop gets stuck after some number of turns |
| CommandTokens.ParseQuoted | packages/harness/src/imap-server.ts:1100-1117 | the loop reads what the scanning function reads |
| CommandTokens.MatchSection | packages/harness/src/imap-server.ts:1165-1179 | the closing bracket of the section, or the last index |
| CommandTokens.ParseAtom | packages/harness/src/imap-server.ts:1126-1162 | value, section and rest of an atom; the byte range is read and dropped |
| CommandTokens.ParseList | packages/harness/src/imap-server.ts:1067-1097 | items and rest of a nested list, always terminating |
| CommandTokens.ParseTokens | packages/harness/src/imap-server.ts:1033-1064 | the tokens of a line, or that the tokenizer stalls on it |
| CommandPrinting.QuotedReads | packages/harness/src/imap-server.ts:1100-1117 | reading an escaped string gives back the string, whatever it holds |
| CommandPrinting.TokenReads | packages/harness/src/imap-server.ts:1033-1162 | a printed token is read as itself, in a list and on the line |
| CommandPrinting.RangeIsDropped | packages/harness/src/imap-server.ts:1126-1162 | a byte range after a section is read and dropped: the atom is the one without it |
| CommandPrinting.OtherAnglesStay | packages/harness/src/imap-server.ts:1126-1162 | anything else between angle brackets stays in the atom |
| CommandPrinting.TokensReadBack | packages/harness/src/imap-server.ts:1033-1162 | the tokenizer undoes printing of any printable token list, nesting and quoting included |
| CommandReader.CommandReader.TakeLiteral | packages/harness/src/imap-server.ts:985-997 | one literal step of the loop is the specified one |
| CommandReader.CommandReader.TakeLine | packages/harness/src/imap-server.ts:998-1027 | one line step, its limits and its prompt are the specified ones |
| CommandReader.CommandReader.Receive | packages/harness/src/imap-server.ts:982-1029 | one chunk drains as far as the input goes |
| CommandReader.TornDiffers | packages/harness/src/imap-server.ts:998-1009 | a line of the limit cut inside its terminator is read differently unless it overclaims a literal |
| CommandReader.CutIsInvisibleExactly | packages/harness/src/imap-server.ts:982-1029 | two chunks are read as their concatenation exactly outside that case |
| CommandReader.ChunkingIsInvisible | packages/harness/src/imap-server.ts:982-1029 | any chunking of a stream without a line of exactly the limit gives the same commands, tokens, literals and prompts |
| CommandWire.CommandReadsBack | packages/harness/src/imap-server.ts:955-1029 | what a client writes for a command with literals is read back as that command less its empty literals, behind one prompt a literal |
| CommandWire.SessionReadsBack | packages/harness/src/imap-server.ts:955-1029 | a whole session arrives as its commands in order, less their empty literals, however the bytes are cut |
| CommandWire.CommandIsWholeExactly | packages/harness/src/imap-server.ts:983-1022 | a command comes back as it was written exactly when none of its literals is empty |
| Autosave.MergeKeepsNewest | packages/compose/src/autosave.ts:265-267 | each field keeps the newest value pushed for it |
| Autosave.ShallowEqualIsExact | packages/compose/src/autosave.ts:270-277 | comparing counts and one side's fields is comparing the edits |
| Autosave.DraftAutosaver.SetState | packages/compose/src/autosave.ts:250-255 | the editor is told every change once |
| Autosave.DraftAutosaver.RunSave | packages/compose/src/autosave.ts:192-206 | nothing is saved over a conflict or without edits; otherwise one save of all pending edits at the base revision |
| Autosave.DraftAutosaver.Tail | packages/compose/src/autosave.ts:235-241 | a flush wanted meanwhile runs once more |
| Autosave.DraftAutosaver.Push | packages/compose/src/autosave.ts:92-102 | edits merge, unsaved edits are on their way, and others see exactly that edit |
| Autosave.DraftAutosaver.Flush | packages/compose/src/autosave.ts:108-117 | one save at once, or one wanted after the save in flight; never out of a conflict |
| Autosave.DraftAutosaver.TimerFires | packages/compose/src/autosave.ts:168-174 | with a free slot and pending edits outside a conflict the debounce issues one save of exactly those edits at the base revision; with a save in flight it only wants a flush; otherwise it does nothing |
| Autosave.DraftAutosaver.Retry | packages/compose/src/autosave.ts:120-130 | every edit is kept, and on its way exactly when the slot is free, a timer runs or a frame will still look |
| Autosave.DraftAutosaver.AcceptServerCopy | packages/compose/src/autosave.ts:137-145 | local edits are discarded, the state is saved at the server's revision |
| Autosave.DraftAutosaver.KeepLocalCopy | packages/compose/src/autosave.ts:152-160 | every edit is rebased onto the server's revision, and on its way exactly as for retry |
| Autosave.DraftAutosaver.Settle | packages/compose/src/autosave.ts:206-241 | a saved answer acknowledges the edits or saves the newer ones at once, a conflict stops saving, a disposed autosaver ignores it; others see the answer and at most one next save |
| Autosave.DraftAutosaver.Resume | packages/compose/src/autosave.ts:184-190 | a resuming frame loses no edit and frees the slot last; it issues a save exactly when the innermost frame stands in the outcome switch, a flush is wanted, edits are pending and there is no conflict |
| Autosave.PushIsSaved | packages/compose/src/autosave.ts:92-241 | a push, the end of the debounce and a saved answer end saved and acknowledged, in one save |
| Autosave.RetryInTheGapStrands | packages/compose/src/autosave.ts:120-130 | a retry in the gap leaves edits unsaved with nothing armed |
| Autosave.WindDown | packages/compose/src/autosave.ts:163-241 | after dispose the frames wind down, whatever the answers: exactly one more save if a frame was left to act on a wanted flush, none otherwise |
| Drafts.RunStaysBounded | packages/compose/src/service.ts:475-597 | in every run positions and uploads of a draft stay distinct, in its account, and within 32 MiB |
| Drafts.TotalAddsUp | packages/compose/src/service.ts:475-504 | the counted bytes are the sizes of the attached files added up |
| Drafts.UpdateIsAcceptedExactly | packages/compose/src/service.ts:303-356 | an edit is accepted exactly for a live unlocked draft at the base revision, and a stale one is told the stored revision |
| Drafts.UnlinkedIsExact | packages/compose/src/service.ts:507-522 | detaching drops exactly one upload |
| Drafts.AttachTwiceIsOnce | packages/compose/src/service.ts:487-495 | a repeated attach answers the recorded position and changes nothing |
| Drafts.HeldStepFreezes | packages/compose/src/service.ts:874-886 | no step changes a locked draft but the release at a definitive status of the send that holds it |
| Drafts.LockedDraftIsFrozen | packages/compose/src/service.ts:674-765 | from the lock to that release fields, revision, attachments and deletion stand over every run |
| Drafts.UnresolvedNeverReleases | packages/compose/src/service.ts:732-753 | without a definitive report no release succeeds |
| Drafts.HeldDraftsMatchTheirSends | packages/send/src/service.ts:410-490 | in every run a draft held by a send is exactly what that send froze, fields, attachments and account |
| Drafts.ResendCopiesTheDraft | packages/compose/src/service.ts:606-665 | a resend, however late, is an unlocked copy of what the draft held when the send froze it |
| Drafts.DeletedDraftStillLocks | packages/compose/src/service.ts:674-709 | the lock alone succeeds on any deleted draft, where the send that calls it refuses |
| DraftService.DraftService.UpdateDraft | packages/compose/src/service.ts:303-356 | accepted exactly for a live unlocked draft whose stored revision is the base; then the fields are merged and the revision is one higher, and an empty edit changes nothing; a stale edit learns the stored revision |
| DraftService.DraftService.DeleteDraft | packages/compose/src/service.ts:390-399 | a live unlocked draft is marked deleted |
| DraftService.DraftService.AttachUpload | packages/compose/src/service.ts:475-504 | the next position, the recorded one, or the exact reason for a refusal |
| DraftService.DraftService.DetachUpload | packages/compose/src/service.ts:507-522 | exactly the other attachments remain |
| DraftService.DraftService.LockDraftForSend | packages/compose/src/service.ts:674-709 | locked at the frozen revision for this send alone, idempotently, or the exact reason for a refusal |
| DraftService.DraftService.QueueSend | packages/send/src/service.ts:410-490 | the frozen copy and the lock together, or the exact reason for a refusal |
| DraftService.DraftService.ReleaseDraftLock | packages/compose/src/service.ts:732-765 | released exactly at the required definitive status, with how many drafts |
| DraftService.DraftService.CreateResendDraft | packages/compose/src/service.ts:606-665 | a copy exactly for a send whose outcome is unknown |
| DraftSync.StepKeepsChain | packages/compose/src/service.ts:303-356 | the accepted patches form one chain and the draft is what they make of it |
| DraftSync.StepKeepsTold | packages/compose/src/autosave.ts:192-217 | every base on the wire or accepted is a revision its device had been told |
| DraftSync.StepKeepsAcknowledged | packages/compose/src/autosave.ts:210-217 | what a device counts as acknowledged the server accepted from it |
| DraftSync.NoEditIsLost | packages/compose/src/autosave.ts:92-160 | with any number of devices, lossy, late and reordered answers, and choices at any revision learned before, every accepted patch was based on exactly the preceding revision its author was told, and every pushed value is pending, accepted or discarded by choice |
| Auth.EachCommitsOnce | packages/auth/src/state.ts:157-223 | under every interleaving a challenge commits at most one ceremony and so does a grant |
| Auth.NothingOldCommitsAfterRevokeAll | packages/auth/src/state.ts:243-275 | nothing whose challenge predates a revoke-all commits after it |
| Auth.RevokedStaysRevoked | packages/auth/src/service.ts:790-814 | a revoked credential is never used or changed again |
| Auth.SessionStands | packages/auth/src/service.ts:262-292 | over every run a session that is there keeps owner, generation and inspection mark, and once revoked is never live again |
| Auth.SessionOpens | packages/auth/src/service.ts:262-278 | a live session appears by a committed ceremony alone, with the owner, generation and inspection mark that ceremony has |
| Auth.SessionStep | packages/auth/src/service.ts:280-292 | a step revokes exactly the sessions a logout or a revoke-all names, and changes nothing else of them |
| Auth.OnlyNewSessionsLive | packages/auth/src/state.ts:243-275 | every session live after a revoke-all was opened by a ceremony that committed after it |
| Auth.ChallengeStep | packages/auth/src/state.ts:157-173 | what each step does to a challenge row, from the rows alone |
| Auth.GrantStep | packages/auth/src/state.ts:210-223 | what each step does to a grant row |
| Auth.CredentialStep | packages/auth/src/service.ts:767-814 | what each step does to a credential row |
| Auth.CredentialAppears | packages/auth/src/service.ts:177-229 | a credential appears by a committed enrollment alone, with its authenticator and counter |
| Auth.CountersNeverRegress | packages/auth/src/service.ts:767-814 | committed counters of a credential never regress and strictly increase once either is non-zero |
| Auth.LastPasskeyStays | packages/auth/src/service.ts:511-552 | nothing but a revoke-all takes an owner's last active passkey |
| Auth.OneOwner | packages/auth/src/service.ts:186-190 | concurrent enrollments never make a second owner |
| AuthService.AuthService.FindLiveChallenge | packages/auth/src/state.ts:119-149 | an unspent, unexpired challenge of the purpose that the response answers |
| AuthService.AuthService.IssueChallenge | packages/auth/src/state.ts:71-111 | expired rows go, and the live ones of a purpose never pass the cap |
| AuthService.AuthService.ConsumeChallenge | packages/auth/src/state.ts:157-173 | consumed exactly when unspent and unrevoked |
| AuthService.AuthService.ConsumeGrant | packages/auth/src/state.ts:210-223 | consumed exactly when unspent and unrevoked |
| AuthService.AuthService.RequireLiveCredential | packages/auth/src/service.ts:790-814 | passes exactly a registered credential whose counter moves on or counts nothing |
| AuthService.AuthService.CommitEnrollment | packages/auth/src/service.ts:177-229 | all of grant, owner, credential, challenge and session, or nothing |
| AuthService.AuthService.CommitLogin | packages/auth/src/service.ts:262-278 | all of challenge, counter and session, or nothing |
| AuthService.AuthService.CommitReverification | packages/auth/src/service.ts:359-382 | all of challenge, counter and verification time, or nothing |
| AuthService.AuthService.CommitCredentialEnrollment | packages/auth/src/service.ts:462-503 | challenge and credential, or nothing |
| AuthService.AuthService.RevokeAllAuthState | packages/auth/src/state.ts:243-275 | afterwards no challenge, grant, credential or session is live; every row is still there with its other fields as they were |
| AuthService.AuthService.RevokeSession | packages/auth/src/service.ts:281-292 | the named live session is revoked, every other row stays |
| AuthService.AuthService.RemoveCredential | packages/auth/src/service.ts:511-552 | one active passkey goes, never the last |
| Circuit.WidestBurstSize | packages/classification/src/service.ts:684-694 | the two-pointer loop yields the maximum over every window, wherever it starts |
| Circuit.AssessErrors | packages/classification/src/service.ts:573-594 | open exactly when some window of recent failures holds five |
| Circuit.FiveFailuresHoldOpen | packages/classification/src/service.ts:569-594 | five failures within ten minutes hold the breaker open until thirty minutes after the first, at least twenty after the fifth |
| Circuit.OpenExactly | packages/classification/src/service.ts:569-594 | open exactly while five failures of one window are all younger than the cooldown |
| Circuit.ClosesAfterTheOldest | packages/classification/src/service.ts:587-593 | with five failures alone it closes thirty minutes after the oldest, not the newest |
| Circuit.RoundedCapPausesEarly | packages/classification/src/service.ts:596-608 | the rounded assessment reaches a cap in whole cents half a cent early |
| Circuit.ClassificationService.RunCycle | packages/classification/src/service.ts:158-221 | when each pause is answered, exactly; otherwise the candidates are taken in order up to the first question the cap forbids or that fails, each counted as what it is, and a fixed cap is passed by less than one call |
| Folders.NormalizeDiscovered | packages/accounts/src/validation.ts:196-214 | rejected exactly when two names are one mailbox |
| Folders.KeyNamesMailbox | packages/accounts/src/validation.ts:186-188 | two names have one key exactly when they are equal or both spell the inbox |
| Folders.CandidatesFit | packages/accounts/src/service.ts:384-410 | the candidates of a role are exactly the folders the run suggests for it that are free for it, each once |
| Folders.AssignedExactly | packages/accounts/src/service.ts:384-410 | a folder gets a role in its turn exactly when its name or special use suggests it, it is free, no other folder is such a one and nobody holds the role |
| Folders.ImportKeeps | packages/accounts/src/service.ts:336-432 | one holder a role, one row a mailbox in any spelling, no name and no held role changed |
| Folders.ReimportSettles | packages/accounts/src/service.ts:384-410 | re-importing changes roles in at most six runs and then rests for good |
| Folders.ImportRestsExactly | packages/accounts/src/service.ts:384-410 | importing a discovery whose folders are known changes nothing exactly when no role without a holder has exactly one candidate |
| Folders.ReimportRestsExactly | packages/accounts/src/service.ts:384-410 | a further import of one discovery changes something exactly when the run before left such a role |
| Folders.RunKeeps | packages/accounts/src/service.ts:336-498 | over any imports, assignments and clears one holder a role and one row a mailbox |
| Folders.AccountFolders.AssignRole | packages/accounts/src/service.ts:384-410 | one turn of the role loop with exactly what it assigns, finds ambiguous or reports as conflict |
| Folders.AccountFolders.ImportFolders | packages/accounts/src/service.ts:327-432 | the rows are the specified import, what is reported filled is what was filled, a repeated name rejects the run |
| Folders.AccountFolders.AssignFolderRole | packages/accounts/src/service.ts:440-469 | the folder becomes the one holder of the role |
| Folders.AccountFolders.ClearFolderRole | packages/accounts/src/service.ts:474-498 | exactly that folder loses its role |
| Reply.ExtractValidMessageIds | packages/compose/src/reply.ts:42-53 | the loop finds every identifier left to right, each once |
| Reply.MatchesAreAll | packages/compose/src/reply.ts:42-53 | extraction misses no identifier that stands in a header and invents none |
| Reply.FlatIsAll | packages/compose/src/reply.ts:63-75 | the references are all the identifiers of all the headers |
| Reply.ExtractUndoesPrint | packages/compose/src/reply.ts:42-53 | printing extracted identifiers with spaces and extracting again gives the same list |
| Reply.FreezeReplyReferences | packages/compose/src/reply.ts:63-75 | valid identifiers of the parent only, none twice, ancestors in order and its own identifier among them |
| Reply.KeptIsExact | packages/compose/src/reply.ts:181-197 | a list keeps exactly the foreign addresses not placed before, once each, in order of first appearance |
| Reply.UsableAddresses | packages/compose/src/reply.ts:181-197 | the loop keeps that list, or fails exactly on an address that cannot be sent to |
| Reply.DeriveReplyRecipients | packages/compose/src/reply.ts:118-144 | refused exactly for a malformed Reply-To, an unusable source or nobody left; otherwise exact lists |
| Reply.ReplyGoesTo | packages/compose/src/reply.ts:118-161 | where To and Cc come from in each mode: own mail keeps its recipients, others are answered at their Reply-To or From, and a reply to all copies everybody; refused outright exactly for an empty Reply-To |
| Reply.KeyIgnoresCase | packages/compose/src/reply.ts:77-80 | addresses are one exactly when they differ in letter case and surrounding white space alone |
| Text.TrimTakesSpaces | packages/compose/src/reply.ts:77-80 | trimming takes the white space around a text and nothing else |
| Reply.DerivationIsExact | packages/compose/src/reply.ts:118-144 | To and Cc are disjoint and together hold every foreign source address exactly once |
| Reply.PreselectReplyIdentity | packages/compose/src/reply.ts:90-105 | the sender's own identity, otherwise the only configured one among the visible recipients |

## Left out

- Submission: field checks, the canonical scope, its hash and the idempotency key; actions start from the rows a submission commits.
- Several actions at once: the rows, messages and folders other actions touch change through the environment steps.
- ActionTheorems.AtMostOneMove: holds for histories in which no pending read met a claim, because overlapping runs do issue a move twice.
- ActionService.ActionService.Execute: claims nothing about completion while other runs of the same action act, because a run leaves items alone that another one has claimed; how each item ends is stated for a run nothing disturbs, over items with different occurrences and places.
- ActionService.ActionService.Reconcile: drives one action; the scan over an account's pending actions and its batch limit are not modelled.
- ActionTables.ActionTables.DispositionRestored: one action; the scan over all restored actions and its sums are not modelled, because each action is held on its own.
- ImapSession.Session.Play: SELECT may also name folder objects a replacement detached; FETCH and SEARCH answers, which leave the view as a NOOP or as it was, are not commands of the session.
- CommandReader.ChunkingIsInvisible: excludes streams with a line of exactly the limit, for which the exact condition is stated per cut.
- CommandWire.SessionReadsBack: covers the tokens a line can carry.
- DraftService.DraftService.QueueSend: composing the message, its limits and the re-read of the attachment set are not modelled; the copy is taken from the rows the transaction locks.
- SequenceSets.ExpandSequenceSet: numbers are decimal digits; other spellings the number parser of the original accepts are not modelled.
- Auth.EachCommitsOnce: sessions are not re-checked inside a transaction, as in the original, so nothing is claimed about a session that is logged out meanwhile.
- Circuit.ClassificationService.RunCycle: counts recorded calls; the calendar month, concurrent cycles and calls whose answer was lost are not modelled.
- FETCH, SEARCH, LIST, STATUS, LOGIN and dates of the scripted server, and the parsing of command arguments out of tokens.
- Scripted faults of the server, sockets, TLS and real time.
- Expiry of sessions and grants, control states of authentication, and the verification of passkey responses.
- Upload bytes, their hashes and storage; draft field normalization; reply quotes and subjects.
- Field-length and format checks of all validators.
- The send, sync, home, recovery and offline services, the web client and the HTTP routes.
