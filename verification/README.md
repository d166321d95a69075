# Tigerpaw protocols and tools, modelled in Dafny

This project models the most intricate state machines and algorithms of the repository and proves what they promise,
for all inputs, all runs and all interleavings. `dafny verify dfyconfig.toml` checks everything.

## The browser relay extension

`assets/chrome-extension/background.js` is a service worker that attaches the Chrome debugger to tabs and relays their
traffic over a WebSocket. Its handlers interleave at every `await`, and the worker may die at any of them and come back
from a persisted snapshot.

- `relay_tabs.dfy` is the state machine over `tabs`, `tabBySession`, `childSessionToTab`, `nextSession`, the locks and the
  re-attach marks. A handler is cut into await-free segments; a suspended handler, with the locals it captured, is part
  of the state, so any of them may be resumed next. What Chrome, the relay and the storage answer is carried by the
  events. `relay_tabs_effects.dfy` names what a step does to the tables, `relay_tabs_invariants.dfy` proves the
  invariant of every interleaving, `relay_tabs_theorems.dfy` the session index, `relay_tabs_limits.dfy` where tables go
  stale, `relay_tabs_reattach.dfy` when a click stops a re-attach, `relay_tabs_marks.dfy` who holds a re-attach mark,
  `relay_tabs_journeys.dfy` what whole operations make of the tables, and `relay_tabs_restart.dfy` session numbers and
  rehydration. `relay_routing.dfy` is the routing of forwarded commands.
- `relay_worker.dfy` is the worker itself, a class with the extension's variables whose methods are the segments, each
  proved to take the variables to the state machine's next state.
- `relay_connection.dfy` and `relay_connector.dfy` do the same, event by event, for connecting, back-off, the reconnect
  timer and the keepalive alarm, and `relay_reconnect.dfy` says what each failure arms and what keeps a lost relay being
  retried; `relay_requests.dfy` does it for requests, their timeouts and the close.

## Reminders and the pairing notifier

- `reminders.dfy`, `reminder_polls.dfy`, `reminder_runs.dfy`, `reminder_occurrences.dfy` and `reminder_service.dfy`: the
  poll over the persisted reminder list, what it does with each record and to whom it sends, runs of polls, how often an
  occurrence is delivered, delivery to channels, the advance of recurring reminders and the file format.
- `pairing_notifier.dfy`, `pairing_notifier_contents.dfy`, `pairing_notifier_theorems.dfy` and
  `pairing_notifier_service.dfy`: subscribers, one-shots, the seen-set, ticks and commands.

## Scripts and utilities

- `utf16.dfy`: surrogate-safe slicing and truncation.
- `doc_sync.dfy`, `doc_sync_all.dfy`, `doc_sync_blocks.dfy`: rewriting the lines between two markers, and several such
  blocks of one document.
- `label_batches.dfy`, `issue_runs.dfy`: paging into work batches and the loop that classifies each issue once.
- `setup_code.dfy`: unpadded base64url (section 5 of RFC 4648).
- `calendar.dfy`, `release_version.dfy`: the Gregorian calendar of section 21.4.1 of ECMA-262, `Date.UTC`, release
  versions and the distance in UTC days.
- `decimals.dfy`, `sparkle.dfy`: build floors put together from decimal texts and the check of an appcast.
- `run_totals.dfy`, `cron_usage.dfy`: nested usage totals.
- `basics.dfy`, `arithmetic.dfy`, `text.dfy`: shared definitions.

Every lemma switches automatic induction off, so that each proof is the one that is written.

## Where the code falls short of a promise

The model keeps the code as it is. Each point below has a lemma with the exact condition, a concrete run, or both.

- A tab replaced while its own re-announce validation is awaited loses its index entry (`background.js:299-310`).
- Index entries outlive their tab after an announcement that throws (`background.js:643-647`), after a connected record is
  overwritten by a second attach, and after a replacement onto a tracked tab.
- The re-announcement and a failed toggle delete a tab without its child sessions; a later command for such a child runs
  on the former parent's own session.
- A worker that dies with its counter past the saved one, or a successor that cannot read an advanced counter, makes session
  numbers be issued again.
- A click that cancels a re-attach does not stop one that has gone past its last look at the mark: the tab is connected
  after all (`background.js:617-625`, `838-860`).
- A socket that opens after its dial timed out has no permanent close handler: its end schedules nothing and leaves
  `relayWs` set, so that with no timer armed and no connect under way nothing reconnects until the next keepalive alarm
  or click (`background.js:193-218`).
- A poll that throws loses its stamps, so what it delivered is delivered again, although the file's comments call the
  poll idempotent enough. It throws on a record that is null, on a stamped recurring reminder with an unparsable time,
  when the configuration does not load, and when the file cannot be written.
- Two records under one id deliver the same occurrence twice exactly when both come to it: each is active and waits at
  that time, or recurs and lies a number of whole steps before it. The assistant's own tool gives each record a
  `randomUUID()` (`extensions/assistant/index.ts:521`), so such a file is one edited by other means.
- A reminder sent to several channels is stamped with the channel of the first configured entry, also when only another one
  was reached; the header comment says the stamp names the channel of the dispatch.
- Subscriber accounts are compared before, and stored to be read back after, trimming, so one chat can be listed twice.
- A one-shot subscriber hears of every new request of one tick that reaches it, although its reply announces only the next
  one.
- A tick that cannot write its file sends the same requests again at the next tick, and keeps the one-shots it reached.
  The other two causes in the exact condition do not arise in the code: a mark for a blank request id, and one set at a
  clock that is not positive, are not read back, but ids come from `randomUUID()` (`src/infra/device-pairing.ts:283`)
  and the clock from `Date.now()`.
- Two pending requests under one id lose an answer.
- `Date.UTC` takes the years 0 to 99 for 1900 to 1999, in the version check and in the day distance.
- An issue number that occurs twice in one batch is classified twice.
- A rewritten block whose lines hold the end marker grows at each rewrite.

Where a comment and the code differ the model follows the code: the comment over `cronToMs` names only `0 * * * *` for
the hourly step, while the code steps by an hour whenever the hour field is `*` and the minute field is not.

## Model

| member | source | states |
|---|---|---|
| `RelayTabsEffects.StepEffect` | assets/chrome-extension/background.js:510-918 | each event and each resumption of a suspended handler changes `tabs`, `tabBySession`, `childSessionToTab` and `nextSession` by one named effect and in no other way |
| `RelayTabsInvariants.GoodTablesApply` | assets/chrome-extension/background.js:522-527 | every effect keeps each live or indexed session number below `nextSession` and no session shared by two tabs; only a worker death lowers the counter |
| `RelayTabsInvariants.LocksStep` | assets/chrome-extension/background.js:607-660 | in every interleaving a tab operation lock is held exactly while one toggle of that tab is under way |
| `RelayTabsInvariants.CoreStep` | assets/chrome-extension/background.js:114-164 | the structural invariant (sessions numbered, unshared, snapshots and suspended handlers consistent, locks exact) survives every step, restarts included |
| `RelayTabsInvariants.CoreRun` | assets/chrome-extension/background.js:114-164 | and so it survives every run |
| `RelayTabsTheorems.IndexedDiscard` | assets/chrome-extension/background.js:299-310 | deleting what was read about a tab before an await keeps the index exactly when no other tab has come to hold that session |
| `RelayTabsTheorems.IndexedStep` | assets/chrome-extension/background.js:294-310 | "each connected tab is found under its session" is kept by a step if and only if the step is not a failed validation of a session that has moved to another tab |
| `RelayTabsTheorems.ValidationsStep` | assets/chrome-extension/background.js:903-918 | unless a tab under validation is replaced, a session under validation is held by that tab or by none |
| `RelayTabsTheorems.MovedNeedsReplacement` | assets/chrome-extension/background.js:294-310 | without such a replacement no step loses an index entry |
| `RelayTabsTheorems.IndexedRun` | assets/chrome-extension/background.js:510-918 | over every run without a replacement during the tab's own validation, the index stays complete |
| `RelayTabsTheorems.IndexAlways` | assets/chrome-extension/background.js:510-918 | hence in every reachable state of every interleaving, through attach, toggle, detach, navigation, close, replace, re-announce and restart, each connected tab t with session s has `tabBySession[s] = t` |
| `RelayTabsLimits.PointsBackStep` | assets/chrome-extension/background.js:526-551 | the converse (every index entry names a tab that holds the session) is lost by a step if and only if the step drops, overwrites or moves onto a connected record |
| `RelayTabsLimits.ChildrenStep` | assets/chrome-extension/background.js:294-310 | a step leaves a child session without a connected parent if and only if it drops, re-marks or discards a tab that has children (the other cases of the effect are listed in the predicate) |
| `RelayTabsLimits.ForgottenChildren` | assets/chrome-extension/background.js:553-572 | detach, navigation and close leave no child of the tab and keep every other child |
| `RelayTabsLimits.CloseLeavesNoChild` | assets/chrome-extension/background.js:878-887 | a closed tab keeps children exactly when it was no longer tracked and still had some |
| `RelayTabsLimits.ReplacementMovesChildren` | assets/chrome-extension/background.js:903-916 | a replacement moves exactly the removed tab's children |
| `RelayTabsLimits.OneTabReached` | assets/chrome-extension/background.js:607-660 | the state the counterexample runs start from is reachable |
| `RelayTabsLimits.ReplacedWhileValidated` | assets/chrome-extension/background.js:299-310 | a run that loses the index: a tab is replaced while its own validation is awaited |
| `RelayTabsLimits.OrphanedByReannounce` | assets/chrome-extension/background.js:299-310 | a run in which the re-announcement discards a tab and leaves its child session |
| `RelayTabsLimits.DanglingAfterThrownAnnouncement` | assets/chrome-extension/background.js:643-647 | a run in which the announcement throws and an index entry without a tab is left |
| `RelayTabsReattach.UnmarkedNeverIssues` | assets/chrome-extension/background.js:838-875 | over every run in which the tab stays unmarked, a re-attach that has yet to look at the mark issues no session |
| `RelayTabsReattach.ClickStopsExactly` | assets/chrome-extension/background.js:617-625 | a click on a marked tab takes the mark away and nothing else; while the tab is not marked again, some run lets its re-attach still issue a session if and only if that had gone past its last look at the mark |
| `RelayTabsReattach.CancelledYetConnected` | assets/chrome-extension/background.js:838-860 | a run in which a click cancels a re-attach that then connects the tab |
| `RelayTabsMarks.MarksAlways` | assets/chrome-extension/background.js:823-875 | in every reachable state of every interleaving each tab in `reattachPending` has a suspended handler that is re-attaching it or saving its new session and will take the mark away, and no re-attach is past its fifth attempt |
| `RelayTabsMarks.MarksStep` | assets/chrome-extension/background.js:838-879 | each step, whoever is resumed and whatever is answered, keeps the first of these |
| `RelayTabsJourneys.NavigationStarts` | assets/chrome-extension/background.js:791-836 | the detach of a page that is connected and not marked forgets its record, session and children, marks it and starts attempt 0, and changes nothing else |
| `RelayTabsJourneys.AttemptSucceeds` | assets/chrome-extension/background.js:836-865 | an attempt that succeeds, the relay open or not, connects the tab under the next session number, takes the mark away and ends the handler, and changes nothing else |
| `RelayTabsJourneys.AttemptFails` | assets/chrome-extension/background.js:833-875 | in every reachable state a failed attempt leaves the tables alone; the first four are followed by another sleep, and the fifth takes the mark away and ends the re-attach |
| `RelayTabsJourneys.ProbeFails` | assets/chrome-extension/background.js:840-846 | a tab that is gone at its attempt loses the mark, and the re-attach ends |
| `RelayTabsJourneys.NavigationTwice` | assets/chrome-extension/background.js:797-797 | the detach of a page whose re-attach is under way changes nothing |
| `RelayTabsJourneys.ToggleOn` | assets/chrome-extension/background.js:607-660 | a click on a tab that is not connected, with an open relay, connects it under the next session number and leaves no lock, no handler and no other change |
| `RelayTabsJourneys.ToggleOff` | assets/chrome-extension/background.js:627-631 | a click on a connected tab takes away its record, its index entry and its children and leaves no lock, no handler and no other change |
| `RelayTabsJourneys.ToggleFails` | assets/chrome-extension/background.js:643-660 | a click whose connect or attach fails leaves everything as it was but for a record that was not connected |
| `RelayTabsJourneys.OnAndOff` | assets/chrome-extension/background.js:510-660 | clicking an untracked tab on and off gives back the tables, but for the one session number that was used |
| `RelayTabsJourneys.CreateConnects` | assets/chrome-extension/background.js:699-706 | a tab created on request is connected in the same way, and a failure changes nothing |
| `RelayTabsJourneys.DetachForgets` | assets/chrome-extension/background.js:771-795 | a detach by the user, or of a tab that shows no page, takes away record, index entry and children and marks nothing |
| `RelayTabsJourneys.CloseForgets` | assets/chrome-extension/background.js:878-900 | a closed tab loses its mark, and if it was connected its record, index entry and children |
| `RelayTabsJourneys.ReplaceHandsOver` | assets/chrome-extension/background.js:903-918 | a connected tab that is replaced hands its record, its session and each of its children to the new tab and keeps none |
| `RelayTabsJourneys.RelayLost` | assets/chrome-extension/background.js:231-241 | the close of the relay takes all marks away, and every re-attach asleep then ends at its next wake |
| `RelayTabsJourneys.ChildComesAndGoes` | assets/chrome-extension/background.js:745-757 | a child session of a connected tab is recorded from its attach to its detach |
| `RelayTabsJourneys.AnnouncementDiscards` | assets/chrome-extension/background.js:294-310 | a re-announcement discards exactly the visited tabs that do not answer, each with its index entry, and no child and no other tab |
| `RelayTabsJourneys.StepSaves` | assets/chrome-extension/background.js:114-128 | after every step that ends an attach, a detach, a close, a replacement or a re-announcement the handler saves exactly the connected tabs and the counter as the step left them, and the commit of the save is what is stored |
| `RelayTabsJourneys.IgnoredChangesNothing` | assets/chrome-extension/background.js:607-615 | clicks on no tab or a locked one, detaches and replacements of untracked tabs, child sessions of unconnected tabs, and whatever comes before the saved state is read, change nothing |
| `RelayTabsJourneys.RelayOpenExactly` | assets/chrome-extension/background.js:231-254 | only the opening and closing of the relay and the death of the worker change whether it is open |
| `RelayTabsRestart.NoSharedSession` | assets/chrome-extension/background.js:522-527 | in every reachable state, restarts at any await included, no two tabs share a session and locks are exact |
| `RelayTabsRestart.StoredBelowStep` | assets/chrome-extension/background.js:133-164 | the persisted counter stays at or below the live one, exactly unless a worker starts without being able to read a counter that had advanced |
| `RelayTabsRestart.NextSessionUnused` | assets/chrome-extension/background.js:114-164 | in every such run all session numbers of tabs, index entries, the persisted snapshot and saves under way are below `nextSession` |
| `RelayTabsRestart.TightStep` | assets/chrome-extension/background.js:114-164 | "the counter is one past the largest number ever issued, by this worker or an earlier one" is kept by a step if and only if the step is neither the death of a worker whose counter has passed the saved one nor a start that cannot read an advanced counter |
| `RelayTabsRestart.LostNumberReturns` | assets/chrome-extension/background.js:133-148 | after such a step, the number the next worker issues first was issued before |
| `RelayTabsRestart.NeverIssuedTwice` | assets/chrome-extension/background.js:114-164 | over every run without such a step the numbers issued, by whichever workers, are 1, 2, 3, …: none is issued twice |
| `RelayTabsRestart.ReissuedAfterLostSave` | assets/chrome-extension/background.js:522-548 | a run in which a worker dies before its first save commits and its session number is issued again |
| `RelayTabsRestart.VerdictStep` | assets/chrome-extension/background.js:152-159 | one validation after a restart removes exactly the tab that does not answer and its index entry |
| `RelayTabsRestart.RehydrationExact` | assets/chrome-extension/background.js:133-164 | a worker that reads a snapshot ends with exactly the saved tabs that pass validation, exactly their index entries, and the saved counter, in whatever order they are validated |
| `RelayTabsRestart.RestartRestores` | assets/chrome-extension/background.js:114-164 | saving, dying and starting again gives back the same connected tabs, index and counter when every tab answers |
| `RelayRouting.MainSessionRoutes` | assets/chrome-extension/background.js:662-741 | a generic command naming a connected tab's main session runs on that tab's own debugger session |
| `RelayRouting.ChildSessionRoutes` | assets/chrome-extension/background.js:495-501 | one naming a recorded child session runs on the parent tab, with that child session if and only if the parent is connected |
| `RelayRouting.TargetRoutes` | assets/chrome-extension/background.js:667-676 | a command without a known session that names the target of a connected tab runs on a tab with that target, and on that tab if no other has it |
| `RelayRouting.AnyTabRoutes` | assets/chrome-extension/background.js:667-741 | one without a known session and target runs on a connected tab, with the session it names unless that is the tab's own, and fails exactly when no tab is connected |
| `RelayWorker.Worker.constructor` | assets/chrome-extension/background.js:19-44 | a new worker is the initial state |
| `RelayWorker.Worker.DeleteChildrenOf` | assets/chrome-extension/background.js:566-572 | the loop deletes exactly the children of the tab |
| `RelayWorker.Worker.MoveChildren` | assets/chrome-extension/background.js:911-915 | the loop moves exactly the children of the replaced tab |
| `RelayWorker.Worker.Snapshot` | assets/chrome-extension/background.js:114-128 | the snapshot holds exactly the connected tabs and the counter |
| `RelayWorker.Worker.ForgetTab` | assets/chrome-extension/background.js:553-572 | children, index entry and record of the tab are gone and nothing else changes |
| `RelayWorker.Worker.OnActionClicked` | assets/chrome-extension/background.js:607-634 | the whole new state of a toolbar click up to its first await |
| `RelayWorker.Worker.OnAttachFailed` | assets/chrome-extension/background.js:643-655 | what each caller of `attachTab` does with an exception |
| `RelayWorker.Worker.OnAttached` | assets/chrome-extension/background.js:522-548 | the whole new state from the issue of a session to the save |
| `RelayWorker.Worker.OnSaved` | assets/chrome-extension/background.js:656-660 | the lock or the re-attach mark goes when the save returns |
| `RelayWorker.Worker.OnTabLookup` | assets/chrome-extension/background.js:771-822 | navigation or a closed page after a debugger detach |
| `RelayWorker.Worker.OnValidated` | assets/chrome-extension/background.js:299-310 | the deletions of a failed re-announce validation |
| `RelayWorker.Worker.OnAnnounceNext` | assets/chrome-extension/background.js:294-362 | the next tab of the re-announcement, or its closing save |
| `RelayWorker.Worker.OnRemoved` | assets/chrome-extension/background.js:878-895 | the whole new state after a tab is closed |
| `RelayWorker.Worker.OnReplaced` | assets/chrome-extension/background.js:903-918 | the whole new state after a tab is replaced |
| `RelayWorker.Worker.OnDebuggerDetach` | assets/chrome-extension/background.js:771-800 | a detach by the user, or the lookup that precedes a re-attach |
| `RelayWorker.Worker.RestoreEntries` | assets/chrome-extension/background.js:139-149 | the restore loop enters every saved tab and its session |
| `RelayWorker.Worker.OnSnapshotRead` | assets/chrome-extension/background.js:133-151 | reading the saved state |
| `RelayWorker.Worker.OnVerdict` | assets/chrome-extension/background.js:152-159 | one validation of a restored tab |
| `RelayWorker.Worker.OnResumed` | assets/chrome-extension/background.js:510-875 | every suspended handler continues as the state machine says |
| `RelayWorker.Worker.Dispatch` | assets/chrome-extension/background.js:878-1001 | each event takes the worker's variables from a valid state to the state machine's next state, which is valid |
| `RelayWorker.Worker.FindTarget` | assets/chrome-extension/background.js:503-508 | a connected tab with the target, or none has it |
| `RelayWorker.Worker.RouteCommand` | assets/chrome-extension/background.js:662-741 | the debuggee of a forwarded command: by session, else by target, else a connected tab |
| `RelayConnection.TimerStep` | assets/chrome-extension/background.js:256-292 | each step keeps "`reconnectTimer` is non-null exactly when its timer, and no other, is armed" |
| `RelayConnection.AttemptStep` | assets/chrome-extension/background.js:256-292 | each step keeps `reconnectAttempt` equal to the schedules since the last reset and every recorded delay within its bounds |
| `RelayConnection.KeepaliveStep` | assets/chrome-extension/background.js:953-980 | the step that ends a keepalive run with tabs leaves the relay open, a connect under way, or a timer armed |
| `RelayConnection.ConnectionAlways` | assets/chrome-extension/background.js:166-292 | over every run at most one reconnect timer is armed, and a schedule made after k others since the last reset waits at least min(1000·2^k, 30000) ms and under a second more |
| `RelayConnection.KeepaliveAlways` | assets/chrome-extension/background.js:953-980 | the keepalive promise over every run, sockets that open after their dial timed out included |
| `RelayConnection.CloseSchedulesExactly` | assets/chrome-extension/background.js:193-218 | the end of the current socket clears `relayWs` and schedules a reconnect exactly when the socket had opened before its dial timed out |
| `RelayConnection.LateRun` | assets/chrome-extension/background.js:178-229 | over every run, a socket that has not ended lacks the permanent close handler if and only if some step of the run was the timeout of its dial |
| `RelayConnection.CloseCoversExactly` | assets/chrome-extension/background.js:193-254 | in every reachable state, the end of the current socket leaves the relay covered (open, a connect under way or a timer armed) if and only if its dial had not timed out in the run, or a timer was armed, or a connect was under way |
| `RelayConnection.LateSocketUncovered` | assets/chrome-extension/background.js:193-229 | a run from the start of the worker after which `relayWs` holds an ended socket and nothing will reconnect by itself |
| `RelayConnection.BackoffShape` | assets/chrome-extension/background-utils.js:1-12 | the back-off never shrinks, doubles until the cap and is the cap from the sixth attempt on |
| `RelayReconnect.FailureArmsExactly` | assets/chrome-extension/background.js:256-283 | after a failed connect a timer is armed if and only if one was, or a keepalive or the startup awaited it, or a timer did and the failure was retryable or came after a socket was made |
| `RelayReconnect.SuccessResets` | assets/chrome-extension/background.js:166-229 | a connect that succeeds leaves the relay open, no connect under way, the back-off at its beginning and the timer as it was |
| `RelayReconnect.AskersAwait` | assets/chrome-extension/background.js:166-176 | a timer, keepalive, click or startup returns at once when the relay is open, and otherwise awaits the connect under way or starts one; a click disarms the timer and resets the back-off |
| `RelayReconnect.KeepaliveRests` | assets/chrome-extension/background.js:953-980 | a keepalive does nothing if and only if there are no tabs or the relay is open, connecting or scheduled |
| `RelayReconnect.KeepaliveYields` | assets/chrome-extension/background.js:970-979 | a keepalive whose connect fails leaves a timer that someone else armed, and a click changes nothing |
| `RelayReconnect.ScheduleExactly` | assets/chrome-extension/background.js:256-264 | a schedule replaces the armed timer, counts the attempt and waits min(1000·2^k, 30000) ms and 1000 ms times the random draw |
| `RelayReconnect.LateOpens` | assets/chrome-extension/background.js:193-218 | a socket that opens after its dial timed out is the open relay while it is the current one |
| `RelayReconnect.StaysCovered` | assets/chrome-extension/background.js:209-283 | over every run: once the end of the current socket has scheduled a reconnect, the relay stays open, connecting or scheduled, but for the moment between the closing of a socket and its end, until a failure for want of a token, a click or a late opening |
| `RelayConnector.Connector.ScheduleReconnect` | assets/chrome-extension/background.js:256-283 | arms one timer, replacing the armed one, and counts the attempt |
| `RelayConnector.Connector.CancelReconnect` | assets/chrome-extension/background.js:285-292 | disarms and resets |
| `RelayConnector.Connector.AfterEnsure` | assets/chrome-extension/background.js:270-283 | what a timer, keepalive, click or startup does after its connect returns or throws |
| `RelayConnector.Connector.EnsureRelayConnection` | assets/chrome-extension/background.js:166-176 | returns when open, joins the attempt under way, or starts one |
| `RelayConnector.Connector.OnSettled` | assets/chrome-extension/background.js:221-227 | the settled promise runs all who await it, in order |
| `RelayConnector.Connector.OnSocketClosed` | assets/chrome-extension/background.js:209-254 | only the close of the current socket, and only with its permanent handler, clears `relayWs` and schedules |
| `RelayConnector.Connector.OnTimer` | assets/chrome-extension/background.js:264-283 | a fired timer is no longer armed |
| `RelayConnector.Connector.OnKeepalive` | assets/chrome-extension/background.js:953-980 | nothing is started while the relay is open, connecting or scheduled |
| `RelayConnector.Connector.OnClicked` | assets/chrome-extension/background.js:607-634 | a click cancels the schedule and connects |
| `RelayConnector.Connector.OnSocketCreated` | assets/chrome-extension/background.js:183-184 | the socket of the attempt becomes the current one |
| `RelayConnector.Connector.OnConnectFailed` | assets/chrome-extension/background.js:193-226 | a failed attempt settles all who await it |
| `RelayConnector.Connector.OnSocketOpened` | assets/chrome-extension/background.js:195-223 | an opened socket settles the attempt and resets the back-off |
| `RelayConnector.Connector.Dispatch` | assets/chrome-extension/background.js:166-292 | each event takes the connection variables to the state machine's next state |
| `RelayRequests.ExactStep` | assets/chrome-extension/background.js:410-429 | a step keeps the account of pending requests and timeouts exact if and only if it is not a request under an id that still waits |
| `RelayRequests.RegisteredStep` | assets/chrome-extension/background.js:410-429 | whatever ids are used, each entry of `pending` is a promise made for its id whose timeout is armed |
| `RelayRequests.SettlesOne` | assets/chrome-extension/background.js:410-484 | an answer, a timeout or a failed send settles exactly its own promise, once, and removes its entry and its timeout; an answer or timeout of no waiting request changes nothing |
| `RelayRequests.CloseExact` | assets/chrome-extension/background.js:236-239 | a close settles every waiting request and leaves no timeout armed |
| `RelayRequests.SettledAtMostOnce` | assets/chrome-extension/background.js:410-484 | with distinct ids, over responses, timeouts, send failures and closes in any order, no request is settled twice, and `pending` is exactly the unsettled requests and the armed timeouts |
| `RelayRequests.CloseSettlesAll` | assets/chrome-extension/background.js:231-254 | after a close each request was settled exactly once and `pending` is empty |
| `RelayRequests.ClashLosesAnswer` | assets/chrome-extension/background.js:410-429 | a run with a repeated id in which an answered request is never settled |
| `RelayRequests.Requester.RequestFromRelay` | assets/chrome-extension/background.js:410-429 | registers the promise with its timeout, or settles it when the send fails |
| `RelayRequests.Requester.OnResponse` | assets/chrome-extension/background.js:476-483 | settles the promise registered under the id |
| `RelayRequests.Requester.OnTimeout` | assets/chrome-extension/background.js:413-417 | settles the promise whose timeout fired |
| `RelayRequests.Requester.OnClosed` | assets/chrome-extension/background.js:236-239 | the loop rejects every pending promise once |
| `Reminders.KeyInjective` | extensions/assistant/delivery-service.ts:59-100 | for channel names without a colon, `channel:to` determines both |
| `Reminders.SendsToConfigured` | extensions/assistant/delivery-service.ts:257-300 | every message goes to a configured recipient, whatever target the reminder asks for; with a colon in a channel name, to one whose key reads the same |
| `Reminders.NextAfterLeast` | extensions/assistant/delivery-service.ts:215-231 | the closed form is the least trigger + k·step, with k at least 1, strictly later than now |
| `Reminders.AdvanceTrigger` | extensions/assistant/delivery-service.ts:215-231 | the loop terminates and returns that closed form |
| `ReminderPolls.TextTarget` | extensions/assistant/delivery-service.ts:59-81 | a configured text is read as a target if and only if it is that target's `channel:to`, `channel:to:account` or `channel:to:account:thread`, with anything after a further colon |
| `ReminderPolls.FieldsTarget` | extensions/assistant/delivery-service.ts:82-98 | an object is read as its own four fields if its channel and recipient are not empty, and anything else as no target |
| `ReminderPolls.TargetsInOrder` | extensions/assistant/delivery-service.ts:118-130 | the targets of the configured entries are those of the entries that have one, in order |
| `ReminderPolls.PollTargets` | extensions/assistant/delivery-service.ts:257-300 | a reminder that names a configured channel and recipient goes to that target alone, with its own account and thread, and any other to all configured targets, given colon-free channel names |
| `ReminderPolls.CronSteps` | extensions/assistant/delivery-service.ts:200-213 | a cron text whose first two words are any given ones, however they are spaced, steps by a minute, an hour or a day |
| `ReminderPolls.CronShort` | extensions/assistant/delivery-service.ts:200-204 | a text of fewer than five words steps by a day |
| `ReminderPolls.PollExactly` | extensions/assistant/delivery-service.ts:265-328 | for each record of a poll that does not throw: a message goes out if and only if the record is active, unstamped, due and reached, and then exactly the two stamp fields are set; one that recurs and is stamped moves to the least later multiple of its step with its stamps cleared; every other stays as it is |
| `ReminderPolls.StampedChannel` | extensions/assistant/delivery-service.ts:317-320 | the stamp names the record's own channel when that target is allowed, else the channel of the first entry, else "unknown" |
| `ReminderPolls.SendsExactly` | extensions/assistant/delivery-service.ts:265-328 | a poll, also one that throws, sends for exactly the due and reached records up to the first it cannot handle, and for that one too when only its stamp fails |
| `Reminders.PollKeeps` | extensions/assistant/delivery-service.ts:239-332 | a poll keeps length, order, ids and every field but `triggerAt`, `deliveredAt` and `deliveredOn` |
| `Reminders.PollThrowsExactly` | extensions/assistant/delivery-service.ts:239-332 | a poll throws if and only if a record is null, or some active reminder is to be advanced from an unparsable time or past the last date, is due with a target while the configuration does not load, or is delivered at a clock outside the range of dates, or there is something to write and the file cannot be written |
| `Reminders.StampKept` | extensions/assistant/delivery-service.ts:302-332 | a delivered reminder is stamped on disk, with the time and a channel and nothing else changed, if and only if the poll does not throw; a throwing poll changes nothing on disk |
| `Reminders.PollDelivers` | extensions/assistant/delivery-service.ts:265-328 | a poll that does not throw delivers exactly the due reminders of which some send arrives, leaves those of which none does untouched for the next poll, and moves a stamped recurring reminder on to be due later |
| `Reminders.StampTrueExactly` | extensions/assistant/delivery-service.ts:317-325 | for a reminder that a poll delivers: whichever of its targets are reached, the stamp on disk names the channel of one of them, if and only if all its targets are on the stamped channel |
| `Reminders.StampNamesFailed` | extensions/assistant/delivery-service.ts:317-325 | a poll that stamps the channel whose send failed |
| `Reminders.ResentExactly` | extensions/assistant/delivery-service.ts:239-332 | polling again in the same surroundings delivers it again if and only if the first poll threw |
| `ReminderRuns.LaterDeliveryLaterTrigger` | extensions/assistant/delivery-service.ts:239-332 | after a delivery by a poll that does not throw, the next delivery of that reminder is for a strictly later due time |
| `ReminderOccurrences.ComingPoll` | extensions/assistant/delivery-service.ts:215-332 | a record comes to a time when it is active and waits there undelivered, or recurs and lies a number of whole steps before it; a poll makes no record come to a time to which it did not come before |
| `ReminderOccurrences.AtMostComers` | extensions/assistant/delivery-service.ts:239-332 | over any list and any polls with any failures, an occurrence (id, trigger time) is delivered in at most as many polls that do not throw as there are records with its id that come to it |
| `ReminderOccurrences.OnceExactly` | extensions/assistant/delivery-service.ts:239-332 | for a list that polls can advance and every time in the range of dates with a day to spare, an occurrence is delivered in at most one poll over every run if and only if at most one record with its id comes to it |
| `ReminderOccurrences.AtMostOnce` | extensions/assistant/delivery-service.ts:239-332 | an occurrence to which one record comes is delivered by that record only and in at most one poll, unless the first poll that delivers it throws |
| `ReminderOccurrences.TwoRecordsTwice` | extensions/assistant/delivery-service.ts:239-332 | two records under one id deliver the same occurrence in two polls, neither of which throws |
| `ReminderRuns.SoundNeverThrows` | extensions/assistant/delivery-service.ts:215-231 | with no record null, stored times parsable, times a day inside the range of dates, a configuration that loads and a file that can be written, no poll of a run throws |
| `ReminderRuns.DeliveriesBounded` | extensions/assistant/delivery-service.ts:215-231 | over any run, a recurring reminder first due at t0 with step d is delivered at most floor((latest now - t0)/d) + 1 times by polls that do not throw |
| `ReminderRuns.ResentAfterThrow` | extensions/assistant/delivery-service.ts:239-332 | a list on which the same reminder is delivered by every poll |
| `ReminderService.ReadWritten` | extensions/assistant/delivery-service.ts:163-193 | reading back a written file gives the same list, for any serialiser that gives, for the records of the list, newline-free, non-blank, edge-trimmed text and is undone by its parser |
| `ReminderService.LinesInOrder` | extensions/assistant/delivery-service.ts:163-186 | each line of the file gives the record it parses to, in order; an empty or malformed one gives none and keeps no other from being read |
| `ReminderService.Service.DeliverToChannels` | extensions/assistant/delivery-service.ts:110-155 | every target is attempted and the successes are counted, unless the configuration does not load |
| `ReminderService.Service.HandleReminder` | extensions/assistant/delivery-service.ts:265-328 | one turn of the poll's loop: what becomes of a reminder, whether it throws |
| `ReminderService.Service.PollRemindersOnce` | extensions/assistant/delivery-service.ts:239-332 | the file after a poll reads as the specified list, the messages sent are the specified ones, and a throw, also that of the write, leaves the file as it was |
| `PairingNotifierTheorems.NormalizeIdempotent` | extensions/device-pair/notify.ts:56-108 | normalising a state twice is normalising it once |
| `PairingNotifierTheorems.SubscribeDistinct` | extensions/device-pair/notify.ts:157-179 | subscribing keeps subscriber keys distinct if and only if it changes nothing or the key, with the account trimmed as the file is read back, belongs to no other entry |
| `PairingNotifierTheorems.TrimmedAccountFree` | extensions/device-pair/notify.ts:157-179 | an account without outer blanks never takes another entry's key |
| `PairingNotifierTheorems.UntrimmedAccountDuplicates` | extensions/device-pair/notify.ts:139-179 | a chat subscribed under an account and under the same account with blanks around it is listed twice |
| `PairingNotifierTheorems.BlankForNone` | extensions/device-pair/notify.ts:139-179 | one blank in place of no account is such a case |
| `PairingNotifierTheorems.UnsubscribeDistinct` | extensions/device-pair/notify.ts:385-394 | unsubscribing keeps keys distinct and leaves no entry with the key |
| `PairingNotifierTheorems.LeavesExactly` | extensions/device-pair/notify.ts:250-311 | a subscriber leaves on a tick if and only if its key is that of a one-shot the tick reached |
| `PairingNotifierTheorems.TickRemovesExactly` | extensions/device-pair/notify.ts:250-311 | with distinct keys a tick removes exactly the one-shots it sent to, keeps every persistent subscriber and adds none |
| `PairingNotifierTheorems.HeardTwiceExactly` | extensions/device-pair/notify.ts:265-311 | with distinct pending ids, a subscriber hears of two requests in one tick if and only if two requests that carry no mark after pruning reach it |
| `PairingNotifierTheorems.OneShotHearsTwice` | extensions/device-pair/notify.ts:265-311 | a tick in which two new requests both reach a one-shot subscriber |
| `PairingNotifierTheorems.MarksPending` | extensions/device-pair/notify.ts:258-311 | after a tick the marked requests are among the pending ones if and only if the file could be written or they were so before |
| `PairingNotifierTheorems.MarkHolds` | extensions/device-pair/notify.ts:261-273 | a marked pending request is not sent again within 24 hours and keeps its mark |
| `PairingNotifierTheorems.SendMarks` | extensions/device-pair/notify.ts:292-295 | a request that was sent is marked with the time of the tick |
| `PairingNotifierTheorems.StepDistinct` | extensions/device-pair/notify.ts:157-394 | a tick or command keeps distinct keys distinct if and only if it is not a command that writes an entry whose key, as the file is read back, is that of another entry |
| `PairingNotifierTheorems.DistinctRun` | extensions/device-pair/notify.ts:157-394 | over every run of ticks and commands the keys are distinct in every state if and only if no command of the run does so |
| `PairingNotifierTheorems.TrimmedDistinctRun` | extensions/device-pair/notify.ts:157-394 | commands of accounts without outer blanks never do, so they keep keys distinct over every run |
| `PairingNotifierTheorems.NotResentWithinADay` | extensions/device-pair/notify.ts:250-311 | over every run, with a nondecreasing clock, a request with a non-blank id that was sent at a positive time by a tick that could write, and stays pending, is not sent again until more than 24 hours have passed, whichever later writes fail |
| `PairingNotifierTheorems.ResentSoonExactly` | extensions/device-pair/notify.ts:250-311 | at the next tick within 24 hours, whatever commands come between, a sent request that still pends and reaches someone is sent again if and only if the file could not be written, its id is blank or it was sent at a clock that is not positive |
| `PairingNotifierTheorems.MarkReadBack` | extensions/device-pair/notify.ts:56-108 | the mark of a sent request is read back from the file, to count for 24 hours, if and only if the id is not blank, the clock was positive and the file could be written |
| `PairingNotifierTheorems.TickSubscribers` | extensions/device-pair/notify.ts:250-311 | the subscribers read back after a tick are those the tick arrives at, one-shots it reached removed, or, when the file cannot be written, those it began with |
| `PairingNotifierContents.EntriesRead` | extensions/device-pair/notify.ts:56-94 | each entry of the file with a recipient that is not blank is read with its texts trimmed, in order, and the others are left out |
| `PairingNotifierContents.MarksRead` | extensions/device-pair/notify.ts:96-106 | a mark is read if and only if its id is not blank and its time is positive |
| `PairingNotifierContents.KeyInjective` | extensions/device-pair/notify.ts:131-137 | without a bar in recipient and account, equal subscriber keys mean equal recipient, account and thread |
| `PairingNotifierContents.SubscribeKeeps` | extensions/device-pair/notify.ts:157-179 | with distinct keys: all other entries stay in place; the entry of the command's key keeps its own time if it has the mode already and is the new one otherwise; without one the new entry is added at the end; the marks stay |
| `PairingNotifierContents.UnsubscribeKeeps` | extensions/device-pair/notify.ts:385-394 | with distinct keys exactly the entries of other keys are left, in order, and all marks |
| `PairingNotifierContents.HearsExactly` | extensions/device-pair/notify.ts:206-296 | with distinct pending ids a subscriber hears of a request if and only if that carries no mark of at most a day, the send arrives, and a one-shot was armed at or before the request's creation time |
| `PairingNotifierContents.HeardOnceWhen` | extensions/device-pair/notify.ts:206-219 | whatever sends arrive, it hears of at most one request in a tick if and only if at most one request without a mark was created at or after its arming, if it is a one-shot, or exists, if it is not |
| `PairingNotifierContents.SentWhenHeard` | extensions/device-pair/notify.ts:268-295 | a request is sent if and only if some subscriber hears of it |
| `PairingNotifierContents.TickKeeps` | extensions/device-pair/notify.ts:298-306 | a tick keeps, in order, exactly the subscribers whose key is not that of a one-shot that heard of something |
| `PairingNotifierContents.MarksExactly` | extensions/device-pair/notify.ts:257-295 | after a tick a request is marked with its time if it was sent, keeps its mark if that is at most a day old and it still pends, and is not marked otherwise |
| `PairingNotifierService.Notifier.ReadState` | extensions/device-pair/notify.ts:56-117 | the normalising loops keep exactly the well-formed entries |
| `PairingNotifierService.Notifier.SubscribeChat` | extensions/device-pair/notify.ts:313-384 | the whole new file after a subscribe or the arming of a one-shot |
| `PairingNotifierService.Notifier.UnsubscribeChat` | extensions/device-pair/notify.ts:385-394 | the whole new file after an unsubscribe |
| `PairingNotifierService.Notifier.SendRequest` | extensions/device-pair/notify.ts:275-290 | a request is delivered when one subscriber is reached; the one-shots reached are noted |
| `PairingNotifierService.Notifier.PruneMarks` | extensions/device-pair/notify.ts:257-266 | exactly the marks of pending requests not older than 24 hours are kept |
| `PairingNotifierService.Notifier.SendPending` | extensions/device-pair/notify.ts:268-296 | the loop over the pending requests |
| `PairingNotifierService.Notifier.NotifyPending` | extensions/device-pair/notify.ts:250-311 | the whole new file after a tick, and whether the write throws |
| `Utf16.SliceUtf16Safe` | src/utils.ts:237-264 | the imperative clamp, swap and boundary fixes compute the specified slice |
| `Utf16.SliceCutsNoPair` | src/utils.ts:237-264 | for all integer bounds a slice is a stretch of the input inside them, has no lone surrogate that was not lone in the input, and covers every stretch between them that cuts no pair |
| `Utf16.SliceWellFormed` | src/utils.ts:237-264 | slices of text without lone surrogates have none |
| `Utf16.CutAt` | src/utils.ts:237-264 | the two slices at a position lose exactly the pair it splits |
| `Utf16.TruncatePrefix` | src/utils.ts:266-272 | a truncation is a prefix, one short of the limit exactly when the limit splits a pair |
| `Utf16.TruncateTwice` | src/utils.ts:266-272 | truncating to n and then to m is truncating to min(n, m) |
| `Utf16.SliceBounds` | src/utils.ts:237-247 | a negative bound counts from the end, bounds outside the text are its ends, and the order of the two does not matter |
| `Utf16.SliceExactly` | src/utils.ts:248-263 | between bounds in order a slice is that stretch, less half a pair at either end |
| `DocSync.RenderedBody` | scripts/sync-moonshot-docs.ts:40-46 | the joined lines of the block, seen as the start marker, the lines and the end marker |
| `DocSync.OccursBody` | scripts/sync-moonshot-docs.ts:40-46 | the end marker occurs before the block's last line if and only if it occurs in the start marker or in an indented line |
| `DocSync.FrameCovers` | scripts/sync-moonshot-docs.ts:30-38 | the text is what precedes the start marker's line, its indentation, a block beginning with the first start marker, and what follows the end marker's line |
| `DocSync.RewriteFrame` | scripts/sync-moonshot-docs.ts:15-51 | searching the rewritten text finds the same text before, the same indentation and the same text after, but more after it when the end marker occurs early |
| `DocSync.SecondRewriteWins` | scripts/sync-moonshot-docs.ts:15-51 | rewriting twice is rewriting once with the second lines |
| `DocSync.IdempotentExactly` | scripts/sync-moonshot-docs.ts:15-51 | for non-empty newline-free markers, repeating a rewrite changes nothing if and only if the end marker is in neither the start marker nor an indented line |
| `DocSync.FailsExactly` | scripts/sync-moonshot-docs.ts:21-28 | an error exactly when the start marker is missing, or no end marker follows the first start marker |
| `DocSync.ReplaceExactly` | scripts/sync-moonshot-docs.ts:21-51 | from the line of the first start marker to the line of the first end marker after it, the text is replaced by the start marker, the lines and the end marker, each on a line of its own with the old indentation; what precedes and follows stays, with a newline between exactly when something follows |
| `DocSync.EarlyEndRepeats` | scripts/sync-moonshot-docs.ts:15-51 | a text and lines for which a second rewrite repeats a line |
| `DocSyncAll.ShownSettled` | scripts/sync-moonshot-docs.ts:15-51 | a text that shows a block, with no earlier start marker and no early end marker, is left as it is by the rewrite |
| `DocSyncAll.KeptBefore` | scripts/sync-moonshot-docs.ts:86-119 | rewriting a block further down keeps an earlier block up to date |
| `DocSyncAll.KeptAfter` | scripts/sync-moonshot-docs.ts:86-119 | rewriting a block further up keeps a later block up to date, if what it shows does not hold the later block's start marker |
| `DocSyncBlocks.FrameShift` | scripts/sync-moonshot-docs.ts:21-39 | whole lines without the start marker, put before a text, only lengthen what precedes its block |
| `DocSyncBlocks.FrameBefore` | scripts/sync-moonshot-docs.ts:21-39 | what follows a block's lines makes no difference to where the block is found |
| `DocSyncBlocks.ApartKept` | scripts/sync-moonshot-docs.ts:86-119 | rewriting one of several blocks that do not overlap and show no start marker of each other leaves all of them found and apart |
| `DocSyncBlocks.SyncDocumentTwice` | scripts/sync-moonshot-docs.ts:86-119 | for a document in which the blocks are found, do not overlap, do not show their end marker early nor another block's start marker, the sync succeeds, leaves every block up to date in the final text, and syncing again changes nothing |
| `LabelBatches.FetchBatches` | scripts/label-open-issues.ts:426-486 | for every page sequence and every natural or unlimited limit, the batches yielded are those of the first min(limit, total) items |
| `LabelBatches.BatchesCover` | scripts/label-open-issues.ts:452-485 | those batches concatenate to the items, all but the last hold exactly 500, none is empty, indices run 1, 2, 3, … and `fetchedCount` is the running length |
| `LabelBatches.TakenExactly` | scripts/label-open-issues.ts:426-486 | without a limit all items are taken, and with one the first ones up to it |
| `IssueRuns.ClassifyBatch` | scripts/label-open-issues.ts:742-789 | the issues of a batch not processed before are classified in order and their numbers added |
| `IssueRuns.ClassifyIssues` | scripts/label-open-issues.ts:737-795 | the issue loop over all batches |
| `IssueRuns.ClassifiedCount` | scripts/label-open-issues.ts:737-795 | a loaded number is never classified, any other as often as it occurs in the first batch that holds it; the final set is the union |
| `IssueRuns.BatchInOrder` | scripts/label-open-issues.ts:737-795 | each batch is classified in its own order, after the earlier ones, less the numbers that were loaded or occur in an earlier batch |
| `IssueRuns.OnceExactly` | scripts/label-open-issues.ts:742-789 | no issue is classified twice if and only if no new number is repeated in the first batch that holds it |
| `IssueRuns.TwiceInOneBatch` | scripts/label-open-issues.ts:742-789 | a number twice in one batch is classified twice, in two batches once |
| `IssueRuns.ResumeLosesNothing` | scripts/label-open-issues.ts:791-794 | a run stopped after some batches and started again from its saved state classifies what the whole run would have gone on to classify and ends in the same state |
| `SetupCode.EncodeUnpadded` | extensions/device-pair/index.ts:293-297 | the replacements and the stripping of padding give the unpadded URL-safe text |
| `SetupCode.EncodeShape` | extensions/device-pair/index.ts:293-297 | only the URL-safe alphabet, length ceil(4n/3), never 1 modulo 4 |
| `SetupCode.UrlAlphabet` | extensions/device-pair/index.ts:293-297 | the 64 letters are A to Z, a to z, 0 to 9, `-` and `_` |
| `SetupCode.SameBits` | extensions/device-pair/index.ts:293-297 | three bytes and their four sextets are the same 24 bits |
| `SetupCode.EncodeGroups` | extensions/device-pair/index.ts:293-297 | each group of three bytes gives four letters, one or two bytes at the end two or three |
| `SetupCode.DecodeEncode` | extensions/device-pair/index.ts:293-297 | a decoder of base64url (section 5 of RFC 4648) recovers every byte sequence |
| `SetupCode.EncodeDecode` | extensions/device-pair/index.ts:293-297 | every text the strict decoder accepts is the setup code of what it decodes to |
| `Calendar.YearLength` | scripts/tigerpaw-npm-release-check.ts:69-76 | the day numbers of consecutive years differ by 365 or, in Gregorian leap years, 366 |
| `Calendar.DayRoundTrip` | scripts/tigerpaw-npm-release-check.ts:69-76 | every day number has an existing date and is that date's day (section 21.4.1 of ECMA-262) |
| `Calendar.DateRoundTrip` | scripts/tigerpaw-npm-release-check.ts:69-76 | every existing date is the date of its day |
| `Calendar.MonthLengths` | scripts/tigerpaw-npm-release-check.ts:69-76 | the months have their Gregorian lengths, and 1 January 1970 is day 0 |
| `Calendar.NextDay` | scripts/tigerpaw-npm-release-check.ts:69-76 | the next date, across months and years, has the next day number |
| `ReleaseVersion.GivenBackExactly` | scripts/tigerpaw-npm-release-check.ts:69-76 | `Date.UTC` gives a date back unchanged if and only if it exists and its year is not 0 to 99 |
| `ReleaseVersion.AcceptedExactly` | scripts/tigerpaw-npm-release-check.ts:44-106 | a version with well-formed fields is accepted if and only if its date exists in the proleptic Gregorian calendar and its year is at least 100 |
| `ReleaseVersion.FormatThenParse` | scripts/tigerpaw-npm-release-check.ts:25-106 | every release from the year 100 on has a text that is read back as that release |
| `ReleaseVersion.ParseThenFormat` | scripts/tigerpaw-npm-release-check.ts:25-106 | an accepted version is the text of its release, so no two versions name one release |
| `ReleaseVersion.StartExactly` | scripts/tigerpaw-npm-release-check.ts:108-110 | `startOfUtcDay` is the last UTC midnight if and only if the year is not 0 to 99 |
| `ReleaseVersion.DistanceCounts` | scripts/tigerpaw-npm-release-check.ts:112-114 | the rounded quotient is exactly the number of days between the two day starts |
| `ReleaseVersion.DistanceOfDates` | scripts/tigerpaw-npm-release-check.ts:108-114 | for all moments the distance is the number of days between their dates as `Date.UTC` counts them: 1900 years later in the years 0 to 99, where 29 February of the year 0 becomes 1 March 1900 |
| `ReleaseVersion.DistanceMetric` | scripts/tigerpaw-npm-release-check.ts:112-114 | for all moments the distance is zero if and only if the dates are counted as the same one, is symmetric and satisfies the triangle inequality; outside the years 0 to 99 it counts midnights |
| `ReleaseVersion.LeapDayLost` | scripts/tigerpaw-npm-release-check.ts:108-114 | 29 February and 1 March of the year 0 are at distance zero |
| `ReleaseVersion.NearRelease` | scripts/tigerpaw-npm-release-check.ts:189-197 | an accepted release is within two days of now if and only if its date is at most two days from the current date as that is counted |
| `Decimals.DigitsValue` | scripts/sparkle-build.ts:37-51 | a decimal text without a leading zero is the text of its number |
| `Decimals.AppendTwo` | scripts/sparkle-build.ts:37-51 | appending a number below 100, padded to two digits, to a decimal text multiplies by 100 and adds |
| `Sparkle.FloorsArithmetic` | scripts/sparkle-build.ts:37-52 | the numbers read from concatenated decimal texts are year·10000 + month·100 + day, ten times that, and a hundred times that plus the lane |
| `Sparkle.LaneExactly` | scripts/sparkle-build.ts:20-49 | the lane is 90 without a suffix, the final number of the suffix up to 89, and 1 for one without; floors exist if and only if month and day are in range |
| `Sparkle.LaneFloorOrder` | scripts/sparkle-build.ts:37-52 | lane floors are ordered exactly as (year, month, day, lane), with an unsuffixed release above every suffixed one of its day |
| `Sparkle.NumberedLanes` | scripts/sparkle-build.ts:40-49 | numbered suffixes of a day are told apart exactly below 89, and one without final digits counts as number 1 |
| `Sparkle.FloorRanges` | scripts/sparkle-build.ts:37-52 | every legacy floor is below 1,000,000,000, and a lane floor is at or above it exactly from the year 1000 on |
| `Sparkle.CheckItems` | scripts/release-check.ts:285-308 | the first loop collects the form errors and the items with floors, in order |
| `Sparkle.CheckFloors` | scripts/release-check.ts:319-329 | the second loop reports exactly the items below their floor, in order |
| `Sparkle.CollectErrors` | scripts/release-check.ts:275-332 | the whole list of errors of an appcast |
| `Sparkle.ItemAdds` | scripts/release-check.ts:285-308 | what each kind of item adds to the errors of form and to the items with floors |
| `Sparkle.ItemsInOrder` | scripts/release-check.ts:285-308 | and they add in the order of the items |
| `Sparkle.FloorAdds` | scripts/release-check.ts:319-329 | an item below the lane floor, if it is a lane build or not older than the adoption, or else below its legacy floor, adds one error that names build and floor |
| `Sparkle.FloorsInOrder` | scripts/release-check.ts:319-329 | in the order of the items |
| `Sparkle.AdoptionExactly` | scripts/release-check.ts:310-317 | the adoption is the earliest of 27 February 2026 and the dates of the items with a build of at least 1,000,000,000 |
| `Sparkle.Adoption` | scripts/release-check.ts:310-317 | the adoption date is the fixed one or the earliest date at which a lane build was seen |
| `Sparkle.MeetsFloorExactly` | scripts/release-check.ts:319-329 | an item has no floor error if and only if it reaches its lane floor, or is below 1,000,000,000, dated before the adoption and at or above its legacy floor |
| `Sparkle.CanonicalBuildsPass` | scripts/release-check.ts:319-329 | an appcast whose builds are all canonical has no below-floor error, whatever the adoption date |
| `Sparkle.CleanExactly` | scripts/release-check.ts:275-332 | an appcast is free of errors if and only if it has items, all builds are numbers and each meets its floor |
| `Sparkle.MoreItemsMoreProblems` | scripts/release-check.ts:310-329 | adding items can only bring the adoption forward and never clears a floor error |
| `CronUsage.Counted` | scripts/cron_usage_report.ts:185-213 | the field-by-field increments of both accumulators add the entry's contribution to each |
| `CronUsage.Record` | scripts/cron_usage_report.ts:172-214 | an entry that passes changes its job and its model of that job and nothing else |
| `CronUsage.Aggregate` | scripts/cron_usage_report.ts:148-216 | the loop computes the totals of the entries that pass the window and filters |
| `RunTotals.TotalsExact` | scripts/cron_usage_report.ts:172-214 | a job, or a model of a job, is listed exactly when it has a run, with the sums over its own runs |
| `RunTotals.ModelsAddUp` | scripts/cron_usage_report.ts:172-214 | every total of a job is the sum over its models |
| `RunTotals.JobsAddUp` | scripts/cron_usage_report.ts:172-214 | every total of all jobs together is the sum over all runs |
| `RunTotals.LogOrderIrrelevant` | scripts/cron_usage_report.ts:148-216 | reading two logs in the other order gives the same totals |
| `CronUsage.ReportAddsUp` | scripts/cron_usage_report.ts:148-216 | for every log, each job's run count, missing-usage count and three token totals equal the sums over its models, and the run counts of all jobs sum to the number of entries that pass |
| `CronUsage.EntryAdds` | scripts/cron_usage_report.ts:172-213 | an entry adds one run; it counts as without usage, and adds no tokens, if and only if it reports none; otherwise it adds its whole input and output and its own total or else their sum |
| `CronUsage.ModelNamed` | scripts/cron_usage_report.ts:165-166 | a model is listed under its trimmed name, and under "<unknown>" if and only if that is blank or missing |
| `CronUsage.JobReported` | scripts/cron_usage_report.ts:148-216 | a job, and a model of it, is listed if and only if the log has an entry of it inside the window and the filters, with the sum of what exactly these entries add |

## Left out

- Chrome, the WebSocket, the file system, message senders, the GitHub API and the classifier: oracles whose answers are parameters or events.
- The order of JavaScript maps: where the code takes the first connected tab or target, or walks a map, the model allows any choice or order; the re-announcement may visit connected tabs in any order.
- Tab number 0: treated as absent wherever the code tests a tab number for truth.
- Storage: a write takes effect before the next worker reads, or never; session texts "cb-tab-N" are numbers, all other texts are foreign.
- Badges, titles, the help page, log lines and the payloads sent to the relay; whether a response resolves or rejects its promise; the gateway handshake.
- RelayConnection.ConnectionAlways: when the connect promise settles, all handlers that await it run before the next event, as JavaScript's microtasks do; random draws are parameters in [0, 1).
- `requestFromRelay` has no caller in the file; its ids are taken as the events give them.
- ReminderOccurrences.OnceExactly: is about times and lists that polls can advance within the range of dates (AtMostComers needs neither); polls are sequential, and overlapping polls and edits of the file by assistant tools during a poll are not modelled, because the code has no lock. What the message sender does with an idempotency key is not modelled.
- Reminders.PollThrowsExactly: assumes that a failed write leaves the file as it was.
- Reminder times are parsed values, and the serialiser is any pair of functions that fits together.
- PairingNotifierTheorems.DistinctRun: ticks and commands do not overlap, a failed write leaves the file as it was (a command whose write fails is then no command), and an unreadable file is one that reads as empty.
- Notifier thread ids are decimal texts, absent texts are "", and the fallback for a missing `addedAtMs` and request ids named like members of `Object.prototype` are not modelled.
- Utf16.SliceUtf16Safe: bounds are integers; NaN and fractions are not modelled.
- LabelBatches.FetchBatches: `totalCount`, the mapping of nodes and the moment at which a lazy generator fetches a page are not modelled; a page has a next one exactly when one follows it in the list. Label decisions and the twin loop over pull requests are left out.
- SetupCode.DecodeEncode: works on the UTF-8 bytes of the payload; JSON text is not modelled.
- ReleaseVersion.AcceptedExactly: works on the digits matched by the patterns; the patterns themselves, and beta numbers beyond the range of a double, are not modelled.
- Sparkle.FloorsArithmetic: works on matched digits and suffix classes; XML extraction is not modelled.
- CronUsage.Aggregate: works on parsed lines; job ids named like members of `Object.prototype`, sorting and printing are not modelled.
- The trading extensions, plugin registration, option pages, configuration parsers, formatting helpers and everything whose policy code is elsewhere: exchange clients and branch-per-outcome plumbing without a property across functions.
