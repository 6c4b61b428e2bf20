# StreamVault gateway: a verified model

This project models the stateful cores of the StreamVault gateway in Dafny and proves what they
promise over every run and every interleaving. `dafny verify dfyconfig.toml` checks all of it.

The source mixes goroutines, a mutex, SQL statements and timers. Each region that runs under a
mutex, each channel operation and each SQL statement or transaction is one atomic step; steps of
different goroutines, processes and operators interleave freely. What the environment does (a fetch
succeeds, a playlist file appears, ffmpeg exits, GitHub answers, the clock advances) is an event or a
parameter that may take any value. Objects the source updates in place are classes whose methods are
proved to move the object exactly as a step function says; the step functions carry the theorems. What
each main operation answers and does is also stated without them: over whole runs, from the events and
the answers callers got, or in terms of the characters of a text.

## The parts

- **Remux sessions** (`RemuxState`, `RemuxSafety`, `RemuxTheorems`, `RemuxRaces`, `RemuxSessions`,
  `RemuxManager`). The session
  manager of `gateway/internal/remux`: `Start` in two locked regions around an unlocked `open`, racing
  with `Stop`, `Close`, `ReapIdle`, `Existing`, `SetPinned`, viewers and process exit. A `Ref` is one
  start that reserved a slot, with all it may acquire.
- **Body ownership** (`BodyOwnership`). Who closes a source body, from the fetch of an entry request
  or a relay through every step of the remux call it may be handed to, and that the sniffed prefix is
  served again without loss.
- **Always-on relays** (`AlwaysOn`, `RelayHistory`, `RelayPins`). Backoff in wrapping 64-bit arithmetic, the retry
  discipline over whole runs, and the pins under every interleaving with the manager's other users.
- **Leak checker** (`CheckerProtocol`, `CheckerClears`, `LeakDatabase`, `LeakSafety`, `LeakTriage`, `LeakReplies`,
  `LeakStore`, `ReplyProtocol`, `Matcher`, `Scanner`). The scan lock as a protocol of separate SQL statements, the
  "scan now" flag, the incident and credential database that Go and PHP share, the posting of the
  public notice, the classifier and one scan run.
- **Relay-node lease** (`NodeLease`, `LeaseAvailability`). How long a node may go on authorising a
  viewer after the control plane withdrew the grant, and how long it does while the control plane is away.
- **HLS puller** (`Puller`). The cursor over a sliding playlist window.
- **Playlists and links** (`Strings`, `Playlist`, `PlaylistReferences`, `PlaylistHeader`, `Routing`, `PublicPath`,
  `GatewayLinks`). Playlist
  rewriting as a printer and request routing as its parser, from the admin's path check to the
  target that is fetched in the end.
- **Slates** (`SlateState`, `SlateSafety`, `SlateBackoff`, `SlateSessions`, `SlateManager`,
  `SlateText`, `SlateLayout`, `SlateWords`). The encoder cap with fallbacks and backoff, and the layout bound of slate texts.

## What turned out not to hold

Where a property one might expect fails, the code is modelled as it is, a lemma exhibits the failure
and another says when the property does hold.

1. A `Start` that loses the race returns the winner without comparing signatures
   (`gateway/internal/remux/remux.go:267-272`). It gets the session of the last call that registered for
   its stream since it reserved (`LoserGetsTheLastRegistration`), and with it what that call asked for
   (`LoserGetsWhatTheLastAskedFor`), which can be another source: `LostRaceCanReturnAnotherSource`. If all
   overlapping starts ask for one source, nobody gets another: `AgreeingStartsGetTheirSource`.
2. The scan lock does not exclude a slow holder: `SlowHolderBreaksExclusion`. A step ends exclusion
   exactly if it steals the row from a process that still acts as holder, which is then at least 15
   minutes past its stamp (`StepEndsExclusionExactly`), and a run keeps exclusion throughout exactly if no
   such step occurs (`ExclusionExactly`); so holders that finish in time exclude each other
   (`AtMostOneHolder`).
3. Clearing the "scan now" flag can lose a click. In a run that keeps exclusion a clear does so exactly if
   the flag still holds the value the process read although somebody clicked after its scan began:
   `ClearLosesExactly`, and for whole runs `RequestsAreLostExactly`. Two clicks in one millisecond do that
   (`EqualClicksCanBeLost`); with distinct values no click is lost, with or without exclusion
   (`NoRequestIsLost`). A scan that stopped with an error clears the request like any other:
   `FailedScanClears`.
4. The page that posts a GitHub reply writes back the history it read before
   (`admin/incidents.php:44-82`). Given that every comment has an address of its own, the write keeps the
   stored history exactly if nothing changed it since the read: `ReplyKeepsHistory`. Otherwise, for
   example, a revocation disappears from the log: `LateReplyErasesRevocation`. No credential is ever
   logged twice even so.
5. The public notice is meant to be posted once per issue. Looking for a stored reply, posting and
   storing are separate steps (`gateway/internal/leakcheck/scanner.go:238-247`, `admin/incidents.php:58-76`).
   An issue has two comments exactly if two posts were made by requests that looked while no reply was
   stored, whenever each looked (`TwoCommentsExactly`); they need not be under way at one moment
   (`UnstoredReplyIsPostedAgain`). Requests that take turns and store their replies post once
   (`TwoCommentsMeanOverlap`).
6. A node's config is read by separate statements (`gateway/internal/gatewayhttp/nodecontrol.go:91-100`,
   `gateway/internal/store/store.go:330-344`), and dead credentials are listed for hosted streams only. A
   config lets a dead grant through exactly if the stream left the node between the first statement and
   the one that should have listed the dead point or token: `TornReadExactly`,
   `TornReadRevivesDeadGrant`. The lease bound holds for a grant dead for one settled reason
   (`DeadGrantsLapse`); for one dead at every moment for any reasons, a later authorisation needs such a
   change between two reads (`LateAuthorizationNeedsAChange`, `LateAuthorizationNeedsADeparture`).
7. `sv_validate_public_path` accepts a newline at the end of a segment, because `$` in its pattern also
   matches before a final newline, though its own comment allows only letters, digits, `-` and `_`. A
   reference under such a path spans two playlist lines: `NewlineIsAccepted`, `ReferenceIsOneLine`.
8. The comment in `gateway/internal/gatewayhttp/handler.go:261-263` calls the extension of a reference
   cosmetic. It is, unless the target's decoded path has an escaped dot or a malformed escape in its
   extension: `ReferenceComesBack` gives the exact condition, `EscapedDotLosesTheReference` a target.
9. A playlist whose `#EXTM3U` follows a byte order mark, or white space other than empty lines, passes the
   sniff, but rewriting takes that line for a reference and loses the header: `HeaderKeptExactly`, with
   the byte order mark in `HeaderBehindMarkIsLost`.
10. The slate manager compares a remembered fallback with six slots
    (`gateway/internal/slate/slate.go:200`) while at most four encoders exist, so the memory is always
    dropped: `RememberedFallbackIsDropped`.
11. The puller fetches in ascending order exactly while no playlist ends below the one before
    (`AscendingExactly`). It fetches a number twice exactly if some playlist is joined at or before a
   number fetched earlier (`RepeatsExactly`), as after a restart from 10..12 to 10 (`RestartFetchesAgain`).

## Model

| member | source | states |
|---|---|---|
| `RemuxSafety.NextKeepsValid` | gateway/internal/remux/remux.go:177-332 | Every locked region, channel operation and unlocked step, in any interleaving, keeps the slot count, the tables, the pending list and the ownership of bodies and directories in order |
| `RemuxTheorems.SlotsAreAccountedFor` | gateway/internal/remux/remux.go:204-237 | In every run the tokens in `slots` are the starts that reserved and have neither committed nor released plus the processes whose watch has not released; the cap holds and no receive from the channel ever blocks |
| `RemuxTheorems.TablesAndDirectoriesAgree` | gateway/internal/remux/remux.go:286-332 | `sessions` and `byID` agree in both directions, and every directory on disk belongs to exactly one of a start in progress, a registered session or a scheduled removal |
| `RemuxTheorems.StoppedStartNeverRegisters` | gateway/internal/remux/remux.go:122-131 | A pending start cancelled by `Stop` never registers, whatever happens afterwards |
| `RemuxTheorems.CloseIsFinal` | gateway/internal/remux/remux.go:296-312 | Once `Close` has run no session is registered in any later state |
| `RemuxTheorems.BodiesAreClosedOnce` | gateway/internal/remux/remux.go:65-74 | In every run no source body is closed twice, and a call past its exit has closed the one it obtained |
| `RemuxTheorems.InternalRunsAreBounded` | gateway/internal/remux/remux.go:217-322 | Without new requests the manager takes only boundedly many steps |
| `RemuxTheorems.RestMeansEverythingGivenBack` | gateway/internal/remux/remux.go:221-238 | When no internal step is left every slot is free, nothing is pending, every obtained body was closed exactly once and every directory on disk belongs to a registered session |
| `RemuxTheorems.FoundForItsOwnStream` | gateway/internal/remux/remux.go:336-350 | A session is found by its identifier exactly if it is registered under that identifier for the very stream asked for |
| `RemuxTheorems.LoserGetsTheWinner` | gateway/internal/remux/remux.go:267-272 | A start that lost the race gets the session registered for its stream, and not one of its own |
| `RemuxRaces.LoserGetsTheLastRegistration` | gateway/internal/remux/remux.go:267-272 | From the moment a start reserved: if it loses the race, it gets the session of the last call that registered for its stream since |
| `RemuxRaces.LoserGetsWhatTheLastAskedFor` | gateway/internal/remux/remux.go:257-272 | Over a whole run from the start: what the loser is handed is what the `Start` of that last registered call asked for |
| `RemuxRaces.RowsComeFromStarts` | gateway/internal/remux/remux.go:177-216 | What a call is recorded to have asked for is what a start of the run asked for |
| `RemuxRaces.AgreeingStartsGetTheirSource` | gateway/internal/remux/remux.go:177-294 | If every start of the stream that overlaps with this one asks for the same source, then so does the session this one is handed |
| `RemuxTheorems.LostRaceCanReturnAnotherSource` | gateway/internal/remux/remux.go:267-272 | A run of two racing starts in which the caller is handed a session of another signature |
| `RemuxSessions.SessionIsReapedExactly` | gateway/internal/remux/remux.go:386-394 | Over every run: the reaper ends a registered session exactly if the last call to set its pin did not pin it and it was last registered, handed out, found or pinned more than 90 seconds before |
| `RemuxSessions.PinIsTheLastSet` | gateway/internal/remux/remux.go:81-91 | Over every run a session is pinned exactly if the last `SetPinned` of its stream since it registered said so |
| `RemuxSessions.SessionEndsExactly` | gateway/internal/remux/remux.go:122-203 | A registered session ends at a step exactly if its stream is stopped, the manager is closed, it is reaped, a start asks for another source or finds it dead, or `Existing` finds it dead |
| `RemuxSessions.SessionIsSharedExactly` | gateway/internal/remux/remux.go:155-203 | `Existing`, and `Start` before it reserves, hand out a session exactly if it is registered for that stream and signature and is alive or a playlist is asked for |
| `RemuxSessions.StartIsAnsweredExactly` | gateway/internal/remux/remux.go:177-216 | A start that shares no session is refused exactly if the manager is closed, is told that it is full exactly if unfinished starts and processes take every slot, and else reserves |
| `RemuxSessions.StartSucceedsExactly` | gateway/internal/remux/remux.go:257-291 | Over every run since its reservation: a start registers exactly if its stream was not stopped nor the manager closed meanwhile, the stream has no session and ffmpeg was spawned |
| `RemuxManager.Manager.Start` | gateway/internal/remux/remux.go:177-216 | The first locked region of `Start` is the step `Begin` |
| `RemuxManager.Manager.CommitStart` | gateway/internal/remux/remux.go:257-291 | The second locked region of `Start` is the step `Commit` |
| `RemuxManager.Manager.LeavePendingList` | gateway/internal/remux/remux.go:222-227 | The locked half of the deferred function takes the call off the pending list and drops an empty entry |
| `RemuxManager.Manager.ExistingSession` | gateway/internal/remux/remux.go:155-172 | `Existing` returns, touches or stops the session as the step says |
| `RemuxManager.Manager.StopStream` | gateway/internal/remux/remux.go:122-131 | `Stop` cancels every pending start of the stream and stops its session |
| `RemuxManager.Manager.Close` | gateway/internal/remux/remux.go:296-312 | The loops of `Close` cancel every pending start and stop every session |
| `RemuxManager.Manager.Pin` | gateway/internal/remux/remux.go:81-91 | `SetPinned` changes the current session only |
| `RemuxManager.Manager.Pinned` | gateway/internal/remux/remux.go:94-111 | The snapshot lists exactly the pinned sessions and whether each is alive |
| `RemuxManager.Manager.ReapIdle` | gateway/internal/remux/remux.go:386-394 | The loop over the sessions stops exactly the idle unpinned ones |
| `RemuxManager.Manager.GetPath` | gateway/internal/remux/remux.go:336-350 | Only generated file names are served, and a session is looked up and touched as the step says |
| `RemuxManager.NamesAreExactly` | gateway/internal/remux/remux.go:336-339 | The names given out are the playlist and `seg`, six digits, `.ts` |
| `RemuxManager.GeneratedNameIsOneElement` | gateway/internal/remux/remux.go:336-339 | A generated file name stays inside the directory of its session |
| `BodyOwnership.CloseOnce.Close` | gateway/internal/remux/remux.go:65-74 | Only the first close reaches the body |
| `BodyOwnership.PrefixedReader.Read` | gateway/internal/gatewayhttp/handler.go:600-607 | No byte is lost, repeated or reordered between the sniffed prefix and the rest of the body |
| `BodyOwnership.SniffAndServe` | gateway/internal/gatewayhttp/handler.go:521-538 | For an entry, the body stops being the caller's exactly if its sniffed head is MPEG-TS and remuxing is permitted; a Start that did not call open has it closed, else the whole content is handed over |
| `BodyOwnership.ServeEntry` | gateway/internal/gatewayhttp/handler.go:389-423 | Whatever the session table, the two fetches, the status, the sniff and the remux answer, the obtained body is closed once here or handed over, never both, and no other body is touched |
| `BodyOwnership.OpenRelaySource` | gateway/internal/gatewayhttp/alwayson.go:195-226 | A relay's body is closed before returning unless it is what is returned, and then no sniffed byte is missing |
| `BodyOwnership.BodyObtainedExactly` | gateway/internal/remux/remux.go:249-256 | Over every run a call has obtained a body exactly if its open succeeded at some step |
| `BodyOwnership.ReplayCloses` | gateway/internal/remux/remux.go:286-322 | All the closes a run makes on a call's body, in their order, reach the fetched body as often as the call counts |
| `BodyOwnership.EntryInRun` | gateway/internal/gatewayhttp/handler.go:620-640 | End to end over every run: from the return of Start on, an entry's body has been closed at most once, by the request or by the call it was handed to, and exactly once when the manager is at rest |
| `BodyOwnership.RelayInRun` | gateway/internal/gatewayhttp/alwayson.go:176-189 | The same for the body a relay fetched inside its Start |
| `AlwaysOn.BackoffIsCappedDoubling` | gateway/internal/gatewayhttp/alwayson.go:59-68 | Under 64-bit wrap-around the delay is exactly min(30 s * 2^(n-1), 600 s) for every failure count n >= 1 |
| `AlwaysOn.LargeShift` | gateway/internal/gatewayhttp/alwayson.go:61-64 | No shift by 30 to 63 bits comes out positive and at most 600 s |
| `AlwaysOn.BackoffNeverDecreases` | gateway/internal/gatewayhttp/alwayson.go:27-30 | Delays never decrease and lie between 30 s and 600 s |
| `AlwaysOn.RetriesRespectTheBackoff` | gateway/internal/gatewayhttp/alwayson.go:119-164 | Over whole runs of a wanted stream: no start is attempted before any recorded failure plus its backoff, each backoff fits its place in the row of failures, and the row ends only for a relay started since the last failure and seen at least two minutes later |
| `RelayHistory.ReconciliationFollowsHistory` | gateway/internal/gatewayhttp/alwayson.go:119-164 | Over every run of a wanted stream, what a reconciliation does follows from the earlier ones: an early death fails, two minutes of life reset the count, a start is tried exactly when the last delay is over, and a failed try waits 30 s doubled for each failure in a row, up to ten minutes |
| `AlwaysOn.Supervisor.Fail` | gateway/internal/gatewayhttp/alwayson.go:59-68 | `fail` counts, sets the next try and forgets the running time |
| `AlwaysOn.Supervisor.ReconcileStream` | gateway/internal/gatewayhttp/alwayson.go:119-164 | The body of the loop over the wanted streams is the step the run theorems are about |
| `AlwaysOn.PickWanted` | gateway/internal/gatewayhttp/alwayson.go:93-109 | The wanted streams are the first slots - 1, or the first slots on a relay-only node, but at least one if there is any; the rest are refused in order |
| `RelayPins.OthersAddNoPins` | gateway/internal/remux/remux.go:79-111 | No step of the manager but `SetPinned(true)` adds a pinned session |
| `RelayPins.PinsStayWithinTheWanted` | gateway/internal/gatewayhttp/alwayson.go:85-117 | At every moment at most max(1, slots - 1) sessions are pinned, or max(1, slots) on a relay-only node, and once stale pins are cleared only wanted streams are, whatever viewers, the reaper and exiting processes do in between |
| `RelayPins.ViewersKeepASlot` | gateway/internal/gatewayhttp/alwayson.go:91-99 | On a gateway with two slots or more at least one is never taken by a pinned relay |
| `RelayPins.FirstStreamsAreWanted` | gateway/internal/gatewayhttp/alwayson.go:91-109 | A stream is wanted exactly if it is the first loaded or there are that many slots, one being left for viewers unless the node is relay-only |
| `RelayPins.UnpinningEnds` | gateway/internal/gatewayhttp/alwayson.go:111-117 | A reconciliation takes off exactly pins it found stale, in as many steps as there are, and then starts its work |
| `CheckerProtocol.AtMostOneHolder` | gateway/internal/leakcheck/store.go:225-254 | With the statements of several processes interleaved freely, at most one acts as holder, however many steal the same stale row, if holders finish within 15 minutes of their stamp |
| `CheckerProtocol.SlowHolderBreaksExclusion` | gateway/internal/leakcheck/store.go:216-219 | Without that proviso two processes hold the lock at once |
| `CheckerProtocol.ReleasedLockIsFree` | gateway/internal/leakcheck/store.go:225-259 | A lock that is given back is taken by the next process that asks |
| `CheckerProtocol.CrashedHolderIsReplaced` | gateway/internal/leakcheck/store.go:222-254 | A lock whose holder crashed is taken over once it is 15 minutes old |
| `CheckerProtocol.StepEndsExclusionExactly` | gateway/internal/leakcheck/store.go:236-254 | A step ends exclusion exactly if it steals the row by its stamp from a process that still acts as holder, and then some holder is at least 15 minutes past its stamp |
| `CheckerProtocol.ExclusionExactly` | gateway/internal/leakcheck/store.go:225-254 | Over every run: at every moment at most one process acts as holder exactly if no step steals a row from a process that still acts as holder |
| `CheckerClears.ClearLosesExactly` | gateway/internal/leakcheck/store.go:83-92 | After every run that keeps exclusion and has every click accounted for, a clear leaves them so exactly if the flag is not the value the process read, or nobody clicked since the scan of that process began |
| `CheckerClears.RequestsAreLostExactly` | gateway/cmd/leakchecker/main.go:67-138 | Over every run that keeps exclusion: at every moment each click is pending, overwritten or scanned exactly if no clear takes a flag with the value its process read although somebody clicked during its scan |
| `CheckerProtocol.NoRequestIsLost` | gateway/cmd/leakchecker/main.go:67-138 | With distinct request values each click is still pending, was overwritten by a later one, or was followed by a scan that began after it and ended, with or without an error |
| `CheckerProtocol.EqualClicksCanBeLost` | gateway/internal/leakcheck/store.go:83-92 | Two clicks that write the same value: the second, made during a scan, is cleared with no scan after it |
| `CheckerProtocol.FailedScanClears` | gateway/cmd/leakchecker/main.go:128-138 | A run in which a scan that stopped with an error clears the request |
| `LeakSafety.RevocationIsFinal` | gateway/internal/leakcheck/actions.go:52-61 | A revoked token or access point stays revoked over every run of scanner, automatic revocation and triage |
| `LeakSafety.StepRevokes` | admin/incidents.php:116-139 | A step revokes the one credential it names, if it is alive, and no other |
| `LeakTriage.ConfirmRevokesPointExactly` | admin/incidents.php:114-134 | Confirming revokes an access point exactly if the operator may decide, the incident names no token, and the newest finding of this very incident is of that point, active and of its stream |
| `LeakTriage.ConfirmRevokesTokenExactly` | admin/incidents.php:119-124 | Confirming revokes a token exactly if the operator may decide and it is the one the incident names, live and of its stream |
| `LeakTriage.TriageIsLogged` | admin/incidents.php:95-146 | A triage is done exactly if the operator may see the incident and its status allows the action; then status, operator and the credential it revoked, if any, are logged, and nothing else changes |
| `LeakTriage.AutoRevokeKillsExactly` | gateway/internal/leakcheck/actions.go:33-90 | Automatic revocation revokes exactly the token of a confirmed match, or its access point if it names no token, and only for an open incident |
| `LeakTriage.AutoRevokeIsLogged` | gateway/internal/leakcheck/actions.go:33-90 | What automatic revocation answers, and that it confirms and logs an open incident exactly if it was not confirmed before or the credential was still live |
| `LeakTriage.ManualIncidentIsNew` | admin/incidents.php:36-42 | Recording a manual incident adds one new row, new in status and without history, and keeps the others |
| `LeakTriage.EvidenceIsRecordedExactly` | gateway/internal/leakcheck/store.go:372-397 | A match is recorded exactly if its evidence is not stored yet, or only as something weaker |
| `LeakTriage.RecordingWritesOneFinding` | gateway/internal/leakcheck/store.go:410-428 | Recording writes one finding, the stored one of that evidence or a new one, with the confidence and text of the match, and keeps the others |
| `LeakTriage.RecordingPicksTheIncident` | gateway/internal/leakcheck/store.go:399-477 | A recorded match above a mention belongs to an open incident of its stream and token if there is one, else to a new one |
| `LeakTriage.KeysTellEvidenceApart` | gateway/internal/leakcheck/matcher.go:131-134 | Two pieces of evidence share a key exactly if source, address and text are the same, as long as source and address hold no bar |
| `LeakSafety.OneMatchRevokesOneCredential` | gateway/internal/leakcheck/actions.go:33-90 | Recording a match and responding to it revokes at most the credential the match identified; the two answers say whether it is inactive and whether this call did it |
| `LeakSafety.TriageStaysInOwnStreams` | admin/incidents.php:97-103 | Triage by an operator who is no administrator changes incidents and revokes credentials of that operator's streams only |
| `LeakSafety.ClosedIncidentsStayClosed` | admin/incidents.php:84-105 | Over every run incidents keep their identity, and dismissed and resolved ones their status |
| `LeakSafety.EvidenceIsGrouped` | gateway/internal/leakcheck/store.go:441-477 | Over every run: one finding per dedupe key, an incident for each finding above a mention, at most one open checker-created incident per stream and token (or none) |
| `LeakSafety.ConfidenceNeverDrops` | gateway/internal/leakcheck/store.go:430-439 | A finding is never lost and its confidence never lowered |
| `LeakSafety.RecordingAgainChangesNothing` | gateway/internal/leakcheck/store.go:390-396 | Evidence already recorded, whatever happened since, leaves the database as it is and reports nothing created |
| `LeakSafety.RecordingAttachesToItsGroup` | gateway/internal/leakcheck/store.go:398-423 | A created finding above a mention hangs on an open incident of its own stream and token |
| `LeakSafety.EachRevocationIsLoggedOnce` | gateway/internal/leakcheck/actions.go:71-85 | Over every run, late replies included, a credential is logged as revoked at most once in all incident histories, and one so logged is revoked |
| `LeakSafety.OtherStepsAppend` | gateway/internal/leakcheck/actions.go:117-140 | Every step but the late write of a reply appends to the histories |
| `LeakReplies.ReplyKeepsHistory` | admin/incidents.php:44-78 | Over every schedule: the write of the reply page keeps the stored history exactly if no step since the page's read changed the history of the incident |
| `LeakReplies.LateReplyErasesRevocation` | admin/incidents.php:44-82 | A confirmation between the page's read and its write disappears from the log while the credential stays revoked |
| `LeakStore.Store.FindOrCreate` | gateway/internal/leakcheck/store.go:445-477 | The statements find or insert the incident as the step says, for whichever row the SELECT returns |
| `LeakStore.Store.Record` | gateway/internal/leakcheck/store.go:372-428 | The statements of `RecordMatch` are the step of that name |
| `LeakStore.Store.AutoRevokeMatch` | gateway/internal/leakcheck/actions.go:33-90 | The statements of `AutoRevoke` are the step of that name |
| `LeakStore.Store.NewestFinding` | admin/incidents.php:126-128 | The finding with the highest id among those that belong to the incident, if it has any |
| `LeakStore.Store.TriageIncident` | admin/incidents.php:95-146 | Confirm, dismiss and resolve with their revocation, for an operator who may see the incident, are the step of that name |
| `ReplyProtocol.StoredReplyStands` | gateway/internal/leakcheck/actions.go:117-126 | The stored reply of an issue is a comment posted on it and is never replaced, over every run |
| `ReplyProtocol.NextKeepsValid` | gateway/internal/leakcheck/scanner.go:238-247 | Every step of any request keeps: each comment was posted by a request that had found no reply stored |
| `ReplyProtocol.TwoCommentsMeanOverlap` | gateway/internal/leakcheck/scanner.go:238-247 | Two comments on one issue mean that requests overlapped or one did not store its reply |
| `ReplyProtocol.TwoCommentsExactly` | admin/incidents.php:58-76 | Over every run an issue has two comments exactly if two posts of the run were each made by a request that, whenever it looked, found no reply stored |
| `ReplyProtocol.UnstoredReplyIsPostedAgain` | gateway/internal/leakcheck/scanner.go:238-247 | Look, post, look, post: a run in which the second request looks after the first has posted and before it stores, and both post |
| `ReplyProtocol.StoppedReplyIsPostedAgain` | gateway/internal/leakcheck/scanner.go:238-247 | The same if the first request stops after posting and before storing |
| `Matcher.ClassifyMeaning` | gateway/internal/leakcheck/matcher.go:75-126 | What each verdict says about the text: absent anchor, bare mention, unknown token-shaped string, or a token of this access point given away at the leftmost candidate |
| `Matcher.CandidatesAreExactly` | gateway/internal/leakcheck/matcher.go:44-52 | A candidate stands exactly where the address, a slash and 48 hexadecimal digits stand |
| `Matcher.TextWithTokenIs` | gateway/internal/leakcheck/matcher.go:75-126 | A text whose first token after the address of a private point has the hash of a token row confirms the leak of that row, and is a probable leak otherwise |
| `Matcher.StoredValueIs` | gateway/internal/leakcheck/matcher.go:75-126 | What is stored is the address, or the address and the first twelve characters of the hash of the first token |
| `Matcher.ConfirmedNamesOneCredential` | gateway/internal/leakcheck/matcher.go:81-119 | A confirmed match names the token given away, or the access point itself when its address is the credential |
| `Matcher.StoredValueHidesTheToken` | gateway/internal/leakcheck/matcher.go:98-107 | What is stored contains no 48-digit token that is not already part of the public address |
| `Scanner.OneSearch` | gateway/internal/leakcheck/scanner.go:125-147 | One search adds no fault and does not stop exactly if it worked, was complete and all its hits were recorded |
| `Scanner.SearchAndRecord` | gateway/internal/leakcheck/scanner.go:124-180 | Three searches are made unless the run stops |
| `Scanner.ScanSources` | gateway/internal/leakcheck/scanner.go:75-93 | Sources without a qualifier are passed over; each other one is searched three times and marked as scanned |
| `Scanner.Run` | gateway/internal/leakcheck/scanner.go:39-102 | `Run` reports no error exactly if it made 3 * access points * (1 + qualified sources) searches and every one worked, was complete and had every hit recorded and responded to |
| `Scanner.OneHitRevokesWhatTheTextGaveAway` | gateway/internal/leakcheck/scanner.go:184-223 | Whatever others do between recording and responding, the response can revoke only the credential the text gave away |
| `NodeLease.Agent.ApplyConfig` | gateway/internal/node/node.go:200-228 | `apply` replaces assignment and revocations and clamps the poll interval |
| `NodeLease.Agent.ClearConfigLocked` | gateway/internal/node/node.go:238-249 | Clearing forgets the whole config, and does nothing without one |
| `NodeLease.Agent.ExpireConfig` | gateway/internal/node/node.go:251-257 | A config five minutes old is cleared |
| `NodeLease.Agent.Poll` | gateway/internal/node/node.go:176-198 | A rejected poll clears, a config for this node is applied, every other outcome changes nothing |
| `NodeLease.AuthorizedIsVouchedRecently` | gateway/internal/node/node.go:304-342 | Every authorised request is vouched for by reads of the control database begun less than 15 s + 5 min before it arrived, whatever polls failed in between |
| `LeaseAvailability.AuthorizedExactly` | gateway/internal/node/node.go:146-257 | Over every run after a config was applied, until the next config or a 401 or 403: a request is authorised exactly if it is signed and unexpired, the config lets its grant through, and no check of the config came five minutes after it or later; polls that fail do not matter |
| `LeaseAvailability.NothingAuthorizedWithoutConfig` | gateway/internal/node/node.go:237-257 | Once a config has expired or was rejected nothing is authorised until the next one |
| `LeaseAvailability.PollsAsTold` | gateway/internal/node/node.go:219-222 | The poll interval is the one told if it is 5 to 60 seconds, and ten seconds otherwise |
| `NodeLease.DeadGrantsLapse` | gateway/internal/node/node.go:251-257 | A grant dead since T for one settled reason is refused to every request arriving at T + 15 s + 5 min or later |
| `NodeLease.PollEndsDeadGrants` | gateway/internal/node/node.go:176-198 | After a delivered config whose poll was sent after T, or a 401 or 403 after T, it is refused at once and from then on |
| `NodeLease.LateAuthorizationNeedsAChange` | gateway/internal/store/store.go:306-344 | Whatever the reasons, one or several in turn: a grant dead at every moment since T is authorised later than the bound only by a config between whose reads a dead credential revived or its stream left the node |
| `NodeLease.AuthorizationAfterPollNeedsAChange` | gateway/internal/node/node.go:176-228 | The same once a poll sent after T delivered or any poll after T was rejected |
| `NodeLease.TornReadExactly` | gateway/internal/gatewayhttp/nodecontrol.go:91-100 | A config lets a grant through exactly if its stream was listed and was gone at every read that should have listed a dead point or token of the grant |
| `NodeLease.LateAuthorizationNeedsADeparture` | gateway/internal/store/store.go:330-344 | For a point revoked or a token dead ever since T, that change is the departure of the stream between the first read and the one that should have listed the credential |
| `NodeLease.TornReadRevivesDeadGrant` | gateway/internal/store/store.go:330-344 | A run in which a grant whose point, token or both were dead all along is authorised after an hour |
| `Puller.FetchWindow` | gateway/internal/hlspull/hlspull.go:99-107 | Every index into the segment list is in range; the rest of the window is fetched in order, or a beginning of it when a segment ends the pull |
| `Puller.Run` | gateway/internal/hlspull/hlspull.go:68-119 | One batch per usable playlist, each from the cursor the one before left; the pull ends exactly with the first load that is fatal, is the fifth unusable one in a row, has a fatal segment or is the end of the stream |
| `Puller.BatchIsConsecutive` | gateway/internal/hlspull/hlspull.go:99-107 | A batch holds consecutive numbers inside its playlist |
| `Puller.RejoinIsNearTheLiveEdge` | gateway/internal/hlspull/hlspull.go:90-98 | A rejoin starts within the last three segments, and happens only if the cursor is outside the window |
| `Puller.RejoinFetchesThree` | gateway/internal/hlspull/hlspull.go:90-98 | A first load or a jump is joined at the last three segments, or at the whole window if it is shorter |
| `Puller.NothingIsFetchedTwice` | gateway/internal/hlspull/hlspull.go:74-119 | While the last sequence number never decreases the whole run fetches strictly ascending numbers |
| `Puller.GapsAreForced` | gateway/internal/hlspull/hlspull.go:90-98 | Numbers are left out only when the window has moved past the cursor |
| `Puller.AscendingExactly` | gateway/internal/hlspull/hlspull.go:74-119 | Following playlists to their ends, the run fetches in strictly ascending order exactly if no playlist's last number is lower than that of the one before |
| `Puller.RepeatsExactly` | gateway/internal/hlspull/hlspull.go:74-119 | Following playlists to their ends, the run fetches some number twice exactly if some playlist is joined at or before a number fetched earlier in the run |
| `Puller.RestartFetchesAgain` | gateway/internal/hlspull/hlspull.go:90-98 | A restart, from 10..12 back to 10, has a number fetched again |
| `Puller.ResolveVariant` | gateway/internal/hlspull/hlspull.go:146-183 | The first variant of the highest bandwidth, the entry itself if there is no STREAM-INF, an error if no variant is usable |
| `Playlist.RewriteTagAttrs` | gateway/internal/hls/rewrite.go:100-123 | The scan over a tag line replaces every URI value and remembers a failure |
| `Playlist.RewritePlaylist` | gateway/internal/hls/rewrite.go:61-98 | The loop over the lines is the function the structure theorems are about |
| `PlaylistReferences.FirstAttributeIsReplaced` | gateway/internal/hls/rewrite.go:100-120 | For any text a, value u without a quote and rest b of a tag line, where no complete URI="..." starts in a: the attribute is rewritten to the encoding of the resolved u, a stays and b is rewritten in turn, failing exactly if one of the two fails |
| `PlaylistReferences.PlainTagStays` | gateway/internal/hls/rewrite.go:100-120 | A tag line without a complete URI="..." is unchanged |
| `PlaylistReferences.EveryTagIsPlainOrSplits` | gateway/internal/hls/rewrite.go:21-23 | Every tag line has no complete URI="..." or splits at its first one, so the two statements say what becomes of it |
| `PlaylistReferences.LinesAreRewrittenApart` | gateway/internal/hls/rewrite.go:61-97 | A playlist is rewritten line by line and fails exactly if one of its lines does |
| `PlaylistReferences.OneLineIsRewritten` | gateway/internal/hls/rewrite.go:61-97 | Without the carriage returns at its end a line stays blank, is a tag if it starts with "#", and else is a reference as a whole |
| `Playlist.ReadOfRewritten` | gateway/internal/hls/rewrite.go:100-123 | Reading a rewritten tag line gives the original tag with each URI replaced: no replacement creates or hides another |
| `Playlist.RewritePreservesStructure` | gateway/internal/hls/rewrite.go:61-98 | The rewritten playlist has the same lines: blank ones stay blank, text outside URI values is untouched up to trailing carriage returns, each reference is the encoding of its resolved target |
| `Playlist.RewriteFailsExactly` | gateway/internal/hls/rewrite.go:73-95 | Rewriting fails exactly if one reference cannot be resolved or encoded |
| `PlaylistHeader.HeaderKeptExactly` | gateway/internal/hls/rewrite.go:28-37 | A text the sniff takes for a playlist is still one after rewriting exactly if its first line that is not blank starts with "#" |
| `PlaylistHeader.HeaderBehindMarkIsLost` | gateway/internal/hls/rewrite.go:28-37 | A header behind a byte order mark is taken for a playlist, and, where it can be rewritten, is none afterwards |
| `Routing.ReferenceComesBack` | gateway/internal/gatewayhttp/handler.go:338-350 | Following a reference leads to the same access point, token, prefix and exact target exactly if its extension, unescaped, has no further dot and no malformed escape |
| `Routing.EscapedDotLosesTheReference` | gateway/internal/gatewayhttp/handler.go:260-267 | A target whose path ends in `.a%2Eb` is not found again by its own reference |
| `Routing.WithdrawnReference` | gateway/internal/gatewayhttp/handler.go:221-243 | A reference whose token or stream is no longer admitted gets nothing of the source: it is missing, replaced by its slate, or malformed by its own extension |
| `Routing.WithdrawnEntry` | gateway/internal/gatewayhttp/handler.go:221-258 | An entry link whose token or stream is no longer admitted is missing, or replaced by the slate of an entry |
| `Routing.SpecialPaths` | gateway/internal/gatewayhttp/handler.go:182-200 | Exactly the paths under `/_sv` go to the node API, the notice and the slates |
| `Routing.ExtensionIsKeptExactly` | gateway/internal/gatewayhttp/handler.go:338-350 | What follows the last dot of the last path element is kept in a reference exactly if it has at most seven characters |
| `Routing.EntryLinkComesBack` | gateway/internal/gatewayhttp/handler.go:709-716 | Bare, `.m3u8` and `.ts` entry links lead to the entry of their access point and token |
| `Routing.BlobIsCutOut` | gateway/internal/gatewayhttp/handler.go:260-267 | The blob is recovered from the path, whatever single extension follows it |
| `PublicPath.ValidatePublicPath` | admin/includes/helpers.php:28-46 | A path is accepted exactly if no segment has a problem; otherwise the first problem is reported |
| `PublicPath.PathIsAcceptedExactly` | admin/includes/helpers.php:28-46 | A path is accepted exactly if no slash begins or ends it and every segment is letters, digits, underscores and hyphens, up to a newline at its end, is not "r" or "R", and the first is not "_sv" |
| `PublicPath.AcceptedIsProper` | admin/includes/helpers.php:28-46 | An accepted path holds no routing marker, is not under the slate's root and has no dot |
| `PublicPath.AcceptedWithTokenIsProper` | gateway/internal/gatewayhttp/handler.go:301-306 | So does an accepted path followed by a token |
| `PublicPath.PrivatePrefixResolves` | gateway/internal/gatewayhttp/handler.go:307-332 | Path and token lead to the private access point exactly if no public one is stored at that very path |
| `PublicPath.PublicPrefixResolves` | gateway/internal/gatewayhttp/handler.go:307-332 | A public access point is reached by its path exactly, and without a token |
| `PublicPath.PrivateNeedsItsToken` | gateway/internal/gatewayhttp/handler.go:318-331 | Only a private path followed by a slash and a slash-free token leads to a private access point |
| `PublicPath.ReferenceIsOneLine` | gateway/internal/gatewayhttp/handler.go:338-350 | A reference is one line of a playlist exactly if prefix and extension hold no newline |
| `PublicPath.NewlineIsAccepted` | admin/includes/helpers.php:34-36 | The segment pattern accepts a newline after any word |
| `GatewayLinks.EveryReferenceLeadsBack` | gateway/internal/hls/rewrite.go:61-98 | Every reference of the playlist a viewer gets, when followed, fetches exactly the target it replaced, under the credential of the request, exactly if that target's own extension survives |
| `GatewayLinks.PublicGrant` | gateway/internal/gatewayhttp/handler.go:307-311 | An accepted public path without a newline is a prefix the theorem holds for |
| `GatewayLinks.PrivateGrant` | gateway/internal/gatewayhttp/handler.go:318-331 | So is an accepted private path with its token, exactly unless a public path shadows it |
| `SlateState.IdTextIsFaithful` | gateway/internal/slate/slate.go:174-196 | Session keys tell sessions apart, and a slash in one means that it is personal |
| `SlateState.VariantsAreExactly` | gateway/internal/slate/slate.go:45-63 | A variant is a base alone with its usual reason, or a base, a colon and a reason that belongs to it, and nothing else |
| `SlateSafety.NextKeepsValid` | gateway/internal/slate/slate.go:152-517 | Every locked region of the manager and every exit of an encoder keeps caps, ownership of encoders, keys of personal slates and generic fallbacks in order |
| `SlateSafety.CapsHold` | gateway/internal/slate/slate.go:29-36 | In every run at most four encoders are live, at most three personal slates exist and every fallback target is generic |
| `SlateSafety.RememberedFallbackIsDropped` | gateway/internal/slate/slate.go:196-210 | A remembered fallback never decides anything: it is compared with six slots while there are at most four sessions |
| `SlateSafety.ServedIsOwnOrGeneric` | gateway/internal/slate/slate.go:174-269 | A request is served its own session or a generic one, and the files are that session's |
| `SlateSafety.PersonalFilesStayPersonal` | gateway/internal/slate/slate.go:185-196 | The files of an encoder started for a personal slate are only ever served to its variant and key, in any later state |
| `SlateSafety.NothingStartsAfterClose` | gateway/internal/slate/slate.go:498-517 | Once closed no encoder starts and the live ones only exit |
| `SlateSafety.DeadRadioIsReplacedInSilence` | gateway/internal/slate/slate.go:211-226 | A radio session found dead is replaced at once without the radio, or the start fails; it never waits and never meets the cap |
| `SlateSafety.CapReachedExactly` | gateway/internal/slate/slate.go:228-255 | The cap refuses a request exactly if the request is let in, has no session and no backoff of its own, and four personal sessions hold every slot |
| `SlateSafety.CapReachedMeansOrphan` | gateway/internal/slate/slate.go:232-255 | The cap refuses a request only if a personal session has outlived the slate it was started for |
| `SlateSessions.RequestIsAnsweredExactly` | gateway/internal/slate/slate.go:174-269 | What a request is answered: refused, its running session, held back for ten seconds after a failure, a generic session of the same base if possible when four others run, or a new encoder |
| `SlateSessions.SessionEndsExactly` | gateway/internal/slate/slate.go:211-226 | A session ends at a step exactly if its own request finds it dead, it is idle at a reaping, its settings have changed at a restart, or the manager is closed |
| `SlateSessions.EncoderRunsExactly` | gateway/internal/slate/slate.go:364-497 | An encoder runs after a step exactly if the step started it, or it ran before and neither exited nor had its session reaped or restarted |
| `SlateSessions.SessionIsReapedExactly` | gateway/internal/slate/slate.go:440-449 | Over every run the reaper ends a session exactly if it was last served more than 90 seconds before |
| `SlateSessions.SessionIsRestartedExactly` | gateway/internal/slate/slate.go:463-497 | Over every run a session is restarted exactly if the audio settings or the text it was started with are not those loaded now |
| `SlateSessions.PrepareRefusesExactly` | gateway/internal/slate/slate.go:152-172 | A personal slate is refused exactly if its variant or credential is none, the manager is closed, or it is new and three others exist |
| `SlateSessions.PreparedIsKept` | gateway/internal/slate/slate.go:161-172 | Else the caller gets the key signed for it, shared or new, and it counts as used |
| `SlateSessions.PersonalSlateIsReapedExactly` | gateway/internal/slate/slate.go:450-456 | Over every run a personal slate is dropped exactly if it was last prepared or asked for more than 90 seconds before |
| `SlateBackoff.StartsRespectTheBackoff` | gateway/internal/slate/slate.go:211-229 | In every run an encoder is started only if no failure of its session was seen since the last start, or ten seconds have passed since |
| `SlateBackoff.RadioPlaysExactly` | gateway/internal/slate/slate.go:214-217 | Over every run a session that is started plays the radio exactly if it is set to and was not seen dead with the radio in the last five minutes |
| `SlateBackoff.RequestIsHeldBackExactly` | gateway/internal/slate/slate.go:211-231 | Over every run a request that is let in is held back exactly if its session does not run and died young or failed to start less than ten seconds before |
| `SlateManager.Manager.Prepare` | gateway/internal/slate/slate.go:152-172 | `Prepare` shares a slate with the same descriptor, adds one below the cap, and refuses otherwise |
| `SlateManager.Manager.LookUpLocked` | gateway/internal/slate/slate.go:196-226 | A dead session is removed with what its end means for the next start |
| `SlateManager.Manager.PickFallback` | gateway/internal/slate/slate.go:232-250 | The two loops end with a generic session of the same base if there is one, else with any generic session |
| `SlateManager.Manager.GetPath` | gateway/internal/slate/slate.go:174-269 | The locked part of `GetPath` is the step of that name for some fitting fallback |
| `SlateManager.Manager.ReapIdle` | gateway/internal/slate/slate.go:440-457 | Exactly the idle sessions and idle personal slates are removed |
| `SlateManager.Manager.RestartOnAudioChange` | gateway/internal/slate/slate.go:463-497 | Exactly the sessions whose audio settings or text differ from the current ones are removed |
| `SlateManager.Manager.Close` | gateway/internal/slate/slate.go:498-517 | Closing forgets every session, once |
| `SlateText.CleanText` | gateway/internal/slate/text.go:31-48 | The loop over the runes is the cleaning the theorems are about |
| `SlateText.NormalizeTwice` | gateway/internal/slate/text.go:30-54 | Normalising an accepted text again changes nothing |
| `SlateWords.CleanKeepsWhatIsDrawn` | gateway/internal/slate/text.go:31-48 | Cleaning keeps every character that is no white space, control or format character, in order, and adds only space |
| `SlateWords.CleanIsTrimmed` | gateway/internal/slate/text.go:31-48 | A cleaned title is words one space apart; a cleaned subtitle neither starts nor ends with white space |
| `SlateWords.CleanKeepsLines` | gateway/internal/slate/text.go:31-48 | Cleaning a subtitle keeps lines that need no cleaning and one break between them, typed as a line feed or as carriage return and line feed |
| `SlateWords.TextIsAcceptedExactly` | gateway/internal/slate/text.go:49-55 | A text is accepted exactly if, cleaned, its title has 1 to 32 characters and its subtitle 1 to 90 with at most one line break |
| `SlateWords.DrawnExactly` | gateway/internal/slate/slate.go:380-387 | A slate draws the configured text, cleaned, if it is accepted, and the default of its reason otherwise |
| `SlateLayout.Wrap` | gateway/internal/slate/text.go:58-76 | The search for the cut is the function the layout theorems are about |
| `SlateLayout.WrappedFits` | gateway/internal/slate/text.go:56-76 | Any subtitle of at most 90 runes is drawn in at most two lines of at most 45 runes |
| `SlateLayout.WrappedKeepsInk` | gateway/internal/slate/text.go:58-76 | Wrapping keeps every non-space character, in order |
| `SlateLayout.WordsAreKeptWhenPossible` | gateway/internal/slate/text.go:69-75 | The cut is at a space, the last one possible, whenever some space leaves both lines short enough |
| `SlateWords.ShortLinesStay` | gateway/internal/slate/text.go:60-63 | Two lines of at most 45 characters are drawn as they are |
| `SlateWords.OthersAreBrokenExactly` | gateway/internal/slate/text.go:64-76 | Any other text is set in words one space apart, and if too long broken at the last space that leaves two lines of at most 45, or after 45 characters if there is none |
| `SlateWords.UnspacedIsHalved` | gateway/internal/slate/text.go:58-76 | Ninety characters without a space become two lines of 45 |
| `SlateLayout.FitFontSize` | gateway/internal/slate/text.go:77-118 | The loops measure the widest line and choose the size for it |
| `SlateLayout.SizeIsLargest` | gateway/internal/slate/text.go:105-117 | The size is the largest up to the maximum that keeps the widest line to 1280 px, but never below 28 |
| `SlateLayout.TitleFits` | gateway/internal/slate/slate.go:385-400 | Every line of whatever title a slate draws keeps to 1280 px, at a size of 28 to 117 |
| `SlateLayout.SubtitleFits` | gateway/internal/slate/slate.go:385-402 | Whatever subtitle a slate draws is at most two lines of at most 45 runes and 1449 px, at a size of 28 to 47 |

## Left out

- ffmpeg, files, HTTP transport, DNS and process spawning: events and parameters that may take any value.
- SQLite itself: maps with atomic statements or transactions; cascades of deleted rows are not modelled, rows are never deleted, so every finding keeps its access point.
- Cryptography: sealing, HMAC and SHA-256 are arbitrary functions with the stated laws (opening undoes sealing, blobs hold no dot or slash, the dedupe hash is injective, no digest is empty).
- RFC 3986 reference resolution: `Resolver` is an arbitrary function that may fail. Escaping that a player adds to a link on its own is not modelled.
- Route choices after the target is known (remux resources, node redirects, private-network checks): the router is modelled up to the choice of the target.
- Admin pages, sessions, CSRF, the install script, metrics, viewer counting, log redaction and GitHub's JSON.
- Per-account scans: the account flags follow the protocol of the global flag and lock.
- Rate-limit waiting, the text of the public notice and the reply allowlist: one-branch facts around external calls.
- Two database transactions that conflict: the losing one is taken not to have happened.
- Sessions, contexts and pending starts are rows of one `calls` table instead of separate heap objects, so aliasing between them is by number.
- A random session identifier is taken not to be registered already.
- The clock is read once per locked region, so the moments between two readings inside one region are not told apart.
- The puller's handling of a segment that fails half way, and `attrInt`, which can read AVERAGE-BANDWIDTH as BANDWIDTH; bandwidths are parameters.
- `WaitPlaylist` and the second half of the slate's `GetPath`: waiting and calling again are further events; whether the recursion of the slate's `GetPath` ends is not claimed.
- "One process per stream" is not claimed: a stopped process may still run when its replacement starts. One registered session per stream holds by construction of the table.
- Unicode tables for format characters, upper case and digits are parameters; control characters and spaces are spelled out.
- CheckerProtocol.AtMostOneHolder: the lock row's stamp is taken to be well formed, as the statements that write it make it.
- NodeLease.DeadGrantsLapse: covers a grant dead for one settled reason; without that it is false, and LateAuthorizationNeedsAChange says what a later authorisation takes.
- NodeLease.PollEndsDeadGrants: likewise, with AuthorizationAfterPollNeedsAChange.
- NodeLease.Agent.ClearConfigLocked: the map of viewers it also empties is viewer counting, which is not modelled.
- SlateLayout.FitFontSize: measures in exact hundredths where the source adds floating-point numbers.
- LeakReplies.ReplyKeepsHistory: takes it that GitHub gives each posted comment an address of its own, and that a request writes its reply once.
- BodyOwnership.RelayInRun: says nothing of the reader the puller returns, which owns no fetched body of the relay.
- SlateSafety.CapReachedMeansOrphan: goes one way, as an orphaned personal session alone does not fill the cap; CapReachedExactly goes both.
- CheckerClears.ClearLosesExactly: about runs that keep exclusion; in others a scan of another process may have served the click meanwhile, and CheckerProtocol.SafeClearKeepsAccounted says what is left.
