# Druvia, verified

A Dafny model of the parts of Druvia whose correctness depends on order, history or exact text:

- the self-updater (`apps/updater`): what is on disk at every instant at which the process may die, which
  rollback is owed after that, the projection rollback with its gate, lock holder and watchdog, and the
  finalizer container as a second writer of the status record;
- the realtime channel of the SDK: token requests, sockets, timers and stale events in any order, and the
  change events computed from snapshots;
- the text the SDK produces: GraphQL values, selections and conditions, and WebSocket endpoints;
- the version order behind every update, and the rate limiter that counts in one Redis script.

`dafny verify dfyconfig.toml` checks everything.

## How it is put together

`UpdaterSpec` says what a durable state must satisfy (`Sound`) and how two consecutive ones may be related
(`Step`); its theorems speak of whole runs of such states. `UpdateService` is the service in the program's own
order of effects. Every durable effect goes through `Put`, which demands a sound state and a step and may die
before or after the effect, so the theorems hold with a crash between any two effects and with every command
failing at will; `Operate` ties any history of restarts, requests, polls and finalizer writes to such a run.
`UpdaterAdmission` is what a request meets before its operation begins.

`ProjectionRollback` and `FinalizerRace` are step systems: one event is one command, one read or one write of
one of the actors, and the theorems quantify over all sequences of events. `RealtimeChannel` is the class with
its fields; its invariant is kept by every handler for arbitrary arguments (stale generations and sockets
included), and `HandleAll` runs any sequence of events. What it promises of sockets and tokens it promises of the
history of all that was ever sent, which `RealtimeWire` reads; `RealtimeSession` is what a subscriber of one
table hears in such a history.

The printers are proved against readers written from the GraphQL specification (October 2021): sections 2.1
and 2.9 for values, 2.4 to 2.7 for selections. IPv6 text is compared with section 2.2 of RFC 4291. Version
precedence is item 11 of Semantic Versioning 2.0.0.

## Assumptions

- State writes, copies and renames are atomic and fail only by the death of the process. A `finalizing` write
  that fails without a crash (update-service.ts:462) is outside the updater's invariant.
- Operation ids are fresh, and the checksum of a compose file determines its content.
- At first start the version in the active env file is the configured one.
- A finalizer container that is not running has exited or was never started; a failed `docker run` has not
  started it, and one cut off by a crash does not start it later.
- Compose commands have no effect after they have settled; mutators of the database take the global lock and
  refuse under an active gate.
- Status and change callbacks do not call back into the channel (change callbacks run before the new snapshot
  is stored, realtime.ts:326-327), and a promise's `finally` runs before the next timer or socket event. The event
  loop runs one handler at a time.
- Requests to the updater are taken one at a time in `Operate`, because one that arrives during another is
  refused without effect (`StartOperation`).
- Redis drops a key after its deadline; a script sees one time.
- A string is a sequence of Unicode scalar values; JavaScript's UTF-16 pairs count as one character here.

## What the proofs found

- A string with a control character other than tab, LF and CR is printed into a GraphQL string that no reader
  accepts: `serializeValue` round-trips exactly for values without such characters
  (`GraphqlValue.SerializeRoundTrip`).
- A mutation keeps only the last filter on each column, and only the last or-group, while a query prints all
  of them: an update or delete with a lower and an upper bound on one column loses the lower one
  (`WhereClause.RangeLosesItsLowerBound`). A filter on a column `__proto__` is lost in a mutation, because the
  assignment adds no property (`WhereClause.PrototypeFilterIsLost`). The two paths agree exactly when the keys are
  distinct and none is `__proto__` (`WhereClause.PathsAgree`).
- Under a health-check interval of 0 the finalizer never gives up (`FinalizerProcess.WaitIsBounded`).
- The sliding bound of the limiter is one better than twice the maximum, and no better
  (`RateLimit.SlidingBound`, `RateLimit.BoundIsReached`).

## Model

| member | source | states |
|---|---|---|
| SemVer.ParseIsExact | apps/updater/src/manifest.ts:45-57 | a text parses as a version exactly if, after an optional v, it spells that version: three numbers and dotted identifiers |
| SemVer.ComparePrerelease | apps/updater/src/manifest.ts:59-87 | the indexed loop with its early returns decides by the first pair of identifiers that differ, for lists of any lengths |
| SemVer.CompareParsed | apps/updater/src/manifest.ts:92-97 | the loop over the three keys and the prereleases computes the version order |
| SemVer.CompareSemver | apps/updater/src/manifest.ts:89-98 | an error exactly when one side is no version, otherwise the version order |
| SemVer.ListOrderIsPrecedence | apps/updater/src/manifest.ts:59-87 | what the loop computes is item 11.4: the first identifiers that differ decide, and a proper prefix is lower |
| SemVer.VersionOrderIsTotalPreorder | apps/updater/src/manifest.ts:89-98 | reflexive, antisymmetric in sign, transitive, and strictly so when one of two comparisons is strict |
| SemVer.NewerIsStrictOrder | apps/updater/src/manifest.ts:159-161 | the version gate is a strict order on strings, whether or not they parse |
| Manifest.ValidateReleaseManifest | apps/updater/src/manifest.ts:143-236 | accepts a manifest exactly when it is newer, of the channel, within the updater's version and its migrations go forward; says that there is no update exactly when both versions parse and it is not newer |
| UpdaterSpec.FreshIsSound | apps/updater/src/state.ts:10-25 | a fresh installation without a state file is a sound state |
| UpdaterSpec.PendingAllowsAnyFiles | apps/updater/src/update-service.ts:423-429 | once the status says that files may differ, any rename or copy of release files keeps the state sound |
| UpdaterSpec.PreparingAllowsCopies | apps/updater/src/update-service.ts:405-408 | a partial backup of the active files is sound while the backup is prepared |
| UpdaterSpec.CommitIsSound | apps/updater/src/update-service.ts:462-472 | the commit write makes the switched files those of the new version, with the backup of the old ones on record |
| UpdaterSpec.CommitIsStep | apps/updater/src/update-service.ts:462-472 | the commit write moves the version forward and discharges the promised rollback |
| UpdaterSpec.RecoveryDecisionIsExact | apps/updater/src/update-service.ts:237-291 | after a crash anywhere in a deployment, a rollback is demanded exactly when files may differ: no crash point is missed, no false alarm is raised, and the backup needed exists |
| UpdaterSpec.SelectionIsExact | apps/updater/src/update-service.ts:525-549 | a rollback is refused exactly when there is nothing to undo; the selected backup holds what was installed before the apply it undoes |
| UpdaterSpec.FilesMatchOrRollbackIsOwed | apps/updater/src/update-service.ts:376-460 | at every instant of every run, files other than those of the current version are announced by the status, which names a complete backup |
| UpdaterSpec.BackupsAreNeverRewritten | apps/updater/src/update-service.ts:405-422 | a complete backup and the record of what an apply found never change afterwards |
| UpdaterSpec.OnlyRollbackEndsRecovery | apps/updater/src/update-service.ts:694-733 | recovery, once owed, stays owed from the same backup until a rollback completes |
| UpdaterSpec.RollbackUndoesApply | apps/updater/src/update-service.ts:437-550 | whenever a rollback completes in a run, asked for or automatic, the files and the version are those that were installed, earlier in the same run, when the apply whose backup it used was admitted |
| UpdaterSpec.RecoveryUndoesApply | apps/updater/src/update-service.ts:498-550 | once recovery is owed, the first rollback that completes, after any crashes and retries, brings back what was installed before the apply that was named then |
| UpdaterSpec.LastBackupHoldsThePast | apps/updater/src/update-service.ts:462-465 | at every time the backup of the last applied update holds exactly the pair that was active when that update was admitted, earlier in the run |
| UpdaterSpec.VersionsIncrease | apps/updater/src/update-service.ts:376-472 | without a rollback, every later version of a run equals or is newer than every earlier one |
| UpdaterSpec.AppliedVersionIsNewer | apps/updater/src/update-service.ts:462-465 | and strictly newer as soon as an update has been applied in between |
| Updater.UpdateService.Put | apps/updater/src/state.ts:42-63 | a durable effect happens whole or not at all, extends the run by a sound state, and may be the last thing the process does |
| Updater.UpdateService.RestoreBackup | apps/updater/src/update-service.ts:801-805 | when it returns, the active files are those recorded for the backup; half a restore is sound |
| Updater.UpdateService.CompleteProjectionRollback | apps/updater/src/update-service.ts:641-692 | a normal return has restored the recorded files and reached verifying; a throw leaves the promise of the rollback standing |
| Updater.UpdateService.ReadStaged | apps/updater/src/update-service.ts:378-403 | an apply goes on only with staged files and images that match the manifest and a version newer than the current one |
| Updater.UpdateService.TakeBackup | apps/updater/src/update-service.ts:405-422 | reaching backup_ready touches neither active files nor anything else of the status |
| Updater.UpdateService.SwitchFiles | apps/updater/src/update-service.ts:426-429 | after both renames the active pair is the staged pair |
| Updater.UpdateService.SwitchAndDeploy | apps/updater/src/update-service.ts:423-436 | a throw comes only after the status says that files may differ |
| Updater.UpdateService.AutomaticRollback | apps/updater/src/update-service.ts:437-460 | rolled back means that files, version and last applied backup are those before the apply; otherwise recovery is required |
| Updater.UpdateService.CommitUpdate | apps/updater/src/update-service.ts:462-472 | the one write that changes the current version also names the backup that undoes it |
| Updater.UpdateService.LaunchFinalizer | apps/updater/src/update-service.ts:474-490 | a launch that fails ends in succeeded and changes nothing else |
| Updater.UpdateService.ApplyBody | apps/updater/src/update-service.ts:376-496 | ends installed and undoable, or with files and version as before, or owing a rollback from this operation's backup |
| Updater.UpdateService.RollbackBody | apps/updater/src/update-service.ts:498-523 | on success files and version are those recorded for the selected backup; on failure the rollback stays owed from that backup |
| Updater.UpdateService.CheckBody | apps/updater/src/update-service.ts:293-322 | touches the status only, and not its version |
| Updater.UpdateService.StageFiles | apps/updater/src/update-service.ts:340-365 | staged files belong together, and active files stay as they are |
| Updater.UpdateService.DownloadBody | apps/updater/src/update-service.ts:324-374 | ready_to_apply means that the staged files match the admitted manifest |
| Updater.UpdateService.RestartBody | apps/updater/src/update-service.ts:552-562 | ends in succeeded with everything else unchanged |
| UpdaterAdmission.AdmissionIsExact | apps/updater/src/update-service.ts:705-718 | a request is admitted exactly if nothing runs, an owed rollback is not passed over, an apply finds a release that is ready, and a rollback an update it can undo; while a rollback is owed it is always admitted, from the backup that is named |
| UpdaterAdmission.AdmissionIsStep | apps/updater/src/update-service.ts:720-733 | the write that admits an operation of any kind keeps every invariant of the durable state |
| Updater.UpdateService.StartOperation | apps/updater/src/update-service.ts:694-733 | a refused request changes nothing; while an operation runs or a phase is mutating every kind is in progress, under an owed rollback anything but a rollback is refused, and an admission has a fresh id |
| Updater.UpdateService.HandleFailure | apps/updater/src/update-service.ts:783-791 | a failed operation keeps a promised rollback and its backup |
| Updater.UpdateService.Request | apps/updater/src/update-service.ts:734-750 | what each kind of operation leaves when its background work has ended, and that the service is free again |
| Updater.UpdateService.GetStatus | apps/updater/src/update-service.ts:192-235 | reconciliation only closes a finalizing record of an operation that nobody runs |
| Updater.UpdateService.RecoverInterruptedOperation | apps/updater/src/update-service.ts:237-264 | after a restart no operation phase is left; a rollback is owed exactly if files may differ, from the same backup |
| Updater.UpdateService.FinalizerPatch | apps/updater/src/finalizer.ts:31-41 | the second writer keeps the run sound and leaves files and version alone |
| Updater.Operate | apps/updater/src/update-service.ts:237-264 | any history of restarts, requests, polls and finalizer writes produces a run from the fresh installation |
| ProjectionRollback.NormalReturn | apps/updater/src/update-service.ts:641-692 | on every interleaving, a normal return means that no watchdog probe ever failed, the files were restored after check and probe, and the gate is released |
| ProjectionRollback.ThrowEndsGatedAndStopped | apps/updater/src/update-service.ts:676-688 | every throw ends gated and with all services down if the two last commands succeed, whatever raced before |
| ProjectionRollback.FilesAreReplacedUnderGate | apps/updater/src/update-service.ts:662-666 | files are replaced only after the check passed and the holder was seen in this attempt, under an active gate without v2 state |
| ProjectionRollback.OnlyDisableOpensGate | apps/updater/src/compose.ts:182-213 | no actor but the disable command opens the gate |
| ProjectionRollback.NoV2BeforeRelease | apps/updater/src/compose.ts:215-282 | from the check to the release of the gate no v2 state appears |
| ProjectionRollback.FailedProbeDoomsAttempt | apps/updater/src/update-service.ts:645-662 | after one failed watchdog probe the attempt neither returns nor opens the gate |
| ProjectionRollback.RollbackCanReturn | apps/updater/src/update-service.ts:630-692 | from any database at rest without v2 state a rollback can run to its normal return |
| ProjectionRollback.RunKeepsInv | apps/updater/src/update-service.ts:571-692 | the invariant of gate, lock, files and watchdog holds after every sequence of events |
| RollbackServices.Docker.Stop | apps/updater/src/compose.ts:85-87 | what a stop of several containers may do, failures included |
| RollbackServices.Docker.StopRollbackServices | apps/updater/src/update-service.ts:589-604 | a normal return leaves each of the three services stopped or missing; nothing is ever started |
| FinalizerRace.RunKeepsInv | apps/updater/src/update-service.ts:192-235 | the invariant of both writers holds after every interleaving |
| FinalizerRace.OnlyTheseWrite | apps/updater/src/finalizer.ts:31-41 | the list of writers is complete |
| FinalizerRace.NoLostUpdate | apps/updater/src/finalizer.ts:31-41 | every write patches the very record it replaces, so neither process overwrites what the other wrote |
| FinalizerRace.ReconciliationClosesTheDead | apps/updater/src/update-service.ts:211-235 | reconciliation closes only the finalizing record of a dead finalizer, never one that the finalizer has closed |
| FinalizerRace.AdmissionAfterLastWrite | apps/updater/src/update-service.ts:694-733 | no operation is admitted while a finalizer is alive or a reconciliation is about to write |
| FinalizerRace.OneFinalizer | apps/updater/src/update-service.ts:474-482 | at most one finalizer is alive, and the record is its own |
| FinalizerRace.DeadFinalizerIsClosed | apps/updater/src/update-service.ts:192-235 | a status request that is under way ends the operation of a dead finalizer as succeeded, in every interleaving with finalizers, operations and other requests, unless the updater crashes or the inspection fails |
| FinalizerRace.PollBeginsRequest | apps/updater/src/update-service.ts:192-208 | a status request begins such a reconciliation whenever it finds the updater idle |
| FinalizerProcess.WaitIsBounded | apps/updater/src/finalizer.ts:43-73 | the wait is bounded unless the interval is 0 under a timeout that is not |
| FinalizerProcess.WaitForUpdaterHealthy | apps/updater/src/finalizer.ts:43-73 | ends well exactly if an inspection that takes place finds the replacement healthy, and is still waiting exactly if a further inspection is due and none has |
| FinalizerProcess.RunUpdaterFinalizer | apps/updater/src/finalizer.ts:75-126 | two writes, the last of which is succeeded under the target version whether or not the replacement came up; it returns exactly if it came up, and only an unfinished wait withholds the second write |
| RealtimeDiff.DiffAndEmit | packages/sdk/src/modules/realtime.ts:447-477 | the three loops emit the inserts, updates and deletes of the two keyed tables, in that order |
| RealtimeDiff.DiffIsExact | packages/sdk/src/modules/realtime.ts:447-477 | an event is emitted exactly if the two tables differ at its key that way and the filter wants it |
| RealtimeDiff.OneEventPerKey | packages/sdk/src/modules/realtime.ts:447-477 | at most one event for each key |
| RealtimeDiff.ReplayDiff | packages/sdk/src/modules/realtime.ts:447-477 | replaying all events over the old table gives exactly the new table |
| RealtimeDiff.ReplayRun | packages/sdk/src/modules/realtime.ts:312-328 | replaying the events of any run of snapshots over the first gives the last |
| RealtimeChannel.Channel.constructor | packages/sdk/src/modules/realtime.ts:63-97 | a new channel is quiet and holds nothing |
| RealtimeChannel.Channel.On | packages/sdk/src/modules/realtime.ts:99-107 | a configuration is added exactly if the channel has not been removed |
| RealtimeChannel.Channel.Subscribe | packages/sdk/src/modules/realtime.ts:109-133 | an error exactly for a removed or active channel; otherwise the handle of a new lifecycle, different from every handle ever returned |
| RealtimeChannel.Channel.Unsubscribe | packages/sdk/src/modules/realtime.ts:126-132 | does nothing unless the handle is that of the active lifecycle; then completes, a close and the closed status go out, and the channel is quiet |
| RealtimeChannel.Channel.HandleIdentityChange | packages/sdk/src/modules/realtime.ts:135-146 | the operations are completed and the socket is closed, snapshots and reconnect timer of the old identity are gone, and a request that never was made before is outstanding |
| RealtimeChannel.Channel.Dispose | packages/sdk/src/modules/realtime.ts:148-161 | the operations are completed and the socket is closed; a second call does nothing |
| RealtimeChannel.Channel.StartConnection | packages/sdk/src/modules/realtime.ts:163-174 | at most one request at a time |
| RealtimeChannel.Channel.TokenSettled | packages/sdk/src/modules/realtime.ts:176-224 | a stale answer changes nothing; a current one opens a socket with a token of the current identity, schedules a retry, or gives up |
| RealtimeChannel.Channel.InstallSocket | packages/sdk/src/modules/realtime.ts:208-224 | the previous socket is closed before the new one is opened, also when the factory throws |
| RealtimeChannel.Channel.OnClose | packages/sdk/src/modules/realtime.ts:246-260 | a stale close changes nothing; codes 4401 and 4403 halt retries and leave an outstanding request alone |
| RealtimeChannel.Channel.OnAck | packages/sdk/src/modules/realtime.ts:290-300 | one subscribe frame for each configuration under fresh ids, over empty snapshots |
| RealtimeChannel.Channel.OnNext | packages/sdk/src/modules/realtime.ts:312-328 | the first snapshot of a table is silent; a later one emits the difference and replaces it |
| RealtimeChannel.Channel.OnMessage | packages/sdk/src/modules/realtime.ts:269-328 | a message on a stale socket changes nothing, and an unknown one on no socket |
| RealtimeChannel.Channel.ExpiryTimerFires | packages/sdk/src/modules/realtime.ts:354-361 | an expired token's socket goes, and something else is waited for |
| RealtimeChannel.Channel.InvalidateActiveSocket | packages/sdk/src/modules/realtime.ts:377-391 | completes are sent for the recorded operations, in order, then the socket is closed, once; without a socket nothing is sent |
| RealtimeChannel.Channel.StopLifecycle | packages/sdk/src/modules/realtime.ts:400-413 | completes and a close for the socket, then the last status; what is left is idle |
| RealtimeChannel.Channel.Handle | packages/sdk/src/modules/realtime.ts:163-434 | every event, stale or not, keeps the invariant and rewrites nothing of the past: history, handles, request epochs and the lifecycle counter only grow |
| RealtimeChannel.Channel.HandleAll | packages/sdk/src/modules/realtime.ts:109-434 | after any events in any order: every socket ever opened is the current one or is followed by its close, no token ever went out under another identity than its own, the channel is not silently stuck, an unsubscribed one is quiet |
| RealtimeChannel.Channel.ReuseHandle | packages/sdk/src/modules/realtime.ts:126-132 | a handle returned at any time before a later subscribe succeeded changes nothing any more, whatever happens in between and afterwards |
| RealtimeChannel.Channel.FollowTable | packages/sdk/src/modules/realtime.ts:312-328 | over any messages of a session, for any number of tables, what is told of one table is the events of all its snapshots, and replaying it over the first one gives the snapshot the channel holds |
| RealtimeSession.FollowedAll | packages/sdk/src/modules/realtime.ts:312-328 | what a session tells of a configured table is the events between its successive snapshots, whatever messages come in between |
| RealtimeWire.LeadsMeans | packages/sdk/src/modules/realtime.ts:208-391 | a history in which sockets open one at a time, under current tokens, and carry frames only while they are open, accounts for every socket and never shows an old token |
| RealtimeChannel.DruviaRealtime.HandleIdentityChange | packages/sdk/src/modules/realtime.ts:519-523 | every channel is renewed |
| GraphqlValue.EscapeIsOnePass | packages/sdk/src/lib/graphql-builder.ts:64-66 | the four chained replacements equal one pass of a character map |
| GraphqlValue.ReadsString | packages/sdk/src/lib/graphql-builder.ts:64-66 | the string lexer inverts the escaping exactly for source characters |
| GraphqlValue.SerializeRoundTrip | packages/sdk/src/lib/graphql-builder.ts:72-80 | a printed value reads back as itself if and only if its strings hold source characters only |
| GraphqlValue.ReadsFields | packages/sdk/src/lib/graphql-builder.ts:153-156 | the fields of an object read back in order, whatever follows the closing brace |
| GraphqlValue.SerializeIsInjective | packages/sdk/src/lib/graphql-builder.ts:72-80 | no two readable values are printed alike |
| GraphqlValue.ControlCharacterIsNotReadable | packages/sdk/src/lib/graphql-builder.ts:64-66 | the smallest value that does not survive |
| SelectFields.SplitByComma | packages/sdk/src/lib/graphql-builder.ts:30-46 | the loop returns the trimmed pieces between top-level commas, without a blank last one |
| SelectFields.CutIsUnique | packages/sdk/src/lib/graphql-builder.ts:30-46 | cutting and joining are inverse: pieces result from a string exactly if they are whole and joining gives the string |
| SelectFields.MatchNestedIsExact | packages/sdk/src/lib/graphql-builder.ts:53-54 | the nested pattern matches exactly the texts of the form alias:rel(sub) or rel(sub), in one way |
| SelectFields.SegmentsOfPrint | packages/sdk/src/lib/graphql-builder.ts:30-46 | the items of a printed select tree are recovered, without the white space around them |
| SelectFields.ParsesPrint | packages/sdk/src/lib/graphql-builder.ts:49-62 | a select string of any depth and layout becomes the GraphQL text of its tree |
| SelectFields.SelectRoundTrip | packages/sdk/src/lib/graphql-builder.ts:49-62 | GraphQL reads the result as exactly the tree the caller wrote |
| WhereClause.QueryBuilder.Filter | packages/sdk/src/modules/query-builder.ts:99-119 | a filter is added behind the others |
| WhereClause.QueryBuilder.Is | packages/sdk/src/modules/query-builder.ts:120-123 | the null test always carries a boolean |
| WhereClause.QueryBuilder.Not | packages/sdk/src/modules/query-builder.ts:175-197 | throws exactly for operators outside its table, and then adds nothing |
| WhereClause.QueryBuilder.Or | packages/sdk/src/modules/query-builder.ts:171-173 | an or-group is added behind the others |
| WhereClause.QueryBuilder.BuildWhereObject | packages/sdk/src/modules/query-builder.ts:302-313 | the loop assigns one property for each filter in turn, as a JavaScript object takes it: in place, as a new one among the array indices or at the end, or not at all for `__proto__` |
| WhereClause.BuildWhereClause | packages/sdk/src/lib/graphql-builder.ts:82-104 | the loop prints every filter in turn, and nothing for none |
| WhereClause.ConditionTextIsField | packages/sdk/src/lib/graphql-builder.ts:95-100 | a condition is printed like the serialized object exactly if a null test carries a boolean |
| WhereClause.QueryPrintsEveryFilter | packages/sdk/src/lib/graphql-builder.ts:82-104 | the where argument is the serialized object of all filters, one field each |
| WhereClause.ObjectIsOrdered | packages/sdk/src/modules/query-builder.ts:302-313 | the object lists array indices first, in ascending order |
| WhereClause.ObjectIsAllFilters | packages/sdk/src/modules/query-builder.ts:302-313 | the object has one field for each filter, in their order, exactly if the keys are distinct, none is `__proto__`, and array indices come first and ascend |
| WhereClause.PathsAgree | packages/sdk/src/modules/query-builder.ts:302-313 | without array indices among the columns, query and mutation print the same condition if and only if no two filters write the same property and none is named `__proto__` |
| WhereClause.QueryDenotesConjunction | packages/sdk/src/lib/graphql-builder.ts:82-104 | the printed argument reads back as an object that denotes the conjunction of all filters |
| WhereClause.MutationDenotesSurvivors | packages/sdk/src/modules/query-builder.ts:302-313 | a mutation's condition is the conjunction of the last filter on each property, without `__proto__`: never narrower than all filters, and all of them when each has a property of its own |
| WhereClause.RangeLosesItsLowerBound | packages/sdk/src/modules/query-builder.ts:302-313 | a lower and an upper bound on one column: only the upper one is kept |
| WhereClause.PrototypeFilterIsLost | packages/sdk/src/modules/query-builder.ts:302-313 | a filter on a column `__proto__`, which is a Name, leaves an empty condition |
| IpAddress.NormalizeIpv4 | packages/sdk/src/lib/websocket-url.ts:5-17 | a canonical dotted quad comes back unchanged, anything else is refused |
| IpAddress.IsValidIpv6 | packages/sdk/src/lib/websocket-url.ts:19-52 | the two loops decide the predicate that the next row compares with the standard |
| IpAddress.Ipv6IsRfc4291 | packages/sdk/src/lib/websocket-url.ts:19-52 | accepts exactly the three text forms of section 2.2 of RFC 4291 |
| IpAddress.LowerIpv6 | packages/sdk/src/lib/websocket-url.ts:89 | lower case keeps an address valid |
| WebSocketUrl.HostnameIsStable | packages/sdk/src/lib/websocket-url.ts:54-68 | a normalized host name is the written one in lower case, or the IPv4 address without a dot at its end, and is normalized to itself |
| WebSocketUrl.AuthorityIsStable | packages/sdk/src/lib/websocket-url.ts:70-112 | a normalized authority splits into the normalized host and port, and is normalized to itself |
| WebSocketUrl.PathIsStable | packages/sdk/src/lib/websocket-url.ts:114-127 | a normalized path has one leading slash, ends in the endpoint, invents no characters, and is normalized to itself |
| WebSocketUrl.NormalizationIsIdempotent | packages/sdk/src/lib/websocket-url.ts:129-145 | for every accepted input the output is accepted and maps to itself |
| WebSocketUrl.NormalizationKeepsMeaning | packages/sdk/src/lib/websocket-url.ts:129-145 | the output has the same scheme, the same host in lower case, a port that means the same, and the same path up to slashes at its ends and the endpoint |
| WebSocketUrl.CanonicalIsAccepted | packages/sdk/src/lib/websocket-url.ts:129-145 | every canonical endpoint, of any host and port, is accepted as it is |
| RateLimit.Redis.ConsumeAtomic | apps/api/src/middleware/ratelimit.ts:8-28 | one call counts once, and the reply is the counter and its remaining time |
| RateLimit.Redis.Limit | apps/api/src/middleware/ratelimit.ts:258-279 | the loop over the tiers stops at the first exceeded or failing one |
| RateLimit.HitSetsDeadline | apps/api/src/middleware/ratelimit.ts:8-17 | after every call the key has a deadline, not yet passed and within the window; a key that lost it gets one |
| RateLimit.WindowAdmitsTheFirst | apps/api/src/middleware/ratelimit.ts:8-28 | of the calls in one window exactly the first maxRequests are admitted |
| RateLimit.VisitOfTier | apps/api/src/middleware/ratelimit.ts:258-279 | a request hits a key at most once and is admitted only if no bound is exceeded |
| RateLimit.SlidingBound | apps/api/src/middleware/ratelimit.ts:8-28 | in every half-open interval of one window's length fewer than 2·maxRequests requests are admitted, for any calls, tiers, times and faults |
| RateLimit.BoundIsReached | apps/api/src/middleware/ratelimit.ts:8-28 | the bound 2·maxRequests - 1 is attained |
| RateLimit.BindingBound | apps/api/src/middleware/ratelimit.ts:207-239 | fewer than 60 binding requests from one address in any quarter of an hour |
| RateLimit.LookupBounds | apps/api/src/middleware/ratelimit.ts:241-279 | the bounds of all three lookup tiers hold at once in any minute |

## Left out

- Manifest.ValidateReleaseManifest: does not state the checks of shape, URLs, image names, dates and checksums (manifest.ts:100-141 and 163-236), because each is one test of one field on its own.
- Timestamps, messages and release notes in the status record.
- mergeEnvContent line by line: the version, the image keys and the untouched lines stand for the file.
- pollHealthChecks as a timed loop: a health phase of any length with any probes in between.
- SQL text assembly and the mapping of compose actions to arguments: only the effect of each statement is kept.
- Torn writes and power loss: crashes fall between atomic effects.
- Timer durations of the channel (reconnect back-off, jitter, renewal delay), and rows whose `id` is an object.
- Dates, floats and `undefined` in serializeValue; `\u` escapes, block strings, enum values and variables in the reader; numbers beyond the exact range of a double.
- WhereClause.QueryBuilder.Or: takes its conditions parsed; the parsing of the filter string (query-builder.ts:158-170) yields floats and is not modelled.
- WhereClause.QueryBuilder.Not: does not model operator names inherited by the table object, such as `toString`.
- Wildcard resolution and introspection of the query builder, ordering, paging and the rest of buildQuery.
- Inputs of normalizeWebSocketUrl that are not strings.
- The limiters that count without the script and fail open, response headers, and the digest of the binding handle (a parameter here).
- Admin UI, Fastify plumbing, authentication, JWT and secret handling, and the Deno worker.
