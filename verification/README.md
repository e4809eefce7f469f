# Live deployment and host preflight: verified models

These Dafny modules model what the live deployment scripts and the host preflight scripts decide
themselves: protocols that must hold under crashes, interleavings and lost answers, and parsers and
checks that must accept exactly the right inputs. Each component is a specification (a state machine, a
printed form, a declarative predicate) together with the imperative code proved against it.

| part | files |
|---|---|
| Immutable publication of an artifact and its sidecar | `Publication`, `PublicationSafety`, `PublicationTheorems`, `PublicationReader`, `PublicationHost` |
| Soak controller: checkpoint, its encoded size, tick, schedule | `Soak`, `SoakSize`, `SoakHost`, `SoakSchedule`, `SoakRoom` |
| Canonical JSON comparison and the restart proof that uses it | `Json`, `CanonicalJson`, `RestartProof` |
| Update interruption | `Interruption`, `InterruptionRuns`, `InterruptionHost` |
| Cleanup audit and its second check | `Audit`, `AuditReport`, `AuditHost` |
| Git tree listing, source archive, extraction | `Texts`, `Encoding`, `ArchivePath`, `GitTree`, `SourceArchive`, `Extraction` |
| Symbolic link chains | `AbsolutePath`, `PathInspection`, `PathInspectionHost` |
| Child process runners | `ReadRunner`, `CommandRunner` |
| Exclusive build claim | `BuildClaim` |

`dafny verify dfyconfig.toml` checks everything.

## How the code is modelled

- Code that waits is split at its awaits. What other processes or events do there is an arbitrary
  schedule (`others`, `schedule`, `events`, `pace`, `faults`), so a contract holds for every interleaving.
- Network, clock, filesystem and child processes answer through parameters. A failed call is an answer.
- Digests are taken as the bytes, or the ID, that they are computed from.
- The size of an encoded checkpoint is counted: what its names and fixed texts take, plus the digits of
  every number and the lengths of the texts that vary.
- Characters of texts that the code handles as bytes stand for one byte each.

## Results that differ from the documentation

- The publication refuses a sidecar without its artifact as a state that cannot occur. The state indeed
  cannot occur (`NoOrphanIsReachable`), but the refusal can: the two looks run concurrently, and a look for
  the artifact before another publisher links the pair, with a look for the sidecar after it, refuses a
  perfectly good publication. `RefusedExactlyOnStaleLook` says exactly when, `StaleLookHappens` gives a run,
  and `PublicationHost.OutputDirectory.Publish` shows that this is the only refusal that publishers of one
  pair can meet. One publisher alone never meets it.
- The soak validator accepts intervals of one minute, but a valid budget can be impossible to keep, and no
  valid budget tells how late a tick may be. `SoakSchedule.Leeway` computes that from duration and interval,
  and `ReliableExactlyWithinLeeway` shows that callers late by no more than this, and no others, can rely on
  the schedule. A budget that its runs fill exactly leaves no leeway. The leeway is not negative for every
  interval of at least one tick budget (300000 ms) and negative for every one under half of it
  (`IntervalBounds`). `MinuteIntervalsBreak` gives the eleven punctual ticks after which a soak of 900000 ms
  with intervals of 60000 ms fails at its fixed end.
- A tick can be refused the saving of its own progress: the validator bounds the encoded checkpoint by 256
  KiB, and nothing that a soak accepts before bounds it as much. `SoakHost.SoakWorld.Advance` saves
  whatever a budget has room for (`SoakSize.Roomy`, which a caller can compute beforehand),
  `SoakRoom.PromptSoak` shows that a prompt soak is refused exactly when there is no room, and
  `SoakRoom.WideSoak` gives one that is: 299 runs in three days, whose last checkpoint takes 262707 bytes of
  262144. Resources of at most 400 bytes always have room (`SoakSize.PlainResourcesHaveRoom`).
- The decoder of the tree listing refuses a path that is no UTF-8 and drops a byte order mark at the
  beginning of a path and of the text before it. What Git prints for a commit is read back exactly when every
  path is UTF-8 and none begins with a mark (`GitTree.ReadExactlyWhenPlain`); a path that does begin with one
  is read as another path (`MarkedPathIsCut`), and refused as a duplicate beside that one
  (`MarkedBesideBareIsRefused`). A record with a mark before its mode is accepted although Git prints none
  (`MarkedModeIsAccepted`).
- The child's check of an audit report accepts a resource that was never recorded as absent or present, which
  no audit reports (`InventedAbsencePasses`). Apart from that it accepts exactly what audits can leave behind
  (`AttestedExactlyWhenChecked`).
- The final test for a trailing NUL in the tree listing can never fail after the loop
  (`GitTree.AtTheEnd`), and the repeated-path test of the link inspection never decides anything on a
  filesystem that does not change (`CycleHasNoEnd`): a cycle runs out of links anyway.

## Model

| member | source | states |
|---|---|---|
| `PublicationTheorems.SidecarSurvivesOnlyWithArtifact` | scripts/aws-host-retained-storage-host-preflight-sea-publish.js:473-487 | for any number of publishers, any interleaving, crashes and a power loss that keeps any subset of what was not forced: a surviving sidecar has a surviving artifact with exactly the bytes its own publisher supplied, whoever linked it |
| `PublicationTheorems.NamesAreWrittenOnce` | scripts/aws-host-retained-storage-host-preflight-sea-publish.js:337-346 | once linked, a final name keeps its file and bytes in every continuation; only a name not yet forced can be lost to a power loss |
| `PublicationTheorems.CommitsAgree` | scripts/aws-host-retained-storage-host-preflight-sea-publish.js:473-496 | two publishers that ever committed one file name supplied identical artifacts and records |
| `PublicationTheorems.CommitLasts` | scripts/aws-host-retained-storage-host-preflight-sea-publish.js:489-496 | whoever committed keeps finding its own bytes under both names, durably, after any later crash or power loss |
| `PublicationTheorems.NoOrphanIsReachable` | scripts/aws-host-retained-storage-host-preflight-sea-publish.js:445-449 | no reachable state has a sidecar without its artifact |
| `PublicationTheorems.RefusedExactlyOnStaleLook` | scripts/aws-host-retained-storage-host-preflight-sea-publish.js:425-449 | the refusal of an orphan sidecar happens if and only if the artifact was looked for first and missed and the sidecar was found by the later look |
| `PublicationTheorems.StaleLookHappens` | scripts/aws-host-retained-storage-host-preflight-sea-publish.js:425-449 | a run of two publishers of one identical pair in which the second is refused |
| `PublicationSafety.StepKeepsInv` | scripts/aws-host-retained-storage-host-preflight-sea-publish.js:394-520 | every step of every publisher, every crash and every power loss keeps the invariant that ties files, names, durable names, looks and commits together |
| `PublicationSafety.RunKeepsInv` | scripts/aws-host-retained-storage-host-preflight-sea-publish.js:394-520 | so does every run |
| `PublicationSafety.PowerLossKeepsInv` | scripts/aws-host-retained-storage-host-preflight-sea-publish.js:414-415 | losing any unforced names and the bytes of any unforced files keeps the invariant, because both files are forced before either name exists |
| `PublicationSafety.StepGrows` | scripts/aws-host-retained-storage-host-preflight-sea-publish.js:337-346 | short of a power loss no step takes back a name, a durable name, bytes or a forced file: nothing is rolled back |
| `PublicationSafety.CheckStagedPasses` | scripts/aws-host-retained-storage-host-preflight-sea-publish.js:416-423 | the read-back of the private pair never refuses |
| `PublicationReader.ForeignStepIsRelied` | scripts/aws-host-retained-storage-host-preflight-sea-publish.js:98-106 | all that others can do to a published file is to remove its staged link once, with a new change time |
| `PublicationReader.ObservationsAgree` | scripts/aws-host-retained-storage-host-preflight-sea-publish.js:107-127 | two ordered observations of one published file classify as stable or, exactly if the staged link went in between, as a retry; never as changed |
| `PublicationReader.ReversedObservationsMislead` | scripts/aws-host-retained-storage-host-preflight-sea-publish.js:161-166 | the same two observations in reversed order classify as changed if the link went in between, so the order of the two reads is needed |
| `PublicationReader.EveryPairIsClassified` | scripts/aws-host-retained-storage-host-preflight-sea-publish.js:107-127 | any two snapshots are stable exactly when they are equal, and to be taken again exactly when nothing but the change time differs and one link of two is gone; everything else is a change |
| `PublicationHost.OutputDirectory.ReadRegularFile` | scripts/aws-host-retained-storage-host-preflight-sea-publish.js:134-183 | under any interference the reader returns the exact bytes or a size conflict within two attempts; it never reports a change and never fails to stabilize |
| `PublicationHost.OutputDirectory.MatchesPair` | scripts/aws-host-retained-storage-host-preflight-sea-publish.js:267-309 | the pair is accepted exactly when both names hold the expected bytes |
| `PublicationHost.OutputDirectory.LinkOrReuse` | scripts/aws-host-retained-storage-host-preflight-sea-publish.js:319-335 | afterwards the name exists, and it is accepted exactly when it holds this publisher's bytes, whoever linked it |
| `PublicationHost.OutputDirectory.Stage` | scripts/aws-host-retained-storage-host-preflight-sea-publish.js:394-423 | afterwards both private files are on disk with exactly the supplied bytes and were read back, whatever the others did meanwhile |
| `PublicationHost.OutputDirectory.InspectFinals` | scripts/aws-host-retained-storage-host-preflight-sea-publish.js:425-471 | the looks and reads before the links; what they refuse is a disagreeing publisher's bytes or the stale look |
| `PublicationHost.OutputDirectory.LinkPair` | scripts/aws-host-retained-storage-host-preflight-sea-publish.js:473-496 | it either commits, with both names on disk and holding this publisher's bytes, or fails on a name that holds other bytes |
| `PublicationHost.OutputDirectory.Publish` | scripts/aws-host-retained-storage-host-preflight-sea-publish.js:394-520 | success means committed, durable and both names with the supplied bytes, with the staged links removed; if every publisher of the name supplied this pair, it succeeds from every reachable state, leftovers of crashes included, unless others run and the stale look happens; a refusal names the stale look or the kind of a final name that does hold other bytes |
| `Soak.Validate` | scripts/live-deployment-soak.js:183-341 | the one-pass validator accepts exactly the checkpoints that fit into 256 KiB and whose budget, completions, samples, pending intent and distinct runs are in order |
| `Soak.DistinctByCounting` | scripts/live-deployment-soak.js:337-337 | comparing the number of distinct run IDs with the number of completions decides whether every two of them differ |
| `SoakSize.Create` | scripts/live-deployment-soak.js:161-177 | creation yields the budget as it was asked for, with its defaults, valid and without history, or fails exactly for binding texts or a budget out of bounds |
| `SoakSize.RoomyFits` | scripts/live-deployment-soak.js:184-187 | in a budget with room every checkpoint that a soak can come to fits, however far its history has grown |
| `SoakSize.PlainResourcesHaveRoom` | scripts/live-deployment-soak.js:184-187 | every budget that the validator accepts has room for resources of at most 400 bytes |
| `SoakHost.AfterIsWellFormed` | scripts/live-deployment-soak.js:708-792 | the checkpoint that commits completion and sample together passes every test of its contents and only extends the history; it is complete exactly at the tick after the last run |
| `SoakHost.AtMostOneRunAhead` | scripts/live-deployment-soak.js:621-659 | the server holds at most one run beyond the completed ones, none beyond them without a saved intent, and each under its own sequence number |
| `SoakHost.CompleteMeansExactRuns` | scripts/live-deployment-soak.js:772-792 | once completion is saved, the server's runs are exactly the recorded ones, key by key |
| `SoakHost.StartIsConsistent` | scripts/live-deployment-soak.js:637-648 | starting the pending sequence on the server keeps checkpoint and server in agreement, whether or not the answer arrives |
| `SoakHost.SoakWorld.Save` | scripts/live-deployment-soak.js:473-481 | before the tick's deadline the validator refuses exactly what is too long, and nothing else that the tick saves; a lost save leaves either the old or the new checkpoint |
| `SoakHost.SoakWorld.RecordIntent` | scripts/live-deployment-soak.js:616-628 | an intent is saved before anything is started, and an earlier one is kept |
| `SoakHost.SoakWorld.Workflow` | scripts/live-deployment-soak.js:629-707 | start, retention of the run ID and following to the end change nothing but the pending intent, and the server only gains that run |
| `SoakHost.SoakWorld.Commit` | scripts/live-deployment-soak.js:708-792 | the disk stays as it was or becomes exactly the next checkpoint |
| `SoakHost.SoakWorld.Advance` | scripts/live-deployment-soak.js:454-803 | one tick under any clock and any failing calls: history only grows, runs only grow, no save is refused while the budget has room, a tick that reports progress saved exactly the next checkpoint, a prompt tick without faults always progresses unless its save is too long, and running past the end takes a whole tick budget; what it adds to the history is what it observed, an acceptable resource and the digests of its own run once that was over, even if only the answer of the save is lost; a tick that is not due changes nothing and says why |
| `SoakHost.SoakWorld.AdvanceAll` | scripts/live-deployment-soak.js:454-803 | the same over any number of ticks with any failures: no save is refused in a budget with room, one sample for each completion and one more exactly when complete, at most one run beyond the completed ones, and exactly the recorded ones once complete |
| `SoakSchedule.KeepableFinishes` | scripts/live-deployment-soak.js:107-116 | a keepable budget ends with every expected run and one sample more, by a final tick due at the fixed end, however late, within the bound, the ticks are and however they fall inside their budgets |
| `SoakSchedule.KeepableIsReliable` | scripts/live-deployment-soak.js:483-511 | a caller of a keepable budget who is late by no more than the bound never trips the coverage or admission checks |
| `SoakSchedule.ReliableExactlyWithinLeeway` | scripts/live-deployment-soak.js:483-511 | callers who may be late by a given time can rely on the schedule if and only if this is within the leeway computed from duration and interval; every history that shows it otherwise passes the validator at each tick |
| `SoakSchedule.KeepableWithinLeeway` | scripts/live-deployment-soak.js:107-116 | the slowest and latest ticks fit into the budget exactly when their lateness is at most the least of three quantities of the budget |
| `SoakSchedule.FarEndBreaks` | scripts/live-deployment-soak.js:499-502 | when the end, with the lateness allowed, is too far behind the last slot, prompt ticks complete every run and the final tick finds a coverage gap |
| `SoakSchedule.SlowTicksBreak` | scripts/live-deployment-soak.js:503-511 | when late and slow ticks drift past the last admission, a tick with runs still to start misses the admission deadline |
| `SoakSchedule.MinuteIntervalsBreak` | scripts/live-deployment-soak.js:499-502 | eleven prompt ticks at intervals of 60000 ms over 900000 ms, after which the tick at the end finds a coverage gap |
| `SoakSchedule.IntervalBounds` | scripts/live-deployment-soak.js:107-116 | for punctual callers, intervals of at least one tick budget are always keepable, those under half of one never |
| `SoakRoom.PromptSoak` | scripts/live-deployment-soak.js:473-481 | a whole soak with prompt ticks on a steady host, whose times have equally many digits and whose end is in reach of the last run, has a save refused if and only if its budget has no room for that host's resources |
| `SoakRoom.WideHasNoRoom` | scripts/live-deployment-soak.js:184-187 | 299 runs in three days with the longest counters and binding texts come to 262707 bytes |
| `SoakRoom.WideSoak` | scripts/live-deployment-soak.js:473-481 | that soak passes every test until a save is refused |
| `Json.PrintIsPrefixFree` | scripts/package-sea-schedule-restart-proof.js:64-66 | the text of a JSON value followed by a delimiter determines the value and the rest, escapes and lone surrogates included (sections 3 to 7 of RFC 8259) |
| `Json.PrintIsInjective` | scripts/package-sea-schedule-restart-proof.js:64-66 | different values print differently |
| `CanonicalJson.FromEntriesSorts` | scripts/package-sea-schedule-restart-proof.js:51-55 | sorted insertion followed by the engine's enumeration, which puts index keys first, yields one order that depends only on the keys |
| `CanonicalJson.CanonicalIsFaithful` | scripts/package-sea-schedule-restart-proof.js:48-56 | canonicalizing keeps the tree and leaves no choice of order at any depth |
| `CanonicalJson.CanonicalFormIsUnique` | scripts/package-sea-schedule-restart-proof.js:48-56 | a canonical form is determined by its tree |
| `CanonicalJson.SameTextExactlyForSameTree` | scripts/package-sea-schedule-restart-proof.js:64-66 | two values compare equal if and only if they are the same JSON tree up to member order |
| `CanonicalJson.InsertionOrderIsImmaterial` | scripts/package-sea-schedule-restart-proof.js:58-66 | the comparison does not depend on insertion order |
| `RestartProof.Verification.RunInitial` | scripts/package-sea-schedule-restart-proof.js:665-707 | the first life makes its calls in order up to the first that fails, and succeeds exactly when it started, became ready, completed and died of the kill |
| `RestartProof.Verification.RunRestart` | scripts/package-sea-schedule-restart-proof.js:709-764 | the second life makes its calls in order up to the first that fails, and succeeds exactly when it is the next generation in a new session, leaves the same JSON tree and exits cleanly |
| `RestartProof.Verification.Verify` | scripts/package-sea-schedule-restart-proof.js:654-832 | a proof is returned if and only if both lives and the cleanup succeeded; on every path the calls are those of the two lives in order up to the first that fails, every start of the replacement stands after the kill of a first resident that died of it, and cleanup runs once, last, for exactly the residents that were started |
| `Interruption.KilledAtMostOnceInEveryOrder` | scripts/live-deployment-update-interruption.js:199-214 | under every order of exit, close, error, abort, timeout and output the group is killed at most once and never after close, no raised failure is forgotten, and every failure kills or finds the group reaped |
| `Interruption.EveryOrderKeepsInv` | scripts/live-deployment-update-interruption.js:334-379 | every order of events keeps the kill discipline and the stop: what was seen stopped never steps again; every fault interrupts the observation |
| `Interruption.FaultsAreRaised` | scripts/live-deployment-update-interruption.js:199-214 | in every order of events each of abort, timeout, error and too much output is remembered exactly when it happened, fails and interrupts the harness, and kills the group or finds it reaped |
| `Interruption.ExitIsUnexpected` | scripts/live-deployment-update-interruption.js:334-346 | an exit is unexpected exactly when no kill came before it, and then interrupts the observation and reaps the group |
| `InterruptionRuns.CalmBatch` | scripts/live-deployment-update-interruption.js:334-379 | under calm events a controller lives on; it is held still exactly once a stop that was asked for lands, and its journal is the last one it wrote before |
| `InterruptionRuns.ReapingRuns` | scripts/live-deployment-update-interruption.js:468-500 | after the kill, the kill landing, the exit and the close in this order reap the group with the journal as it was, through the two waits that follow |
| `InterruptionHost.Harness.StopController` | scripts/live-deployment-update-interruption.js:392-413 | the stop is asked for only after the awaited child was seen, while the controller is alive; it is given up only when the controller is gone, a failure was raised, or a listing, a command line or the stop itself failed |
| `InterruptionHost.Harness.ConfirmStopped` | scripts/live-deployment-update-interruption.js:414-423 | succeeds only on a listing that shows the controller stopped, and gives up only when the controller is gone, a failure was raised, or it could not be read in a listing |
| `InterruptionHost.Harness.HoldAndObserve` | scripts/live-deployment-update-interruption.js:414-443 | succeeds only if the stop was seen before the target was observed healthy, with the journal still equal to `pending` |
| `InterruptionHost.Harness.KillAndReap` | scripts/live-deployment-update-interruption.js:468-500 | succeeds only if this kill was sent, the close followed it, the exit was the kill's, no failure was raised and the journal still equals `pending` |
| `InterruptionHost.Harness.InterruptUpdate` | scripts/live-deployment-update-interruption.js:392-508 | completion means stopped, then observed healthy, then killed, then reaped, with no step of the controller after the stop and the journal untouched; any other end leaves the group killed or reaped; and it is completed for all events, looks and answers that are favourable, a condition on these alone: the child is found, the stop shows in a listing with the journal pending, all is calm up to the kill, and the group is reaped after it |
| `InterruptionHost.QuietRunIsFavourable` | scripts/live-deployment-update-interruption.js:392-508 | one favourable run: the first look finds the child, the stop lands at once, and the group dies when it is killed |
| `Audit.AddItems` | scripts/live-deployment-provider-audit.js:140-154 | a page is added exactly when all its items are sound, none repeats an ID, and the total stays within the limit |
| `Audit.AwsRecords` | scripts/live-deployment-provider-audit.js:118-167 | the read returns all items of all pages exactly when it reached a last page within sixteen, with sound items, no repeated ID and no repeated token; it reports the page limit exactly when sixteen sound pages all ask for more |
| `AuditReport.FindsTheFirst` | scripts/live-deployment-provider-audit.js:170-176 | the recorded ID of a role is that of its first entry, and there is none without an entry |
| `AuditReport.ReflectingReportsPass` | scripts/live-deployment-audit-child.js:60-130 | every report whose lines are unread or written by their reads, with the verdict over them, passes the child's check for that journal |
| `AuditReport.CheckReport` | scripts/live-deployment-audit-child.js:60-130 | the child accepts exactly the reports of this journal with a line for each role, each unread or with what a read can find, whose status is absent exactly for no reason and six clear lines and unknown exactly for a reason or an unread line |
| `AuditReport.AttestedExactlyWhenChecked` | scripts/live-deployment-audit-child.js:60-130 | a report is one that some findings and some finished reads leave, with the right status, if and only if the child accepts it and it invents nothing about a resource that was never recorded |
| `AuditReport.InventedAbsencePasses` | scripts/live-deployment-audit-child.js:103-107 | the child does accept a report that calls a resource absent which was never recorded |
| `AuditReport.WrittenReflects` | scripts/live-deployment-provider-audit.js:236-281 | a finished read changes its own line and no other, in whatever order reads finish |
| `AuditReport.AbsentExactlyWhenAllClear` | scripts/live-deployment-provider-audit.js:179-190 | the verdict is absence if and only if there is no reason and all six reads are in and found nothing alive |
| `AuditHost.ClearExactlyWhenNothingLives` | scripts/live-deployment-provider-audit.js:240-279 | a read comes to its clear finding exactly when it ran to its last page and nothing there is live, by ownership or by exact ID |
| `AuditHost.CountsTheLive` | scripts/live-deployment-provider-audit.js:241-249 | the count of a listing is the number of its items, terminated instances apart |
| `AuditHost.FirstFailure` | scripts/live-deployment-provider-audit.js:280-281 | no failure is found exactly when no read failed; otherwise it is that of the first failed read in starting order |
| `AuditHost.Auditor.SettleAll` | scripts/live-deployment-provider-audit.js:276-281 | with a read missing at the deadline the failure is the timeout; with all in it is the first failed read's |
| `AuditHost.Auditor.AuditAws` | scripts/live-deployment-provider-audit.js:198-294 | no failure if and only if the right account was opened, every read came in and none failed, and the account closed; a failed close overrides every other failure, and a wrong account is named |
| `AuditHost.Auditor.AuditHetzner` | scripts/live-deployment-provider-audit.js:303-383 | no failure if and only if the credential is bound to this deployment and every read came in and none failed; anything wrong with the binding is named as that |
| `AuditHost.Auditor.Run` | scripts/live-deployment-provider-audit.js:417-454 | for every order and lateness of the reads the report passes the child's check; it says absent if and only if nothing was disturbed, no read failed and every read saw nothing alive; it says unknown exactly when it gives a reason, which is whenever something was disturbed or failed; its reason is exactly the first thing that went wrong, except that a failed close comes before all after it; and its lines say what their reads found |
| `ArchivePath.AcceptsExactlyCanonicalPaths` | scripts/aws-host-retained-storage-host-preflight-sea-source.js:345-381 | a raw path is accepted as a path exactly when the path is canonical, within the limit, and written as its type is written |
| `ArchivePath.CanonicalIsNormal` | scripts/aws-host-retained-storage-host-preflight-sea-source.js:367-374 | canonical paths are their own normal form, so the test for normal form refuses nothing that the component test accepts |
| `Encoding.Utf8ExactlyWhenEncoded` | scripts/aws-host-retained-storage-host-preflight-sea-source.js:264-271 | the decoder accepts exactly the bytes that encode some code points, surrogates apart (section 3 of RFC 3629) |
| `GitTree.ParseRecordInverts` | scripts/aws-host-retained-storage-host-preflight-sea-source.js:255-293 | one record parses to an entry if and only if it is that entry as Git prints it, its path in UTF-8, with or without a byte order mark before either of its texts, one that the path begins with not counting |
| `GitTree.ReadBackExactlyWhenPlain` | scripts/aws-host-retained-storage-host-preflight-sea-source.js:264-271 | what Git prints for an entry parses back to it if and only if its path is UTF-8 and does not begin with a byte order mark |
| `GitTree.MarkedModeIsAccepted` | scripts/aws-host-retained-storage-host-preflight-sea-source.js:264-271 | a mark before the mode is accepted, and no entry is printed so |
| `GitTree.MarkedPathIsCut` | scripts/aws-host-retained-storage-host-preflight-sea-source.js:264-271 | a committed path of a mark and `a` is read as `a` |
| `GitTree.PrintIsInjective` | scripts/aws-host-retained-storage-host-preflight-sea-source.js:243-322 | a listing is the written form of one list of entries and marks only |
| `GitTree.MapOfHolds` | scripts/aws-host-retained-storage-host-preflight-sea-source.js:294-315 | the map holds every listed path with its blob, nothing else, and as many as are listed |
| `GitTree.AtTheEnd` | scripts/aws-host-retained-storage-host-preflight-sea-source.js:316-320 | after the loop only the empty text is refused: a text with entries ends with NUL |
| `GitTree.ParseGitTree` | scripts/aws-host-retained-storage-host-preflight-sea-source.js:243-322 | accepted if and only if the whole text is the written form of a nonempty list of distinct entries within the limit, with paths in UTF-8, and then with their map; refused with the fault of the first record that cannot follow |
| `GitTree.ReadExactlyWhenPlain` | scripts/aws-host-retained-storage-host-preflight-sea-source.js:243-322 | what Git prints for a commit is read back as its map if and only if every path is UTF-8 and none begins with a mark |
| `GitTree.MarkedBesideBareIsRefused` | scripts/aws-host-retained-storage-host-preflight-sea-source.js:301-305 | a commit with both `a` and a mark followed by `a` is refused for a duplicate path |
| `SourceArchive.FitsExactly` | scripts/aws-host-retained-storage-host-preflight-sea-source.js:403-470 | a member extends a sound archive exactly when it reads as a line, its path is new, and count and bytes stay within the limits |
| `SourceArchive.ArchiveReader.OnReadEntry` | scripts/aws-host-retained-storage-host-preflight-sea-source.js:403-475 | the callback takes a member exactly when the archive so far stays well formed, and its maps and counter stand for what it took |
| `SourceArchive.HasExplicitParents` | scripts/aws-host-retained-storage-host-preflight-sea-source.js:480-495 | looking up every joined prefix decides whether whatever stands before a slash of the path is an explicit directory |
| `SourceArchive.NothingBeneathAFile` | scripts/aws-host-retained-storage-host-preflight-sea-source.js:484-494 | in a rooted archive no path goes on below a file |
| `SourceArchive.SameSizeSameMap` | scripts/aws-host-retained-storage-host-preflight-sea-source.js:509-525 | equal sizes and agreement on one side make the two maps equal |
| `SourceArchive.ValidateSourceArchive` | scripts/aws-host-retained-storage-host-preflight-sea-source.js:390-527 | accepted if and only if all members are in order and within the limits, every ancestor is an explicit directory, the required files are there, and the files with modes and blob IDs are exactly the commit's |
| `Extraction.Walk.Visit` | scripts/aws-host-retained-storage-host-preflight-sea-source.js:644-680 | the walk accepts a directory exactly when everything below it is a directory or a file with the commit's bytes, and records exactly those paths |
| `Extraction.FoundExactlyWhereItLies` | scripts/aws-host-retained-storage-host-preflight-sea-source.js:644-650 | the walk finds a thing under a path exactly when some list of names leads to it from the root and the path is these names joined |
| `Extraction.VerifyExtractedTree` | scripts/aws-host-retained-storage-host-preflight-sea-source.js:553-696 | accepted if and only if the paths and kinds found are exactly the expected ones and every file is the commit's: going down by names from the root, everything they lead to is expected under these names with its kind and bytes, and nothing else is expected |
| `Extraction.ExtractionIsTheCommit` | scripts/aws-host-retained-storage-host-preflight-sea-source.js:682-696 | archive and extraction together: a file is found on disk if and only if the commit has it, with the commit's bytes |
| `Extraction.FilesLieWhereCommitted` | scripts/aws-host-retained-storage-host-preflight-sea-source.js:682-696 | going down by the components of a path one comes to a file with these bytes if and only if the commit has it there |
| `AbsolutePath.LeadsToCanonical` | scripts/aws-host-retained-storage-host-preflight.js:1092-1093 | resolving a link's target from its directory yields a canonical absolute path |
| `AbsolutePath.FirstComponent` | scripts/aws-host-retained-storage-host-preflight.js:1092-1093 | a target of one component leads on from the directory of its link, or with a slash before it from the root: a name below, a dot nowhere, a dot-dot to the parent |
| `AbsolutePath.NextComponent` | scripts/aws-host-retained-storage-host-preflight.js:1092-1093 | every further component of a target leads on in the same way from where the target led before |
| `AbsolutePath.PlainTarget` | scripts/aws-host-retained-storage-host-preflight.js:1092-1093 | a target of plain names leads to these names below the directory of its link |
| `AbsolutePath.AbsoluteTarget` | scripts/aws-host-retained-storage-host-preflight.js:1092-1093 | a target of a slash and plain names leads there whatever the link is |
| `AbsolutePath.ParentTarget` | scripts/aws-host-retained-storage-host-preflight.js:1092-1093 | a target of a dot-dot and plain names leads to these names below the parent of the link's directory |
| `AbsolutePath.CanonicalIsRendered` | scripts/aws-host-retained-storage-host-preflight.js:255-265 | canonical absolute paths are exactly what is written for lists of plain segments |
| `PathInspection.ValidatePathInspection` | scripts/aws-host-retained-storage-host-preflight.js:403-526 | the check accepts exactly an empty absence, or one to nine sound entries of which all but the last are links, each leading to the next, and the last is a regular file within the limit |
| `PathInspectionHost.CycleHasNoEnd` | scripts/aws-host-retained-storage-host-preflight.js:1052-1055 | on an unchanging filesystem a walk that returns to a path reaches no file within any number of links |
| `PathInspectionHost.Inspector.ReadWhole` | scripts/aws-host-retained-storage-host-preflight.js:1113-1134 | for every schedule of short reads the loop ends, never offers an empty buffer, and digests exactly the whole file, or fails exactly when it is too long |
| `PathInspectionHost.Inspector.InspectFile` | scripts/aws-host-retained-storage-host-preflight.js:1096-1160 | the file's entry passes the check and counts the digested bytes; on an unchanging filesystem it is produced exactly for a readable file |
| `PathInspectionHost.Inspector.NativeInspectPath` | scripts/aws-host-retained-storage-host-preflight.js:1046-1163 | on any changing filesystem every result passes the check and repeats no path; on an unchanging one the result is exactly absence, or the file at the end of at most eight links with its whole content, or failure; every entry then holds the metadata of its path |
| `ReadRunner.EveryOrderKeepsInv` | scripts/inspect-aws-host-retained-storage-host-preflight-sea-linux-docker-readiness.js:598-727 | for every order of events: at most one settlement, retained output within the limit, exactly one timer armed until it settles and none afterwards, one kill at most, and a first failure that decides |
| `ReadRunner.ResolvesExactlyOnCleanClose` | scripts/inspect-aws-host-retained-storage-host-preflight-sea-linux-docker-readiness.js:702-725 | the read resolves if and only if the child closed with status zero before anything but output within the limit, and then with all of that output |
| `ReadRunner.FirstDecisionDecides` | scripts/inspect-aws-host-retained-storage-host-preflight-sea-linux-docker-readiness.js:598-727 | the first event that is more than output within the limit decides the read: a close at once, by its status; anything else by the failure it names, at once without a process, and otherwise with the first close or as unconfirmed with the reap timer |
| `ReadRunner.RunReadOperation` | scripts/inspect-aws-host-retained-storage-host-preflight-sea-linux-docker-readiness.js:592-727 | the callbacks on their shared variables do exactly this: no outcome while there is only output within the limit, and otherwise the one that the first decision leads to |
| `CommandRunner.EveryOrderKeepsInv` | scripts/live-deployment-package.js:216-328 | for every order of events: one settlement, with the close; the group killed at every fault and at the end; after the close neither the timer nor the abort listener is left, while the listeners for spawn and input errors stay |
| `CommandRunner.KeepsTheBeginning` | scripts/live-deployment-package.js:257-273 | what is kept of each stream is always its beginning up to the limit, and the flag says exactly whether there was more |
| `CommandRunner.ResolvesExactlyOnCleanClose` | scripts/live-deployment-package.js:284-327 | the command resolves if and only if it closed with status zero before anything but output within the limits, and then with all of that output |
| `CommandRunner.FirstCloseDecides` | scripts/live-deployment-package.js:284-327 | the first close settles the command: with all output if its status is zero and nothing went wrong before, otherwise with a diagnostic that says exactly what had happened |
| `CommandRunner.RunLiveDeploymentProcess` | scripts/live-deployment-package.js:212-328 | the callbacks on their shared variables do exactly this; a command that was aborted beforehand never starts |
| `BuildClaim.EveryInterleavingKeepsInv` | scripts/aws-host-retained-storage-host-preflight-sea-build.js:274-430 | every interleaving of any number of build calls keeps claim, directories, workspaces and removals in agreement |
| `BuildClaim.InsideIsPrivate` | scripts/aws-host-retained-storage-host-preflight-sea-build.js:297-300 | the four directories of a build are different ones, all inside its workspace |
| `BuildClaim.ClaimIsExclusive` | scripts/aws-host-retained-storage-host-preflight-sea-build.js:274-300 | two calls never hold the claim at once, and the four directories differ from the originals only while the holder builds, and then are its own |
| `BuildClaim.NothingIsLeft` | scripts/aws-host-retained-storage-host-preflight-sea-build.js:383-414 | once all calls have settled the claim is free, the directories are the originals, and every workspace left had a failed removal that was reported |
| `BuildClaim.OthersKeepOut` | scripts/aws-host-retained-storage-host-preflight-sea-build.js:280-285 | no other call changes a holder's claim or directories |
| `BuildClaim.BuildProcess.Build` | scripts/aws-host-retained-storage-host-preflight-sea-build.js:274-430 | with any other calls running at each await the outcome is exactly determined by the claim at the start and this call's own steps |

## Left out

- PublicationHost.OutputDirectory.MatchesPair: does not parse or validate the record, and reads the two files one after the other; each read may be interfered with.
- PublicationHost.OutputDirectory.Stage: its own filesystem calls do not fail here, and the record is not validated.
- PublicationHost.OutputDirectory.Publish: its own filesystem calls do not fail here; a failing or crashing publisher is a step of the state machine (`Fail`, `Crash`), which the safety theorems cover.
- Foreign files and symbolic links under destination names: the output directory starts empty and only publishers write to it.
- The record's own validation and the size bounds of the publication's inputs: the record is a byte string.
- Soak.Validate: does not model the exact keys, the ID patterns and the equality of the binding with the deployment state; the binding is modelled by the lengths of its texts as they are encoded.
- SoakSize.Create: takes the lengths of the binding texts for the binding.
- SoakRoom.PromptSoak: for budgets whose times have equally many digits and whose last run is in reach of the end; every other budget has `SoakHost.SoakWorld.AdvanceAll`, where room is enough.
- SoakHost.SoakWorld.Advance: takes the wall clock and the monotonic clock at the start of a tick as one instant, and takes the inspections of retained runs, markers and ledgers as port calls that may fail.
- The server keeps its runs and answers one key with one run; the code relies on that and cannot enforce it.
- SoakSchedule.KeepableFinishes: all ticks share one bound on their lateness; a caller who knows how late the earlier ones were could allow a later one more.
- Json.PrintIsInjective: number texts are given, and number formatting is assumed to be injective; the byte bound and reparsing of compared objects are not modelled.
- RestartProof.Verification.RunInitial: the field checks of what the ports answer are left out, as in `Verify`.
- RestartProof.Verification.RunRestart: likewise.
- RestartProof.Verification.Verify: the field checks of ready messages, snapshots and cursors are answers that are absent when a check refuses them.
- The parser of process listings, the comparison of command lines, and the fault codes of the update interruption.
- Opening of provider clients, filter construction, field checks of journals and exact keys of reports in the cleanup audit.
- SourceArchive.ValidateSourceArchive: tar framing and blob ID computation are not modelled, a member carries the ID of its bytes; which message a refused archive gets is not stated.
- Extraction.Walk.Visit: the files do not change during the walk, as in `VerifyExtractedTree`.
- Extraction.FoundExactlyWhereItLies: names are as a directory lists them, none empty, none with a slash, each once.
- Extraction.VerifyExtractedTree: the files do not change during the walk, so the stability checks around each read and the change of permissions are not modelled.
- PathInspection.ValidatePathInspection: exact keys and the form of the digest are left out; a digest is what it was computed from.
- PathInspectionHost.Inspector.NativeInspectPath: the host record that uses the inspections is not modelled.
- CommandRunner.RunLiveDeploymentProcess: the recognition of packaged failure messages is not modelled.
- The file reader of the readiness inspection, whose loop is the one of `ReadWhole` with fewer cases.
- BuildClaim.BuildProcess.Build: what the two resource classes do while building, and validation before the claim, are one step that succeeds or fails.
- The runtime under `src/core`, real Git, Docker, SSH, systemd and cloud calls, command lines, environments and documentation.
