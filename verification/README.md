# Verified models of EXP protocols

Dafny models of the step-by-step protocols in EXP and proofs about every run of them. Databases, stores and locks are
atomic steps that may be refused; calls that can fail are made to fail in every way their callers must survive. Digests
and content IDs are injective, and weights are real numbers.

| modules | what they model |
|---|---|
| `KeyDirectory`, `KeyOutputState`, `KeySteps`, `KeyOutput`, `CompatibilityKey` | One-time key delivery: a directory with a volatile and a durable view, the marker and reservation protocol, recovery, settlement, and the retrying driver, with a crash possible in every recorded state. |
| `StudyPlans`, `Studies`, `StudyRuns` | Study plans, the resumable study runner, and campaigns of any number of interrupted runs over one immutable store. |
| `WorldSession`, `Evaluation`, `Actor` | The durable step of a simulated world, scored workflows with online or deferred feedback, and the recorder around a live actor. |
| `GuardrailDocument`, `GatewaySetup`, `GatewayCommands` | Setup-owned edits of the guardrail document, and the nested compensation of settings, guardrail file, catalog and alias. |
| `PlanSignIn`, `PlanUsability` | Adds, removals and refreshes of a plan sign-in, interleaved one store operation at a time, and the starts from which no interleaving leaves an active plan connection without a sign-in it can dispatch on. |
| `BuildReview`, `Scenarios` | The selected build and its review handoff, and authored scenario selection. |
| `ReviewSelector`, `TokenDisplay`, `ModelAliases`, `TerminalScreen` | Review targets, token rounding, model aliases, and the terminal replay machine. |
| `Wrappers`, `Texts` | Shared value types and facts. |

Code that changes things in place is a class or a loop, proved equal to a specification function; what the code is for is
then proved about that function, for all inputs and all runs. A crash, a refusal or an interleaving is a parameter of
the run (`cut`, `fuel`, `faults`, `moves`) or a choice made inside a step (`Refused`, `Interfere`), so a theorem over runs
covers all of them.

## Where the code does not meet its own promise

Each is stated as it is, with an input that shows it and the condition under which the promise does hold.

* A failed publication keeps the marker's identity from before the marker was linked, and linking may change its change time. Its own
  cleanup then takes the marker for a changed file and stops with only the marker left, which the next recovery removes
  (`KeyOutput.CleanUp` and `KeyOutput.Deliver` say that, without another refusal, this is the only thing that can be left).
* A progress report, or the closing display, that raises after the alias was activated makes the outer context managers
  put settings and guardrail file back beside the new catalog and alias (`GatewaySetup.LateReportStrandsTheCommit`;
  the exact condition is in `GatewaySetup.SetupIsAllOrNothing`).
* `models.toml` that is a symlink to a missing file is not restored by a proven rollback: the rollback unlinks the
  configured path, so the link goes and the target stays (`GatewaySetup.DanglingCatalogLinkIsLost`; condition in
  `GatewaySetup.CatalogAllOrNothing`).
* `_activate_plan_connection` says a connection is never active without a usable sign-in, and a dispatch uses only one bound to the
  active settings. Runs can break that, and the starts from which none does, at any moment when no add is between its write and its
  end, are exactly known: `PlanUsability.UsableExactly` when anything may raise, and `PlanUsability.UsableExactlyWhenTidy` when a
  transaction that raises never landed and no undo raises. A lone add whose new connection commits and then raises takes its own
  sign-in away (`PlanUsability.LandedRaiseLoses`). Without any failing call, two first adds of one name with different settings, a
  revision beside a new sign-in to the settings being revised, and an add going back to old settings beside a refresh for them all do
  it (`PlanUsability.TwoFirstAddsLoseTheSignIn`, `PlanUsability.RevisionBesideSignInLoses`, `PlanUsability.RefreshForOldSettingsLoses`).
* Disabling after enabling gives the lists back exactly under the condition in `GuardrailDocument.DisableUndoesEnable`,
  and a plan to turn guardrails off fails after publishing when a custom policy remains (`GatewaySetup.OffPlanLands`).
* What is shown for a review key parses back, or is reported ambiguous, exactly when it does not begin with `[`
  (`ReviewSelector.ParsesBackUnlessBracketed`); one that does can parse as another key
  (`ReviewSelector.BracketedKeyParsesAsAnother`).

## Model

| member | source | states |
|---|---|---|
| `KeyDirectory.DecodeEncode` | exp/cli/gateway/key_output.py:45-94 | A complete marker text decodes to its marker, and holds no secret byte. |
| `KeyDirectory.Host.CreateExclusive` | exp/cli/gateway/key_output.py:142-148 | A new private empty file under a name nothing had, recorded but not yet durable. |
| `KeyDirectory.Host.Write` | exp/cli/gateway/key_output.py:167-172 | Appends some of the bytes; earlier contents remain possible after a crash until the file is synced. |
| `KeyDirectory.Host.SyncFile` | exp/cli/gateway/key_output.py:174 | Leaves the current contents as the only ones a crash can leave. |
| `KeyDirectory.Host.SyncDirectory` | exp/cli/gateway/key_output.py:526-532 | Leaves the live directory as the only one a crash can leave. |
| `KeyDirectory.Host.Link` | exp/cli/gateway/key_output.py:159 | A second name for the same inode, never over an existing name. |
| `KeyDirectory.Host.UnlinkExact` | exp/cli/gateway/key_output.py:480-502 | Removes a name only while a final stat still shows the verified file. |
| `KeyDirectory.Host.RecordedInode` | exp/cli/gateway/key_output.py:419-436 | The identity of a name exactly when it is the recorded private file of bounded size. |
| `KeyDirectory.Host.ReadPrivate` | exp/cli/gateway/key_output.py:454-477 | Bytes and identity of one bounded private regular file, or nothing. |
| `KeyDirectory.Host.Restart` | exp/cli/gateway/key_output.py:229-256 | A restart in any directory and any contents a crash in a recorded state may leave; the key row is what was committed by then. |
| `KeyOutputState.ReservationNameValid` | exp/cli/gateway/key_output.py:134 | Every reservation name that delivery makes is one recovery accepts. |
| `KeyOutputState.ReservationValidExactly` | exp/cli/gateway/key_output.py:439-451 | Recovery accepts exactly the hidden siblings of the output with 32 lower-case hexadecimal digits and the reservation's ending. |
| `KeyOutputState.NamesApart` | exp/cli/gateway/key_output.py:439-451 | A reservation name that recovery accepts is never the output, the marker or a marker copy. |
| `KeyOutputState.CrashLeavesSecretGuarded` | exp/cli/gateway/key_output.py:141-177 | Crash ordering: after a crash in any state satisfying the invariant, a name leading to any secret byte is the output path, and unless its key is committed and complete, a complete marker names that inode and the digest of its bytes and the reservation is gone. |
| `KeyOutputState.CrashKeepsInv` | exp/cli/gateway/key_output.py:141-177 | What a crash leaves satisfies the invariant again, so recovery starts from it. |
| `KeyOutputState.SecretWritten` | exp/cli/gateway/key_output.py:167-172 | Writing more of the secret keeps the ownership claim, when only the output name leads to the inode. |
| `KeyOutputState.InvFilled` | exp/cli/gateway/key_output.py:167-172 | A partial secret write keeps the invariant in the volatile and the durable view. |
| `KeyOutputState.InvFilledSynced` | exp/cli/gateway/key_output.py:174-177 | After file and directory sync the output is exactly the key whatever crash follows. |
| `KeyOutputState.MarkerLinked` | exp/cli/gateway/key_output.py:376 | Linking the complete, synced copy under the marker name makes a claim that owns the reserved inode. |
| `KeyOutputState.StagingCreated` | exp/cli/gateway/key_output.py:361-362 | Creating the private marker copy disturbs no claim. |
| `KeyOutputState.StagingWritten` | exp/cli/gateway/key_output.py:366-370 | Writing the private marker copy disturbs no claim, however the writes are split. |
| `KeyOutputState.InvUnlinked` | exp/cli/gateway/key_output.py:480-483 | Removing a name keeps the invariant in every durable view when the marker goes last. |
| `KeyOutput.WriteMarkerOnce` | exp/cli/gateway/key_output.py:359-384 | Either the durable marker owns the still empty reserved inode, or it reports none, prior evidence is untouched, and a marker of its own is one a crash may still lose; every step keeps the invariant, and only the copy is removed, always when at most one call was refused. |
| `KeyOutput.LinkOutput` | exp/cli/gateway/key_output.py:159-166 | The output name becomes durable before the reservation is given up, in every recorded state; only the recorded inode is unlinked, and no other name or file changes. |
| `KeyOutput.WriteSecret` | exp/cli/gateway/key_output.py:167-177 | From a claimed, alone output name to exactly the key on disk, durable. |
| `KeyOutput.Publish` | exp/cli/gateway/key_output.py:141-177 | The whole guarded publication: success leaves exact output and marker and no reservation, durable; failure reports how far it got and leaves only names that still lead to what it recorded; the identities it notes are those of files it made; nothing refused means success. |
| `KeyOutput.CleanUp` | exp/cli/gateway/key_output.py:178-204 | A failed publication removes only its own recorded entries, marker last; cleaned means none of them is left, durably once the marker was; while each still is the recorded file and no call is refused, only a marker whose stat is out of date can be left. |
| `KeyOutput.Deliver` | exp/cli/gateway/key_output.py:115-226 | Delivered, undone, or preserved; undone means none of its names is left; with fresh names evidence is preserved only after a second refusal or for a marker whose stat is out of date; a key of the wrong length changes nothing; only the recorded inodes and the marker copy are ever unlinked. |
| `KeyOutput.ReadMarker` | exp/cli/gateway/key_output.py:387-393 | The complete marker in place and the identity of its file. |
| `KeyOutput.ExactOutput` | exp/cli/gateway/key_output.py:396-416 | The output identity exactly when its bytes have the recorded digest and length. |
| `KeyOutput.RollBack` | exp/cli/gateway/key_output.py:208-219 | Output and marker are durably gone when it succeeds, and it succeeds unless a call is refused; whatever other processes do, it unlinks only with the reservation seen gone, an output it read as exactly this key, and the marker it read. |
| `KeyOutput.Settle` | exp/cli/gateway/key_output.py:326-344 | Removes the committed output marker, and nothing else; whatever other processes do, it unlinks only the marker file it read, with that marker's reservation seen gone and its output read as exactly the recorded one. |
| `KeyOutput.MarkerInPlace` | exp/cli/gateway/key_output.py:257-289 | What a marker in place proves about reservation, output and the committed key. |
| `KeyOutput.DiscardOutput` | exp/cli/gateway/key_output.py:290-316 | Output, reservation, then marker; in every recorded state the marker is there unless both others are gone. |
| `KeyOutput.Recover` | exp/cli/gateway/key_output.py:229-323 | Rolled back: all three names gone, marker last; committed: the exact committed bytes untouched; unknown: nothing changed; without interference or refusal it always reaches one of the first two. Whatever other processes do, it unlinks only the marker it read and the inode that marker records, goes on only with no marker seen or one of this command, and reports a recovered key only with its reservation seen gone and its output read as exactly the recorded one. |
| `CompatibilityKey.PublishedCommits` | exp/runtime/gateway/sqlite/store.py:352-364 | Committing right after a publication leaves exactly the committed key on disk. |
| `CompatibilityKey.IssueKey` | exp/runtime/gateway/sqlite/store.py:304-403 | One transaction around the delivery: issued means the file holds the committed key; not issued means nothing was committed, and after a delivery and at most one refused call that output and marker are durably gone; unknown means both are left in place; in any interference it unlinks only its own marker copy and inodes it made or read as its own. |
| `CompatibilityKey.CommitOrUndo` | exp/runtime/gateway/sqlite/store.py:352-403 | The receipt, the commit and its reconciliation: a proven rollback leaves output and marker durably gone unless a second call is refused, and an unknown outcome leaves both in place. |
| `CompatibilityKey.Undo` | exp/cli/gateway/key_output.py:208-219 | The rollback hook: done means output and marker are durably gone, and without a refused call it is done. |
| `CompatibilityKey.OutputWithoutMarker` | exp/cli/gateway/compatibility.py:96-99 | With no marker, the key file exists exactly when a key is committed, and then holds it. |
| `CompatibilityKey.Authenticate` | exp/cli/gateway/compatibility.py:96-99 | An existing file is accepted only when what was read from it is the issued key, whatever other processes do; without interference or refusal the committed one always is. |
| `CompatibilityKey.EnsureCompatibilityKey` | exp/cli/gateway/compatibility.py:74-107 | A run that does not raise leaves the committed key in the file and no marker; a committed key is never replaced; a settled file is left alone; whatever other processes do, it unlinks only its own marker copy, files it made, its exact output, and markers it read with the inodes they record. |
| `CompatibilityKey.Operate` | exp/cli/gateway/compatibility.py:74-107 | Any number of runs, each refused anywhere or cut off by a crash anywhere, keep the invariant and any committed key. |
| `CompatibilityKey.Converge` | exp/cli/gateway/compatibility.py:74-107 | After any such runs one run that nothing refuses settles on one committed key and its file; other files in the directory, other keys included, may hold anything. |
| `CompatibilityKey.CrashedRun` | exp/cli/gateway/key_output.py:229-256 | A crash in any state a run passed through leaves the secret guarded. |
| `StudyPlans.Validate` | exp/simulation/studies.py:70-83 | Accepts exactly the plans with unique IDs, earlier dependencies and no development dependency on confirmation; a refusal names the first fault. |
| `StudyPlans.UniqueIds` | exp/simulation/studies.py:73-83 | In an accepted plan one ID is one position. |
| `StudyPlans.ChainsDescend` | exp/simulation/studies.py:70-83 | Along every chain of dependencies positions strictly fall, so an accepted plan is acyclic. |
| `StudyPlans.PhaseIsolationIsTransitive` | exp/simulation/studies.py:78-82 | Everything a development job reaches through any chain is a development job. |
| `Studies.ArtifactStore.RunStudies` | exp/simulation/studies.py:100-178 | The resumable loop over one immutable store, cut off before any save or call, is the specified run. |
| `StudyRuns.StatesDefined` | exp/simulation/studies.py:153 | Every dependency lookup of a job finds a status. |
| `StudyRuns.ExecutedOk` | exp/simulation/studies.py:155-169 | One execution saves its intent, calls once, and saves a completion exactly for a reply with the planned judges and steps, and otherwise the failure that reply deserves. |
| `StudyRuns.OutcomesAreReplies` | exp/simulation/studies.py:155-169 | Over any runs, every saved outcome is that of one call: completed, with its content, exactly when the executor returned the planned judges and steps, and otherwise a failure with the error it raised or the mismatch; every reply is what that run's executor gives for that job. |
| `StudyRuns.UncutRunFinishes` | exp/simulation/studies.py:100-178 | A run with room to finish does finish, exactly when the plan ID is not registered for another plan, with one row per job, ambiguous exactly for a job whose intent was left without an outcome. |
| `StudyRuns.RunEndTells` | exp/simulation/studies.py:100-178 | How a run ended and how many saves and calls it used say exactly where it was cut off or which error stopped it. |
| `StudyRuns.RunKeeps` | exp/simulation/studies.py:126-178 | One run, cut off anywhere, keeps registration, intents and outcomes consistent with the calls made. |
| `StudyRuns.AtMostOnce` | exp/simulation/studies.py:126-171 | Over any runs of any plans, each cut off anywhere, a job of a plan is executed at most once, and only with every dependency already saved as completed. |
| `StudyRuns.NeverAnotherJob` | exp/simulation/studies.py:129-140 | After any such runs, no saved result belongs to another job: that error is unreachable. |
| `StudyRuns.OutcomesAbsorb` | exp/simulation/studies.py:132-171 | Completed and failed never change once saved, and an intent without an outcome stays ambiguous for good. |
| `StudyRuns.FinishedIsFixed` | exp/simulation/studies.py:132-178 | Once a run has finished, every later run returns the same rows in plan order and executes nothing, whatever ran in between. |
| `Evaluation.LiveSession.EvaluateWorkflow` | exp/simulation/evaluation.py:44-206 | The loop over a mutable session is the specified evaluation, raising where it raises; a spend stop inside online feedback leaves the loop. |
| `Evaluation.RefusesExactly` | exp/simulation/evaluation.py:71-92 | An evaluation is refused before dispatch exactly for a used session, a repeated call ID, references that do not repeat the actions one by one, or disclosure without an available reply for each. |
| `WorldSession.StepCommitsOnce` | exp/simulation/world_model/durable.py:191-335 | A step that returns has one reply for each action, in order, and one new transition; one that raises commits at most once and changes the state only if it did. |
| `WorldSession.StepEnds` | exp/simulation/world_model/durable.py:191-335 | Which proposal ends a step, what it commits, and which error is raised: the first accepted proposal within the asks allowed, or the first fault before it. |
| `Evaluation.RaisesExactly` | exp/simulation/evaluation.py:95-157 | The different-inventory error is unreachable: the loop raises an error exactly when one of its actions met it as an infrastructure error, or it is a spend stop that online feedback met. |
| `Evaluation.EvaluationRaises` | exp/simulation/evaluation.py:95-172 | An admitted evaluation raises exactly what its loop raises, or an error of settling deferred feedback. |
| `Evaluation.SessionFollows` | exp/simulation/evaluation.py:95-157 | The session after an action is what its reaction left, and after a disclosure what the feedback left. |
| `Evaluation.SettledSession` | exp/simulation/evaluation.py:159-172 | After the loop the session changes only by settling deferred feedback. |
| `Evaluation.StepsRecord` | exp/simulation/evaluation.py:95-158 | Each recorded step is its action with the reaction it met, the state before and after it, or the mark of a blocked one. |
| `Evaluation.DeferredFeedback` | exp/simulation/evaluation.py:159-172 | Deferred feedback is settled once, after an unstopped loop: the error is that of the first failed row, none exactly when no row failed, and the receipts are those of all receipt rows, in order. |
| `Evaluation.OnlineFeedback` | exp/simulation/evaluation.py:128-157 | Online, the receipts are those observed, in action order, and the error is that of the one observation that failed. |
| `Evaluation.NoFeedback` | exp/simulation/evaluation.py:159-172 | Without a feedback source there are no receipts and no feedback error. |
| `Evaluation.StepsGrow` | exp/simulation/evaluation.py:95-158 | Steps already recorded never change. |
| `Evaluation.SeenDecides` | exp/simulation/evaluation.py:95-146 | What is recorded at a step is fixed by the session as it was before that reply was disclosed. |
| `Evaluation.NoForesight` | exp/simulation/evaluation.py:78-172 | Two evaluations whose references agree on the replies before i record the same steps through i. |
| `Evaluation.DeferredIsBlind` | exp/simulation/evaluation.py:159-172 | With deferred feedback the whole step list is independent of every reply. |
| `Evaluation.EvidenceShape` | exp/simulation/evaluation.py:95-206 | One step per action, in order: valid steps, at most one failure, then only blocked; completed exactly when all are valid with no feedback error; the evidence contract accepts it. |
| `Evaluation.StepsChain` | exp/simulation/evaluation.py:95-146 | Where feedback leaves the state alone, each executed step starts where the one before ended. |
| `Actor.RecordingEnvironment.Execute` | exp/simulation/actor.py:39-76 | One tool call on the live recorder is the specified recording, raising when it raises. |
| `Actor.RecordsStopAtFailure` | exp/simulation/actor.py:39-76 | Whatever an actor calls, steps are numbered in order and nothing follows a failure. |
| `Actor.OneStepPerCall` | exp/simulation/actor.py:41-76 | A call on an open recorder records exactly one step, so the different-inventory error is unreachable, unless spending stopped, which records nothing and changes no state. |
| `Actor.RecordsChain` | exp/simulation/actor.py:44-75 | On a fresh recorder, whatever is called in whatever world, each step starts where the one before ended, from the initial state to the state of the session. |
| `GuardrailDocument.ReadsBack` | exp/cli/gateway/guardrail_setup_store.py:686-704 | The lists written are the lists read back and every other field is untouched. |
| `GuardrailDocument.OwnedAdapterIsOwned` | exp/cli/gateway/guardrail_setup_store.py:643-660 | The adapter setup authors is the one its ownership test accepts. |
| `GuardrailDocument.OwnedPolicyIsOwned` | exp/cli/gateway/guardrail_setup_store.py:663-683 | The policy setup authors is the one its ownership test accepts. |
| `GuardrailDocument.ObjectListMeans` | exp/cli/gateway/guardrail_setup_store.py:516-539 | A list is read from an absent or null field as empty, and otherwise exactly from an array of objects. |
| `GuardrailDocument.OwnedAdapterMeans` | exp/cli/gateway/guardrail_setup_store.py:423-445 | Setup owns exactly the adapters with the fields it always writes and no value it would not write. |
| `GuardrailDocument.OwnedPolicyMeans` | exp/cli/gateway/guardrail_setup_store.py:380-420 | Setup owns exactly the policies with the six fields it always writes and no value it would not write. |
| `GuardrailDocument.BindsMeans` | exp/cli/gateway/guardrail_setup_store.py:597-620 | A policy refers to an adapter exactly as that of a capability or of a check. |
| `GuardrailDocument.EnableRefusedExactly` | exp/cli/gateway/guardrail_setup_store.py:305-348 | Enabling is refused, and with which error, exactly for an unreadable list, two policies of the pair, one that setup does not own unless replacing was asked for, or a first adapter of that ID that setup does not own. |
| `GuardrailDocument.EnableLandsAsStandard` | exp/cli/gateway/guardrail_setup_store.py:305-348 | Enabling always inspects as the standard pack with the planned endpoint. |
| `GuardrailDocument.EnableIsIdempotent` | exp/cli/gateway/guardrail_setup_store.py:305-348 | Enabling twice is enabling once. |
| `GuardrailDocument.EnableFrames` | exp/cli/gateway/guardrail_setup_store.py:305-348 | Other policies, other adapters and other fields stay, in order. |
| `GuardrailDocument.EnableKeepsIntact` | exp/cli/gateway/guardrail_setup_store.py:305-348 | Enabling never leaves a policy naming a missing adapter. |
| `GuardrailDocument.DisableReads` | exp/cli/gateway/guardrail_setup_store.py:351-377 | Disabling fails exactly on an unreadable list. |
| `GuardrailDocument.DisableFrames` | exp/cli/gateway/guardrail_setup_store.py:351-377 | Everything setup does not own stays, in order. |
| `GuardrailDocument.DisableIsIdempotent` | exp/cli/gateway/guardrail_setup_store.py:351-377 | Disabling twice is disabling once. |
| `GuardrailDocument.DisableKeepsIntact` | exp/cli/gateway/guardrail_setup_store.py:364-377 | An adapter still bound by a remaining policy, by capability or by check, is kept. |
| `GuardrailDocument.DisableAfterEnable` | exp/cli/gateway/guardrail_setup_store.py:305-377 | The lists that disabling leaves after enabling. |
| `GuardrailDocument.DisableUndoesEnable` | exp/cli/gateway/guardrail_setup_store.py:305-377 | Disabling undoes enabling exactly when the pair had no policy and no setup adapter, or the planned adapter was already last for another policy. |
| `GuardrailDocument.DisableLandsAsOff` | exp/cli/gateway/guardrail_setup_store.py:351-377 | After disabling the pair reads as off exactly when setup owned every policy it had. |
| `GatewaySetup.ActivationTellsTheTruth` | exp/runtime/gateway/sqlite/alias_activation.py:47-121 | A reported activation or refusal is the truth; unknown only when COMMIT was dispatched unacknowledged or torn down and nothing could be read. |
| `GatewaySetup.CatalogAllOrNothing` | exp/runtime/gateway/catalog_authority.py:260-356 | Catalog and alias both new, both as before, or reported in doubt; a proven failure restores the catalog exactly unless it was a dangling symlink whose new target is removed. |
| `GatewaySetup.DanglingCatalogLinkIsLost` | exp/runtime/gateway/catalog_authority.py:289-317 | A concrete setup after which the catalog symlink is gone behind a proven failure. |
| `GatewaySetup.RollbackProves` | exp/runtime/gateway/catalog_authority.py:273-356 | A catalog rollback touches only the planned catalog and is proven exactly when the original can be read back. |
| `GatewaySetup.QuietRollbackProves` | exp/runtime/gateway/catalog_authority.py:273-356 | With nothing refused in the undo and no edit by anyone else, a failed activation is always a proven one. |
| `GatewaySetup.ForeignEditSurvives` | exp/runtime/gateway/catalog_authority.py:273-356 | What anyone else wrote to the catalog meanwhile survives a failed window, unless it is the planned catalog itself. |
| `GatewaySetup.PoolIsAllOrNothing` | exp/cli/gateway/pool.py:85-178 | Certifying a pool ends with catalog and alias both new, both old, or reported unknown; it is refused, and nothing changes, exactly when the catalog is not the observed one and the alias would change. |
| `GatewaySetup.QuietPoolChanges` | exp/cli/gateway/pool.py:85-178 | With nothing refused, every certification that is not stale, or would leave the alias alone, ends with catalog and alias both new. |
| `GatewaySetup.AppliedOrUntouched` | exp/cli/gateway/guardrail_setup_store.py:232-257 | The guardrail mutation leaves the planned file or the previous one, and keeps a symlink. |
| `GatewaySetup.RestoreBrings` | exp/cli/gateway/guardrail_setup_store.py:260-280 | Restoring a preimage brings back the exact slot: absent stays absent, a symlink stays. |
| `GatewaySetup.PublishMeans` | exp/cli/gateway/guardrail_setup_store.py:283-302 | Publishing removes the file exactly when it is a regular one and nothing but two empty lists is left to write. |
| `GatewaySetup.PlannedExactly` | exp/cli/gateway/guardrail_setup_store.py:232-257 | The planned file is the published edit of the valid document read, or of an empty one, where the edit is accepted and valid. |
| `GatewaySetup.GuardrailWindowHolds` | exp/cli/gateway/guardrail_setup_store.py:193-229 | The guardrail file holds the plan on success or unknown, and its preimage on every other proven outcome. |
| `GatewaySetup.SettingsHold` | exp/cli/gateway/setup.py:77-113 | Settings and guardrail file are both selected on success or unknown, both restored on a proven failure; an unproven undo says what else is restored. |
| `GatewaySetup.SelectionKeepsTheRest` | exp/cli/gateway/setup.py:77-113 | Selecting a budget keeps every other setting and both links, and leaves the guardrail file alone without a plan. |
| `GatewaySetup.SetupTail` | exp/cli/gateway/setup.py:242-330 | Catalog and alias end as the catalog window left them, or untouched when it was not reached. |
| `GatewaySetup.SetupIsAllOrNothing` | exp/cli/gateway/setup.py:242-330 | The whole window is all or nothing exactly unless a late exception undoes the files beside a kept authority or a dangling catalog link is removed. |
| `GatewaySetup.QuietSetupIsAllOrNothing` | exp/cli/gateway/setup.py:242-330 | Without those two cases every outcome is all or nothing, and an unproven undo names the file in doubt. |
| `GatewaySetup.LateReportStrandsTheCommit` | exp/cli/gateway/setup.py:323-330 | A concrete run in which a report after the commit restores the old budget beside the new alias. |
| `GatewaySetup.QuietSetupSucceeds` | exp/cli/gateway/setup.py:242-338 | With nothing refused, setup succeeds exactly when settings parse and the plan is accepted and lands. |
| `GatewaySetup.StandardPlanLands` | exp/cli/gateway/guardrail_setup_store.py:251-257 | An accepted standard plan always lands as selected. |
| `GatewaySetup.OffPlanLands` | exp/cli/gateway/guardrail_setup_store.py:249-257 | An accepted plan to turn off lands exactly when no policy setup does not own remains for the pair. |
| `GatewayCommands.Gateway.RollBackCatalog` | exp/runtime/gateway/catalog_authority.py:273-356 | The rollback as it runs, with its re-reads, is the specified one. |
| `GatewayCommands.Gateway.ActivateAlias` | exp/runtime/gateway/sqlite/alias_activation.py:81-121 | The transaction and its reconciliation, as specified. |
| `GatewayCommands.Gateway.RunCatalogWindow` | exp/cli/gateway/setup.py:272-322 | Apply, activate, and roll back only what is proven not to have committed. |
| `GatewayCommands.Gateway.CertifyPool` | exp/cli/gateway/pool.py:85-178 | The pool command is the specified one, report by report. |
| `GatewayCommands.Gateway.MutateGuardrails` | exp/cli/gateway/guardrail_setup_store.py:232-302 | Read, edit, publish and inspect as specified; an emptied regular file is deleted, an emptied symlink target written through. |
| `GatewayCommands.Gateway.RunGuardrailWindow` | exp/cli/gateway/guardrail_setup_store.py:193-229 | The guardrail context manager around the rest of setup. |
| `GatewayCommands.Gateway.Configure` | exp/cli/gateway/setup.py:242-338 | The whole mutation window with its nested undo is the specified one. |
| `PlanSignIn.RunKeepsInv` | exp/cli/gateway/provider.py:232-299 | In every reachable state of any interleaving the sign-in lock has one holder, every pair has a writer, a removal sees the pair it read unless an add wrote, and deletes only under an inactive row. |
| `PlanSignIn.UndoTouchesOnlyItsOwn` | exp/cli/gateway/provider.py:286-299 | In any interleaving an undo changes the file only while it holds the pair that add wrote, and leaves that pair out of it. |
| `PlanSignIn.RemovalDeletesOnlyWhatItRead` | exp/cli/gateway/provider.py:521-535 | A removal deletes only the pair it read, and certainly deletes it when no add wrote in between. |
| `PlanSignIn.GoneStaysGone` | exp/cli/gateway/provider.py:286-299 | Once an undone pair is gone and no add holds it to put back, no interleaving brings it back. |
| `PlanSignIn.RemovedStaysRemoved` | exp/runtime/gateway/sqlite/provider_authority.py:82-119 | A name whose row is inactive stays inactive in every run and no add of it is ever activated: its insert meets the row that disabling left. |
| `PlanSignIn.NoAddAfterRemoval` | exp/runtime/gateway/sqlite/provider_authority.py:302-310 | Once a removal has taken the connection away, whatever ran before, no later run activates the name again. |
| `PlanSignIn.RemovedMeansDisabled` | exp/cli/gateway/provider.py:521-535 | In every interleaving over an active connection, once a removal has ended as removed the name is inactive, then and in every later state. |
| `PlanSignIn.RemovalsEnd` | exp/cli/gateway/provider.py:513-535 | In every interleaving a removal ends as removed, or as not removed where one of its calls failed. |
| `PlanSignIn.RefreshGivesUp` | exp/common/auth/store.py:361-373 | In any state a refresh is refused only by a failing call, or when what it reads is no sign-in for the settings it serves. |
| `PlanSignIn.LockIsReleased` | exp/cli/gateway/provider.py:523-527 | In every interleaving a held sign-in lock has a holder that has not ended. |
| `PlanUsability.UsableExactly` | exp/cli/gateway/provider.py:242-299 | Where any call may raise, a raising transaction may have landed and an undo may raise, every run keeps active plan connections on a sign-in bound to their settings exactly from these starts: the name holds an API key, or no add would revise the connection or write over an active plan's sign-in for other settings. |
| `PlanUsability.UsableExactlyWhenTidy` | exp/cli/gateway/provider.py:242-299 | Where a raising transaction never landed and no undo raises, exactly from these starts: an API key; or a revising add is the only add not refused before it writes, and no refresh serves the settings of an add that writes over an active plan's sign-in for other ones. |
| `PlanUsability.SafeRuns` | exp/cli/gateway/provider.py:242-299 | From a safe state no interleaving of adds, removals and refreshes leaves the connection unusable while no add is between its write and its end. |
| `PlanUsability.LandedRaiseLoses` | exp/cli/gateway/provider.py:284-299 | Any add that revises, when its transaction lands and then raises, leaves the new connection without a sign-in or on one bound to the old settings. |
| `PlanUsability.RaisedUndoLoses` | exp/cli/gateway/provider.py:286-299 | Any add over an active plan with other settings, when its activation and its undo raise, leaves the old connection on a sign-in bound to the new ones. |
| `PlanUsability.TwoFirstAddsLoseTheSignIn` | exp/cli/gateway/provider.py:260-299 | Any two first adds of a new name with different settings have an interleaving without a failing call that leaves a connection active and signed out. |
| `PlanUsability.RevisionBesideSignInLoses` | exp/cli/gateway/provider.py:260-284 | A revision and a new sign-in to the settings being revised can both succeed and leave the revised connection on a sign-in bound to the old settings. |
| `PlanUsability.RefreshForOldSettingsLoses` | exp/common/auth/store.py:361-373 | An add going back to settings used before is refused, and a refresh for those settings between its write and its undo keeps the undo from restoring the sign-in, without a failing call. |
| `PlanUsability.AddAlone` | exp/cli/gateway/provider.py:260-299 | Alone, a refused add changes nothing, an undone one leaves the sign-in an existing connection had or none and the connection as it was unless its transaction had landed, and an API key is never overwritten; the connection ends unusable exactly when new settings landed before the undo, or when the undo raised over an active plan with other settings. |
| `PlanUsability.AddEnds` | exp/cli/gateway/provider.py:260-299 | Alone, each call of an add decides its end and what it leaves: refused before it writes, activated exactly when the activation is allowed and does not raise, and otherwise undone, unless the undo raises too. |
| `PlanUsability.RemovalEnds` | exp/cli/gateway/provider.py:513-535 | Alone, each call of a removal decides its end and what it leaves; a sign-in that cannot be read stops the removal of a plan and is merely kept for anything else. |
| `PlanUsability.RefreshEnds` | exp/common/auth/store.py:361-373 | Alone, a refresh swaps the pair it read for a new one exactly when it finds a sign-in for the settings it serves and one is due. |
| `PlanUsability.RemovalAlone` | exp/cli/gateway/provider.py:521-535 | Alone and with nothing failing, a removal takes connection and sign-in away, ends as removed, and leaves an API key. |
| `BuildReview.AdvanceHolds` | exp/simulation/build.py:629-650 | Records the binding, keeps other members, and keeps judge namespaces exactly when the binding is unchanged. |
| `BuildReview.VerifiedMeans` | exp/simulation/build.py:672-712 | A build is verified exactly when its five pointers name stored artifacts of their kinds, the tasks and both indexes made from its traces and the world model from its serving index. |
| `BuildReview.SelectionIsAtomic` | exp/simulation/build.py:458-484 | Accepted exactly on matching, verified evidence and a usable review; then both records are in step; refused, nothing changed. |
| `BuildReview.JudgeStateFollowsTheBinding` | exp/simulation/build.py:589-650 | Judge namespaces are dropped exactly when the recorded binding changes; every other member survives. |
| `BuildReview.SwitchKeepsPointers` | exp/simulation/build.py:487-537 | Accepted exactly for a plain project in step with a verified graph; changes only the task set of build and review. |
| `BuildReview.SwitchRoundTrip` | exp/simulation/build.py:487-537 | Switching away and back restores build and review binding exactly. |
| `BuildReview.RunKeepsInStep` | exp/simulation/build.py:458-537 | Over any run of builds, switches and judge work, accepted or refused, the recorded review names the selected build. |
| `BuildReview.ProjectStore.AdvanceReview` | exp/simulation/build.py:646-650 | The member-by-member removal equals the specified advance. |
| `BuildReview.ProjectStore.CompleteBuild` | exp/simulation/build.py:458-484 | The transaction undoes the configuration when the review is refused. |
| `BuildReview.ProjectStore.SwitchTaskSet` | exp/simulation/build.py:503-537 | The switch as it runs is the specified one. |
| `Scenarios.LastWriteWins` | exp/simulation/scenarios.py:127-147 | Selecting B after A derives exactly the task set of selecting B alone. |
| `Scenarios.EmptySelectionRestores` | exp/simulation/scenarios.py:106-110 | Selecting nothing gives back the mined task set, whatever was selected before. |
| `Scenarios.TaskIdsAreDistinct` | exp/simulation/scenarios.py:72-95 | Unique scenario IDs beside distinct mined tasks give distinct task IDs. |
| `Scenarios.MeanIsPreserved` | exp/simulation/scenarios.py:140-144 | The mean workload weight of the derived set is the mined mean. |
| `Scenarios.IdentityBindsScenarios` | exp/simulation/scenarios.py:170-208 | Two selections over one base have the same identity exactly when their scenarios are the same in order. |
| `Scenarios.SelectAuthoredScenarios` | exp/simulation/scenarios.py:98-147 | The command writes the derived set once and switches to it, as specified. |
| `Scenarios.SelectionPointsAtDerived` | exp/simulation/scenarios.py:131-147 | An accepted selection points build and review at the derived set and leaves every other pointer. |
| `Scenarios.SelectAccepts` | exp/simulation/scenarios.py:127-147 | A selection is accepted exactly with unique scenario IDs, no identity conflict, and the same task set or a plain project with a verified graph. |
| `Scenarios.SelectRefusals` | exp/simulation/scenarios.py:123-208 | A refused selection names the first cause that holds, and changes nothing except that a refused switch leaves the derived set stored. |
| `Scenarios.LastSelectionWins` | exp/simulation/scenarios.py:98-147 | In a project with a verified build, if A and B can each be selected, B can be selected after A and leaves the build and review binding of B alone. |
| `Scenarios.SelectKeepsInStep` | exp/simulation/scenarios.py:131-147 | Selections keep build and review in step, accepted or refused. |
| `ReviewSelector.DisplayParsesBack` | exp/cli/judge/review.py:551-614 | What is shown for a frozen key without a leading bracket parses to exactly that key and body, or is reported ambiguous, exactly when two frozen entries fit. |
| `ReviewSelector.ParsesBackUnlessBracketed` | exp/cli/judge/review.py:573-614 | For a frozen key whose dimension is an artifact ID, what is shown parses back or is ambiguous exactly when it does not begin with a bracket. |
| `ReviewSelector.DisplayIsInjective` | exp/cli/judge/review.py:666-675 | Keys of one shape without delimiters are shown differently. |
| `ReviewSelector.CleanKeysParseBack` | exp/cli/judge/review.py:551-614 | Over distinct keys without delimiters every shown key parses back. |
| `ReviewSelector.BracketedKeyParsesAsAnother` | exp/cli/judge/review.py:573-589 | A shown key beginning with a bracket that parses as a different key. |
| `ReviewSelector.JsonTargetMeans` | exp/cli/judge/review.py:573-589 | A bracketed target names a key exactly as the JSON array of its nonempty parts, with a reference exactly for pairwise review, before an equals sign. |
| `ReviewSelector.PartsMeans` | exp/cli/judge/review.py:590-614 | Any other target names a frozen key exactly as that key, shown, before an equals sign, when no second entry fits too; otherwise it is ambiguous if two fit and unknown if none does. |
| `ReviewSelector.LabelValueMeans` | exp/cli/judge/review.py:617-651 | A label is exactly one of the three preferences, or an integer in its axis's range; any other has its own error. |
| `ReviewSelector.LoopAccepts` | exp/cli/judge/review.py:335-360 | The label loop accepts exactly the consistent labels, holds each of them, and its second duplicate branch is unreachable. |
| `ReviewSelector.LoopFaults` | exp/cli/judge/review.py:335-360 | A refused label loop names the first label at fault, and its fault. |
| `ReviewSelector.JudgmentsHeld` | exp/cli/judge/review.py:361-373 | The judgment loop accepts exactly nonempty judgments for distinct frozen keys, and holds the trimmed text of each. |
| `ReviewSelector.JudgmentFaults` | exp/cli/judge/review.py:361-373 | A refused judgment loop names the first judgment at fault, and its fault. |
| `ReviewSelector.AdmitsExactly` | exp/cli/judge/review.py:301-385 | Inputs are admitted exactly when saved labels are in range, every label and judgment is sound, all keys are frozen and every judgment has a label; otherwise the error is that of the first of these that fails. |
| `ReviewSelector.AdmittedInputs` | exp/cli/judge/review.py:301-385 | Admitted labels and judgments are for frozen keys, every judgment has a label, saved labels survive, and judgments are nonempty text. |
| `ReviewSelector.ParseExplicitInputs` | exp/cli/judge/review.py:301-385 | The three loops over dictionaries and sets compute that admission, error by error. |
| `TokenDisplay.RoundingBound` | exp/cli/capture/display.py:20-25 | The shown value is within half of a hundredth of the unit. |
| `TokenDisplay.MantissaRange` | exp/cli/capture/display.py:21-25 | The mantissa is at least 1.00, and at most 999.99 below T. |
| `TokenDisplay.ShownExactly` | exp/cli/capture/display.py:16-27 | A count below a thousand is shown as it is. |
| `TokenDisplay.ShownIsMonotone` | exp/cli/capture/display.py:16-27 | A larger count is never shown as a smaller value, across unit boundaries too. |
| `TokenDisplay.MantissaKeepsValue` | exp/cli/capture/display.py:26 | Stripping zeros and a bare point never changes the value of the text. |
| `TokenDisplay.FormatTokens` | exp/cli/capture/display.py:16-27 | The text is a numeral and a unit whose product is within half of a hundredth of the unit of the count, in the first unit whose rounded mantissa stays below a thousand. |
| `ModelAliases.UniqueIdentity` | exp/common/models/discovery.py:336-343 | The stem, or its first free numbered variant; the search ends. |
| `ModelAliases.CanonicalModels` | exp/cli/providers/provider_picker.py:890-911 | Keeps, in input order, exactly the IDs no shorter or equally short earlier ID of their identity beats. |
| `ModelAliases.OneIdPerIdentity` | exp/cli/providers/provider_picker.py:904-911 | Every identity keeps exactly one ID. |
| `ModelAliases.CanonicalIsIdempotent` | exp/cli/providers/provider_picker.py:890-911 | Collapsing twice is collapsing once. |
| `ModelAliases.SyncAliases` | exp/cli/providers/sync.py:66-98 | The listed models, once each, in first-listed order, each under its existing alias or the first free one. |
| `ModelAliases.FirstsInOrder` | exp/cli/providers/sync.py:80-89 | Those are all listed models, and their first listings come in that order. |
| `ModelAliases.SyncIsFreshAndStable` | exp/cli/providers/sync.py:66-98 | Distinct models get distinct aliases, an existing model keeps its own, and no other catalog entry is taken. |
| `ModelAliases.DiscoverModels` | exp/cli/providers/provider_picker.py:788-838 | The fresh canonical models of one provider, each under a first free alias. |
| `ModelAliases.PrepareProviders` | exp/cli/providers/provider_picker.py:455-512 | Names carried from provider to provider; the fresh canonical models of every provider that is not skipped are offered, in order, and nothing else. |
| `ModelAliases.OffersAreFresh` | exp/cli/providers/provider_picker.py:806-811 | Nothing configured is offered again. |
| `ModelAliases.SetupAliasesAreDistinct` | exp/cli/providers/provider_picker.py:455-512 | Aliases over all providers are pairwise distinct and disjoint from the catalog. |
| `TerminalScreen.FeedInPieces` | exp/conftest.py:89-103 | Feeding a text in two pieces equals feeding it whole unless the cut falls inside a control sequence. |
| `TerminalScreen.CutSequenceShowsItsTail` | exp/conftest.py:89-103 | A cut inside a sequence that changes what is shown. |
| `TerminalScreen.ControlLengthMeans` | exp/conftest.py:94-103 | ESC, a bracket, any parameters and an ASCII letter are one control sequence, and nothing else is. |
| `TerminalScreen.ControlMeans` | exp/conftest.py:133-152 | What each control sequence does: up never past the top, down growing the screen by empty lines, to a column, clearing below and right; every other one is ignored. |
| `TerminalScreen.CountMeans` | exp/conftest.py:140 | A count is the number its digits write, and one when the parameters are no plain number. |
| `TerminalScreen.EraseMeans` | exp/conftest.py:154-167 | Erasing changes nothing but the cursor line: all of it, its start up to and including the cursor as blanks, or its rest. |
| `TerminalScreen.RedrawReplaces` | exp/conftest.py:133-172 | Redrawing in place replaces the drawing and touches nothing above it. |
| `TerminalScreen.LastDrawingOnce` | exp/conftest.py:83-172 | After any number of redraws of any heights the last drawing is there exactly once, above blank lines only. |
| `TerminalScreen.RedrawsLeaveOneCopy` | exp/conftest.py:105-110 | The lines read back after any redraws are those of the last drawing alone. |
| `TerminalScreen.Screen.Feed` | exp/conftest.py:89-103 | Writing whole stretches between leftmost matches equals replaying one item at a time; the cursor row stays real. |
| `TerminalScreen.Screen.Write` | exp/conftest.py:112-131 | Places text at the cursor, honouring newlines and returns. |
| `TerminalScreen.Screen.Apply` | exp/conftest.py:133-152 | Applies one control sequence; the cursor row stays real. |
| `TerminalScreen.Screen.Erase` | exp/conftest.py:154-167 | Erases the start, the rest or all of the cursor line. |
| `TerminalScreen.Screen.Lines` | exp/conftest.py:105-110 | Every line without trailing blanks, without trailing empty lines. |

## Left out

- Key files: modification and change times in file identities are not modelled; the refusals they can cause are among the refusals every call may make, except that a cleanup may find its own marker's times changed. The final stat and the unlink are one step. An asynchronous interrupt between a system call and the assignment that notes it is not modelled.
- Key files: directory changes become durable in the order they were made, up to any point after the last directory sync; reordering among unsynced changes is not modelled. A marker's text has one fixed length.
- Key files: promises about the directory are made while no other process changes it; while others do, what is promised is which names and inodes may be unlinked. The `committed` hook is not called by key issuance, which settles in the driver instead.
- Key issuance: pepper, fingerprint and authentication are injective values; operation replay is the single committed row.
- Studies: file formats, clocks and provider errors inside an execution; a failed execution is one reply.
- Evaluation: the judge call after the loop is not modelled.
- WorldSession: replay of a completed operation, because every operation of a fresh workflow has an identity of its own; what a provider answers and how long it is asked are given.
- GatewaySetup.SetupIsAllOrNothing: does not cover gateway initialisation, which setup never undoes, because it runs before the window it compensates. The catalog is restored by value, not by layout, because its writer re-encodes it. A closing display that raises while a failure is already passing is not modelled.
- GatewaySetup.PoolIsAllOrNothing: does not model the snapshot files, because they are content-addressed and never undone.
- PlanSignIn: `_activate_plan_connection` and `_remove_provider` are steps of a state machine rather than methods, because what they promise is about interleavings.
- PlanSignIn.UndoTouchesOnlyItsOwn: does not model API keys written by other commands during an add, because only plan commands take part; a credential-file write that raises has not replaced the file, while a database transaction that raises may have landed.
- PlanUsability.UsableExactly: does not model key adds, `provider update` or `provider disable` among the commands, because the promise is made by plan adds; which account a pair belongs to and whether it has expired are left out, so a usable sign-in is one a dispatch does not refuse for its binding.
- Provider updates (`_updated_credentials`), which are one decision table.
- BuildReview.RunKeepsInStep: does not model the review coordination lock, because every step is already atomic. Manifests are stored values, and corruption is an unreadable artifact.
- Scenarios.MeanIsPreserved: is over real numbers, because rounding in the sum is not the point.
- ReviewSelector: JSON decoding and integer parsing are parameters; interactive prompts and the decision forms are left out.
- TokenDisplay.FormatTokens: does not model negative counts, because token totals are never negative; the rest of the capture display is rendering.
- ModelAliases.CanonicalModels: canonical identities and readable stems are arbitrary functions, because no property depends on their patterns; listing errors and recovery prompts are a skipped listing.
- TerminalScreen: the pseudo-terminal that produces the text, and sequences the screen ignores.
- Everything else: HTTP callers, sign-in flows, rendering, option parsing, comparison reports.
