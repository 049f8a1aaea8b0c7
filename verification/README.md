# Research workflow: protocol model and proofs

This project models the project state machine of `scripts/researchctl_core`, the validators that replay its
recorded histories, and the text formats and graph search those validators rely on. Writers check a state only
before they mutate it; the proofs here show what every state they can reach satisfies.

## How the model is laid out

* **Gate machine** (`GateModel` to `GateValidator`, `StageGraph` to `StageVerdict`, `GateBindings`, `GateWaivers`,
  `ShippedPolicy`). A GateRef is its position in the
  policy's `gate_sequence`, a stage its position in `stage_order`, a timestamp a number of microseconds, and a
  decision identifier a number from a counter. Every command is a function from state to state that takes
  the clock readings it happens to get; `GateMachine.Project` is the object whose methods carry those functions
  out step by step. Next to the state the proofs carry the global list of decisions in time order
  (`Sound`), from which every rule of the validators is derived. For the stage rule a run is followed on two numbers,
  the current stage and how many GateRefs are approved; `StageGraph` searches them, `StageReach` builds a run to each.
* **Cascade checkers** (`CascadeContract`, `CheckerAgreement`). The Python checker goes through groups of linked
  decisions, the JavaScript one through roots; both are proved against one contract.
* **Adapter exchange** (`AdapterLineage` to `AdapterChains`). Receipt replay, the check before a dispatch, authority
  now and in history, and the inspection of all exchanges of a project over whole runs.
* **Record graph and manifests** (`RecordGraph`, `CycleSearch`, `CycleRepair`, `CycleGuard`, `CorrectionLineage`,
  `ManifestAppend`).
* **Publication** (`Publication` to `PublicationCommand`). Files are a map from path to content; a run can stop
  after any disk operation.
* **Texts** (`JsonText` to `JsonCursor`, `CanonicalJson`, `CanonicalSize`, `EvidenceRoot`, `ShellWords`, `JsonPointer`) and the
  bootstrap bound (`BootstrapBound`). Text is a sequence of code units; printing a syntax tree takes the text that
  follows it.

## What turned out false, and exactly when it holds

* The stage rule (no stage at or past the destination of an unapproved Gate) is not guaranteed by policy loading. A
  policy keeps it in all runs exactly when `StageGraph.StageSafe` holds: a finite search over current stage and number
  of approved GateRefs meets clear positions only. `SkippingPolicy` loads and breaks the rule with one checkpoint. The
  shipped policy is safe. The simpler condition `GraphSafe`, edge by edge, is sufficient but not necessary.
* Bindings of approved Gates stay current along a run exactly as long as no role that an approved Gate waived is
  registered, and in all runs of a policy exactly when it has no waivable role: an optional role of the retrospective
  mode that every earlier GateRef can do without. The shipped policy has such roles, and a run of it that leaves an
  approved Gate with stale bindings is derived.
* The cycle search reports exactly the cyclic components when the first pass finishes consistently and only then;
  the graph 0→1, 0→2, 1→2 makes it report an acyclic pair. It is exact whenever no expansion skips a neighbour that
  was pushed and still waits, so that skip is behind every false report, though not every such skip does harm. Marking
  nodes when they are expanded is always exact.
* `~~01` passes the pointer reader's escape test although it is not a valid token; valid tokens are exactly those
  that pass the test and do not contain `~~0`.
* Shell quoting is inverted exactly for lists without empty commands and empty words.
* An item whose append was refused or cut off after its write is registered by the next append exactly when the
  manifest was never registered before; a registered manifest stays blocked until its source is reconciled.

## Model

| member | source | states |
|---|---|---|
| GateModel.NextTimestampLeast | scripts/researchctl_core/timeutils.py:41-112 | the next stamp is later than every timestamp anywhere in the state, never behind the clock, the least such, and missing only when time is exhausted |
| CascadeContract.CheckByGroups | scripts/researchctl_core/gate_validation.py:83-199 | the Python checker accepts exactly the histories that meet the cascade contract |
| CascadeContract.CheckByRoots | hooks/research-workflow-hook.js:2475-2551 | the JavaScript checker accepts exactly the histories that meet the cascade contract |
| CascadeContract.GroupsDecide | scripts/researchctl_core/gate_validation.py:83-199 | judging group by group and judging root by root are the same contract |
| CascadeContract.CheckUninterrupted | scripts/researchctl_core/gate_validation.py:168-178 | no decision from outside a cascade falls between its first decision and its root |
| CascadeContract.ApprovedDownstream | scripts/researchctl_core/gate_validation.py:83-199 | the cascade must name exactly the later GateRefs approved just before it began, last first |
| CheckerAgreement.CheckersAgree | hooks/research-workflow-hook.js:2475-2551 | whatever order each checker puts simultaneous decisions in, both accept the same decision sets |
| CheckerAgreement.SortedUnique | hooks/research-workflow-hook.js:2475-2551 | strictly sorted listings of one decision set are the same list |
| CheckerAgreement.RunBoth | hooks/research-workflow-hook.js:2475-2551 | running both checkers on their own listings returns one verdict |
| GateCascades.CascadeDownResult | scripts/researchctl_core/commands.py:405-471 | the cascade reopens exactly the approved later GateRefs, in reverse order, with provenance and increasing times, and touches nothing else |
| GateCascades.CascadesOkBlock | scripts/researchctl_core/gate_validation.py:83-199 | appending a complete cascade and its root keeps the contract for all old cascades and establishes it for the new one |
| GateCascades.CascadesOkLater | scripts/researchctl_core/gate_validation.py:83-199 | a cascade once accepted stays accepted as histories grow |
| GateSteps.RecordReopenSound | scripts/researchctl_core/commands.py:474-530 | reopening index i leaves exactly the first i GateRefs approved, moves the stage back to the owner at most, and keeps every history rule |
| GateSteps.ApproveSound | scripts/researchctl_core/commands.py:804-1067 | a successful approval keeps every history rule, prerequisites included |
| GateSteps.ReopenSound | scripts/researchctl_core/commands.py:804-1067 | a successful reopen keeps every history rule |
| GateSteps.GateRefsBind | scripts/researchctl_core/gates.py:266-323 | the references an approval binds are current, retained, one per role and complete for the required roles |
| GateRuns.LifecycleSound | scripts/researchctl_core/commands.py:253-387 | a lifecycle decision, with or without the reopen it links, keeps every history rule |
| GateRuns.CheckpointSound | scripts/researchctl_core/commands.py:1070-1129 | a checkpoint keeps every history rule and its stage move is justified by a live approval |
| GateRuns.RegisterSound | scripts/researchctl_core/commands.py:577-772 | a registration keeps every history rule and every reference retained before it |
| GateRuns.RunSound | scripts/researchctl_core/commands.py:804-1067 | soundness survives any sequence of commands under any clock |
| GateVerdict.IndexIsLog | scripts/researchctl_core/gate_validation.py:485-607 | sorting the replayed decision index gives back the order in which the decisions were made |
| GateVerdict.SoundIsAccepted | scripts/researchctl_core/gate_validation.py:485-607 | a sound state passes the replay of the histories, and the whole replay once the stage rule holds |
| GateVerdict.RunsKeepHistory | scripts/researchctl_core/gate_validation.py:485-607 | every state reached from a new project by any commands passes the replay of Gate records, cascades, prerequisites, lifecycle, stage history, registry and chronology |
| GateVerdict.ApprovedPrefix | scripts/researchctl_core/gates.py:62-73 | the approved GateRefs form a prefix of the sequence |
| GateValidator.ValidateGateRecords | scripts/researchctl_core/gate_validation.py:485-607 | the validator's passes report no error exactly for states that meet the replay rules |
| GateValidator.ValidateGateRecord | scripts/researchctl_core/gate_validation.py:202-482 | one pass over a record decides all its rules and adds its decisions to the shared index exactly when no identifier repeats |
| GateValidator.CheckPrerequisites | scripts/researchctl_core/gate_validation.py:546-580 | every approval, present or past, had all earlier GateRefs approved at its time |
| GateValidator.ApprovalBefore | scripts/researchctl_core/gate_validation.py:70-80 | an earlier approval counts only if it is the last decision strictly before the given time |
| StageGraph.ReachedOnward | scripts/researchctl_core/commands.py:1046-1056 | the search over stage and number of approvals misses no position that a command reaches from a clear one |
| StageGraph.GraphSafeIsInductive | scripts/researchctl_core/policy.py:560-722 | the condition edge by edge holds if and only if the stage rule survives every move from every position, reached or not |
| StageGraph.GraphSafeSuffices | scripts/researchctl_core/policy.py:560-722 | under the condition edge by edge every reached position is clear |
| StageGraph.ExecMoves | scripts/researchctl_core/commands.py:1046-1056 | every successful command is one exact move on current stage and number of approved GateRefs |
| StageGraph.StageRuleIsClear | scripts/researchctl_core/gate_validation.py:582-606 | the validator's stage rule says that every destination of an unapproved Gate lies beyond the current stage |
| StageGraph.RunsKeepReplay | scripts/researchctl_core/gate_validation.py:485-607 | when every position its commands reach is clear, every state of every run passes the complete replay, with a prefix of GateRefs approved |
| StageGraph.ShippedGraphIsSafe | skills/research/references/policy.yaml:4-52 | the graph the repository ships meets both conditions |
| StageReach.MoveWorks | scripts/researchctl_core/commands.py:804-1129 | from a clear position every move of the search is made by an approve, reopen or checkpoint that succeeds |
| StageReach.Realise | scripts/researchctl_core/commands.py:804-1129 | every position the search finds is reached by a run from a new project, with the needed artifacts registered first |
| StageVerdict.ReachedExactly | scripts/researchctl_core/commands.py:804-1129 | for a policy that loads, the search finds exactly the positions that runs visit |
| StageVerdict.StageSafeIsExact | scripts/researchctl_core/policy.py:724-935 | for a policy that loads, every state of every run passes the complete replay if and only if every reached position is clear |
| StageVerdict.SkippingPolicyBreaks | scripts/researchctl_core/policy.py:560-722 | a policy that loads, and one checkpoint after which the validator rejects the saved state |
| StageVerdict.DetourPolicyIsSafe | scripts/researchctl_core/policy.py:560-722 | a policy that loads and passes in all runs although its graph fails the condition edge by edge |
| ShippedPolicy.ShippedRunsPass | skills/research/references/policy.yaml:4-260 | the shipped policy loads, and every state of all its runs passes the complete replay |
| GateBindings.ComparesRoleByRole | scripts/researchctl_core/gate_validation.py:629-774 | the validator's comparison of reference lists holds exactly when each role agrees, mutable roles by identity only |
| GateBindings.RegisterKeepsBindings | scripts/researchctl_core/commands.py:710-715 | a registration keeps all bindings current if and only if it changes nothing or no approved Gate waived the role |
| GateBindings.ExecBindings | scripts/researchctl_core/artifacts.py:676-702 | one command keeps all bindings current if and only if it is not that registration |
| GateBindings.RunsKeepBindings | scripts/researchctl_core/gate_validation.py:629-774 | along every run without such a registration each approved Gate stays bound to current revisions |
| GateBindings.RetrospectiveWaives | scripts/researchctl_core/gates.py:245-263 | a retrospective approval always leaves a waived role |
| GateBindings.WaivedRegistrationBreaks | scripts/researchctl_core/artifacts.py:676-702 | registering an unbound waived role succeeds and leaves a state whose bindings the validator rejects |
| GateWaivers.BreakIsWaivable | scripts/researchctl_core/artifacts.py:676-702 | a run that leaves a stale binding shows a role the policy lets a retrospective approval waive |
| GateWaivers.WaivableBreaks | scripts/researchctl_core/gates.py:287-318 | for every waivable role some run approves without it, registers it, and leaves a stale binding |
| GateWaivers.BindingsHoldExactly | scripts/researchctl_core/gate_validation.py:629-774 | for a policy that loads, all bindings stay current in all runs if and only if no role is waivable |
| ShippedPolicy.ShippedBindingBreaks | skills/research/references/policy.yaml:164-217 | some run of the shipped policy leaves an approved Gate bound to less than the current revisions |
| GateExtension.RunExtends | scripts/researchctl_core/store.py:299-318 | later states keep every decision and transition of earlier ones and add only later entries |
| GateMachine.Project.constructor | scripts/researchctl_core/store.py:242-266 | a new project is sound |
| GateMachine.Project.CollectTimes | scripts/researchctl_core/timeutils.py:41-112 | the loops gather every timestamp of the nested state |
| GateMachine.Project.NextStateTimestamp | scripts/researchctl_core/timeutils.py:41-112 | the stamp computed by the loops is the next timestamp of the state |
| GateMachine.Project.WriteMutatedState | scripts/researchctl_core/store.py:343-345 | the saved document becomes the stamped copy or stays as it was |
| GateMachine.Project.CascadeReopen | scripts/researchctl_core/commands.py:405-471 | the loop over later GateRefs reaches the state of the reverse-order cascade |
| GateMachine.Project.RecordGateReopen | scripts/researchctl_core/commands.py:474-530 | cascade, root decision and stage return happen together or not at all |
| GateMachine.Project.GatherRoles | scripts/researchctl_core/gates.py:266-323 | references are collected in role order, failing exactly when a mandatory role is missing or a source is dirty |
| GateMachine.Project.Approve | scripts/researchctl_core/commands.py:804-1067 | the saved document changes exactly as an approval prescribes, or not at all with the error that applies, and stays sound |
| GateMachine.Project.Reopen | scripts/researchctl_core/commands.py:804-1067 | the saved document changes exactly as a reopen prescribes or not at all, and stays sound |
| GateMachine.Project.LifecycleChange | scripts/researchctl_core/commands.py:253-387 | the saved document changes exactly as the lifecycle decision prescribes or not at all, and stays sound |
| GateMachine.Project.Checkpoint | scripts/researchctl_core/commands.py:1070-1129 | the saved document changes exactly as a checkpoint prescribes or not at all, and stays sound |
| GateMachine.Project.Register | scripts/researchctl_core/commands.py:577-772 | the saved document changes exactly as a registration prescribes or not at all, and stays sound |
| GateMachine.Project.Perform | scripts/researchctl_core/commands.py:909-930 | a whole command refuses a document that breaks the stage rule and otherwise changes it exactly as its function prescribes |
| GateMachine.Project.ValidIsAccepted | scripts/researchctl_core/gate_validation.py:485-607 | in every state the object can be in, the saved histories pass the replay |
| AdapterLineage.ReplayOne | scripts/researchctl_core/adapters.py:736-865 | one receipt updates the dictionaries as replay prescribes and adds an error exactly when it breaks a lineage rule |
| AdapterLineage.ReplayReceipts | scripts/researchctl_core/adapters.py:736-865 | the pass reports no error exactly when every receipt was in order at its turn |
| AdapterDispatch.ReplayMirrors | scripts/researchctl_core/adapters.py:1143-1238 | in an error-free exchange one request's receipts alone determine its attempts and their latest receipts |
| AdapterDispatch.VerifyDispatch | scripts/researchctl_core/adapters.py:1143-1238 | the dispatch check decides the retry rules from one request's receipts |
| AdapterDispatch.DispatchIsJournalCheck | scripts/researchctl_core/adapters.py:1185-1224 | a dispatch is accepted if and only if appending its accepted journal as pending adds no lineage error |
| AdapterDispatch.BatchesEnforceJournals | scripts/researchctl_core/adapters.py:868-1128 | checking only each new batch's journals enforces the retry rules on all journals of the run |
| AdapterDispatch.RunsChain | scripts/researchctl_core/adapters.py:736-865 | over all such runs each request's attempts are one linear retry chain within the attempt limit, a single one under `never` |
| AdapterDispatch.RunsReconcile | scripts/researchctl_core/adapters.py:1185-1224 | no attempt follows one whose outcome forbids a retry, nor an unreconciled `unknown` |
| AdapterAuthority.FindStageAt | scripts/researchctl_core/adapters.py:499-515 | the loop finds the destination of the last transition at or before the given time |
| AdapterAuthority.RegistrationVerdict | scripts/researchctl_core/adapters.py:518-664 | at its own registration an item gets one verdict from the current and the historical check |
| AdapterAuthority.VerdictStands | scripts/researchctl_core/adapters.py:638-664 | the historical verdict never changes, whatever is decided later |
| AdapterExchange.AcceptedForever | scripts/researchctl_core/adapters.py:868-1128 | over all runs the inspection of every exchange stays error-free: what was accepted when it was registered passes every later inspection, even after its Gate is reopened |
| AdapterChains.EnforcedGrows | scripts/researchctl_core/adapters.py:736-865 | a revision registered after its inspection keeps the retry policy enforced on all attempts, old and new |
| AdapterChains.ExchangesStayInOrder | scripts/researchctl_core/adapters.py:868-1128 | from a new project on, all exchanges inspect without error and each request's attempts are one retry chain within its policy |
| RecordGraph.ComponentsPartition | scripts/researchctl_core/records.py:602-620 | for any covering finish order the components partition the nodes and none splits a strongly connected component |
| RecordGraph.NoCycleMissed | scripts/researchctl_core/records.py:602-620 | every node on a cycle is reported together with its whole strongly connected component |
| RecordGraph.ExactIffConsistent | scripts/researchctl_core/records.py:602-620 | the components are strongly connected if and only if a node that reaches an unfinished one has an unfinished companion in its own component |
| RecordGraph.NoFalseCycle | scripts/researchctl_core/records.py:602-620 | under such an order every member of a reported component lies on a cycle and the component is exactly its own |
| RecordGraph.AcyclicVerdict | scripts/researchctl_core/records.py:602-620 | on an acyclic graph the search reports nothing if and only if every edge leads to an earlier finish |
| CycleSearch.FinishOrderCovers | scripts/researchctl_core/records.py:584-600 | the first pass finishes every node exactly once |
| CycleSearch.TraverseFrom | scripts/researchctl_core/records.py:584-600 | the explicit stack visits and finishes nodes in the order of the mark-on-push traversal |
| CycleSearch.FirstPass | scripts/researchctl_core/records.py:584-600 | the loop over start nodes computes that finish order |
| CycleSearch.Collect | scripts/researchctl_core/records.py:604-616 | the backward search collects exactly the untaken nodes that reach the start without passing taken ones |
| CycleSearch.SecondPass | scripts/researchctl_core/records.py:602-620 | the second pass reports exactly the components with several members or a self-loop |
| CycleSearch.CycleComponents | scripts/researchctl_core/records.py:565-620 | the search misses no cycle, and reports only strongly connected components exactly when its first pass finished consistently |
| CycleRepair.AcyclicGraphReported | scripts/researchctl_core/records.py:597-600 | an acyclic graph of three records on which the search reports a cycle |
| CycleGuard.NoSkipIsExact | scripts/researchctl_core/records.py:595-600 | a search none of whose expansions skips a neighbour waiting on the stack reports only strongly connected components |
| CycleGuard.HarmlessSkip | scripts/researchctl_core/records.py:595-600 | a graph on which such a skip happens and the search is exact all the same |
| CycleRepair.FinishExpanded | scripts/researchctl_core/records.py:584-600 | with nodes marked when expanded, a finished node reaches only finished nodes or shares its component with an open one |
| CycleRepair.RepairedCycleComponents | scripts/researchctl_core/records.py:565-620 | with nodes marked when expanded, the search reports exactly the cyclic strongly connected components |
| CorrectionLineage.ParseRecords | scripts/researchctl_core/records.py:270-379 | parsing reports no error exactly when ids are distinct and corrections name earlier records of the same kind, each at most once |
| CorrectionLineage.ChainsAreDisjoint | scripts/researchctl_core/records.py:270-379 | records fall into disjoint chains of one kind, each with exactly one uncorrected record |
| CorrectionLineage.AppendKeepsChains | scripts/researchctl_core/records.py:726-740 | appending records keeps every chain's root and only moves its latest correction forward |
| ManifestAppend.NoLostUpdates | scripts/researchctl_core/manifest_commands.py:208-283 | in every interleaving under the lock each snapshot is the first list plus the landed appends in lock order, and a prefix of every later one |
| ManifestAppend.RejectionBlocks | scripts/researchctl_core/manifest_commands.py:263-283 | a refused or interrupted registration leaves the snapshots untouched and the working file different from them |
| ManifestAppend.BlockedUntilReconciled | scripts/researchctl_core/manifest_commands.py:162-205 | until the working file is reconciled no append changes the registered manifest |
| ManifestAppend.RefusedAppend | scripts/researchctl_core/manifest_commands.py:231-283 | after a refused or cut-off append, however processes go on without an edit, registered snapshots stay, and before the first registration the item is in the first registered list |
| ManifestAppend.RefusedItemReturns | scripts/researchctl_core/manifest_commands.py:231-262 | the next accepted append registers the refused item and its own, in order, if and only if nothing was registered before |
| ManifestAppend.CommandIsAppendOnce | scripts/researchctl_core/store.py:64-119 | holding the lock makes the phases of one command a single step |
| ManifestAppend.Manifest.AppendAndRegister | scripts/researchctl_core/manifest_commands.py:208-283 | the command reads, checks, extends, writes and registers in one step with that outcome |
| PublicationSafety.FilesAfterKeeps | scripts/researchctl_core/publish.py:510-653 | no existing file is overwritten, whoever created it |
| PublicationSafety.RegisterAllOk | scripts/researchctl_core/publish.py:701-741 | registering a batch appends exactly the planned revisions with increasing stamps and keeps every history rule |
| PublicationSafety.AllOrNothing | scripts/researchctl_core/publish.py:666-780 | wherever the command is cut off, the canonical state is the old one or the old one and the whole batch |
| PublicationRuns.ReplayDoesNothing | scripts/researchctl_core/publish.py:315-441 | once its paths exist a batch can be replayed without effect, and succeeds only if every publication is held |
| PublicationRuns.SnapshotsDistinct | scripts/researchctl_core/artifacts.py:841-961 | no two revisions share a snapshot |
| PublicationRuns.PublishKeepsTraced | scripts/researchctl_core/publish.py:666-780 | every revision keeps its own source path and its own intact snapshot, through every crash |
| PublicationRuns.RecoveryIsExact | scripts/reference_stack.py:1038-1084 | the recovery scan is never ambiguous and succeeds exactly for registered publications |
| PublicationRuns.RecoveryDecides | scripts/reference_stack.py:1087-1193 | after a first attempt, cut off anywhere, recovery succeeds if and only if the state was written |
| PublicationRuns.NewProjectRecovery | scripts/reference_stack.py:1087-1193 | after any attempts from a new project, an attempt at unused paths is recovered if and only if it wrote the state |
| PublicationRuns.RunsKeepTraced | scripts/researchctl_core/publish.py:666-780 | over any run of attempts the state stays sound, files are kept and histories only grow |
| PublicationRuns.CommittedForever | scripts/reference_stack.py:1038-1084 | what was committed once is recovered at any later time and its replay changes nothing |
| PublicationCommand.Publisher.CopyToDestination | scripts/researchctl_core/publish.py:510-653 | a copy creates its destination exclusively and succeeds only with the content seen before |
| PublicationCommand.Publisher.CreateSnapshot | scripts/researchctl_core/artifacts.py:361-531 | a snapshot is created once or reused with the right content |
| PublicationCommand.Publisher.PreflightBatch | scripts/researchctl_core/publish.py:315-441 | preflight accepts exactly batches of distinct paths and roles whose entries are each registered already or publishable |
| PublicationCommand.Publisher.PublishBatch | scripts/researchctl_core/publish.py:666-780 | the command leaves exactly the files and state of the batch cut off where the environment stopped it, and the project sound |
| JsonParser.ValueParsed | hooks/research-workflow-hook.js:79-143 | a printed value is read back, consuming exactly its text, if and only if no object in it repeats a decoded key |
| JsonRecogniser.ValueTaken | hooks/research-workflow-hook.js:79-143 | whatever is accepted is the text of some tree without repeated keys |
| JsonRecogniser.AcceptsStrictJson | hooks/research-workflow-hook.js:44-148 | the recogniser accepts exactly the JSON texts in which no object at any depth repeats a key |
| JsonRecogniser.RepeatedKeyRefused | hooks/research-workflow-hook.js:44-148 | a text that repeats a decoded key, however spelled, is refused |
| JsonCursor.ReadString | hooks/research-workflow-hook.js:51-78 | the cursor stops after the closing quote with the code units the string denotes, or the text is refused |
| JsonCursor.ReadValue | hooks/research-workflow-hook.js:79-143 | the cursor stops exactly where the grammar's value ends, or the text is refused |
| JsonCursor.Recognise | hooks/research-workflow-hook.js:44-148 | the cursor program accepts exactly the JSON texts without repeated keys |
| JsonUnique.OneReading | hooks/research-workflow-hook.js:44-148 | a JSON text has one syntax tree, so its decoded keys are well defined |
| CanonicalJson.SortedKeys | scripts/researchctl_core/audit_bundle.py:82-95 | keys are listed once each in code point order |
| CanonicalJson.CanonicalUnique | scripts/researchctl_core/audit_bundle.py:82-95 | data with the same canonical bytes are equal, up to nothing but the order of dictionary keys |
| CanonicalJson.CanonicalIsStrictJson | scripts/researchctl_core/audit_bundle.py:82-95 | canonical texts are accepted by the strict recogniser |
| EvidenceRoot.RootUnique | scripts/researchctl_core/audit_bundle.py:348-360 | under an injective hash the evidence root determines versions, entries and limitations |
| EvidenceRoot.PinnedRootCommits | scripts/researchctl_core/audit_bundle.py:964-1028 | two archives verified against one pinned root have the same manifest and the same entries with the same contents |
| EvidenceRoot.Verify | scripts/researchctl_core/audit_bundle.py:907-1059 | verification accepts exactly archives whose layout, contents and root match their manifest |
| CanonicalSize.ListTakes | scripts/researchctl_core/audit_bundle.py:82-95 | a canonical list is at least as long as its items and their commas together |
| EvidenceRoot.ManifestBoundsEntries | scripts/researchctl_core/audit_bundle.py:449-583 | a manifest within its size limit has so few entries that the archive keeps to the entry limit |
| EvidenceRoot.ExportVerifies | scripts/researchctl_core/audit_bundle.py:449-583 | every exported archive verifies against the root it reports |
| ShellWords.ShellCommandSegments | hooks/research-workflow-hook.js:1074-1111 | the cursor loop cuts a command line at unquoted operators, runs of one operator counting once |
| ShellWords.ShellTokens | hooks/research-workflow-hook.js:1113-1143 | the loop splits a segment into words with quotes and backslashes removed |
| ShellWords.SegmentsAre | hooks/research-workflow-hook.js:1074-1143 | of quoted and joined commands exactly the non-empty commands come back, without their empty words |
| ShellWords.LexersInvertQuoting | hooks/research-workflow-hook.js:1074-1143 | splitting and tokenising invert quoting and joining if and only if no command and no word is empty |
| JsonPointer.ResolvePointer | scripts/acceptance_evidence.py:230-253 | the loop resolves a reference token by token and reports the first fault that applies, whatever characters count as digits |
| JsonPointer.EscapeTestGap | scripts/acceptance_evidence.py:239-240 | a token is valid if and only if it passes the escape test and does not contain `~~0` |
| JsonPointer.UnescapeDecodes | scripts/acceptance_evidence.py:238 | on valid tokens the two replacements decode as a reading from left to right |
| JsonPointer.PointerWalks | scripts/acceptance_evidence.py:230-253 | resolving encoded tokens is walking them, in every document, faults included |
| JsonPointer.PathRoundTrip | scripts/acceptance_evidence.py:230-253 | the encoded path of any reachable value resolves to that value |
| JsonPointer.HiddenTildeAccepted | scripts/acceptance_evidence.py:239-240 | `~~01` is invalid, is accepted, and names the key `~~1` |
| BootstrapBound.SortingIsMonotone | scripts/innovation_benchmark.py:185-200 | sorting keeps the pointwise order of two lists |
| BootstrapBound.BoundIsMonotone | scripts/innovation_benchmark.py:185-200 | raising values never lowers the bound |
| BootstrapBound.BoundShifts | scripts/innovation_benchmark.py:185-200 | adding a constant to every value adds it to the bound |
| BootstrapBound.BoundIsEnclosed | scripts/innovation_benchmark.py:185-200 | the bound lies between any two numbers that enclose all values |

## Left out

- File descriptors, inode identity, `fsync`, symbolic links, Git queries and the tar container: only exclusive create, atomic replace and matching content are modelled.
- The structural validation every command runs first: its stage rule is part of every command here, `GateVerdict.RunsKeepHistory` proves that its history rules never fire on reachable states, and its record-shape rules (field sets, formats) are not modelled, states being typed.
- GateMachine.Project.Perform: reports the stage rule first where the program would report a bad argument or an inactive lifecycle instead.
- Gate decision fields that no modelled rule crosses: selection, actor, and activation history.
- More than one artifact ID per role: the registry maps a role to its one canonical artifact, and the error for a second one is kept.
- Dirty sources outside the roles a Gate binds: a command takes the set of roles whose live file differs.
- Wall-clock time and UUIDs: clock readings are parameters, identifiers come from a counter.
- The lifecycle, stage-history and binding validators as loops: they are predicates here, the Gate-record and cascade validators are methods.
- The JavaScript checks of single Gate records and of lifecycle: only its cascade checker is modelled.
- StageVerdict.StageSafeIsExact: a project may begin at any time before the last timestamp, so a run is never cut short for lack of time; the program's years begin with 1.
- AdapterLineage.ReplayReceipts: replays one exchange, what earlier ones used being its start; `AdapterExchange` goes through all of them.
- AdapterExchange.AcceptedForever: the shape and hash checks on one document alone enter as one predicate, and exchanges are listed in sorted order before their first registration.
- CycleSearch.SecondPass: reports components as sets, without the final sorting of names.
- CorrectionLineage.ParseRecords: summarises the checks that concern one record alone in one flag.
- ManifestAppend.NoLostUpdates: the working file is edited from outside only between commands; the code does not detect an edit between its check and its write.
- PublicationSafety.AllOrNothing: snapshot names do not carry the file suffix, and the copied file does not change between its copy and its snapshot.
- PublicationRuns.RecoveryDecides: revisions come only from batch publication; `artifact register` can register one path twice with one content, and then recovery is ambiguous.
- EvidenceRoot.Verify: path safety, collisions of names, fixed entry kinds, base limitations, tar metadata and the semantic checks are not modelled; each can only refuse more.
- EvidenceRoot.ExportVerifies: assumes that the strict reader reads canonical text back.
- BootstrapBound.BoundIsEnclosed: sums and means are exact reals, not rounded floats.
- CanonicalJson.CanonicalUnique: a finite float is its shortest decimal form, taken to determine it.
- Dashboards, argument parsing, process spawning, the runtime-contract and prose checks, acceptance thresholds and the hook's regular-expression heuristics.
