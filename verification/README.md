# Validated Patterns operator: a verified model

A Dafny model of the operator's state machines, with proofs of what they keep over every run.
`dafny verify dfyconfig.toml` checks the whole project.

## What is modelled

**The phased deletion of a Pattern.** A `Pattern` being deleted moves through a recorded phase: empty, `DeleteSpokeChildApps`,
`DeleteSpoke`, `DeleteHubChildApps`, `DeleteHub`. Each `Reconcile` call reads the Pattern through a cache, takes one step
against the shared API store, and records its error on the copy it read. Argo CD, ACM and users act at the same time.

- `Cluster` is the store. It keeps every version of the Pattern; the index of a version is its `resourceVersion`, and a write
  over any but the last version is refused, as the section "Concurrency Control and Consistency" of the Kubernetes API
  Conventions says. Each request consumes one turn of an oracle: what others did just before, whether the request is
  answered, refused or not found, whether it takes effect with its answer lost, and how old a cached read is. A statement
  for every oracle is a statement for every interleaving, failure and stale read. A crash in the middle of a call is a call
  whose remaining requests are all refused.
- `Protocol` states the steps as functions on the store. `Operators` is the operator: a class that holds the store, Pattern
  copies and Applications as objects that are written through, and methods with the loops and early returns of the code.
  Each method is proved to do what its function in `Protocol` says, so every theorem about the functions is one about it.
- `Safety` and `Runs` carry one invariant through every request, step and call. `Guarantees` draws the conclusions: `Gates`
  says what was asked for before a phase was left and what a refusal stops, and `Reports` what a call leaves in the status and
  in the finalizers. `Scenes` holds the runs in which a conclusion fails once its condition does. `Progress` proves that
  deletion completes, `Convergence` that repeated calls stop writing.

**What is wanted of Argo CD.** `Targets` builds the Application with its Helm parameters; `Applications` holds the comparers
that decide whether an Application still matches, and the ownership test. `NestedValues` and `NestedTables` turn dotted
parameter names into nested maps: the maps are objects changed in place, and the walk is proved against a tree of paths.

**Smaller cores.** `Ini` is the reader and printer of the secret form, `IniTexts` says what each line of a file means;
`ValueLayers` is the merge of values files, `Conditions` the conditions of a Pattern's status, `Analytics` the usage events
and their bit-field.

## What the proofs found

- *Why the phase is never taken back.* `finalizeObject` advances the phase on a deep copy, and its caller then writes the
  old phase with the error. Only the version check refuses that write (`Guarantees.FollowUpIsRefused`), and it always does.
- *Asking Argo ahead of the phase.* A target built for a Pattern being deleted orders exactly its recorded phase, whatever
  its extras. One built for any other Pattern orders what its first extra called `global.deletePattern` says, so with such
  an extra Argo is told to delete from a Pattern nobody deletes (`Scenes.ArgoCanBeAhead`); without one it never is
  (`Guarantees.ArgoIsNeverAhead`). Such a parameter also makes the only repeated name in the list
  (`Targets.ParameterNamesDistinct`).
- *The ownership test can be vacuous.* Owner references across namespaces are refused and the refusal is ignored, so for a
  Pattern outside Argo's namespace the target has no owners and any Application of that name passes
  (`Targets.CrossNamespaceOwnsAll`).
- *A search answer without items.* A 200 answer with no result, or with nothing in its first result, is taken for "gone"
  whatever is there; errors in the answer are not looked at. It is the only answer that hides what is there
  (`Guarantees.OnlyItemlessAnswersHide`). With one such answer, and nobody but the operator acting, the parent is deleted
  while a child is on its spoke (`Scenes.ItemlessAnswerBetrays`). The model records such an answer as `Uncounted`, apart
  from `Reappeared`, which means that resources came back.
- *Another cluster group in the last phase.* The parent's name is computed anew in every call. If the cluster group is
  changed after the gate of the last phase has opened, the call deletes an Application whose children nobody has looked at
  (`Scenes.RegroupingLeavesChildren`). Changes before that phase do no harm: the gate is for the name the Pattern has then.
- *When the finalizer goes.* For a deletion the webhook admitted, only in a call that found the defaults failing, the
  Application unreadable or absent, another owner, or had the parent's delete accepted
  (`Guarantees.FinalizerGoesForAReason`). No run leaves a deletion stuck (`Progress.NoRunGetsStuck`).
- *A delay that is never used.* `actionPerformed` foresees two minutes for a Pattern being deleted whose step had no error;
  no call has such a step (`Reports.OutcomeTellsTheStatus`).
- *The final merge of a template's values* can bring a parameter back, if one file puts a text over the parameter's table and
  a later one a table over the text (`ValueLayers.RemergeCanBringBack`); `ValueLayers.RemergeIsIdleExactly` says when.
- *A dotted name below another* makes the nesting loop fail only if the shorter name comes first; in the other order the
  shorter one replaces the table (`NestedValues.TreeOfBindings`).

Comments in the code that the code does not follow; the model follows the code:

- `internal/controller/values.go:71-72` says that the first values win; later files win.
- `internal/controller/argo.go:1465` logs an update of a parameter that is not updated.
- `internal/controller/argo.go:1473-1474` says that anything but a sync in progress is an error; a sync that could be requested is none.
- `internal/controller/pattern_controller.go:1216-1219` says "false otherwise"; the check never answers false without an error.

## Model

| member | source | states |
|---|---|---|
| Operators.Operator.Work | internal/controller/pattern_controller.go:139-205 | the class run through any number of calls ends in the run's store, keeps the invariant, and its stored phases never decrease |
| Operators.Operator.Reconcile | internal/controller/pattern_controller.go:139-164 | one call on a cached read is the call of the state machine, store and requeue decision; it keeps the invariant and moves the phase along one edge at most |
| Operators.Operator.HandleInstance | internal/controller/pattern_controller.go:166-205 | configuration first; then finalize and record the error on the old copy, or drop the finalizer; otherwise add the finalizer or deploy; the invariant is kept, the call's own writes touch no finalizer but the operator's, and the outcome agrees with the stored status |
| Operators.Operator.FinalizeObject | internal/controller/pattern_controller.go:827-954 | from a copy of any version, the clean-up is the step of the state machine, keeps the invariant, moves the phase along one edge at most and leaves the finalizer on; the instance is not touched |
| Operators.Operator.RunPhase | internal/controller/pattern_controller.go:857-950 | the branch of the recorded phase, with its error; it moves the phase along one edge at most and keeps the invariant; without an error the phase was the last |
| Operators.Operator.UpdateDeletionPhase | internal/controller/pattern_controller.go:724-737 | the phase is set on the copy even when the write is refused; after a write the copy is what the next read returned; a phase that was earned keeps the invariant |
| Operators.Operator.DeleteSpokeApps | internal/controller/pattern_controller.go:739-777 | target, sync, children's syncs, search, in this order and stopping at the first error; the invariant is kept, and the gate opens only after a search that reported the children gone |
| Operators.Operator.DeleteSpokeParents | internal/controller/pattern_controller.go:888-916 | the same with pruning syncs of the children, for the parents; the boolean of the search is dropped |
| Operators.Operator.DeleteHubApps | internal/controller/pattern_controller.go:779-825 | no children opens the gate before clusters are looked at; a failed cluster list counts as empty; otherwise ask and wait; the invariant is kept |
| Operators.Operator.CheckSpokeApplicationsGone | internal/controller/pattern_controller.go:1334-1363 | answer and error from the first search result only; "gone" and "no error" are the same answer, so a caller may drop the boolean |
| Operators.Operator.ListManagedClusters | internal/controller/acm.go:55-78 | the listed names in order, never the hub's own, nothing on failure |
| Operators.Operator.DeleteManagedClusters | internal/controller/acm.go:82-117 | the count is the number of deletes acknowledged on every way out; the loop over the list is the fold over it |
| Operators.Operator.UpdateApplication | internal/controller/argo.go:1233-1249 | nothing is written when the comparer agrees; else the handle's spec becomes the target's and is stored, and the handle keeps it even when the write is refused |
| Operators.Operator.SyncApplication | internal/controller/argo.go:1475-1493 | no request when this very sync is under way; else the handle carries the new operation |
| Operators.Operator.GetChildApplications | internal/controller/argo.go:1496-1522 | exactly the Applications whose tracking id has the parent's prefix, in list order |
| Operators.Operator.SyncChildren | internal/controller/pattern_controller.go:760-764 | children are synced in order; without an error each was asked and acknowledged, else the first refused one is named and nothing is sent after it |
| Operators.Operator.UpdateStatus | internal/controller/pattern_controller.go:1100-1104 | takes effect exactly when it reaches the store, with the Pattern there and the copy of its latest version; then the status alone changes, else nothing does; the copy becomes what is stored exactly when the answer arrives; a copy from any version keeps the invariant |
| Operators.Operator.UpdateObject | internal/controller/pattern_controller.go:197-204 | takes effect on the same condition; status and deletion stay, the rest is what the copy says, and the object leaves the store exactly when it is being deleted and has no finalizer left |
| Operators.Operator.ActionPerformed | internal/controller/pattern_controller.go:1089-1137 | step and error are written on the caller's copy, and the requeue is 60 s, 120 s or none; the recorded phase stays, however old the copy |
| Operators.Operator.ReconcileApplication | internal/controller/pattern_controller.go:453-478 | create, update or refuse, with the error to record and the version bump of a failed update |
| Operators.Operator.DeployPattern | internal/controller/pattern_controller.go:216-281 | defaults, prerequisites, Application, completion; the call ends at the first of them that acts or fails |
| Operators.Operator.CompletePattern | internal/controller/pattern_controller.go:295-321 | application states are reported, then completion is recorded only when it is not recorded already |
| Guarantees.PhaseNeverMovesBack | internal/controller/pattern_controller.go:724-737 | in every run, with stale reads, outside writes and the follow-up write of the old copy, the recorded phase never goes back |
| Guarantees.RunFollowsOnePath | internal/controller/pattern_controller.go:857-936 | the distinct phases of a run begin one of two sequences, and one call adds one phase at most |
| Guarantees.HubDecidesThePath | internal/controller/pattern_controller.go:857-872 | in every run the spoke phases are entered only after a hub read found the hub managed, and left out only after one did not |
| Guarantees.PhasesFollowOnePath | internal/controller/pattern_controller.go:857-936 | any history along the code's transitions has such phases |
| Guarantees.FollowUpIsRefused | internal/controller/pattern_controller.go:194-195 | after a transition, recording its error on the old copy is refused, for every oracle, and changes nothing |
| Guarantees.TransitionLeavesCopyBehind | internal/controller/pattern_controller.go:857-936 | a step that reports a transition has made the copy's version out of date and moved the phase up |
| Guarantees.ParentIsDeletedLast | internal/controller/pattern_controller.go:913-942 | when the parent's delete takes effect the phase is `DeleteHub`, no hub child exists, and on the spoke path no spoke child or parent, unless every report that they were gone was belied, the one that opened the gate included, or, for hub children, the cluster group was changed in that phase |
| Scenes.RegroupingLeavesChildren | internal/controller/pattern_controller.go:843-846 | a run of three calls in which nothing fails and nobody recreates anything: the cluster group is changed in the last phase, and the parent deleted has its child |
| Guarantees.OnlyItemlessAnswersHide | internal/controller/pattern_controller.go:1334-1363 | for any answer of the service, the check reports gone what is there exactly when there is no result or nothing in the first one; nothing changes on the spokes, and the report is recorded as not counting |
| Scenes.ItemlessAnswerBetrays | internal/controller/pattern_controller.go:1351-1362 | a run of seven calls in which nobody else acts and one search answer has no items, in either of the two ways: the parent is deleted with a child on its spoke |
| Guarantees.ArgoIsNeverAhead | internal/controller/argo.go:810-829 | in every reachable store no Application orders a deletion beyond the recorded phase, short of forgeries, if no Pattern not being deleted had an extra that orders one by itself |
| Scenes.ExtraRunsAhead | internal/controller/argo.go:801-809 | if it had, the first undisturbed call gives Argo exactly that order |
| Scenes.ArgoCanBeAhead | internal/controller/argo.go:801-809 | a store and an extra for which it orders everything deleted with no phase recorded and no forgery |
| Guarantees.FinalizerReleasedExactly | internal/controller/pattern_controller.go:827-954 | all the cases, and no others, in which finalizeObject lets the finalizer go |
| Patterns.FoldsToTrue | internal/controller/pattern_controller.go:831-832 | the prune annotation counts exactly if it reads "true" letter by letter, in either case |
| Guarantees.FinalizerGoesForAReason | internal/controller/pattern_controller.go:187-205 | in every run on a deletion the webhook admitted, with annotation and finalizer left alone by others, the finalizer leaves the store only in a call that met one of four reasons: defaults failed, Application unreadable or absent, another owner, or the parent's delete accepted in the last phase |
| Guarantees.CallReleasesForAReason | internal/controller/pattern_controller.go:187-205 | the same of one call on any reachable store, however stale its read |
| Guarantees.OthersFinalizersStay | internal/controller/pattern_controller.go:187-205 | between any two versions of any run that others did not write, spec and metadata are the same, and of the finalizers only the operator's own comes or goes: on to a live Pattern, off one being deleted, with the status untouched |
| Reports.CallReleasesItsOwn | internal/controller/pattern_controller.go:196-204 | the call that lets the finalizer go leaves every other finalizer of the version it read, and the object leaves the store exactly if there is none; a write not taken changes nothing |
| Reports.FinalizeErrorIsShown | internal/controller/pattern_controller.go:194-195 | a clean-up that ends with an error leaves exactly that error and step in the status and comes back in a minute, or the call fails |
| Reports.OutcomeTellsTheStatus | internal/controller/pattern_controller.go:1089-1137 | over every call: coming back in a minute means an error is in the stored status, being done means there is none, or the Pattern is gone or its finalizer let go; the two minutes for a deletion without an error never come |
| Reports.FailedStepsAreShown | internal/controller/pattern_controller.go:169-218 | failed configuration, defaults or prerequisites are never passed over: each is in the status, or the call fails |
| Reports.AdditionIsShown | internal/controller/pattern_controller.go:189-193 | the addition of the finalizer is shown as done only if it was acknowledged, and else as failed |
| Reports.ApplyTellsTheTruth | internal/controller/pattern_controller.go:453-478 | no change means ours and in agreement; success means one write with the target in the store; another's is said so and untouched; a failed update, and nothing else, raises the version |
| Reports.ForeignApplicationIsShown | internal/controller/pattern_controller.go:472-475 | a deploying call that meets another owner's Application writes none and shows that error, or fails |
| Reports.ApplicationStepIsShown | internal/controller/pattern_controller.go:460-471 | the step on the Application is in the status with its error, and the version is one higher exactly after a failed update |
| Reports.CompletionIsShown | internal/controller/pattern_controller.go:295-321 | a call nobody disturbs that goes through leaves "reconcile complete" without an error, and comes back in three minutes |
| Guarantees.ClusterCountIsExact | internal/controller/acm.go:95-116 | the count is the number of deletes acknowledged, on early errors too, and with an error one more may have taken effect; only listed names are deleted, never `local-cluster` |
| Guarantees.ZeroMeansAllGone | internal/controller/acm.go:95-116 | zero without an error means exactly that every delete came back NotFound |
| Guarantees.ClusterGateOpensExactly | internal/controller/pattern_controller.go:795-809 | when hub deletion may be asked for: hub not managed, list empty or failed, or all clusters already gone |
| Guarantees.HubDeletionIsGated | internal/controller/pattern_controller.go:779-825 | a call that writes the target or requests the pruning sync has passed that gate, with children listed |
| Gates.RefusalStopsTheList | internal/controller/pattern_controller.go:760-764 | children are asked in order; the first sync not accepted is the last request, and its Application is named in the error |
| Gates.RefusalEndsTheStep | internal/controller/pattern_controller.go:754-764 | in both spoke phases a refused sync, of the parent or of a child, ends the clean-up with that error and nothing is sent after it |
| Gates.FailedCleanUpMovesNothing | internal/controller/pattern_controller.go:857-936 | a call whose clean-up ends so, or with any error but those of the phase's own write, leaves phase and finalizer alone |
| Gates.OpenGateHasAsked | internal/controller/pattern_controller.go:739-776 | an open spoke gate means that the Application agrees with its target, and that the parent and every listed child were under a forced sync with the right prune flag or acknowledged one in this call |
| Gates.PhasesAreLeftForAReason | internal/controller/pattern_controller.go:857-936 | in every run each phase is left only by a call that read the Pattern in that phase and had its reason: the hub's answer, the requests just named, or an empty listing |
| Gates.HubGateOpensExactly | internal/controller/pattern_controller.go:782-824 | the hub gate opens exactly on an empty listing, and its waiting error counts the children listed |
| Gates.HubGateTellsTheTruth | internal/controller/pattern_controller.go:811-824 | past the clusters, the gate's error is what came of asking: target updated, update failed, sync refused, or waiting with the target in agreement and the pruning sync under way or acknowledged |
| Gates.GatesTellOfUpdates | internal/controller/pattern_controller.go:743-749 | a spoke gate speaks of an updated target, or of a failed update, exactly if that is what happened |
| Gates.UpdateTellsTheTruth | internal/controller/argo.go:1233-1249 | no change exactly when all compared fields agree, success only with the target in the store, failure only for a write that was not acknowledged |
| Gates.EveryClusterIsTried | internal/controller/acm.go:95-116 | every listed cluster but `local-cluster` is tried in order, up to the first delete that fails, which is the last request |
| Gates.ClusterErrorsCount | internal/controller/pattern_controller.go:798-808 | the error of the cluster block counts the deletes acknowledged; an open gate has had none |
| StoreFacts.TrackedByItsOwner | internal/controller/argo.go:1505-1519 | an Application is tracked by exactly the parent that its tracking id names before the separator |
| StoreFacts.UntrackedByAll | internal/controller/argo.go:1513-1519 | without a tracking id, or with one that has no separator, it is nobody's child |
| StoreFacts.ChildrenAreThoseNamed | internal/controller/argo.go:1496-1522 | a listing has exactly the store's Applications with the parent's whole prefix, each as often as the store; two parents share none |
| Runs.WriteStatusKeeps | internal/controller/pattern_controller.go:1100-1104 | any status write of a copy read from any version keeps the invariant and the recorded phase |
| Runs.FinalizeMoves | internal/controller/pattern_controller.go:827-954 | one clean-up step from any stale copy keeps the invariant, crosses one edge at most and takes no finalizer off |
| Runs.ReconcileAdvances | internal/controller/pattern_controller.go:139-205 | a whole call keeps the invariant and crosses one edge at most |
| Runs.RunKeepsInvariant | internal/controller/pattern_controller.go:139-205 | so does every run |
| Runs.HubGateKeeps | internal/controller/pattern_controller.go:779-825 | the hub gate keeps the invariant, and it opens only after a listing without children |
| Runs.SpokeGatesKeep | internal/controller/pattern_controller.go:766-776 | the spoke gates keep the invariant, and open only after a search without results |
| Runs.CensusIsSafe | internal/controller/pattern_controller.go:938-942 | in the last phase, from a copy of any version, the invariant leaves nothing that should be gone |
| Progress.CallLowersOrWaits | internal/controller/pattern_controller.go:857-950 | an undisturbed call lets the finalizer go, lowers the measure, or leaves it equal with everything the gate waits for asked to go, the parent's own sync included |
| Progress.DeletionCompletes | internal/controller/pattern_controller.go:827-954 | the finalizer goes in the end, from any stage, if others only remove and after each waiting call, however late, something counted goes |
| Progress.NoRunGetsStuck | internal/controller/pattern_controller.go:139-205 | the same after any run at all, disturbed, stale or interrupted, pruned or not |
| Progress.WaitingCanEnd | internal/controller/pattern_controller.go:766-776 | a waiting call waits for something that exists and that it has asked to go |
| Progress.SomeEnvironmentIsFair | internal/controller/pattern_controller.go:827-954 | an environment as fair as that always exists, letting go only what was asked for |
| Progress.DeletionCanComplete | internal/controller/pattern_controller.go:827-954 | such an environment brings every deletion under way to its end |
| Progress.FirstCallChoosesPath | internal/controller/pattern_controller.go:857-872 | the first undisturbed call records `DeleteSpokeChildApps` with a managed hub, `DeleteHubChildApps` without, and ends with that error |
| Progress.GapLowers | internal/controller/pattern_controller.go:857-950 | whatever the environment removes never raises the measure |
| Convergence.OneCallSettles | internal/controller/pattern_controller.go:453-478 | one call writes nothing, or writes the target once and leaves it settled |
| Convergence.SettledStays | internal/controller/pattern_controller.go:463-477 | once settled nothing is written again, and someone else's Application never |
| Convergence.AtMostOneWrite | internal/controller/pattern_controller.go:453-478 | any number of calls with a built target, any failures and lost answers: one write at most takes effect, it settles, and a settled Application is left alone |
| Convergence.SecondCallConverges | internal/controller/pattern_controller.go:463-477 | without failures the second call with a built target reports no change |
| Applications.CompareIsView | internal/controller/argo.go:1255-1457 | the comparers agree exactly when all compared fields do and Sources is not a non-nil empty list |
| Applications.WhatCountsInASource | internal/controller/argo.go:1345-1378 | of a source, exactly repository, revision, path, value files and parameters decide |
| Applications.CompareIsPartialEquivalence | internal/controller/argo.go:1255-1457 | symmetric and transitive always, reflexive exactly off the empty list |
| Applications.StoredComparesEqual | internal/controller/argo.go:1233-1249 | a target without empty lists still compares equal after the store dropped its empty sync options |
| Targets.UpdateHelmParameter | internal/controller/argo.go:1459-1471 | answers whether the name is taken; the value assigned goes to a copy and is lost |
| Targets.NewApplicationParameters | internal/controller/argo.go:720-831 | the loops build a list that gives each field of the pattern and each fact about the cluster under its own name, with names distinct but for the reserved one |
| Targets.SpecIsPassedOn | internal/controller/argo.go:720-796 | whatever the extras, each parameter about the pattern has its own field's value, once and alone: repository, origin, revision, private or not, chart source and version |
| Targets.ClusterIsPassedOn | internal/controller/argo.go:720-796 | the same of each parameter about the cluster: domains, version, platform, name, namespaces |
| Targets.VariantsLayoutIsPassedOn | internal/controller/argo.go:795-800 | `global.vpNewFolderDir` is built in exactly when the repository has the variants layout |
| Targets.TargetTellsHelm | internal/controller/argo.go:720-800 | from the Pattern as written: what Helm finds under each name in the whole target, defaults and cluster facts filled in |
| Targets.TargetFetches | internal/controller/argo.go:1064-1116 | the Application's name and the repositories, revisions and chart it is fetched from, in both layouts |
| Targets.TargetPolicy | internal/controller/argo.go:953-980 | Argo prunes by itself exactly while the Pattern is being deleted, heals exactly while it is not and its owner does not sync by hand, and retries no deletion |
| Targets.TargetReadsFiles | internal/controller/argo.go:855-886 | the values files in order of precedence, with the user's own below the prefix and no doubled slash |
| Targets.ParameterNamesDistinct | internal/controller/argo.go:720-831 | names are distinct exactly when no extra bears the reserved name on a Pattern being deleted |
| Targets.ExtrasListedOnce | internal/controller/argo.go:801-809 | the built-ins come first and unchanged, and every extra's name occurs once |
| Targets.FirstGiverWins | internal/controller/argo.go:801-809 | a name's value is the built-in's, else the first extra's: a later one does not override |
| Targets.TargetSettles | internal/controller/argo.go:1005-1009 | the builder never yields the shape on which the comparer is not reflexive |
| Targets.TargetDeleteRank | internal/controller/argo.go:801-829 | the target of a Pattern being deleted orders exactly its recorded phase, whatever its extras; that of another exactly what the first extra with the reserved name says |
| Targets.CrossNamespaceOwnsAll | internal/controller/kube.go:44-87 | the ownership test passes exactly for a reference to this Pattern, or for anything when the Pattern is outside Argo's namespace |
| NestedValues.JoinUndoesSplit | internal/controller/argo.go:837 | joining a split name gives it back, for every name |
| NestedValues.TreeOfBindings | internal/controller/argo.go:836-851 | a type assertion fails exactly when a path is a strict beginning of a later one; else each text is that of its last binding not replaced from above |
| NestedValues.FlattenUndoesNesting | internal/controller/argo.go:833-853 | for names none of which is below another, flattening the tree gives each name its last value and nothing else |
| NestedTables.Enter | internal/controller/argo.go:845-848 | a step of the walk makes the table if it is missing and fails on a text; all other tables stay |
| NestedTables.Put | internal/controller/argo.go:842-843 | the last step puts a text over whatever was there |
| NestedTables.InsertPath | internal/controller/argo.go:840-850 | the walk along one name refines the insertion into the tree |
| NestedTables.ConvertParameters | internal/controller/argo.go:833-853 | the objects built hold exactly the tree, each table a different object |
| Ini.ParseIniContent | console/src/components/SecretForm/IniField.tsx:42-82 | the pass over the lines computes the reading that the lemmas explain |
| IniTexts.LineMeansExactly | console/src/components/SecretForm/IniField.tsx:49-68 | a line is a header with that name, a pair with that key and value, or ignored, if and only if its text is: brackets, a first equals sign, white space anywhere around, comments |
| IniTexts.FileIsExplained | console/src/components/SecretForm/IniField.tsx:42-82 | the lines are the file, and for whatever their texts mean the result is what they say |
| Ini.ParseIsExplained | console/src/components/SecretForm/IniField.tsx:42-82 | a section exists exactly when a line opens it; a value is the one on the last line for the key in the section after the last header naming it |
| Ini.ResultIsStorable | console/src/components/SecretForm/IniField.tsx:49-77 | no key or value that is read could be misread when printed |
| Ini.PrintedSectionReadsBack | console/src/components/SecretForm/IniField.tsx:134-145 | for any file, a section prints as its `key=value` lines, and read again it is the `default` section, whole and alone |
| ValueLayers.FirstArgumentWins | vendor/helm.sh/helm/v3/pkg/chartutil/coalesce.go:278-323 | at every path, nulls and clashes included, a merge reads as its first argument, or as its second where the first is silent |
| ValueLayers.NullsAreSpent | vendor/helm.sh/helm/v3/pkg/chartutil/coalesce.go:278-323 | exactly which nulls a merge leaves: the first argument's that met no value, and the second's where the first has nothing |
| ValueLayers.LastWordIsHeard | internal/controller/values.go:20-39 | at every path the merged table reads as the last file that says anything about it |
| ValueLayers.LastFileDecides | internal/controller/values.go:20-39 | that is the last of the files, in their order, to say anything about the path; if none does, what was below them |
| ValueLayers.MergeHelmValues | internal/controller/values.go:20-39 | missing files are skipped, an unreadable one stops the merge, and the table reads as just said |
| ValueLayers.MergeTemplateValues | internal/controller/values.go:71-91 | the same fold with the parameters as lowest layer, and once more at the end |
| ValueLayers.WordsDetermineTable | internal/controller/values.go:20-39 | without nulls a table is determined by how it reads |
| ValueLayers.RemergeIsIdleExactly | internal/controller/values.go:90-91 | the final merge changes nothing exactly when no parameter sits at a path that one file covered with a text and a later one uncovered |
| ValueLayers.RemergeIsIdleWithoutClashes | internal/controller/values.go:90-91 | in particular when no file has a text where the parameters have a table |
| ValueLayers.TemplateReadsLastFile | internal/controller/values.go:71-91 | so a template reads the last file that says anything about a path, and else the parameters |
| ValueLayers.RemergeCanBringBack | internal/controller/values.go:90-91 | layers for which the final merge restores a parameter the files had removed |
| Conditions.PatternStatus.GetPatternConditionByType | internal/controller/utils.go:77-87 | the first condition of the type, or -1 exactly if there is none |
| Conditions.PatternStatus.SetPatternCondition | internal/controller/utils.go:90-119 | the new list is the old one with the condition replaced in place or appended |
| Conditions.PatternStatus.RemovePatternCondition | internal/controller/utils.go:122-127 | the new list is the old one without the condition |
| Conditions.HistoryIsRecorded | internal/controller/utils.go:77-127 | after any history the list holds exactly one condition for each type last set, in order of creation, with the last set's status, message and time and the time of the last set that created it or changed its status |
| Conditions.TransitionNotAfterUpdate | internal/controller/utils.go:90-119 | with a clock that does not run back no transition time exceeds the update time, and types are distinct |
| Analytics.SetBitThenHasBit | internal/controller/analytics.go:148-156 | setting a bit adds it and touches no other, for all positions but the sign's |
| Analytics.RetryAnalytics | internal/controller/analytics.go:248-260 | success exactly if an attempt is accepted or none is made; how often it tries and how long it sleeps in all |
| Analytics.VpAnalytics.SendPatternInstallationInfo | internal/controller/analytics.go:160-195 | sends what is due if one of two attempts is accepted; otherwise client and bits stay |
| Analytics.VpAnalytics.SendPatternStartEventInfo | internal/controller/analytics.go:198-214 | the same for the start event |
| Analytics.VpAnalytics.SendPatternEndEventInfo | internal/controller/analytics.go:219-246 | the same for the end event, a refresh once the end bit is set |
| Analytics.ClientIsThrifty | internal/controller/analytics.go:158-246 | one client, whatever patterns it is handed, identifies and starts once at most, and its end and refresh events are 240 minutes apart |
| Analytics.BitsAreEventsSent | internal/controller/analytics.go:158-246 | a pattern that keeps its bits is identified, started and completed once at most whatever clients serve it, refreshed only after completion, and its bits are exactly its events |
| Analytics.WhatIsDueIsSent | internal/controller/analytics.go:158-246 | nothing due is left out: one report for every visit at which one was due and got through, the first a completion and the rest refreshes, and introductions whenever asked for |
| Analytics.BitsOnlyGrow | internal/controller/analytics.go:148-246 | from any bits, bits are only added, and a refresh bit keeps coming with an end bit |

## Left out

- HTTP, TLS, tokens and the text of the search query: the search answers with everything that matches, with any other results, or with a failure.
- Git clone, fetch and checkout, the Argo CD instance, OLM subscriptions, Gitea, the console plugin and catalog, secrets: one `Routine` step of a call that succeeds, acts or fails. Their own writes of the Pattern count as outside edits.
- Writers of `status.deletionPhase` other than the operator: outside edits may change everything else but the Pattern's identity and a deletion under way.
- The switch between the legacy and the new Argo CD namespace, and the removal of the console link after the parent's delete.
- What applyDefaults had already filled in when it fails, and its panic on an ingress domain without a dot.
- Fields of Applications and Patterns that the protocol neither reads nor writes; the analytics bits and conditions of a Pattern are modelled on their own, apart from the versioned store.
- The caller ignores the answer of SendPatternEndEventInfo, so its bits are stored only when the status is written for another reason; `Analytics.BitsAreEventsSent` is about a Pattern whose bits are kept.
- Operators.Operator.DeployPattern: subscription, Argo CD, git and analytics steps are one oracle step that succeeds, acts or fails.
- Operators.Operator.CompletePattern: whether the reported states of the Applications changed is an oracle answer.
- Template rendering after the merge, parsing of YAML, and lists inside values, which are scalars here.
- ValueLayers.MergeTemplateValues: files with nulls are excluded, because CoalesceTables writes nulls into its second argument and helmTpl shares that argument, and tables inside it, with the parameter map it merges again.
- ValueLayers.MergeHelmValues: a merged table is a value; that it shares tables with the files it came from is not captured, and nothing reads the files again.
- Sections and keys named after properties every JavaScript object inherits, such as `__proto__`, are ordinary names here.
- Counting of applications and application sets, and access to the `clusterGroup` table, which would add only easy members.
- ValidateCreate and ValidateUpdate of the webhook, which would add only easy members.
