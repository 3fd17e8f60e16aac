# AITrigram operator: a verified model

AITrigram is a Kubernetes operator with two controllers.  The model repository controller provisions
storage for a model, downloads its revisions with jobs and keeps a status with conditions and a phase.
The engine controller waits for the repositories an engine references, mirrors their storage read-only
into the engine's namespace, deploys one workload per model, and keeps on each repository an index of
the engines that reference it.  This project models both controllers and the algorithms they rest on,
and proves what they guarantee.

`dafny verify dfyconfig.toml` checks everything.

## How it is organised

| file | content |
|---|---|
| ConfigTree, ConfigHeap, VllmArgs, Text | the argument compiler: pure deep merge and its algebra, the in-place merge over heap maps with ownership, the token loop, the defaults |
| Names | truncated resource names and job names, hash suffix included |
| Backend, StoragePair | recording a volume as (type, string map) and rebuilding it; the PV/PVC pair under arbitrary failing calls |
| Status, StatusRace | conditions, phase, revision entries; two controllers writing one status with stale reads |
| RepoWorld, RepoSafety, RepoServer | the world of a repository, its history and what makes a history safe; what safe histories mean over whole runs; the API server with interference and faults |
| LocalCopy, RepoPass, RepoSpec, RepoStops, RepoController, RepoReconcile | the pass's local copy with its aliasing; the settled pass and why two are enough; the undisturbed pass as a total function, the progress it makes and where it stops; the controller statement by statement, whole runs |
| ReferenceIndex | the engine index: building it, its text, when it is written, and how it relates to deletion |
| EngineGpu, EngineWorld, EngineProgress, EngineTeardown, EngineController | the GPU check; the world and history of an engine; the obstacles of a pass and how pass after pass gets its storage; what a teardown under faults leaves behind; the gate, the readiness summary, deletion, whole runs |

Two devices carry the controller proofs.

*Histories.*  Every call that matters appends an event: what the controller read (the spec a pass
works from, a repository's status, the discovered storage class, a listing of the engines), a claim
seen bound, a job created, a status written.  `Safe` says when an event is allowed given what came
before it.  The controllers are proved to extend safe histories only by safe events, while the
environment takes any steps between any two calls and any call may fail, a failed write possibly having
taken effect.  The safety theorems are then lemmas about all safe histories, and speak of what the pass
had read when it acted.

*Quiet and still worlds.*  With a flag that switches interference and faults off, the same methods are
proved to compute an exact function of the state, branch by branch: `RepoSpec.QuietPass` for a
repository, `EngineWorld.EngineVerdict` for an engine.  On those functions the stabilisation and
progress theorems are proved, and the exact condition under which an engine ends up Running.  A second
flag switches off interference alone: in such a still world the deletions are proved to leave exactly
what their failing calls leave.

What those functions say is stated once more by lemmas in terms of the inputs alone: what the status
shows, and which names, digits, conditions and finalizers come out.

## Assumptions

- Hashes are at least 0x100000 (`Names.WideHash`, or `Nameable` as a precondition).  Below that the
  six-digit slice is out of range (`Names.SixDigits`); the code does not guard it.
- The revision names one repository asks for are distinct.  A repeated name that has no entry yet is
  written from a stale local view on its second turn, which can take Ready back
  (`RepoSpec.DuplicatesLoseReady`), and every list with a repeated name can come to that
  (`RepoSpec.RepeatedNameLosesReady`).
- One worker per object.  Reads are consistent in the reconcile passes; StatusRace drops that.
- Job types are at most 47 characters where job names are shortened; the program uses two short constants.
- Names are text of single-byte characters, so that lengths in characters are lengths in bytes.
- Deployments that belong to others have names of at most 52 characters or from a given set
  (`EngineWorld.Config.alien`).
- An object being deleted is not created again under the same name while its controller runs.

## Where code and comments disagree

- The comment above `BuildVLLMConfig` says trust_remote_code is always off; user arguments override it
  (`VllmArgs.TrustRemoteCode`, `VllmArgs.TrustRemoteCodeOverridden`).
- An empty recorded capacity has a default for the volume but not for the claim, where it panics after
  the volume was created (`StoragePair.EmptyCapacityPanics`, `StoragePair.PanicsExactly`).
- Teardown takes a failed read for an absent object, and both controllers drop their finalizer after a
  failed teardown, so objects can be left behind.  An engine's pairs: `EngineTeardown.FailedUpdateLeavesPair`,
  exactly when: `EngineTeardown.LeftBehindExactly`.  A repository's claim: `RepoReconcile.UnreadClaimIsStuck`,
  exactly when: `RepoReconcile.LeftHeldExactly`.  Without a storage provider the claim is not touched at all.
- The hash suffix is said to make names unique.  No shortened name is unique, and a short one exactly
  if neither part has a dash (`Names.SharedExactly`, for instance `Names.NamesCollide`); the volume name
  moreover omits the namespace (`StoragePair.NamespacesShareVolume`).  Job names, which are only said to
  be deterministic, are shared just as easily (`Names.JobSharedExactly`).
- The engine controller looks a deployment up under a name that is not shortened, so a long pair never
  becomes ready (`EngineWorld.LongPairNeverReady`).

## Model

| member | source | states |
|---|---|---|
| ConfigTree.LookupMerge | internal/controller/adapters/llmengine_utils.go:299-315 | what any path finds in a deep merge, in terms of what it finds in the two arguments alone |
| ConfigTree.MergeFrame | internal/controller/adapters/llmengine_utils.go:299-315 | a merge leaves every path untouched that the merged tree assigns nothing at, above or below |
| ConfigTree.MergeWrites | internal/controller/adapters/llmengine_utils.go:299-315 | a scalar of the merged tree is found in the result at its own path |
| ConfigTree.NestAssigns | internal/controller/adapters/llmengine_utils.go:277-291 | the nested map for a key path assigns exactly the extensions of that path |
| ConfigTree.LookupNest | internal/controller/adapters/llmengine_utils.go:277-291 | the nested map holds the value at the end of its path |
| ConfigTree.MergeIdempotent | internal/controller/adapters/llmengine_utils.go:293-315 | merge(a, a) = a for all trees |
| ConfigTree.MergeTwice | internal/controller/adapters/llmengine_utils.go:293-315 | merge(merge(a, b), b) = merge(a, b) for all trees |
| ConfigTree.MergeAbsorbs | internal/controller/adapters/llmengine_utils.go:293-315 | merge(a, c) = c exactly when c covers a |
| ConfigTree.MergeAssociates | internal/controller/adapters/llmengine_utils.go:293-315 | the two groupings of three merges agree exactly when no scalar in the middle separates maps of which the right one fails to cover the left one |
| ConfigTree.MergeAssociatesOnSameKinds | internal/controller/adapters/llmengine_utils.go:293-315 | hence deep merge is associative on trees that agree in kind, one neighbouring pair being enough |
| ConfigHeap.RecursiveMerge | internal/controller/adapters/llmengine_utils.go:299-315 | the in-place merge of disjoint unshared trees terminates, leaves dst unshared, acyclic and equal to the pure merge, and writes only maps dst owned |
| ConfigHeap.MergeKey | internal/controller/adapters/llmengine_utils.go:300-314 | one turn of the merge loop: maps under the same key merge in place, anything else is replaced by reference |
| ConfigHeap.GoMap.MergeChild | internal/controller/adapters/llmengine_utils.go:303-307 | merging into a stored map changes that entry only and keeps the whole tree unshared |
| ConfigHeap.GoMap.Put | internal/controller/adapters/llmengine_utils.go:313 | inserting a sub-map by reference hands its ownership over |
| ConfigHeap.CreateNestedMap | internal/controller/adapters/llmengine_utils.go:277-291 | built from the innermost level outward, the result is the one-path tree; nil exactly for no keys |
| ConfigHeap.Allocate | internal/controller/adapters/llmengine_utils.go:212-218 | a decoded JSON value is a fresh unshared tree of maps |
| VllmArgs.ReadToken | internal/controller/adapters/llmengine_utils.go:172-196 | key, value, flag test and the index behind what was consumed, for both argument formats |
| VllmArgs.Assign | internal/controller/adapters/llmengine_utils.go:232-250 | the dotted branch and the root-key branch with its own merge test both equal one deep merge of a one-path tree |
| VllmArgs.ConvertArgsToVLLMConfig | internal/controller/adapters/llmengine_utils.go:163-254 | for every argument list the loop returns an unshared tree equal to the left fold of pure merges of one-path trees, and gives each token exactly one role: key, separate value or skipped |
| VllmArgs.TurnEffect | internal/controller/adapters/llmengine_utils.go:166-250 | one turn of the loop extends the fold by the tokens it consumed, and never stops between a key and its value |
| VllmArgs.TurnRoles | internal/controller/adapters/llmengine_utils.go:166-193 | one turn consumes each of its tokens once |
| VllmArgs.TokenFrame | internal/controller/adapters/llmengine_utils.go:163-254 | an argument leaves every path alone that is no prefix or extension of what it assigns |
| VllmArgs.TokenWrites | internal/controller/adapters/llmengine_utils.go:163-254 | a scalar an argument assigns, at its path or inside its JSON value, is there right after it |
| VllmArgs.LastWriterWins | internal/controller/adapters/llmengine_utils.go:154-163 | a scalar assigned at p is in the final configuration if no later argument's path, or path into its JSON value, is comparable with p |
| VllmArgs.ArgumentHolds | internal/controller/adapters/llmengine_utils.go:195-250 | for a valued key that no later argument touches, the configuration holds at its path, merged into a map that was there, what its text means: the decoded JSON if the trimmed text is bracketed and decodes, else the text itself; unbracketed the integer, else the float, else the Boolean, else the text |
| VllmArgs.FlagHolds | internal/controller/adapters/llmengine_utils.go:198-202 | a flag whose key no later argument touches is true under the whole key with dashes replaced, dots included |
| VllmArgs.JsonSyntax | internal/controller/adapters/llmengine_utils.go:206-209 | JSON is tried exactly for texts that begin and end, but for white space, with braces or with brackets |
| VllmArgs.RootKeys | internal/controller/adapters/llmengine_utils.go:163-254 | the root keys of the result are exactly the first segments of the key tokens |
| VllmArgs.RootScalar | internal/controller/adapters/llmengine_utils.go:163-254 | a scalar is the value of a root key exactly if the last argument that names the key assigns it to the key itself |
| VllmArgs.OverrideAll | internal/controller/adapters/llmengine_utils.go:138-143 | copying the user entries over the defaults, in any iteration order, is a shallow override |
| VllmArgs.BuildVLLMConfig | internal/controller/adapters/llmengine_utils.go:102-146 | defaults for GPU or CPU, overridden key by key by what the user arguments mean |
| VllmArgs.DefaultsHold | internal/controller/adapters/llmengine_utils.go:102-146 | key by key: what the arguments make of it if one names it, else the default for the hardware, the model, the revision if there is one, and remote code off |
| VllmArgs.TrustRemoteCode | internal/controller/adapters/llmengine_utils.go:134-143 | remote code stays off exactly when no argument names the setting at the root, or the last one that does sets it itself to false |
| VllmArgs.TrustRemoteCodeOverridden | internal/controller/adapters/llmengine_utils.go:100-101 | the comment says always off; the single argument --trust-remote-code turns it on |
| Names.SixDigits | internal/controller/storage/llmengine_storage.go:328 | the hash text has the six digits that are sliced off exactly for hashes of at least 0x100000 |
| Names.TruncatedName | internal/controller/storage/llmengine_storage.go:314-352 | computes the name that NameForm describes, with every slice index in range |
| Names.NameForm | internal/controller/storage/llmengine_storage.go:314-352 | the name in full if it fits; else the first part cut to half the room, the second to what the first leaves, and the first six hexadecimal digits of the hash of the full name |
| Names.HexTextValue | internal/controller/storage/llmengine_storage.go:328 | the text read digit by digit, most significant first, is the number, without leading zeros |
| Names.LeadingDigits | internal/controller/storage/llmengine_storage.go:328 | the six digits are a prefix of that text: their value is the hash divided by 16 to the number of digits dropped |
| Names.SlicesInRange | internal/controller/storage/llmengine_storage.go:335-346 | no slice index is negative exactly when maxLen has room for prefix, separators and hash |
| Names.NameLength | internal/controller/storage/llmengine_storage.go:310-314 | the result is at most maxLen long |
| Names.NameIsLabel | internal/controller/storage/llmengine_storage.go:310-314 | from DNS labels (section 2.1 of RFC 1123) the result is a DNS label, except exactly for a shortened name without prefix and room for fewer than two characters |
| Names.SharedExactly | internal/controller/storage/llmengine_storage.go:301-352 | a name is shared with another pair exactly if it was shortened, in spite of the hash, or a part has a dash |
| Names.SharingPair | internal/controller/storage/llmengine_storage.go:324-352 | the other pair: what a shortened name reads as, hash included, or the parts divided at another dash |
| Names.NamesCollide | internal/controller/storage/llmengine_storage.go:301-308 | an instance: ("a-b", "c") and ("a", "b-c") are both named le-a-b-c |
| Names.DashFreeNamesSeparate | internal/controller/storage/llmengine_storage.go:314-352 | pairs whose first part has no dash, shortened or not, share a name exactly if they read as the same pair: two short ones only if they are the same |
| Names.LookupFindsComponent | internal/controller/llmengine_controller.go:207-217 | the name the controller looks up is the name of the deployment it applied exactly for pairs of at most 52 characters |
| Names.GenerateJobName | internal/controller/modelrepository_controller.go:682-748 | computes the job name that JobNameForm and RepoJobNameForm describe, with every slice index in range |
| Names.JobNameForm | internal/controller/modelrepository_controller.go:699-748 | type, repository and revision in full if that fits; else each cut to its share, followed by the first six digits of the hash of repository and revision |
| Names.RepoJobNameForm | internal/controller/modelrepository_controller.go:686-697 | the same without a revision |
| Names.JobRoomShared | internal/controller/modelrepository_controller.go:713-730 | of the room left three fifths go to the repository, rounded down, with at least eight and six characters where there is room for both |
| Names.JobLengthsInRange | internal/controller/modelrepository_controller.go:713-730 | the lengths left for repository and revision are in range exactly for job types of at most 47 characters |
| Names.JobNameLength | internal/controller/modelrepository_controller.go:675-684 | job names are at most 63 long, at most 62 with a revision |
| Names.JobNameIsLabel | internal/controller/modelrepository_controller.go:675-748 | from DNS labels the job name is a DNS label |
| Names.JobSharedExactly | internal/controller/modelrepository_controller.go:675-748 | a job name is shared with another repository and revision exactly if it was shortened, the repository has a dash, or the revision has one that is not its end |
| Backend.AddAttributes | internal/controller/storage/storage_sc.go:307-465 | the loop that writes prefixed attributes gives the same record for every iteration order |
| Backend.ExtractBackend | internal/controller/storage/storage_sc.go:307-465 | member by member in the code's order, the record that the round trip starts from |
| Backend.RecordNamesClaim | internal/controller/storage/storage_sc.go:307-465 | every known volume is recorded, under the kind of its first member in the code's order, with the repository's own claim and, for shared storage, its directory |
| Backend.RecordLocates | internal/controller/storage/storage_sc.go:307-465 | what each kind of record says of server, path or handle |
| Backend.CsiAddress | internal/controller/storage/storage_sc.go:330-372 | the address derived for the two drivers that have one |
| Backend.CsiAttributesRecorded | internal/controller/storage/storage_sc.go:330-372 | every attribute is recorded under csi. and its name |
| Backend.RebuildAttributes | internal/controller/storage/llmengine_storage.go:276-282 | the loop that strips the prefix gives the same attributes for every iteration order |
| Backend.BuildReadOnlyPVSpec | internal/controller/storage/llmengine_storage.go:192-297 | the mirror specification of a record, an error, or a panic for an unparseable capacity |
| Backend.AttributesRoundTrip | internal/controller/storage/llmengine_storage.go:276-282 | prefixing and stripping gives back exactly the attribute map, whatever else the record holds |
| Backend.BackendRoundTrip | internal/controller/storage/storage_sc.go:307-465 | extraction followed by rebuilding succeeds on exactly the volumes that have a mirror, and gives it: same server, path or handle and, for CSI, the identical attributes |
| Backend.MirrorExists | internal/controller/storage/llmengine_storage.go:192-297 | exactly which volumes have a mirror, in terms of the volume alone |
| Backend.MirrorShowsSameData | internal/controller/storage/llmengine_storage.go:192-297 | the mirror reaches the same data, read-only, in the same way, or for the NFS driver as plain NFS |
| Backend.MirrorIsStable | internal/controller/storage/llmengine_storage.go:192-297 | a mirror is its own mirror |
| Backend.HostPathNode | internal/controller/storage/storage_sc.go:289-303 | the node read back from the mirror of a host path is the recorded one |
| Backend.NodeIsFirst | internal/controller/storage/storage_sc.go:289-303 | the node read from a volume is the first value of the first requirement on host names, in the order of terms and requirements |
| StoragePair.EnsureLLMEngineStorage | internal/controller/storage/llmengine_storage.go:43-150 | under any set of failing calls: result and cluster as the specification function says |
| StoragePair.SuccessMeansBound | internal/controller/storage/llmengine_storage.go:133-149 | success means the volume is present, the claim bound, and both name and mount path returned, /data/models by default, under any faults |
| StoragePair.SucceedsExactly | internal/controller/storage/llmengine_storage.go:43-150 | one error-free call succeeds exactly if the record can be mirrored, the capacity parses and the claim is already bound |
| StoragePair.EnsureOnlyAdds | internal/controller/storage/llmengine_storage.go:87-131 | existing objects are never modified and nothing but the pair is added, under any faults |
| StoragePair.CreatedVolume | internal/controller/storage/llmengine_storage.go:66-97 | a created volume is read-only-many, retained, reserved for its own claim, protected, labelled, pinned to the recorded node if it is a host path, and of the recorded capacity or 10Gi |
| StoragePair.CreatedClaim | internal/controller/storage/llmengine_storage.go:97-131 | a created claim asks read-only-many for the pair's volume and the recorded capacity, is protected, labelled and not bound yet, and fits a volume made with it |
| StoragePair.PairNames | internal/controller/storage/llmengine_storage.go:301-308 | volume and claim have one name, made of engine and repository, in full up to 59 characters |
| StoragePair.CreatedVolumeMirrors | internal/controller/storage/llmengine_storage.go:60-97 | if the record was extracted from a volume, the created one is its mirror |
| StoragePair.TwoCallsSucceed | internal/controller/storage/llmengine_storage.go:43-150 | from any state, two error-free calls with a binding step in between succeed exactly if what already exists is reserved for the claim |
| StoragePair.BindableIsKept | internal/controller/storage/llmengine_storage.go:43-150 | faults, partial calls for any pair of the namespace and other bindings never lose that condition |
| StoragePair.NamespacesShareVolume | internal/controller/storage/llmengine_storage.go:301-303 | the volume name omits the namespace: of two engines of one name in two namespaces the second never gets storage while the volume of the first stands, whatever calls, faults, bindings and teardowns follow |
| StoragePair.PanicsExactly | internal/controller/storage/llmengine_storage.go:193-200 | the call panics exactly when the defaulted or the recorded capacity does not parse |
| StoragePair.EmptyCapacityPanics | internal/controller/storage/llmengine_storage.go:121 | an empty recorded capacity panics with the volume already created |
| StoragePair.CleanupLLMEngineStorage | internal/controller/storage/llmengine_storage.go:154-189 | under any set of failing calls: result and cluster as the specification function says |
| StoragePair.CleanupReleases | internal/controller/storage/llmengine_storage.go:154-189 | success without failed reads leaves both objects absent, or marked deleted without the operator's finalizer |
| StoragePair.ReleasedExactly | internal/controller/storage/llmengine_storage.go:164-186 | under any faults, exactly when each object of the pair ends up released |
| StoragePair.ReleaseIsKept | internal/controller/storage/llmengine_storage.go:154-189 | what was released stays released through any other teardown |
| StoragePair.CleanupFrame | internal/controller/storage/llmengine_storage.go:154-189 | no other pair is touched, under any faults |
| StoragePair.CleanupKeepsRest | internal/controller/storage/llmengine_storage.go:154-189 | of the pair itself only the operator's finalizer and the mark of deletion change |
| StoragePair.CleanupIsIdempotent | internal/controller/storage/llmengine_storage.go:154-189 | a second error-free teardown changes nothing |
| StoragePair.FailedReadsLeak | internal/controller/storage/llmengine_storage.go:166-178 | a failed read counts as an absent object: the call reports success and leaves everything |
| StoragePair.CleanupUndoesEnsure | internal/controller/storage/llmengine_storage.go:43-189 | create, bind and tear down give back the original cluster |
| Status.FindAfterSet | internal/controller/modelrepository_controller.go:474-486 | a condition that was set is found, and every other kind is as before |
| Status.SetPlace | internal/controller/modelrepository_controller.go:474-486 | a condition takes the place of the first of its kind, or the last place |
| Status.SetIsNoChange | internal/controller/modelrepository_controller.go:458-471 | setting a condition changes nothing exactly if it was there |
| Status.FindAfterPut | internal/controller/modelrepository_controller.go:597-611 | an entry that was written is found, and every other name is as before |
| Status.PutPlace | internal/controller/modelrepository_controller.go:597-611 | an entry takes the place of the first of its name, or the last place |
| Status.PutIsNoChange | internal/controller/modelrepository_controller.go:597-611 | writing an entry changes nothing exactly if it was there |
| Status.ApplyTwice | internal/controller/modelrepository_controller.go:458-471 | a mutation applied once more changes nothing |
| Status.ApplyOwn | internal/controller/modelrepository_controller.go:458-471 | a mutation neither reads nor writes the engine index |
| Status.ApplyKeepsPhaseOk | internal/controller/modelrepository_controller.go:474-503 | every mutation keeps phase and conditions consistent, the storage update included, which sets a condition without deriving the phase |
| Status.SetConditionFrame | internal/controller/modelrepository_controller.go:474-503 | setting a condition changes that condition and the phase, nothing else: Ready for true, Downloading for its one reason, Failed for every other, Pending without a condition |
| Status.OtherMutations | internal/controller/modelrepository_controller.go:597-634 | recording storage changes the storage status and its condition, putting an entry the entries, and neither the phase |
| StatusRace.NoLostUpdates | internal/controller/modelrepository_controller.go:458-471 | under every interleaving of both controllers' attempts with stale reads, each write changes only its own controller's fields, and both controllers' fields are those they last wrote |
| StatusRace.PhaseKept | internal/controller/modelrepository_controller.go:474-503 | the phase invariant survives every interleaving |
| StatusRace.AttemptAchieves | internal/controller/llmengine_controller.go:558-567 | for every attempt that meets no conflict, stale or not: its intent holds afterwards exactly if the version it read is current or the intent held anyway; for the engine controller, that the index is the intended one |
| StatusRace.StaleReadSkipsWrite | internal/controller/llmengine_controller.go:558-567 | a schedule in which the engine controller with a stale read skips a write it needed |
| RepoWorld.EnvStepOk | internal/controller/modelrepository_controller.go:65-124 | every step of the environment keeps the history safe and leaves the controller's fields alone |
| RepoWorld.DesiredExactly | internal/controller/modelrepository_controller.go:555-583 | desired are exactly the listed revisions, in order; without a list the one the spec names, or latest for Ollama and main for the others |
| RepoServer.SyncStatus | internal/controller/modelrepository_controller.go:458-471 | fetch, mutate, conditional write, up to five times: on success the owned fields are exactly the mutated ones whatever others did; undisturbed it writes once, or not at all if nothing changes |
| RepoServer.Server.UpdateStatus | internal/controller/modelrepository_controller.go:469 | a write commits only over the version it was made from |
| RepoSafety.ReadyForever | internal/controller/modelrepository_controller.go:224-356 | over whole runs a ready revision never leaves Ready |
| RepoSafety.ReadyOnlyAfterSuccess | internal/controller/modelrepository_controller.go:311-336 | over whole runs a revision is ready only after a job with its generated name reported success |
| RepoSafety.ReadyConditionIsSound | internal/controller/modelrepository_controller.go:359-379 | whenever Ready=True is written, every revision listed in the spec that the controller read last, or the sole one if none is, is ready in the server's own status, then and ever after |
| RepoSafety.PhaseInvariant | internal/controller/modelrepository_controller.go:474-503 | in every reachable status the phase is the derived one, or none was ever derived and there is no Ready condition |
| RepoSafety.JobsArePinned | internal/controller/modelrepository_controller.go:152-177 | every download job is for a revision desired by the spec read last, after an entry for it was stored; if every discovery of the pass found node-bound storage, the claim was seen bound before in that pass and the job is pinned to the node its volume names |
| RepoSafety.DeletionIsSafe | internal/controller/modelrepository_controller.go:381-455 | jobs are deleted, the claim released and the finalizer removed only by a pass whose own engine listings showed no reference |
| RepoSafety.StaleJobsAreCleanups | internal/controller/modelrepository_controller.go:508-548 | a job deleted outside deletion is the cleanup job of a revision that the spec read last asks for |
| RepoSafety.SpecIsTheUsers | internal/controller/modelrepository_controller.go:75-83 | the controller changes a spec in one way only: a missing model name becomes the name of the repository |
| LocalCopy.Local.FindRevisionStatus | internal/controller/modelrepository_controller.go:587-594 | returns a pointer into the local copy, to the first entry of the name |
| LocalCopy.SetStatus | internal/controller/modelrepository_controller.go:330-354 | writing through that pointer changes the local copy as well |
| RepoController.UpdateRevisionStatus | internal/controller/modelrepository_controller.go:597-611 | the entry reaches the server's list, or the list stays as it was |
| RepoController.SetRepoCondition | internal/controller/modelrepository_controller.go:474-486 | one condition and the derived phase, whatever interferes |
| RepoController.Record | internal/controller/modelrepository_controller.go:285-306 | status through the pointer or into a fresh entry, then to the server: local copy and server stay in agreement, and undisturbed the aliased entry changes in both, a fresh one only on the server |
| RepoController.HandleJobStatus | internal/controller/modelrepository_controller.go:311-356 | a job's outcome is copied, Ready only for a job that reported success; undisturbed, each of the four outcomes exactly |
| RepoController.CreateDownloadJob | internal/controller/modelrepository_controller.go:254-308 | under interference the job it creates is for a wanted revision whose entry was stored before, with node-bound storage pinned to a node seen in this pass; undisturbed, each branch exactly |
| RepoController.LaunchJob | internal/controller/modelrepository_controller.go:287-307 | the created job carries the name, label and affinity planned; the entry reads Downloading exactly if the job was created, else Failed |
| RepoController.DeleteStaleCleanupJob | internal/controller/modelrepository_controller.go:508-548 | nothing is deleted but the cleanup job of that revision; undisturbed, exactly if it exists |
| RepoController.ReconcileRevision | internal/controller/modelrepository_controller.go:224-251 | skips ready revisions, else handles or creates the job, keeping local copy and server in agreement; undisturbed it is exactly one step of the specification, in every branch |
| RepoController.ReconcileRevisions | internal/controller/modelrepository_controller.go:180-220 | the revision loop keeps local copy and server in agreement; undisturbed it takes exactly the specified steps, up to the first that ends the pass |
| RepoController.UpdateOverallPhase | internal/controller/modelrepository_controller.go:359-379 | Ready=True only if the server shows every revision of the spec read in this pass ready; undisturbed exactly if the partly aliased local copy shows it, else Downloading if a job runs, else nothing |
| RepoPass.OnePass | internal/controller/modelrepository_controller.go:65-124 | after one undisturbed pass every desired revision is ready on the server, the finalizer is on and nothing else of the object is touched, and Ready=True is written exactly if each had an entry before |
| RepoPass.OnePassServesSpec | internal/controller/modelrepository_controller.go:65-124 | in particular every revision listed in the spec, or the sole one if none is |
| RepoPass.StorageReadHolds | internal/controller/storage/storage_sc.go:244-287 | the storage is read exactly if the claim is bound to a known kind of volume that is there; what is recorded of it |
| RepoPass.TwoPassesStabilise | internal/controller/modelrepository_controller.go:65-124 | from every status, two undisturbed passes reach Ready=True and phase Ready |
| RepoPass.StablePassWritesNothing | internal/controller/modelrepository_controller.go:65-124 | every later pass writes nothing |
| RepoPass.OnePassEnough | internal/controller/modelrepository_controller.go:65-124 | one pass is enough exactly if every desired revision had an entry or condition and phase already read Ready |
| RepoSpec.SettledPass | internal/controller/modelrepository_controller.go:65-124 | where storage is settled and every download succeeded, the undisturbed pass is the settled one |
| RepoSpec.StepContinues | internal/controller/modelrepository_controller.go:224-356 | the loop goes on after a revision exactly if it is ready, its job has not failed, or it has no job and one can be created now |
| RepoSpec.StepEffect | internal/controller/modelrepository_controller.go:224-356 | a step that goes on leaves its revision ready or with its job, and other revisions and jobs as they were |
| RepoSpec.DuplicatesLoseReady | internal/controller/modelrepository_controller.go:200-308 | whenever a name without local entry is desired again and everything before its second turn was downloaded, the name is ready then, and if its job disappears, the pass ends with Ready taken back: why names must be distinct |
| RepoSpec.RepeatedNameLosesReady | internal/controller/modelrepository_controller.go:200-308 | every list that repeats a name has such a world, a new repository whose downloads succeeded |
| RepoSpec.JobKindsDiffer | internal/controller/modelrepository_controller.go:516-517 | download and cleanup jobs never share a name; short ones are the type, the repository and the revision |
| RepoSpec.PassObstacles | internal/controller/modelrepository_controller.go:65-124 | what a pass shows and answers that cannot get to the storage: no model name, no storage provider, a size that does not parse |
| RepoSpec.StorageWaits | internal/controller/modelrepository_controller.go:128-177 | a missing claim is created with the protection finalizer; storage that cannot be read is waited for exactly unless it is shared, with everything else as it was |
| RepoSpec.NoDownloadUnasked | internal/controller/modelrepository_controller.go:117-123 | without autoDownload no job is created and no entry changes |
| RepoSpec.JobShown | internal/controller/modelrepository_controller.go:311-356 | for each outcome of a job what is recorded, shown and answered |
| RepoSpec.MissingJobShown | internal/controller/modelrepository_controller.go:254-308 | for a revision without a job: a stale cleanup job goes first, an origin without a manifest fails, else the job is created as planned |
| RepoSpec.OverallShown | internal/controller/modelrepository_controller.go:359-379 | all ready, else downloading if a job runs, else as it was |
| RepoSpec.FittingJobsDiffer | internal/controller/modelrepository_controller.go:675-748 | revisions of one repository whose job names need not be cut have different download jobs |
| RepoSpec.PassProgress | internal/controller/modelrepository_controller.go:65-220 | an undisturbed pass with nothing in the way leaves every desired revision ready or with its download job; jobs it created are its own and, with node-bound storage, pinned to the node the bound volume names |
| RepoStops.PassRuns | internal/controller/modelrepository_controller.go:180-220 | such a pass is requeued and shows Downloading exactly as long as the success of some wanted download is not known |
| RepoStops.PassStops | internal/controller/modelrepository_controller.go:180-356 | and otherwise the pass stops exactly at the first revision in whose way something stands: what it shows and answers for a failed job, a stale cleanup job and an origin without a manifest, and that it starts nothing behind it |
| RepoReconcile.CreateStorage | internal/controller/storage/storage_sc.go:97-145 | an existing claim is left alone, a missing one is created with the protection finalizer |
| RepoReconcile.GetStorageStatus | internal/controller/storage/storage_sc.go:244-287 | the status read from a claim seen bound, with the volume's node for node-bound storage |
| RepoReconcile.UpdateStorageStatus | internal/controller/modelrepository_controller.go:614-634 | on success the stored storage status is the one just read |
| RepoReconcile.ReconcileStorage | internal/controller/modelrepository_controller.go:128-177 | the pass goes on with node-bound storage only once the binding was seen and recorded; undisturbed, each branch exactly |
| RepoReconcile.Cleanup | internal/controller/storage/storage_sc.go:148-170 | only under a clear listing; without interference, exactly what the three calls leave, whichever of them fails |
| RepoReconcile.CleanupKeepsClaim | internal/controller/storage/storage_sc.go:148-170 | of the claim only the operator's finalizer and the mark of deletion change |
| RepoReconcile.CleanupWorks | internal/controller/storage/storage_sc.go:148-170 | if all calls work the claim is gone, or waits for the finalizers of others alone |
| RepoReconcile.LeftHeldExactly | internal/controller/modelrepository_controller.go:435-454 | exactly when a repository goes and its claim is still held: it was held, and there was no provider, or its read failed, or the write that takes the finalizer off did not happen |
| RepoReconcile.ReleasedExactly | internal/controller/storage/storage_sc.go:148-170 | exactly when the claim is gone or on its way out without the operator's finalizer |
| RepoReconcile.UnreadClaimIsStuck | internal/controller/storage/storage_sc.go:156-168 | a claim whose read fails is marked deleted with the finalizer still on it, and the cleanup reports success |
| RepoReconcile.DeleteJobs | internal/controller/modelrepository_controller.go:421-433 | only under a clear listing; undisturbed exactly the jobs with the repository's label go, and without interference nothing else changes, whatever fails |
| RepoReconcile.RemoveFinalizer | internal/controller/modelrepository_controller.go:442-454 | only under a clear listing; undisturbed the finalizer goes and nothing else of the object changes |
| RepoReconcile.ReleaseAll | internal/controller/modelrepository_controller.go:421-454 | success means that the finalizer is gone; the claim is as its cleanup left it under its faults; undisturbed: no labelled jobs, claim released, finalizer gone |
| RepoReconcile.Dependents | internal/controller/modelrepository_controller.go:391-399 | the names of the engines that reference the repository, in listing order, each once per engine |
| RepoReconcile.DependentsInOrder | internal/controller/modelrepository_controller.go:391-399 | exactly the engines that name the repository, in the order of the listing |
| RepoReconcile.BlockedShown | internal/controller/modelrepository_controller.go:400-411 | the condition that a blocked deletion shows, with the names in it |
| RepoReconcile.DeletedMeans | internal/controller/modelrepository_controller.go:421-454 | what a deletion that is not blocked leaves of jobs, claim and object |
| RepoReconcile.HandleDeletion | internal/controller/modelrepository_controller.go:381-455 | blocked, the call adds nothing but its listing and writes of the blocking condition; otherwise the cleanup runs under a listing without references, success means that the finalizer is gone, and without interference the claim is as the cleanup left it; undisturbed, both outcomes exactly |
| RepoReconcile.Reconcile | internal/controller/modelrepository_controller.go:65-124 | every pass keeps the history safe under interference and faults; undisturbed it is exactly the specified pass, whatever the state, and a deletion exactly the specified one: blocked, carried out, or put off until a missing model name is filled in |
| RepoReconcile.Operate | internal/controller/modelrepository_controller.go:65-124 | any number of passes under interference keeps the history safe |
| RepoReconcile.Stabilise | internal/controller/modelrepository_controller.go:65-124 | three undisturbed passes: Ready after two, and the third leaves object, jobs and claim as the second left them |
| ReferenceIndex.BuildRefMap | internal/controller/llmengine_controller.go:529-546 | the in-place pass over the engines equals the plain scan for every tracked repository |
| ReferenceIndex.TextIsOrderFree | internal/controller/llmengine_controller.go:550-556 | the index text is the same for every iteration order of the set |
| ReferenceIndex.SortedUnique | internal/controller/llmengine_controller.go:555 | two sorted arrangements of the same names are the same |
| ReferenceIndex.LeIsLexicographic | internal/controller/llmengine_controller.go:555 | the order of the names is the lexicographic one |
| ReferenceIndex.TextDecodes | internal/controller/llmengine_controller.go:550-556 | the index text decodes back to exactly the set |
| ReferenceIndex.IndexSays | internal/controller/llmengine_controller.go:529-556 | an index text is the comma-separated list, in lexicographic order and each once, of namespace/name of the engines that reference the repository and are not being deleted |
| ReferenceIndex.UpdateReferencedEngines | internal/controller/llmengine_controller.go:519-572 | error-free, each named repository that exists holds the index of the scan, nothing else changes, and exactly the repositories whose index was not right are written, each once |
| ReferenceIndex.UpdateTwice | internal/controller/llmengine_controller.go:563-565 | two runs on the same engines write exactly what the first one needed, and the second leaves every status as it is |
| ReferenceIndex.IndexedEnginesBlock | internal/controller/modelrepository_controller.go:391-411 | deletion is blocked exactly if the index is non-empty or an engine being deleted still names the repository |
| EngineGpu.ValidateNode | internal/controller/llmengine_controller.go:315-341 | a node passes exactly if it has the resource, enough of it, and every selector label |
| EngineGpu.ValidateCluster | internal/controller/llmengine_controller.go:359-425 | the nodes collected are exactly the suitable ones |
| EngineGpu.SuitableMeans | internal/controller/llmengine_controller.go:297-341 | a suitable node in terms of the request: one nvidia.com/gpu by default, a missing label counting as an empty one |
| EngineGpu.RequiredNode | internal/controller/llmengine_controller.go:144-153 | the bound node of the first node-bound repository that has one |
| EngineGpu.AvailableMeans | internal/controller/llmengine_controller.go:141-163 | the node checked is the first of the name that the first repository with ReadWriteOnce storage on a known node gives, else any |
| EngineWorld.PhaseAfter | internal/controller/llmengine_controller.go:453-485 | each status write leaves the derived phase: Running exactly for the all-ready write, Starting for deployments without ready replicas, Pending exactly for the four reasons to wait, Error for every other |
| EngineWorld.ShownAfter | internal/controller/llmengine_controller.go:104-264 | what each kind of write leaves in the conditions and the list of models, other conditions as they were |
| EngineWorld.ReasonIsSound | internal/controller/llmengine_controller.go:93-264 | under any interference and faults, whenever a status is written its reason is true of the pass: a model waited for was read as not ready, and a later obstacle is named only when all earlier ones were seen out of the way in that pass |
| EngineWorld.DeploymentGate | internal/controller/llmengine_controller.go:104-204 | in every safe history nothing is applied but in a pass that read the engine as not being deleted, for a model of the spec read then, mounting its own claim, and only after each repository of that spec was read with phase Ready and its claim seen bound in that pass |
| EngineWorld.GpuGate | internal/controller/llmengine_controller.go:141-163 | nor, if that spec asks for GPUs, unless a suitable node was found in that pass, on the node that storage demands according to the repositories it read |
| EngineWorld.ReadyIsSound | internal/controller/llmengine_controller.go:178-244 | Ready=True is written only after every model of the spec that the pass read was applied and found with ready replicas in that pass |
| EngineWorld.LongPairNeverReady | internal/controller/llmengine_controller.go:207-217 | an engine whose spec, as the pass read it, has a pair longer than 52 characters never writes Ready=True, unless someone else owns a deployment of the long name |
| EngineWorld.TeardownIsSafe | internal/controller/llmengine_controller.go:79-82 | storage is torn down and the finalizer removed only in a pass that read the engine as being deleted, and only the storage of its references |
| EngineWorld.RunsExactly | internal/controller/llmengine_controller.go:104-265 | an undisturbed pass declares all deployments ready exactly if every reference is ready, GPUs are available, every pair is mountable and every lookup name has a ready deployment |
| EngineWorld.MirroringOnlyAdds | internal/controller/llmengine_controller.go:165-176 | what the storage calls of a pass do to the store: existing objects are kept and only pairs of the references are added |
| EngineWorld.PairOf | internal/controller/llmengine_controller.go:165-176 | each pair is asked for on behalf of this engine and that repository, with the recorded storage and mount path, under the name that deployments mount and teardowns clean up |
| EngineProgress.EarlyObstacles | internal/controller/llmengine_controller.go:93-139 | the verdict of a pass when a repository is missing, none is referenced, or one is not ready: the first one is named |
| EngineProgress.LateObstacles | internal/controller/llmengine_controller.go:141-264 | and once all are ready: no GPUs, the first pair that cannot be mounted, or the deployment, ready exactly if every looked-up deployment has ready replicas |
| EngineProgress.StorageSettles | internal/controller/llmengine_controller.go:165-176 | with repositories and GPUs in order and every pair mountable sooner or later, each round of a pass and a binding makes one more pair mountable: after as many rounds as there are references a pass deploys the models |
| EngineWorld.World.CheckGpu | internal/controller/llmengine_controller.go:288-434 | passes only with a suitable node in evidence; undisturbed, exactly if there is one |
| EngineWorld.World.EnsureStorage | internal/controller/llmengine_controller.go:165-176 | success means the claim was seen bound in this call |
| EngineController.SyncStatus | internal/controller/llmengine_controller.go:437-450 | fetch, mutate, conditional write, up to five times; undisturbed the stored status is the mutated one, written once or not at all, and nothing else changes |
| EngineController.FetchModelRepositories | internal/controller/llmengine_controller.go:267-283 | every reference is read in this pass, or the pass stops |
| EngineController.PrepareStorage | internal/controller/llmengine_controller.go:165-176 | goes on only if every claim was seen bound; undisturbed it stops exactly at the first pair that is not mountable, with the store as the calls up to it make it |
| EngineController.DeployAll | internal/controller/llmengine_controller.go:178-217 | undisturbed it rolls out every model, adding only what is missing, and counts exactly those with ready replicas under their lookup name; under interference a full count means that each was applied and then found ready |
| EngineController.RollOutAdds | internal/controller/llmengine_controller.go:178-205 | a roll-out adds exactly the missing deployments, none of them ready, and leaves the others as they were |
| EngineController.Deploy | internal/controller/llmengine_controller.go:104-264 | nothing is applied before the gate; undisturbed the status written and the requeue are exactly the verdict's, the store is what the storage calls up to the first unmountable pair make of it, every model and index is rolled out exactly if that is the verdict, and otherwise no deployment and no index changes |
| EngineController.Reconcile | internal/controller/llmengine_controller.go:70-265 | every pass keeps the history safe under interference and faults; undisturbed its outcome is exactly the verdict's, store and whole object included, where there is none it panics with the status as it was, and a deletion tears every pair down, refreshes the index and drops the finalizer |
| EngineController.PassShows | internal/controller/llmengine_controller.go:70-265 | for each obstacle the phase, the reason and the answer that an undisturbed pass ends with; without any, the models and Running or Starting |
| EngineController.PassKeepsEngine | internal/controller/llmengine_controller.go:83-90 | of the engine nothing but the status changes, and that it has the operator's finalizer |
| EngineTeardown.LeftBehindExactly | internal/controller/llmengine_controller.go:490-497 | under any faults, for any list of references, repeated ones included: exactly when each object of a pair is no longer held after the deletion |
| EngineTeardown.AllReleased | internal/controller/llmengine_controller.go:490-497 | error-free deletion leaves every referenced pair released |
| EngineTeardown.TeardownFrame | internal/controller/llmengine_controller.go:490-497 | under any faults no other object is touched |
| EngineTeardown.FailedUpdateLeavesPair | internal/controller/llmengine_controller.go:490-497 | a pair whose claim cannot be updated stays whole, volume included |
| EngineController.HandleDeletion | internal/controller/llmengine_controller.go:487-515 | success means that this call took the finalizer off, whatever became of the storage; without interference the storage is exactly what the teardown under its faults leaves; undisturbed the index is refreshed and the finalizer always goes |
| EngineController.Operate | internal/controller/llmengine_controller.go:70-265 | any number of passes: the history is safe throughout and the stored phase is the derived one |

## Left out

- Clocks: transition times, observed generations, requeue delays, log output and metrics.
- Condition messages are kept where a comparison depends on them, with simplified wording and without counts.
- Floating point: numbers are reals, without NaN and infinities.  JSON, integer, float and quantity parsing and the FNV hash are arbitrary functions.
- Sorting: `ReferenceIndex.SortStrings` stands for the library's sort; only sortedness and permutation are used.
- YAML marshalling, environment variables, ports, tolerations, resource merging, services and config maps: easy members.
- Server-side apply and manifest templates: one call that may fail, possibly after the deployment was applied.
- Owner references and garbage collection; failures of SetControllerReference.
- Storage class categories and their selection: discovery is one call with an arbitrary answer.
- The binder, the scheduler and the job controller: arbitrary environment steps.  No liveness that depends on them is claimed.
- Deletion propagation of jobs: a deleted job is gone, or may appear again as an environment step.
- The race between listing the engines and removing the finalizer: an engine created in between is not seen.
- ReferenceIndex.UpdateReferencedEngines: error-free and on its own; conflicts with the other controller are StatusRace.NoLostUpdates.  A repository that no engine names any more keeps its old index, which the program does not promise to refresh.
- RepoSpec.PassProgress: assumes that the generated names of the desired download jobs differ from each other; RepoSpec.FittingJobsDiffer gives it for names that need not be cut, and cut ones can collide.
- The repository claim's request (storage class, access mode, size) is handed through from the spec and the discovery and is not modelled.
- EngineProgress.StorageSettles: the binding of the claim that a pass waits for is assumed to follow that pass; nothing else changes between the rounds.
- RepoStops.PassStops: like RepoSpec.PassProgress it assumes distinct job names.
- RepoSafety.JobsArePinned: the program discovers the storage class twice in a pass and goes by both answers, so the pinning is claimed when both were node-bound.
- StoragePair.EnsureLLMEngineStorage: one call is atomic with respect to other writers; faults can stop it after any client call.
- RepoReconcile.Reconcile: the exact outcome is stated for an undisturbed pass; under interference, the safety of the history and what syncStatus keeps.
- EngineController.Reconcile: the exact outcome is stated for an undisturbed pass; under interference, the safety of the history.
- EngineController.HandleDeletion: the update of the index is ReferenceIndex.UpdateReferencedEngines, which may fail and is then skipped.
- User edits of the status subresource.
