# model-manager in Dafny

model-manager is a control plane over Kubernetes: it serves models, wires them into
kagent as ModelConfigs, remembers what the model caches hold, and decides which node a
model goes to. This project models its small protocols over shared state and the
arithmetic of its placement, and proves what they keep over every run.

`dafny verify dfyconfig.toml` checks everything. One module per component:

- `Basics`, `Text`, `Names`: what modules share; orders and cuts of strings; the names derived for ModelConfigs and their
  placeholder Secrets.
- `Flux`: what Flux applies from git, which the ownership of ModelConfigs rests on.
- `Wiring`, `WiringOwnership`, `WiringIdentity`, `WiringRemoval`, `WiringPlan`, `WiringRules`: the ModelConfigs several
  instances write into one namespace. `Wiring.Cluster` makes the calls as the code does, on
  the API server's objects; each is tied to a pure step. A step may be cut short after any
  number of its writes (an API fault). Between steps other clients of the API server may
  create, change and delete ModelConfigs, but not change who created or manages one that stays.
- `CacheIndex`: the ConfigMap that remembers which repository fills a cache directory,
  written by compare-and-swap, one API request a step, by any number of callers.
- `Jobs`, `LoadUnload`: background jobs, and an unload against the load jobs of its model.
- `Registry`: backends registered from the ConfigMaps that declare them.
- `Unified`, `Placement`, `Copies`, `Reservations`: whether a model fits and where it goes,
  and what running models hold of each node's budget. Utilizations are exact reals.
- `Gateway`, `FirstAnswer`, `Inventory`, `Settings`: the reconcile of a served model's
  AgentgatewayModels, the first request a model is asked, the cache scans, the settings kept.

## What the proofs found

Properties one would expect and the code does not have, each with the condition under which
it holds, an input where it does not, or both:

- Repeating an `Ensure` that created a keyless ModelConfig removes a stale placeholder Secret
  the first call left (`WiringIdentity.EnsureTwice`, `StaleSecretGoesLate`).
- The comment on plan says a repeated `Ensure` never deletes and recreates. One that finds what the
  first wrote does exactly when the first replaced a ModelConfig at the base name and wrote its own
  at the suffixed one (`WiringIdentity.FoundEnsureTwice`, `UnnamedEnsureReverts`): never for a named
  backend. For an endpoint that names none that suffixed name ends in a dash, which a real API
  server refuses; and find then answers what was written, in every listing, exactly when the model
  has no other ModelConfig (`UnnamedEnsureThenFind`).
- Two references of the same words share a derived name, and with it a ModelConfig: find answers
  one model's for the other, and a removal of the one nobody wired takes the other's
  (`Names.DerivedNamesCoincide`, `WiringIdentity.SharedName`).
- For an endpoint that names no backend, replacing an older ModelConfig leaves two that match
  one model exactly when the model has a further ModelConfig of a backend what stands at the new
  name is not told apart from (`WiringIdentity.EnsureUniqueIff`, `UnnamedBackendClashes`). The
  service always names the backend (internal/service/service.go:1552, 1582), and then it never does.
- A backend's unblocked unwire plan is not always the unwire. With one match per (backend, model),
  and each of the backend's ModelConfigs annotated or of the name derived from its model, it is
  exactly when, of every two that share a model, an annotated one and one of the derived name,
  either both are this instance's, the annotated one carries the backend's label and no Flux object
  applies the other, or neither is this instance's and the other says whose it is
  (`WiringPlan.PlannedIsUnwired`); so it is whenever each is found by its model
  (`NamedIsUnwired`, `WiringRemoval.UniqueIsSelfFound`). Otherwise a model can be planned twice and
  removed once (`PlannedTwiceRemovedOnce`).
- The dry run of a removal names a placeholder Secret the removal leaves when Flux applies it
  (`WiringRemoval.DryRunIsTheRun`, `DryRunNamesAppliedSecret`).
- The utilization proposed for a claim that is too large is the greatest hundredth not above
  Available/Memory, but not always the greatest whose truncated claim is available
  (`Unified.FitIsTheGreatestClaim`, `FitMissesAHundredth`).
- A copy added to a served model, and a pipeline-parallel preset, can be admitted at a sized
  down utilization and run at a higher one. The node is then over its budget exactly when the
  claim at the utilization they run at is more than the FreeBytes the fit check answered
  (`Reservations.PlacedKeepsBudgets`, `AddedCopyExceeds`, `PipelineServeExceeds`); a claim above
  Available, which leaves the host headroom beside it, may still be within the budget
  (`AboveAvailableWithinBudget`).
- A refused write of a model's public AgentgatewayModel takes its running concrete one off the
  endpoint (`Gateway.RefusedWriteTakesConcreteOff`, `RefusedUpdateDropsModel`).
- A skipped reconcile would have written nothing exactly when the pass its fingerprint is of left
  nothing: that pass listed the objects, the desired ones have names of their own and no refused
  deletion was due; or it could not list them, no model was present, and there were none
  (`Gateway.Gateway.Sync`). A refused deletion, and a failed list while no model is present, are
  forgotten (`Gateway.ForgottenDeletion`, `ForgottenList`).
- A public model whose spec stays the same keeps outdated annotations
  (`Gateway.PassLeavesTheDesired`, `OutdatedAnnotationsStay`).
- A list that is slow can drop the failure of a later Ready transition's request by asking
  for an earlier one (`FirstAnswer.SlowListDropsTheFailure`); exactly a request for another
  transition, or forgetting the object, drops it (`FirstAnswer.FailureStandsThroughout`).
- Forgetting the request of an object in flight leads to a second one exactly when somebody may
  still ask it: it lives, or a running list holds it before its request
  (`FirstAnswer.ForgettingDoubles`, `StaleForgetDoubles`, `ReadForgetDoubles`).
- The comment on judgeCopies says the answer's figures are the first refusal's; the code takes
  the refusal with the least room (`Copies.JudgeCopies`). The comment on a standing failure
  says it stands until a later request is answered; the code drops it when one is sent
  (`FirstAnswer.FailureStands`).

## Model

| member | source | states |
|---|---|---|
| Names.ModelConfigName | internal/wiring/kagent.go:1360-1393 | the loop over a builder yields the derived name: lower-cased alphanumerics, other runs one dash, cut to 63 with a digest |
| Names.DashedIsWords | internal/wiring/kagent.go:1360-1393 | the derived stem is the maximal alphanumeric runs of the input joined by single dashes |
| Names.DerivedIsLabel | internal/wiring/kagent.go:1360-1393 | for every reference and an empty or label prefix, the name is a lower-case host label of at most 63 octets (section 2.1 of RFC 1123, section 2.3.4 of RFC 1035) |
| Names.DerivedIdempotent | internal/wiring/kagent.go:458 | with an empty prefix the name of a name is that name |
| Names.DerivedWords | internal/wiring/kagent.go:1360-1393 | a short reference that does not begin with a digit is its words joined by dashes, nothing else |
| Names.BlankIsTrimmed | internal/wiring/kagent.go:634-637 | a reference is empty to an Ensure exactly when it is white space alone |
| Names.PlainIsItself | internal/wiring/kagent.go:1360-1393 | a short reference of lower-case letters and digits, a letter first, is its own name, in capitals or between spaces too |
| Names.PrefixedIs | internal/wiring/kagent.go:1360-1393 | and stands behind a label for a prefix when the two fit |
| Names.DerivedNamesCoincide | internal/wiring/kagent.go:1360-1393 | two references whose names fit without a digest have one name exactly when their words are the same, but for an "m" before a digit and "model" for none |
| Names.ColonIsSlash | internal/wiring/kagent.go:1360-1393 | two references that do |
| Names.PlaceholderSecretNameIsLabel | internal/wiring/kagent.go:1268-1274 | the placeholder Secret's name is a label of at most 63 octets |
| Names.SecretNamesCoincide | internal/wiring/kagent.go:1268-1274 | two ModelConfigs share a placeholder Secret's name exactly when their first 55 characters, trimmed of dashes, agree |
| Names.SecretNameInjective | internal/wiring/kagent.go:1268-1274 | injective on names of at most 55 characters not ending in a dash |
| Names.SuffixedIsLabel | internal/wiring/kagent.go:1171-1177 | a name told apart by its backend stays a label |
| Flux.InventoryLists | internal/gitops/applying.go:100-109 | the search loop says whether a recorded inventory holds the object's identity |
| Flux.ApplyingNow | internal/gitops/applying.go:26-39 | the call reads the labels' Kustomization and searches what it recorded, as the verdict the other results rest on |
| Flux.ApplyingDeclares | internal/gitops/applying.go:26-39 | an object is applied by the Kustomization its labels name exactly when that one is there and has recorded no inventory or the object's namespace_name_group_kind, and by a HelmRelease exactly when its labels name that alone |
| Flux.KeptIsLeftBehind | internal/gitops/applying.go:46-62 | it is left behind by it exactly when that one does not prune and has recorded an inventory without it |
| Flux.AppliedOrDropped | internal/gitops/applying.go:26-62 | an object that labels say Flux applies is applied, kept, or in a live, recorded inventory no longer, in exactly one way |
| Flux.InventoryIDInjective | internal/gitops/applying.go:111-114 | the inventory's one-string identity tells objects apart |
| Wiring.MatchItems | internal/wiring/kagent.go:1091-1112 | the two loops of match: by annotation first, by derived name then |
| Wiring.Cluster.Ensure | internal/wiring/kagent.go:714-775 | the call makes, write by write, the step decided by the plan, and answers what it refuses |
| Wiring.Cluster.Remove | internal/wiring/kagent.go:854-872 | the call is the step decided by find, Flux and the scope |
| Wiring.Cluster.CountReferrers | internal/wiring/kagent.go:903-928 | the loop's count is of the objects that reference the ModelConfig, and is positive exactly when one does |
| Wiring.EnsureInParts | internal/wiring/kagent.go:714-775 | an Ensure's writes are the replaced one's, the Secret's and the ModelConfig's, in that order |
| WiringOwnership.EnsureRespects | internal/wiring/kagent.go:634-775 | an Ensure, cut short anywhere, changes or deletes no ModelConfig that is unmanaged, another instance's or Flux's |
| WiringOwnership.RemoveRespects | internal/wiring/kagent.go:854-892 | a Remove deletes only what its instance created, or in scope Unclaimed what no instance claims and nothing references |
| WiringOwnership.RunIsRespectful | internal/wiring/kagent.go:634-892 | every step of every run of any number of instances does |
| WiringOwnership.OwnershipIsForLife | internal/wiring/kagent.go:634-705 | over every run the instance label of a ModelConfig that stays never changes |
| WiringOwnership.WhoDeleted | internal/wiring/kagent.go:854-892 | a ModelConfig that disappeared was deleted in one step: by a call of its label's instance, by a removal in scope Unclaimed that found it label-less and unreferenced, or by another client |
| WiringOwnership.ForeignUntouched | internal/wiring/kagent.go:640-705 | over every run no call touches what it may not write |
| WiringOwnership.ForeignSecretsUntouched | internal/wiring/kagent.go:970-988 | nor a Secret that is unmanaged or applied by Flux, whatever its name |
| WiringOwnership.ReferencesAnywhere | internal/wiring/kagent.go:930-955 | a reference is found exactly when at some path a field modelConfig or modelConfigRef is the name, bare or behind the namespace, or an object of that name |
| WiringRules.EnsureRefusesGit | internal/wiring/kagent.go:714-735 | an Ensure whose plan is made refuses as GitOps-owned exactly when git declares, by labels and inventory, the ModelConfig it would write over, or else the one it would replace |
| WiringRules.EnsureDecides | internal/wiring/kagent.go:634-705 | which name an Ensure writes under and which it replaces, from what stands at the base name and what find answers; and exactly when it refuses as invalid, not managed or another instance's |
| WiringRules.RemoveRefusesGit | internal/wiring/kagent.go:814-872 | a Remove and its dry run exactly when git declares the one found |
| WiringRules.GitUntouched | internal/wiring/kagent.go:634-892 | over every run no call touches a ModelConfig that git declares |
| WiringRules.GitSecretsUntouched | internal/wiring/kagent.go:970-988 | nor a Secret that git declares |
| WiringRules.RemoveDeletes | internal/wiring/kagent.go:854-955 | of the others a Remove deletes the one found exactly when this instance created it, or in scope Unclaimed no instance label claims it and no kagent object says its name at any path |
| WiringRules.EnsureLeaves | internal/wiring/kagent.go:1180-1252 | the ModelConfig an Ensure leaves says the model, what its provider reads of the endpoint, and one key, a placeholder's Secret being there; it is managed, of the backend, and its creator's as before |
| WiringIdentity.UniqueMatches | internal/wiring/kagent.go:1091-1104 | no two ModelConfigs overlap exactly when each (backend, model) has at most one match |
| WiringIdentity.FindIsTheMatch | internal/wiring/kagent.go:1075-1104 | find answers the match of a (backend, model), if there is one |
| WiringIdentity.FindIgnoresOrder | internal/wiring/kagent.go:1075-1104 | in whatever order the API server lists |
| WiringIdentity.SharedName | internal/wiring/kagent.go:1091-1112 | of a model no ModelConfig is annotated with, find answers the one of another's derived name exactly when the names are of the same words, and a removal of it then decides as one of the other |
| WiringIdentity.EnsureUniqueIff | internal/wiring/kagent.go:634-775 | an Ensure keeps one match each exactly when its endpoint does not, naming no backend, replace an older name of a model with a further ModelConfig that what stands at the new name overlaps |
| WiringIdentity.NamedBackendNeverClashes | internal/wiring/kagent.go:634-775 | so every Ensure whose endpoint names its backend keeps one match each |
| WiringIdentity.UnnamedBackendClashes | internal/wiring/kagent.go:634-705 | an endpoint without a backend after whose Ensure two match |
| WiringIdentity.EnsureKeepsUnique | internal/wiring/kagent.go:714-775 | cut short anywhere, an Ensure for a named backend keeps one match each |
| WiringIdentity.RunKeepsUnique | internal/wiring/kagent.go:714-872 | and so does every run of the instances' calls |
| WiringIdentity.EnsureThenFind | internal/wiring/kagent.go:714-775 | after an Ensure for a named backend, find answers the ModelConfig it wrote |
| WiringIdentity.UnnamedEnsureThenFind | internal/wiring/kagent.go:714-775 | after one that names no backend it does in every listing exactly when the model has no other ModelConfig |
| WiringIdentity.FoundEnsureTwice | internal/wiring/kagent.go:634-775 | repeating an Ensure that is found changes no ModelConfig but for resource versions exactly when it did not replace the one at the base name by its own at the suffixed one, and then no Secret unless a created keyless ModelConfig met a stale one |
| WiringIdentity.EnsureTwice | internal/wiring/kagent.go:714-775 | so for a named backend it never does, whatever name was replaced |
| WiringIdentity.StaleSecretGoesLate | internal/wiring/kagent.go:714-775 | a stale Secret that only the second Ensure takes away |
| WiringIdentity.UnnamedEnsureReverts | internal/wiring/kagent.go:634-705 | an endpoint without a backend whose second Ensure replaces what the first wrote |
| WiringIdentity.PlaceholderStands | internal/wiring/kagent.go:1234-1252 | after an Ensure that needs a placeholder Secret it is there, the one from before unless the replaced ModelConfig shared its name, and no other Secret is touched but the replaced one's |
| WiringRemoval.DryRunIsTheRun | internal/wiring/kagent.go:814-892 | Removal reports Left, GitOps or the ModelConfig exactly when Remove refuses as not owned, refuses as GitOps-owned or deletes it, and which of the Secrets it names goes |
| WiringRemoval.DryRunNamesAppliedSecret | internal/wiring/kagent.go:814-892 | a Secret Helm applies that Removal names and Remove leaves |
| WiringRemoval.UnwireBackend | internal/service/service.go:1754-1778 | the loop over the listed models is Unwire, which ends at the first refusal other than not owned |
| WiringRemoval.UniqueIsSelfFound | internal/wiring/kagent.go:1075-1104 | with one match per (backend, model), find answers each of a backend's ModelConfigs exactly when each is annotated with its model, or of the derived name with none annotated |
| WiringPlan.PlannedIsUnwired | internal/service/service.go:1754-1849 | with one match per (backend, model), an unblocked plan lists exactly what the unwire removes, in order, which is what this instance created, and leaves other instances', exactly when of every two ModelConfigs of one model both are this instance's and go or both are other instances' |
| WiringPlan.NamedIsUnwired | internal/service/service.go:1754-1849 | so it does when each of the backend's is found by its model |
| WiringPlan.PlannedTwiceRemovedOnce | internal/service/service.go:1754-1849 | a backend whose plan lists a model twice where the unwire removes it once |
| CacheIndex.MutateRecord | internal/backend/kserve/index.go:185-241 | for distinct directories: something is new exactly when a wanted entry's model, revision, preset, claim or volume is not what the index says; afterwards all are, recorded now where they were not, and other directories are as before |
| CacheIndex.MutateForget | internal/backend/kserve/index.go:251-262 | dropping each directory and comparing sizes says whether one was there |
| CacheIndex.EveryRun | internal/backend/kserve/index.go:307-356 | every interleaving of reads and conditional writes keeps the ConfigMap the committed mutations one after another |
| CacheIndex.SerialRuns | internal/backend/kserve/index.go:132-356 | no update is lost: a call that ends well committed once, as it was asked, or had nothing to change of what the ConfigMap held since it began; the ConfigMap exists exactly when it has an entry, and every driver's copy is a state it held |
| CacheIndex.AloneGetsThrough | internal/backend/kserve/index.go:307-356 | a call nothing writes beside commits its mutation, if it changes anything, and leaves its driver's copy as the ConfigMap is |
| CacheIndex.ThreeAttempts | internal/backend/kserve/index.go:312-355 | two conflicts are borne, the third ends the call |
| CacheIndex.LastCommitDecides | internal/backend/kserve/index.go:185-262 | the last commit that touched a directory decides its model, revision, preset, claim and volume, or its absence, whatever ran in between |
| CacheIndex.ServedIsRecorded | internal/backend/kserve/index.go:85-98 | a served repository is recorded under its object's name with its revision, preset label and the cache's claim and volume, and nothing is recorded without a bound cache |
| CacheIndex.UnloadKeepsTheCache | internal/backend/kserve/index.go:269-301 | what was recorded outlives the object's unload exactly when the unload sees the same claim, one there is, and the same volume |
| Jobs.Manager.Start | internal/jobs/manager.go:161-196 | the unfinished job of the same work, or a new pending one of the request at no bytes, after a prune |
| Jobs.Manager.PruneLocked | internal/jobs/manager.go:327-347 | keeps every unfinished job and, of those inside retention, the at most maxJobs finished last |
| Jobs.Manager.Report | internal/jobs/manager.go:206-230 | a progress report changes the phase, bytes and percentage of its job alone |
| Jobs.ReportedSays | internal/jobs/manager.go:206-230 | a report's bytes and total become the job's when they say more, the percentage is theirs, at most 100, and nothing else of the job but status, node and preset changes |
| Jobs.Manager.End | internal/jobs/manager.go:231-250 | the job is over at that time: succeeded with all its bytes and 100 percent, cancelled when the operation says so and it was, else failed with the progress it had; no other job changes |
| Jobs.EveryRun | internal/jobs/manager.go:161-347 | every interleaving of Start, runs, reports, Cancel, List and pruning keeps the invariant |
| Jobs.OneUnfinishedEach | internal/jobs/manager.go:161-196 | at most one unfinished job per type, backend and model, none of them pruned, and percentages in 0..100 |
| Jobs.FinishedForGood | internal/jobs/manager.go:198-259 | terminal phases are absorbing: a finished job stays as it finished until it is pruned |
| Jobs.BytesNeverFall | internal/jobs/manager.go:206-230 | a job's reported bytes never fall before its end |
| LoadUnload.UnloadIsFinal | internal/service/service.go:961-985 | after an unload whose awaits succeeded removed the wiring, no load job of that model started before it wires again, in any interleaving |
| LoadUnload.UnloadEndsItsOwn | internal/service/service.go:1487-1519 | in every interleaving an unload cancels and awaits only loads of its own backend and model |
| LoadUnload.ListedAreUnfinished | internal/service/service.go:1487-1519 | those it goes through are the pending and running ones of the table it listed |
| LoadUnload.EarlyAwaitLetsItWire | internal/service/service.go:1507-1519 | a run where the await ended early and the job wires after the removal |
| Registry.LoadOf | internal/registry/registry.go:113-131 | a document that loads is in the ConfigMap its backend's name gives, and is no static backend's source |
| Registry.LoadSays | internal/registry/registry.go:113-131 | it loads exactly when it parses, its ConfigMap's name is its backend's and it builds; the backend is the one built, its source who wrote the document, and a refusal names the first of these that fails |
| Registry.Service.constructor | internal/service/service.go:207-225 | the static backends in the operator's order |
| Registry.Service.Rebuild | internal/service/service.go:278-288 | static backends in place, then the registered ones sorted by name, in an array of their own |
| Registry.Service.RegisterDocument | internal/service/service.go:238-250 | registers and clears the report in one step, or refuses a static backend's name and changes nothing |
| Registry.Service.DeregisterDocument | internal/service/service.go:259-274 | the mirror: an empty, static or unknown name drops nothing |
| Registry.Registry.Upsert | internal/registry/registry.go:82-109 | every field stays what the static backends and the latest documents say |
| Registry.Registry.Delete | internal/registry/registry.go:133-146 | and after a deletion |
| Registry.Registry.ForgetLocked | internal/registry/registry.go:150-156 | and after a document that does not load or names a static backend |
| Registry.TiedRegister | internal/registry/registry.go:82-109 | an accepted document replaces only what its ConfigMap registered |
| Registry.TiedForget | internal/registry/registry.go:150-156 | what is dropped is what the ConfigMap registered, and nothing when it registered nothing |
| Registry.Registry.Replay | internal/registry/registry.go:82-156 | after any sequence of events the registered backends, their sources and the problems are the function of the latest documents, and a list taken earlier is never altered |
| Registry.LatestEventDecides | internal/registry/registry.go:82-146 | the last event of a ConfigMap alone decides its latest document |
| Registry.OrderIsDetermined | internal/service/service.go:278-288 | the ordered list is static order then sorted names without duplicates, and no other list is |
| Unified.FitServes | internal/backend/kserve/fit.go:879-902 | a proposed utilization is a hundredth of at most 1 whose truncated claim holds the need and is available |
| Unified.VerdictSays | internal/backend/kserve/fit.go:860-902 | the check applies exactly to GPUs that share a node's known memory; the claim is the utilization's part of it, truncated, what is available the lesser of budget and memory beside the headroom without what is reserved, and it fits exactly when it holds the need and is available |
| Unified.FitIsTheGreatest | internal/backend/kserve/fit.go:888-892 | for a claim too large: the greatest hundredth not above Available/Memory, named exactly when positive and holding the need |
| Unified.HoldsIsTheLeast | internal/backend/kserve/fit.go:893-900 | for a short claim: the least hundredth that holds the need, and proposed exactly when some hundredth serves |
| Unified.FitIsTheGreatestClaim | internal/backend/kserve/fit.go:888-892 | it is the greatest hundredth whose truncated claim is available exactly when the remainder leaves a hundred bytes |
| Unified.FitMissesAHundredth | internal/backend/kserve/fit.go:888-892 | an input where it is not |
| Unified.SizedIsTheLeast | internal/backend/kserve/shape.go:129-142 | a preset is sized down exactly when its claim is too large, it needs anything and some hundredth serves it, to the least that does |
| Unified.NeedingNothingIsNotSized | internal/backend/kserve/shape.go:129-142 | a preset that needs nothing is refused where a hundredth serves |
| Placement.ChooseNode | internal/backend/kserve/fit.go:472-492 | a fitting candidate of least budget, then of least reserved, then first; without one the most free, then first |
| Text.LessIs | internal/backend/kserve/fit.go:581 | names are in order by a proper prefix, or the lesser character where they first differ |
| Placement.SortedShapesSort | internal/backend/kserve/poolfit.go:99-104 | the sort is of the same shapes, in order |
| Placement.LastIsTheLargest | internal/backend/kserve/poolfit.go:99-104 | and stable: its last is the last of the largest |
| Placement.LargestMemoryIs | internal/backend/kserve/poolfit.go:259-281 | the GPU memory compared is that of the last listed size of most vCPUs and, among them, most memory |
| Placement.SmallestHosting | internal/backend/kserve/fit.go:588-596 | the first hosting size of the sorted ones has the fewest vCPUs and, of as many, the least memory of the hosting ones |
| Placement.LeastPool | internal/backend/kserve/fit.go:584-597 | the open pool whose hosting size has the fewest vCPUs of all open pools' hosting sizes, of as many the least memory, of as much the first name, whatever the map's order |
| Placement.ClosestPool | internal/backend/kserve/poolfit.go:259-281 | the open pool whose largest size carries the most GPU memory, first by name |
| Placement.LaunchingPool | internal/backend/kserve/fit.go:562-612 | which of these answers, or the pinning pool, or none |
| Placement.TakenIs | internal/backend/kserve/poolfit.go:210-260 | a pool has a node for the predictor exactly when an eligible one carrying the selector knows of no device or of enough beside those taken where GPUs have memory of their own |
| Placement.OpenIs | internal/backend/kserve/poolfit.go:264-281 | and is open exactly when none labelled with its name has |
| Copies.TighterIsAStrictWeakOrder | internal/backend/kserve/copies.go:171-176 | tighter is irreflexive, transitive, and ties are an equivalence |
| Copies.JudgeCopies | internal/backend/kserve/copies.go:105-157 | fits exactly when every copy fits, the nodes share a claim and one shape; figures of the first tightest, requests the minima, the lowest utilization |
| Copies.LowestOfAll | internal/backend/kserve/copies.go:138-141 | copies run at the lowest utilization a node leaves |
| Copies.MissingAreTheNew | internal/backend/kserve/copies.go:210-215 | the nodes added are the asked ones not current, each once |
| Copies.AddCopies | internal/backend/kserve/copies.go:209-228 | current nodes are a prefix, refused exactly when the claims differ, the object given is left as it is |
| Copies.Object.ApplyCopies | internal/backend/kserve/copies.go:181-204 | as many replicas as nodes, pinned to them, what else the object says kept |
| Copies.JoinedIsRead | internal/backend/kserve/placement.go:505-518 | the nodes recorded on the object are read back |
| Reservations.ReservedByNode | internal/backend/kserve/fit.go:746-790 | the loops' three maps are the sums of the shares of the others, of the preset's own and of the devices |
| Reservations.ReservedOneMore | internal/backend/kserve/fit.go:746-820 | an object that runs and is not loaded reserves on each of its nodes the larger of its weights, parted and rounded up, beside the overhead, and its truncated claim |
| Reservations.JudgedSays | internal/backend/kserve/fit.go:501-543 | a node takes a serve exactly when it has a budget, the sized weights and overhead fit beside what is reserved, and a shared memory's verdict fits |
| Reservations.AdmittedSays | internal/backend/kserve/backend.go:612-733 | a serve is admitted exactly when it asks for nodes, each once, and every one takes its part; one that is not changes nothing |
| Reservations.OwnAside | internal/backend/kserve/fit.go:746-790 | what a preset is not counted against itself for is what it holds |
| Reservations.PlacedAdds | internal/backend/kserve/fit.go:807-820 | an admitted serve adds one share on each new node and nothing elsewhere |
| Reservations.JudgedBesideAll | internal/backend/kserve/fit.go:501-543 | on a new node the fit check counted everything that runs there |
| Reservations.PlacedKeepsBudgets | internal/backend/kserve/backend.go:612-733 | it keeps every budget exactly when it is not an added copy or a pipeline-parallel serve whose claim, at the utilization it runs at, is above the fit answer's free bytes |
| Reservations.AvailableSuffices | internal/backend/kserve/fit.go:879-902 | a claim within Available on every new node is enough |
| Reservations.AboveAvailableWithinBudget | internal/backend/kserve/fit.go:879-902 | and not needed: an input above it and within the budget |
| Reservations.NewServesAreFree | internal/backend/kserve/shape.go:147-166 | it is for a preset not served yet, but for a pipeline-parallel one |
| Reservations.AddedCopiesAreFree | internal/backend/kserve/backend.go:665-690 | and for copies added to an object that runs at no more than the new nodes were judged at |
| Reservations.RunsWithinBudgets | internal/backend/kserve/fit.go:501-820 | of the runs of serves and stops sized above the declared weights, exactly those without such an overclaim stay within every budget |
| Reservations.EveryRun | internal/backend/kserve/fit.go:501-820 | every run of admitted serves and stops keeps what is counted on each node within its budget, when sizes cover the declared weights, no GPU preset is pipeline parallel and copies are added only to objects that run at no more than the new nodes were judged at |
| Reservations.EveryRunFits | internal/backend/kserve/fit.go:501-820 | over those runs what the running models need of a node, and what they claim of it, each sum to no more than its budget |
| Reservations.AddedCopyExceeds | internal/backend/kserve/copies.go:205-228 | a copy added where a node was judged at a sized down utilization exceeds its budget |
| Reservations.PipelineServeExceeds | internal/backend/kserve/shape.go:147-154 | so does a pipeline-parallel preset admitted at one |
| Gateway.Inputs | internal/backend/kserve/gatewaymodel.go:260-288 | the present names and, of those that answer, the pairs composed from the last listed of each |
| Gateway.InputIs | internal/backend/kserve/gatewaymodel.go:260-288 | a name is present exactly when an object of it is not being deleted, desired exactly when one is also Ready, read and has formats, and its pair says that one's model, service and formats |
| Gateway.Gateway.Apply | internal/backend/kserve/gatewaymodel.go:332-392 | whatever writes are refused, each desired object is as wanted or as it was, the concrete one of a refused public one is pruned, and of the others exactly those of restarting names and those refused stay; without a refusal it writes nothing exactly when there is nothing to write |
| Gateway.Gateway.Sync | internal/backend/kserve/gatewaymodel.go:260-319 | skips exactly on an equal, recent fingerprint; a skipped pass would have written nothing exactly when the one its fingerprint is of left nothing, which is told from what that one met: listed, with names of their own and no refused deletion due, or not listed and the store empty |
| Gateway.Gateway.TakeOff | internal/backend/kserve/gatewaymodel.go:394-420 | a stopped model's pair goes and the next pass is not skipped |
| Gateway.SameFingerprint | internal/backend/kserve/gatewaymodel.go:422-438 | one string tells the namespace, the names and each one's digests |
| Gateway.QuietAlike | internal/backend/kserve/gatewaymodel.go:290-296 | inputs of one fingerprint have the same writes to make on any store |
| Gateway.SecondPassIsQuiet | internal/backend/kserve/gatewaymodel.go:332-392 | a second pass writes nothing |
| Gateway.PassLeavesTheDesired | internal/backend/kserve/gatewaymodel.go:346-366 | each desired object exactly, but for the annotations of a public model whose spec was there already |
| Gateway.OnEndpoint | internal/backend/kserve/gatewaymodel.go:332-392 | after a pass without a refused write all on the endpoint is of served objects that stay, and a concrete object says a model that is Ready and answers, or none of its name does |
| Gateway.PassStaysComposed | internal/backend/kserve/gatewaymodel.go:332-392 | the driver's objects stay as it composes them |
| Gateway.ApartByName | internal/backend/kserve/gatewaymodel.go:166-205 | desired objects have names of their own exactly when no preset is named another's name plus "-workload" |
| Gateway.QuietStoreExists | internal/backend/kserve/gatewaymodel.go:332-392 | some store has nothing left to write exactly then |
| Gateway.RefusedWriteTakesConcreteOff | internal/backend/kserve/gatewaymodel.go:346-390 | a pass takes a desired concrete model off exactly when the write its public one needs is refused |
| Gateway.RefusedUpdateDropsModel | internal/backend/kserve/gatewaymodel.go:346-390 | a served model that loses its concrete object so |
| Gateway.ForgottenDeletion | internal/backend/kserve/gatewaymodel.go:375-390 | a refused deletion followed by a skipped pass |
| Gateway.ForgottenList | internal/backend/kserve/gatewaymodel.go:332-344 | a list that fails while no model is present, followed by a skipped pass |
| Gateway.OutdatedAnnotationsStay | internal/backend/kserve/gatewaymodel.go:346-366 | a public model that says of another model after a pass |
| FirstAnswer.EveryRun | internal/backend/kserve/answer.go:119-177 | every interleaving of lists, answers and forgetting keeps the invariant |
| FirstAnswer.AtMostOneInFlight | internal/backend/kserve/answer.go:119-157 | at most one first request in flight per object |
| FirstAnswer.SentExactly | internal/backend/kserve/answer.go:119-157 | a request is sent exactly when a list asks a reached server that names something to ask and the object's last request is answered, for another transition or without a verdict |
| FirstAnswer.ReadExactly | internal/backend/kserve/interfaces.go:85-110 | a Ready object's server is read exactly when nothing of its transition is kept, or something to be retried by now |
| FirstAnswer.UnaskedExactly | internal/backend/kserve/answer.go:119-150 | a list that sends none waits for the request kept, or says that the server is to be asked again or names nothing |
| FirstAnswer.WaitedExactly | internal/backend/kserve/answer.go:150-157 | a list that waited says the request's answer if it came, to be retried when it is no verdict |
| FirstAnswer.ForgettingDoubles | internal/backend/kserve/answer.go:119-177 | in every reachable state, forgetting a request in flight can be followed by a second in flight exactly when the object lives or a running list may still ask it |
| FirstAnswer.FailureStands | internal/backend/kserve/answer.go:119-177 | a step drops a failure exactly when it forgets the object, or reached the server and asks for another transition, whose request is then the one kept |
| FirstAnswer.FailureStandsThroughout | internal/backend/kserve/answer.go:119-177 | over every run it stands exactly while no such step was taken |
| FirstAnswer.PresentListReplacesByLater | internal/backend/kserve/answer.go:136-157 | the transition is a later one when the list found the object in its present one |
| FirstAnswer.FailureIsTold | internal/backend/kserve/interfaces.go:85-110 | an object that is not Ready is told as failed exactly while the failure stands |
| FirstAnswer.ReadyRests | internal/backend/kserve/answer.go:241-270 | an entry with a full timeline stays Ready exactly when it was answered or nothing could be asked, and then some request of the object was answered, or its server named none |
| FirstAnswer.AnswerSays | internal/backend/kserve/answer.go:241-270 | what each answer makes of an entry's ready and routing steps and of its being Ready |
| FirstAnswer.SlowListDropsTheFailure | internal/backend/kserve/answer.go:136-157 | a run where an earlier transition's request drops a later one's failure |
| FirstAnswer.StaleForgetDoubles | internal/backend/kserve/answer.go:169-177 | forgetting a live object's request lets a second one be sent beside it |
| FirstAnswer.ReadForgetDoubles | internal/backend/kserve/answer.go:169-177 | and so does forgetting that of a dead object a list still reads |
| Inventory.Inventory.Begin | internal/backend/kserve/inventory.go:138-158 | the first critical section: a young scan, one to wait for, or a scan to run |
| Inventory.Inventory.End | internal/backend/kserve/inventory.go:160-182 | the second: what is stored, and the node no longer in flight |
| Inventory.Inventory.Fresh | internal/backend/kserve/inventory.go:190-198 | the stored scan exactly when it is young |
| Inventory.Inventory.Last | internal/backend/kserve/inventory.go:200-210 | the stored scan whatever its age |
| Inventory.EntersExactly | internal/backend/kserve/inventory.go:138-158 | a reader is answered on entering exactly when the node's scan is young and it forces none; else it waits on the scan under way, or scans |
| Inventory.OneScanANode | internal/backend/kserve/inventory.go:138-188 | for any readers, at most one scan per node, in flight exactly while it runs, and no reader waits for one that is over |
| Inventory.ForcedReadIsNew | internal/backend/kserve/inventory.go:138-188 | over every run a reader that forces a scan is never answered with one stored before it came |
| Inventory.ScannedAtNeverGoesBack | internal/backend/kserve/inventory.go:160-182 | no step but an invalidation drops a scan or turns its time back |
| Inventory.ScannedAtBetween | internal/backend/kserve/inventory.go:138-188 | nor does any run between invalidations |
| Inventory.FailuresKeepTheEntries | internal/backend/kserve/inventory.go:165-180 | a failed scan keeps the entries and the time of the last that succeeded; none where all failed |
| Inventory.OldScansAreTheHeldOnes | internal/backend/kserve/inventory.go:159-188 | a scan begun before an invalidation is stored after it only for a node scanned when it came |
| Inventory.HeldScanIsStored | internal/backend/kserve/inventory.go:159-188 | and there it is, whatever it found |
| Settings.Config.Fresh | internal/backend/kserve/config.go:363-378 | the one least time to live means younger than every one that applies |
| Settings.StandsSays | internal/backend/kserve/config.go:354-378 | settings of five seconds or more stand only when they lack no document, pool name or control plane that may be there soon |
| Settings.Config.Get | internal/backend/kserve/config.go:338-350 | the settings kept while they stand, else a resolve's, or on its failure those kept |
| Settings.Config.GetForLoad | internal/backend/kserve/config.go:386-397 | and a missing control plane is never answered without a resolve |
| Settings.Config.Recheck | internal/backend/kserve/config.go:418-427 | true only when the document is there now, or names the pool now, and was or did not |
| Settings.Config.Serve | internal/backend/kserve/config.go:338-427 | over every run of calls and any resolver, once a resolve succeeded every answer is the last such one's, and one given without a resolve is younger than the least time to live |

## Left out

- HTTP, REST and MCP plumbing, OAuth, tracing, metrics, command lines: no state of their own.
- The Hugging Face hub, model image registries, pod logs, cache scans' output: I/O; sizes, scans and resolves are inputs.
- The legacy kagent.dev objects and re-discovery of the API version in use: one version is fixed.
- Wiring by reads and the background reconciler: they may wire again after an unload, on purpose.
- Commit mode (git commits in place of live writes): its repository resolution is not part of this model.
- YAML and JSON of documents, the index and specs: values; a document is what its parse and build say of it.
- Digests: FNV is any function, a spec's hash any injective one of hexadecimal characters.
- IEEE rounding and int64 overflow: utilizations are reals and sizes integers.
- Human-readable reasons and log lines: only the verdict they word.
- Whether a shape hosts a preset, KV cache, compute capability and request checks: a parameter, or one boolean of a serve.
- The read of a placeholder Secret that fails in removePlaceholderSecret: the code leaves the Secret, without a log line, and goes on, so in an Ensure the later writes still land; a step cut short does not cover that.
- An update of the index whose ConfigMap vanished is an error to the caller, as in the code, and not retried.
- Jobs.Manager.Start: the 64-bit random id is taken to be fresh.
- FirstAnswer.AtMostOneInFlight: an object's request is forgotten only when the object is gone and no running list may still ask it; ForgettingDoubles says what happens otherwise.
- WiringPlan.PlannedIsUnwired: a ModelConfig of the backend with neither an annotation nor the name derived from its model, which no wirer writes, is left out.
- Reservations.ReservedByNode: a list of the served objects that fails counts nothing as reserved, and an object without a preset label whose model one preset serves counts as that preset's; neither is modelled.
- Reservations.RunsWithinBudgets: each object runs on the nodes it was judged on, and budgets, presets and node sizes do not change.
- Gateway.Gateway.Sync: other clients leave the driver's objects alone between passes, and an object under a desired name that is not the driver's is one more refused write.
- Inventory.Inventory.Begin: the background refresh only starts such a reader, so it is not modelled apart.
- Settings.Config.Serve: a recheck answers whether the re-read says more, not settings, so its answer is not among those bound.
