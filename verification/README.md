# Pod lifecycle of the libpod runtime, in Dafny

This project models the pod lifecycle engine in `pkg/runtime` and proves properties of it over every command, every
fault and every run. The engine keeps pods, containers, network attachments and remote mounts in step while almost every
call to a client (container store, network agent, storage) may fail. It is driven by four commands, `EnsurePod`,
`DeletePod`, `ListPods` and `InitRuntime`, and by one asynchronous event, the exit of a storage mounter.

`dafny verify dfyconfig.toml` checks everything.

## How the model is built

| file | module | content |
|---|---|---|
| `Wrappers.dfy` | `Wrappers` | the option type |
| `Labels.dfy` | `Labels` | label sets, the matching loop, the labels of pods and containers |
| `Store.dfy` | `PodStore` | the store as a value, events, histories, the invariant and what keeps it |
| `Outcomes.dfy` | `Outcomes` | how operations can end |
| `Status.dfy`, `Plan.dfy` | `Status`, `Plan` | the reported status map; the order of starts, hooks and waits |
| `Deletion.dfy`, `Ensuring.dfy`, `Listing.dfy`, `Startup.dfy` | same names | what deletion, creation, listing and startup promise |
| `Runtime.dfy` | `Lifecycle` | class `Runtime`: the Go functions as methods that change the store step by step |
| `Guarantees.dfy` | `Guarantees` | what the contracts mean for callers: frame, failure atomicity, orphans |
| `Findings.dfy` | `Findings` | where the code misses its purpose, with the exact condition under which it does not |
| `ExecProtocol.dfy` | `ExecProtocol` | the channel between the goroutine that runs a command and the caller that waits |
| `Remount.dfy` | `Remount` | mounter processes, the storage client's table and the remount handler |
| `UserString.dfy`, `Config.dfy` | same names | user string, mounts, command and environment of a container |

Class `Runtime` has one real field, the store. Each client call is a method with a nondeterministic outcome, and each Go
function a method with the same branches and the same order of deferred work. A ghost history records every change and
every call that matters; the store is always the replay of the history from the initial store. The ghost flag `sound`
says that the run began in a store that meets the invariant `PodStore.Inv` and has had only admissible events since.
No method asks for a good store or a sensible command: all inputs are allowed, and what holds for a good store is said
under `old(sound) ==> …`. Loops over Go maps and over the store visit the entries in an arbitrary order.

The invariant says: ids are fresh; uids are non-empty and unique among labelled pods; every container sits in a stored pod
of its uid and has the name that goes with that pod and its label; a pause container agrees with its pod about the host network and
the abbot role, and an abbot container sits in an abbot pod (`Labels.Hosts`; all other labels are the caller's own); container names are
distinct within a pod; a labelled pod with containers has a pause container; every network attachment belongs to a stored
pause container of the cluster network; and if there is such a container, an abbot container is stored too. Pods
without a uid label hold no containers with a uid label, the infra role or the abbot labels.

Main results:

- `Runtime.Run` with `PodStore.SafeAtEveryMoment`: any sequence of commands, with any faults, keeps the invariant at every
  moment of the run, not only between commands. It returns marks that divide the run into one `Span` for each command. Two conditions, both stated over the history of the run, say when that may fail:
  - `AllHonest`: every ensure command is truthful about the store at the mark where its turn comes (`CmdOk`). It has a uid; if its pod is yet
    to be created, the host network label comes only with the host network switch; if its pod is stored, the command has the full name of
    the pod, and an abbot container is asked for only in an abbot pod. `Findings.TakedownIsExact`, `NameCheckIsExact` and
    `MisplacedAbbotIsExact` prove what each of these conditions decides. A list of commands that go with each other (`Truthful`) is honest.
  - `Harms`: the number of blind removals that were not admissible. A removal is blind if it directly follows a failed lookup of the pause
    container (in a listing) or a lost failure to delete the network (of a previous pod of the name); `Findings.BlindRemovalIsExact` is the
    exact condition for harm, `HarmHasACommand` finds the command that did it, and a run without faults and losses does none (`QuietRunDoesNoHarm`).
- `PodStore.DetachedBeforeRemoved`: whatever was attached and is gone was detached in between. `Runtime.DeletePodByRef`: a pod on the
  cluster network that left the store had its network deleted in that call, unless the failure of that delete was lost.
- `Runtime.EnsurePod` with `Guarantees`: success means one pod, a running pause container and one container for each spec; failure leaves
  nothing of the uid or a pod whose survival is explained by its own state or by a failed call of the rollback; each failure has an event or a stored pod to blame;
  pods of other uids and names are untouched; events come in the promised order.
- `PodStore.WakesOnly` with `Guarantees.OthersAreNotWoken`: an ensure command starts, unpauses, hooks and waits for no container of another
  uid, and a deletion or a listing none at all, abbot containers excepted. Every recorded event is checked against this when it happens.
- `Runtime.ListPods` with `Listing.ListingAgain`: exact and idempotent, whatever else failed, as long as no lookup of a pause container did. `Startup.StartupCoversEveryPod` and
  `StartupRestoresOnce`: one attempt for each pod, one restore where it is due.
- `ExecProtocol`, `Remount`, `UserString` and `Config` prove the smaller components over all interleavings and all inputs.

## Where the code and its comments disagree

The model follows the code.

- `deleteContainer` returns early when the uid label is present, while the comment speaks of containers that are not managed
  (`pkg/runtime/container.go:700-704`). The parameter `check` selects the guard as written or as intended; the invariant
  holds for both. As written, no managed container is ever removed (`Runtime.DeletePod`).
- A name without a container is passed on as a nil handle (`pkg/runtime/pod.go:232-238`). The model ends in `Panicked`, and
  `Runtime.DeletePod` states when.
- `deletePod` fails for a labelled pod without a pause container (`pkg/runtime/container.go:726-729`), so the cleanups that
  should remove such a pod (`pkg/runtime/pod.go:66-70`, `pkg/runtime/container.go:245-252`) cannot. Only a listing removes it.
- `ListPods` queries the network of pods that are on the host network (`pkg/runtime/pod.go:295-302`).
- `DeletePod` cleans the data of the pod on every exit (`pkg/runtime/pod.go:186-199`).
- `ListPods` removes a pod outright on any lookup error, not only on not-found (`pkg/runtime/pod.go:280-290`).
- `InitRuntime` ignores an error of the abbot lookup (`pkg/runtime/runtime.go:191-192`): after a failed lookup pods are started although a stored
  abbot is not running. Without a fault up to the first pod, `Runtime.InitRuntime` proves that a stored abbot is up before any pod is handled.
- `EnsurePod` attaches only pods that it creates. A deletion that deleted the network and then failed to remove the pod leaves the pod
  detached, and the next `EnsurePod` for its uid succeeds without a network (`Findings.DetachedPodStaysDetached`).
- `handleAbbotExec` can return nil for a command that failed, if its context is cancelled
  (`ExecProtocol.CancelledFailureCanLookLikeSuccess`). Where the code passes a context that can be cancelled (`pkg/runtime/container.go:205`,
  `358`, `pkg/runtime/pod.go:298`, `pkg/runtime/runtime.go:256`) the model lets the failure get lost and records it. Then a previous pod of the
  name can be removed with its network up, and a new pod can pass for attached without a network; what is promised without a loss is said
  under `losses == old(losses)`.
- `createContainer` reads `options.Network` for every container (`pkg/runtime/container.go:467`), so that a command without it panics, on the host
  network too; the model assumes that it is there.
- `handleStorageFailure` mounts again after any lookup error but not-found (`pkg/runtime/container.go:767-773`).

## Assumptions

- Commands run one at a time; the abbot check and the later creation are not under a lock (`pkg/runtime/container.go:212-217`, `324`).
- The run state of a container is not stored, because containers exit on their own; it appears in the history as it is seen.
- Ids are numbers handed out in order and never used again. Pods and containers share one set of names.
- Removing a pod takes its containers in one step and the pod in another and may fail before, between or after them. A
  failed network call may or may not have had its effect. Looking up a pod by name finds a pod of exactly that name.
- The deletions that roll a command back, and those of `DeletePod`, `ListPods` and `InitRuntime`, use a context that is never cancelled
  (`context.TODO()` in the source), so that none of their failures is lost.
- A failed or cancelled network call has had its effect, if at all, by the time it returns. In the source a cancelled `handleAbbotExec` returns
  while its goroutine may still run the command (`pkg/runtime/runtime.go:171-179`, `Leave` while `Executing` in `ExecProtocol`), so that a late
  set-up could follow the network delete of the rollback.
- `options.Network` is present in every ensure command with containers or on the cluster network.

## Model

| member | source | states |
|---|---|---|
| `Labels.FilterLabels` | pkg/runtime/util.go:28-40 | the loop with its length shortcut and early exit, in any order, decides exactly "enough labels, and every filter value is what is read, a missing key reading as empty" |
| `Labels.MatchesIsInclusion` | pkg/runtime/util.go:28-52 | for filters without empty values matching is submap inclusion; the length shortcut never rejects an included filter set |
| `Labels.EmptyValueMatchesMissingKey` | pkg/runtime/util.go:31-36 | with an empty value matching accepts labels that lack the key |
| `Labels.AbbotLookupMeaning` | vendor/ext.arhat.dev/runtimeutil/containerutil/labels.go:23-55 | the abbot lookup finds exactly the abbot containers, and each of them counts as part of an abbot pod |
| `Labels.PodPartIsShared` | vendor/ext.arhat.dev/runtimeutil/containerutil/labels.go:66-96 | all containers of one command share the labels that its pod gets |
| `Labels.OwnLabelsArrive` | vendor/ext.arhat.dev/runtimeutil/containerutil/labels.go:82-93 | the caller's own labels arrive unchanged at every container and at the pod, except where a reserved key overrides them |
| `Labels.OwnPodSuits` | pkg/runtime/container.go:230-237 | the pod that a command creates can take all its containers, the pause container included |
| `Labels.ReservedKeysDiffer` | vendor/ext.arhat.dev/runtimeutil/containerutil/constant.go:19-36 | the reserved label keys have pairwise different texts |
| `PodStore.StepKeeps` | pkg/runtime/container.go:194-370 | every admissible event keeps the whole invariant |
| `PodStore.SafeAtEveryMoment` | pkg/runtime/pod.go:20-320 | the invariant, abbot safety and absence of leaked networks included, holds at every moment of every legal run |
| `PodStore.DetachedBeforeRemoved` | pkg/runtime/container.go:733-757 | a container that was attached and is no longer stored was detached by a network delete in between |
| `PodStore.EmptyingIsExact` | pkg/runtime/container.go:742-757 | emptying a pod keeps the invariant if and only if nothing in it is attached and no abbot container that is still needed goes |
| `PodStore.CreationAllowed` | pkg/runtime/container.go:592-680 | a container of a command may be created in a pod of its uid and full name whose labels go with its own, if its name is free and, for a cluster pause container, an abbot exists |
| `PodStore.NamedIsInPod` | pkg/runtime/container.go:84-89 | a container is found by uid and name if and only if it sits in the pod of that uid and has that name |
| `PodStore.NoPodNoCtr` | pkg/runtime/container.go:84-107 | without a pod of the uid there is no container of the uid |
| `Status.StatusMapIsLast` | pkg/runtime/translate.go:82-108 | the keys of the status map are exactly the non-empty names of containers with the pod's uid, each standing for its last container |
| `Status.StatusMapSize` | pkg/runtime/translate.go:90-105 | with distinct names there is one entry for each reportable container |
| `Plan.StartComesAfterEarlierBlocks` | pkg/runtime/pod.go:136-160 | when container j starts, exactly the complete start-hook-wait blocks of the containers before it have happened |
| `Plan.HookAndWaitFollowTheirStart` | pkg/runtime/pod.go:143-159 | the hook directly follows its start, the wait comes last in its block, and neither happens unless asked for |
| `Plan.PlanCount` | pkg/runtime/pod.go:136-160 | counted over the history: one start for each container, one hook if it has one, one wait if asked for |
| `Lifecycle.Runtime.ListContainersByLabels` | pkg/runtime/container.go:50-57 | exactly the matching stored containers, or a fault |
| `Lifecycle.Runtime.FindContainerByLabels` | pkg/runtime/container.go:67-78 | a matching stored container; not-found only if none matches |
| `Lifecycle.Runtime.FindContainer` | pkg/runtime/container.go:84-89 | a stored container of that uid and name; not-found only if there is none |
| `Lifecycle.Runtime.FindAbbotContainer` | pkg/runtime/container.go:80-82 | an abbot container; not-found only if there is none |
| `Lifecycle.Runtime.FindPod` | pkg/runtime/container.go:91-107 | a pod of the uid; not-found only if there is none; in a sound run the "multiple pods" branch is unreachable |
| `Lifecycle.Runtime.AbbotGuard` | pkg/runtime/container.go:743-754 | refuses only with, and allows only without, a pause container on the cluster network |
| `Lifecycle.Runtime.AbbotExec` | pkg/runtime/runtime.go:134-180 | in a sound run with a cluster pause container the abbot is never missing; it fails exactly if a client call failed; a failure is lost only if the call can be cancelled, and that is recorded |
| `Lifecycle.Runtime.AbbotRun` | pkg/runtime/runtime.go:134-180 | the lookup, the start and the command itself: a success is exactly an abbot container seen running, or seen in another state and then started |
| `Lifecycle.Runtime.NetworkDelete` | vendor/ext.arhat.dev/runtimeutil/networkutil/client.go:172-195 | success without a loss detaches, directly before the end of the call; failure, lost or not, changes at most that attachment; a lost failure that did not detach is marked |
| `Lifecycle.Runtime.NetworkDo` | pkg/runtime/container.go:356-367 | success without a loss attaches, after abbot events only; failure, lost or not, changes at most that attachment, and a failure that is not lost has a fault to blame |
| `Lifecycle.Runtime.RemovePod` | vendor/github.com/containers/podman/v2/libpod/runtime_pod_linux.go:148-356 | the attempt is recorded, blind only after a failed lookup or a lost failure, and counted as harm exactly if it is not admissible; containers and pod then go as far as `RemoveSteps` gets; soundness is kept if emptying is admissible |
| `Lifecycle.Runtime.RemoveSteps` | vendor/github.com/containers/podman/v2/libpod/runtime_pod_linux.go:148-356 | containers and pod go in two steps, stopping anywhere; success exactly without a fault |
| `Lifecycle.Runtime.FindPauseOf` | pkg/runtime/container.go:723-733 | the pause container found belongs to the pod and agrees with it on host network and abbot labels; not-found means that the pod is empty |
| `Lifecycle.Runtime.PrepareDelete` | pkg/runtime/container.go:723-755 | goes on only if emptying the pod is admissible, the pause container is detached and the guard lets it go; otherwise the outcome is explained |
| `Lifecycle.Runtime.LetGo` | pkg/runtime/container.go:731-755 | network delete and guard: it goes on only if the guard lets the labels of the pause container go, and then that container is detached unless a failure was lost |
| `Lifecycle.Runtime.DeletePodByRef` | pkg/runtime/container.go:721-758 | keeps the invariant unless a lost failure makes the removal inadmissible, touches only the pod, explains every outcome, and without faults comes to the expected one; without a loss a cluster pod that left had its network deleted in this call and a completed deletion leaves exactly the detached and dropped store, in a good store or not; a pod without a pause container is left as it is |
| `Lifecycle.Runtime.DeleteManaged` | pkg/runtime/container.go:721-758 | the same for a pod with a uid label |
| `Lifecycle.Runtime.RemovePrepared` | pkg/runtime/container.go:757-757 | the removal at the end: outcome, frame and exact store relative to the store before the preparations |
| `Lifecycle.Runtime.NewPod` | vendor/github.com/containers/podman/v2/libpod/boltdb_state.go:2397-2419 | a new pod with a fresh id and an unused name, or a fault and no change |
| `Lifecycle.Runtime.NewContainer` | vendor/github.com/containers/podman/v2/libpod/boltdb_state_internal.go:586-603 | a new container with a fresh id and an unused name, or a fault and no change |
| `Lifecycle.Runtime.UndoTwice` | pkg/runtime/container.go:245-252 | the doubled rollback: the pod is gone or the last attempt says why, a failed call unless the pod is an orphan or guarded; after a successful first deletion the second changes nothing |
| `Lifecycle.Runtime.StartPause` | pkg/runtime/container.go:337-367 | on success without a loss started, found alive and only then attached; on failure an event to blame; only a container of the command is started |
| `Lifecycle.Runtime.FinishPause` | pkg/runtime/container.go:328-369 | success leaves the pause container up; failure takes the pod down twice |
| `Lifecycle.Runtime.BuildPause` | pkg/runtime/container.go:245-369 | the same with the rollback of a pause container that could not be created |
| `Lifecycle.Runtime.NewPause` | pkg/runtime/container.go:254-327 | the pause container is created with the command's labels and name and keeps the invariant, or a fault and no change |
| `Lifecycle.Runtime.FillPod` | pkg/runtime/container.go:245-369 | bringing up the pause container of the new pod, relative to the store before the pod was created |
| `Lifecycle.Runtime.DeleteNamesake` | pkg/runtime/container.go:199-209 | touches only a pod with the command's name, keeps orphans and pods of the uid, a failure is explained by that pod, and without a loss a success leaves exactly the store of its completed deletion |
| `Lifecycle.Runtime.ClearWay` | pkg/runtime/container.go:199-228 | touches only a previous pod of the name, keeps orphans, and goes on for the cluster network only with an abbot container |
| `Lifecycle.Runtime.MakePod` | pkg/runtime/container.go:230-369 | success without a loss leaves exactly the store with the new pod, its pause container and its attachment, and the name was free; on failure what is left of the uid is explained |
| `Lifecycle.Runtime.CreatePauseContainer` | pkg/runtime/container.go:194-370 | all of the above together, with only new pods and the previous pod of the name touched |
| `Lifecycle.Runtime.BringUp` | pkg/runtime/pod.go:86-116 | state by state: configured, created, stopped and exited are started, paused is unpaused, running is left alone, and unknown, removing and invalid are refused without doing anything; a fault is the only other failure |
| `Lifecycle.Runtime.MountRemote` | pkg/runtime/container.go:412-435 | counted over the history: each of the volumes is mounted exactly once for the uid, in any order, and nothing else is mounted, or the call ends with a fault |
| `Lifecycle.Runtime.CreateContainer` | pkg/runtime/container.go:373-681 | before the creation each of its remote volumes was mounted exactly once and nothing else; then one new container with the labels and name of the spec; or no change and a fault |
| `Lifecycle.Runtime.CreateAll` | pkg/runtime/pod.go:123-134 | one new container for each spec, in order, stopping at the first failure |
| `Lifecycle.Runtime.StartOne` | pkg/runtime/pod.go:137-159 | start, hook and wait of one container, or a fault before its end |
| `Lifecycle.Runtime.StartAll` | pkg/runtime/pod.go:136-160 | the history is exactly the planned sequence of blocks, or a proper part of it that ends with a fault |
| `Lifecycle.Runtime.CheckAll` | pkg/runtime/pod.go:163-178 | unless waited for, every container was seen not exited, in order |
| `Lifecycle.Runtime.TranslatePodStatus` | pkg/runtime/translate.go:82-108 | the loop computes the status map of the listed containers |
| `Lifecycle.Runtime.CheckPause` | pkg/runtime/pod.go:62-74 | an existing pod is ready, or the attempt to take it down explains what is left |
| `Lifecycle.Runtime.FindOrCreate` | pkg/runtime/pod.go:48-74 | the pod of the uid with its pause container, as it was or newly created and then attached exactly on the cluster network, or an explained failure with something to blame |
| `Lifecycle.Runtime.RunForward` | pkg/runtime/pod.go:86-181 | bring-up, creation, runs and checks come in this order; the store grows by exactly the created containers |
| `Lifecycle.Runtime.RunPod` | pkg/runtime/pod.go:76-181 | success leaves exactly the created containers; on failure the pod is taken down after the last forward event |
| `Lifecycle.Runtime.EnsurePod` | pkg/runtime/pod.go:20-181 | success postcondition, with the network of the pause container and the exact store (also where a previous pod of the name was replaced) if no failure was lost; explained failure, blame, order of events with rollback before data cleanup, frame and orphans kept, for every good store and truthful command without harm; no container of another uid is woken; only pods with the command's labels are new |
| `Lifecycle.Runtime.EnsureSteps` | pkg/runtime/pod.go:42-181 | the same without the data cleanup |
| `Ensuring.GrowFacts` | pkg/runtime/pod.go:123-134 | the new containers are one for each spec with the right name and labels and the only difference |
| `Ensuring.EnsureEnds` | pkg/runtime/pod.go:76-181 | running the containers keeps what finding or creating the pod has promised |
| `Ensuring.PodMadeKeeps` | pkg/runtime/container.go:230-369 | creating a pod with its pause container and attachment keeps the invariant if the labels tell the truth about the network |
| `Guarantees.EnsureLeavesOthersAlone` | pkg/runtime/pod.go:48-134 | every stored pod of another uid and another name keeps its record, containers and attachments |
| `Guarantees.OthersAreNotWoken` | pkg/runtime/pod.go:86-160 | no container of a pod of another uid is started, unpaused, hooked or waited for during an ensure command, unless it is an abbot container that is started or unpaused |
| `Guarantees.NobodyIsWoken` | pkg/runtime/pod.go:183-320 | deletions and listings wake nothing but abbot containers |
| `Guarantees.FailureIsAtomicOrExplained` | pkg/runtime/pod.go:20-84 | after a failure nothing of the uid remains, or the store is unchanged because the pod lookup failed, or the one pod of the uid remains for one of an exact list of reasons; if no call of the rollback failed, only an orphan or a guarded abbot pod can remain |
| `Guarantees.NoPodMeansNothing` | pkg/runtime/container.go:721-758 | without a pod of the uid there is no container and no attachment of the uid |
| `Guarantees.OrphanBlocksEnsure` | pkg/runtime/container.go:202-209 | a labelled pod without a pause container blocks its uid, and its name for a uid without a pod, and survives the attempt |
| `Guarantees.CreationsComeFirst` | pkg/runtime/pod.go:118-160 | in a completed command every creation and network change lies before the first start of a container of the specs |
| `Guarantees.EveryContainerRuns` | pkg/runtime/pod.go:136-178 | in a completed command every container of the specs is started exactly once after the creations, hooked once exactly if it has a hook, waited for once exactly if asked to, and otherwise seen alive once |
| `Guarantees.RunOf` | pkg/runtime/pod.go:137-159 | the moments of one container: start after the creations, then its hook, then the wait |
| `Guarantees.RunsFollowEachOther` | pkg/runtime/pod.go:136-160 | a container starts after the start, hook and wait of every container before it |
| `Guarantees.PauseBroughtUpByItsState` | pkg/runtime/pod.go:86-116 | the pause container of a completed command was seen running, or seen paused and unpaused, or seen in a startable state and started |
| `Guarantees.StartsFollowTheSpecs` | pkg/runtime/pod.go:136-160 | in a completed command container j starts exactly when the blocks of the containers before it are complete |
| `Guarantees.NothingStartsAfterFailure` | pkg/runtime/pod.go:23-84 | after the failing event of a command nothing is created, attached, started, hooked or waited for |
| `Guarantees.ListingClearsOrphan` | pkg/runtime/pod.go:279-290 | a fault-free listing that selects such a pod removes it and leaves no pod of its uid |
| `Guarantees.ListingLeavesTheRestAlone` | pkg/runtime/pod.go:268-319 | a listing without a blind removal leaves every pod alone that it reports or does not select |
| `Deletion.EmptyingAllowed` | pkg/runtime/container.go:742-757 | once the pause container is detached and the guard has passed, emptying the pod is admissible |
| `Deletion.PauseLookup` | pkg/runtime/container.go:726-733 | in a good store the pause container found for a pod is its own, or the pod is empty |
| `Deletion.CtrRemovalAllowed` | pkg/runtime/container.go:683-719 | a container that is no pause container may go once the guard has passed |
| `Deletion.OneNamed` | pkg/runtime/container.go:84-89 | at most one stored container has a given uid and name |
| `Deletion.ExpectedPodDeleteMeaning` | pkg/runtime/pod.go:203-215 | a fault-free deletion by uid deletes the pod exactly if it is stored with a pause container and the guard lets it go |
| `Deletion.ExpectedNamesMeaning` | pkg/runtime/pod.go:217-245 | what a fault-free deletion of named containers comes to, for missing, guarded and present names |
| `Lifecycle.Runtime.DeleteContainer` | pkg/runtime/container.go:683-719 | keeps the invariant with either uid check; as written it never removes a managed container and refuses exactly when guarded |
| `Lifecycle.Runtime.DeleteNamed` | pkg/runtime/pod.go:230-242 | takes out only containers of the uid; as written and without faults the first name that is missing or guarded decides the outcome, the nil dereference included |
| `Lifecycle.PauseAmong` | pkg/runtime/pod.go:217-228 | a pause container of the list if and only if there is one |
| `Lifecycle.Runtime.DeleteSome` | pkg/runtime/pod.go:217-245 | the same with the pause container check and the status, touching only the pod |
| `Lifecycle.Runtime.DeleteWhole` | pkg/runtime/pod.go:208-215 | deleting the pod of a uid: frame, orphans, and the exact fault-free result |
| `Lifecycle.Runtime.DeletePod` | pkg/runtime/pod.go:183-246 | keeps the invariant and orphans, touches only the pod of the uid, wakes nothing but abbots, cleans data on every exit; without faults the result is exactly the expected one, with and without names; a completed deletion leaves the exact store |
| `Lifecycle.Runtime.DeleteSteps` | pkg/runtime/pod.go:201-245 | the same without the cleanup |
| `Lifecycle.Runtime.ReportPod` | pkg/runtime/pod.go:292-316 | the status reports exactly the containers of the pod; the network is queried exactly for pods on the host network |
| `Lifecycle.Runtime.ReportOne` | pkg/runtime/pod.go:292-316 | a pod whose pause container was found is reported with its exact status and left as it is, or a call failed |
| `Lifecycle.Runtime.ListOne` | pkg/runtime/pod.go:269-317 | a kept pod is reported with its exact status and untouched, any other is taken out; a removal is blind only if it directly follows the failed lookup of its pause container, and harms exactly if it was not admissible; without harm the run stays sound |
| `Lifecycle.Runtime.RemoveInvalid` | pkg/runtime/pod.go:281-290 | the direct removal: it touches only the pod, and a success leaves exactly the dropped store |
| `Lifecycle.Runtime.ListAll` | pkg/runtime/pod.go:268-317 | the loop over the selected pods keeps these promises up to the pod it has reached |
| `Lifecycle.Runtime.ListPods` | pkg/runtime/pod.go:248-320 | by label: all pods are selected if all are asked for or no name is given, otherwise exactly those whose name label is the first name (for an empty name those with some label and no name or an empty one); unless a pod was removed after a failed lookup, the results match, in order, the selected pods with uid label and pause container, each with its exact status, selected orphans are gone and nothing else changes, whatever query or deletion failed; after a failed listing only selected pods were touched; without faults it succeeds; nothing but abbots is woken |
| `Listing.ListingAgain` | pkg/runtime/pod.go:248-320 | a second fault-free listing removes nothing, changes nothing and reports the same uids |
| `Listing.FilterMeaning` | pkg/runtime/pod.go:250-256 | what the filter of a listing selects, in terms of the labels of a pod |
| `Listing.ReportedAt` | pkg/runtime/pod.go:268-319 | each reported pod stands at the place that is the number of reported pods before it |
| `Listing.StatusIsExact` | pkg/runtime/translate.go:82-108 | going through all containers of a pod in any order gives each of them under its own name and nothing else |
| `Lifecycle.Runtime.StartAbbot` | pkg/runtime/runtime.go:190-215 | a found abbot container seen running is left alone, one seen paused is unpaused, one seen in any other state is started, or the call ends with a fault |
| `Lifecycle.Runtime.RestoreNetwork` | pkg/runtime/runtime.go:243-261 | one restore on an infra container if there is one and the containers could be listed |
| `Lifecycle.Runtime.InitOne` | pkg/runtime/runtime.go:223-262 | one start attempt and perhaps a restore for a labelled pod, one removal attempt for any other |
| `Lifecycle.Runtime.InitRuntime` | pkg/runtime/runtime.go:185-266 | in any store: on success every stored pod has its block and orphans stay; a stored abbot is up before any pod is handled unless a call failed before the first pod; on failure a fault ends the history and the store is unchanged; a good store stays good; nothing but abbots is woken besides the pods that are started |
| `Startup.StartupCoversEveryPod` | pkg/runtime/runtime.go:223-263 | exactly one start attempt for each labelled pod and one removal attempt for each other pod, whatever failed elsewhere |
| `Startup.StartupRestoresOnce` | pkg/runtime/runtime.go:239-261 | exactly one restore for each pod where it is due and none for any other |
| `Lifecycle.Runtime.Perform` | pkg/runtime/pod.go:18-320 | the span of the command: the history grows, an ensure is completed or fails in order and adds only its own pods, any other command adds none, a deletion ends with the cleanup, and harm comes only from a listing in which a call failed or an ensure in which a failure was lost; the run stays sound without harm and untruthfulness; no command but a listing or a deletion without a uid removes an orphan |
| `Lifecycle.Runtime.Run` | pkg/runtime/pod.go:18-320 | the marks divide the run into the spans of its commands; any sequence of commands with any faults keeps the invariant at every moment if each ensure is truthful at its own mark and there is no harm; without listings every orphan is still in place; commands that go with each other are honest |
| `Lifecycle.HarmHasACommand` | pkg/runtime/pod.go:280-290 | harm done by a run is done by a listing in which a call failed or an ensure command in which a failure was lost |
| `Lifecycle.NoHarmWithoutCause` | pkg/runtime/pod.go:248-320 | a run does no harm if no call fails in its listings and no failure is lost in its ensure commands |
| `Lifecycle.QuietRunDoesNoHarm` | pkg/runtime/pod.go:18-320 | a run without faults and losses does no harm |
| `Findings.TakedownIsExact` | pkg/runtime/container.go:356-367 | for every pod that the code can create, its completed deletion gives the old store back, and leaks no network, if and only if the host network label comes only with the host network switch |
| `Findings.LabelWithoutSwitchLeaks` | pkg/runtime/container.go:356-367 | the leak happens: beside a running abbot, a command with the label and without the switch is created and taken down, and its attachment is left |
| `Findings.CreationIsExact` | pkg/runtime/pod.go:123-134 | creating a container in the stored pod of a uid and name keeps the invariant if and only if it is no abbot container or the pod is an abbot pod |
| `Findings.MixedLabelsLoseAbbot` | pkg/runtime/container.go:742-757 | the failing case happens: from an empty store three ensure commands and a deletion, all successful, leave a cluster pod without an abbot |
| `Findings.MisplacedAbbotIsExact` | pkg/runtime/container.go:742-757 | add a container to a stored pod, create any cluster pod, complete the deletion of the first pod: abbot safety holds afterwards if and only if the container is no abbot container, the pod is an abbot pod, or there was an abbot before |
| `Findings.NameCheckIsExact` | pkg/runtime/container.go:387-387 | the pause container of a pod stands in the way of a second one exactly if the command has the full name of the pod, and a second one breaks distinctness |
| `Findings.BlindRemovalIsExact` | pkg/runtime/pod.go:280-290 | a removal that does not know whether the network is deleted keeps the invariant if and only if the pod has nothing attached and no abbot that is still needed |
| `Findings.BlindRemovalLeaks` | pkg/runtime/pod.go:280-290 | removing any pod with an attached container this way leaks its network |
| `Findings.FoundPodKeepsItsNetwork` | pkg/runtime/pod.go:62-74 | an ensure command for a stored pod leaves its pause container attached exactly if it was attached |
| `Findings.DetachedPodStaysDetached` | pkg/runtime/container.go:733-757 | after a deletion that failed in the removal, the next successful ensure command leaves the cluster pod without a network |
| `ExecProtocol.AlwaysConsistent` | pkg/runtime/container.go:167-184 | the protocol invariant holds after every interleaving |
| `ExecProtocol.ChannelDiscipline` | pkg/runtime/container.go:167-184 | at most one send, closed exactly once when the goroutine is gone, never a panic, and the send never has to wait |
| `ExecProtocol.ResultIsHonest` | pkg/runtime/runtime.go:164-179 | an error is the error of the command; nil means success, or a cancelled context and nothing sent |
| `ExecProtocol.WithoutCancelResultIsExact` | pkg/runtime/runtime.go:171-179 | without cancellation the caller gets exactly the result of the command |
| `ExecProtocol.CancelledFailureCanLookLikeSuccess` | pkg/runtime/container.go:174-184 | with cancellation a failed command can end in nil |
| `ExecProtocol.ProducerStepsAreBounded` | pkg/runtime/container.go:168-184 | the goroutine takes at most three steps in any run |
| `ExecProtocol.ProducerFinishesAlone` | pkg/runtime/container.go:168-184 | once the command has returned the goroutine can finish and close the channel by itself, even if the caller has left |
| `ExecProtocol.ConsumerNeverStuck` | pkg/runtime/translate.go:53-61 | a waiting caller can go on once the goroutine is gone or the context cancelled |
| `ExecProtocol.HookSucceedsOnlyIf` | pkg/runtime/translate.go:44-67 | a hook returns nil only if there was no command, the command succeeded or the context was cancelled |
| `ExecProtocol.HookIsExact` | pkg/runtime/translate.go:44-67 | without cancellation a hook returns nil exactly if there is no command or it succeeded, and otherwise the error of the command |
| `Remount.ConservedAlways` | pkg/runtime/container.go:760-778 | over any run every started mounter is live, on its way back or given up, and none is duplicated |
| `Remount.LiveNeverExceedsStarted` | pkg/runtime/container.go:428-434 | the live mounters of a pod never outnumber those that container creation started |
| `Remount.NoMountAfterRemoval` | pkg/runtime/container.go:767-773 | without a pause container the mounts issued are exactly those after failed lookups, so none if and only if every lookup worked |
| `Remount.MountersOnlyGoAway` | pkg/runtime/container.go:760-778 | without new containers the mounters of a pod only get fewer |
| `Remount.FailedLookupMountsForRemovedPod` | pkg/runtime/container.go:767-776 | a run in which the pause container is there when the volume is mounted and gone when its mounter exits, and a failed lookup makes the handler mount it again |
| `Remount.OneMounterPerPoint` | vendor/ext.arhat.dev/runtimeutil/storageutil/client.go:127-193 | as long as no entry is taken away from outside a mount point has at most one live mounter |
| `Remount.UnmountAllowsTwoMounters` | vendor/ext.arhat.dev/runtimeutil/storageutil/client.go:127-225 | after an unmount a mount point can have two live mounters, each spawned when none was in its initial wait |
| `UserString.BuildUser` | pkg/runtime/container.go:517-528 | the built text reads back as the same pair |
| `UserString.ResolveUser` | pkg/runtime/container.go:517-532 | the image user is used exactly when settings are missing or both numbers are -1; otherwise the text is that of the settings and reads back as them |
| `UserString.RoundTrip` | pkg/runtime/container.go:517-528 | for all integers the text parses back to the pair |
| `UserString.TextsDiffer` | pkg/runtime/container.go:517-532 | distinct pairs give distinct texts, and only the absent pair gives the empty one |
| `UserString.PartsOfText` | pkg/runtime/container.go:518-527 | the text is the user's number, the group's number after a colon, or both; -1 contributes nothing |
| `UserString.Examples` | pkg/runtime/container.go:518-527 | texts of some pairs, digit by digit |
| `Config.MountVolume` | pkg/runtime/container.go:413-464 | data wins over a host path and a volume of neither kind has an empty source; it fails if and only if the host path cannot be resolved, the remote mount is refused or the data cannot be written; the option list is a new one |
| `Config.CopyOptions` | pkg/runtime/container.go:453-458 | a new list with the caller's options and the read-only option at the end if asked for; the caller's list is not touched |
| `Config.MountAll` | pkg/runtime/container.go:412-465 | the loop succeeds if and only if no volume fails; one mount for each entry, in the order visited; all option lists new and those of the caller unchanged |
| `Config.BuildMounts` | pkg/runtime/container.go:412-487 | one mount for each entry, and the resolver file at the end exactly if there are name servers; fails if and only if a volume fails or a needed resolver file cannot be written |
| `Config.ResolverIff` | pkg/runtime/container.go:467-487 | among all mounts one of the resolver file is there if and only if there are name servers |
| `Config.MountsIgnoreOrder` | pkg/runtime/container.go:412-465 | two visiting orders give the same mounts |
| `Config.ResolveCommand` | pkg/runtime/container.go:544-574 | the override table over spec and image, case by case on the parameters: the spec's command replaces entrypoint and default arguments, the spec's arguments replace the default arguments, a shell stands in for a missing entrypoint; the entrypoint is never empty where it is indexed |
| `Config.MergeEnv` | pkg/runtime/container.go:562-567 | the environment is that of the image overridden by that of the spec, in any order |

## Left out

- Command line, configuration, signals and version output (`cmd/`, `pkg/cmd`, `pkg/conf`, `pkg/version`, `pkg/constant`): no hard property.
- Attach, exec and port-forward wrappers (`pkg/runtime/action.go`): they repeat the channel protocol.
- Images (`pkg/runtime/image.go`): registry access; here only a call that may fail.
- Files, directories, timeouts, sleeps, logging and the network agent's messages: input and output.
- Namespace modes, SELinux, capabilities, health checks, restart policies, working directory, hostname and systemd detection: one-branch facts.
- `startPod` and `makeExecErrCh`: they have no caller.
- Commands that run at the same time: the engine takes no lock across a command, and the model runs one at a time.
- The moment at which the handler of an exited mounter runs relative to a command: `Remount` has its own runs, in which a uid has a pause container or not.
- Config.BuildMounts: what the file system and the storage client answer for a volume is a parameter, and so is whether the resolver file can be written.
- Lifecycle.Runtime.CreateContainer: volumes other than remote ones appear only as a call that may fail; `Config` has them in full.
- Findings.NameCheckIsExact: other pods and containers may hold the name of a second pause container as well; only the pod's own is considered.
- Labels.ReservedKeysDiffer: nothing keeps `Other` from carrying the text of a reserved key; the model allows such label sets although the source cannot have them.
- Lifecycle.Runtime.NetworkDelete: the payload of network requests and the process id are not modelled.
- Lifecycle.Runtime.NetworkDo: a set-up that takes effect after its cancelled call has returned is not modelled.
