# The Civo CSI driver, modelled and proved

The driver is modelled as step machines that run against a Civo cloud, a Kubernetes API server and a
node whose every answer is chosen by the environment. Three parts are covered: the controller's volume
protocol, the PreStop drain hook, and the node's stage and publish life cycle. One Dafny project holds
all of it; `dafny verify dfyconfig.toml` checks it.

## How the model is built

**Controller.** `CivoApi` is the cloud: volumes, quota, and the answers a truthful cloud may give to
each call, including a failure reported after the call took effect. `Handlers` turns each handler into a
task, that is a program counter with its locals, which asks one API call at a time and continues with the
answer. `Controller` is the source's code, statement by statement, over a client object; every method is
proved to perform exactly the calls of its task and to return its outcome, so what is proved of tasks is
proved of the code. `CallLog` says, of the log of calls alone and without the tasks, which calls a handler
may make, in which order, and what each of its answers means; `Traces` proves that the tasks keep to it, and
the methods promise it. `Interleaving` puts any number of tasks, the singleflight group of CreateVolume, the
cloud's own steps and restarts of the controller pod together: an event is one API call or one cloud
step, and a run is any sequence of enabled events. The theorems are then about all runs:

- `Names`: one volume per name, and creates that are safe to retry from every point of failure.
- `GetOrCreate`, `Linearization`: concurrent creates refine one atomic operation on a directory from names to
  volumes, performed once for each caller between its call and its response.
- `QuotaBound`, `QuotaTight`: how far racing creates can overshoot the quota, and that they can.
- `Serial`, `Attachment`, `AttachmentRace`: with one call per volume in flight, volumes move only for the node
  that holds them and published volumes stay attached; and a run that shows why calls must be serialised.
- `Expansion`, `ExpansionRace`: sizes never shrink, success covers the request, and a resize that is not cut
  off by a detach is requested once; and a serialised run in which an unpublish cuts it off.
- `Convergence`: in every run in which a volume is only called for one goal, publish on a node or unpublish
  from it, one call at a time, the calls that end without success are bounded by a decreasing measure, the
  faulty answers and the cloud's slowness; everything else interleaves freely.
- `Witnesses`: the events of a run that a successful create, and an attach, rest on.
- `Sizes`: the size arithmetic in 64-bit integers, and how GetCapacity and CreateVolume agree.

**Drain hook.** `DrainHook` holds the scans, the once-guarded channel, the event handler and the select
loop as methods, and the protocol between waiter, informer, callbacks, API server and context as a
state machine. `DrainHookWaiter` proves that the waiter's code and the protocol's waiter move alike.
`DrainHookSafety` says why nil may be returned, `DrainHookLiveness` when the wakeup cannot be lost and
when the waiter sleeps until its context ends.

**Node.** `NodeHost` is the mutable host: a mount table in which later mounts lie on top, formatted
devices, the files on them, directories; its methods are the operations of DiskHotPlugger and of the os
package. `NodeServer` has the four RPCs as methods over it, each proved against a specification
function. `NodeData` is about the files, `NodeLifecycle` about the mount table, `FakeDisk` about the
test double.

## What is assumed

- One API call is one atomic step; `ListVolumes`, `GetQuota` and `GetVolume` answer with the state of that
  instant. Volume ids are never reused. A call that a replaced pod had sent has been decided before the
  restart. Only this pod creates volumes.
- `AttachVolume` starts attaching to the node it names, `DetachVolume` starts detaching whoever holds the
  volume, `ResizeVolume` marks the volume as resizing at once. The cloud completes these in its own steps
  and never shrinks or moves a volume by itself; it may acknowledge an attach or detach that is already
  under way without doing anything. `Serial.Refuses` adds that attached volumes are neither deleted nor
  resized; only the theorems about serialised runs and stability use it.
- For convergence a repeated attach is harmless: it takes effect on an available volume only; and the cloud
  ends each transition before more than a given number of calls have stalled in it.
- The orchestrator keeps at most one publish, unpublish, expand or delete call in flight per volume where
  `SerialRun` is required (section "Concurrency" of the Container Storage Interface specification v1.6.0).
- A Go `int` has 64 bits, and the quota's two figures are small enough to be subtracted without
  overflow. Products with the gigabyte constant do wrap around in the model.
- A path leads through the latest mount on it or on one of its ancestors, which hides all earlier ones. A
  mount point cannot be removed, what lies below it can.
- The informer delivers changes in order, each once; its initial list is not delivered as updates or
  deletions. `TestMode` is false. Sleeps and tickers are any number of steps of the others.

## What the proofs found

- The comment at `pkg/driver/controller_server.go:230` is wrong: `lookupExistingByName` returns the error
  of `resolveExistingVolume` through the same result as a failed listing. After a duplicate-name reply a
  volume that was found but does not match is therefore answered with the original error.
- The comments at lines 354-357 of the same file are the opposite of the test: an attach is repeated while
  the volume is attaching and skipped otherwise. This would matter in a cloud that frees a volume before it
  clears the instance's id: such a volume would never be attached to that node again, however often the
  call is retried (`PublishConvergesExactly`). In the cloud assumed here no serialised run reaches such a
  volume (`FreeHasNoInstance`).
- Callers that share a flight get the leader's size (`FollowerOfAnotherSize`).
- Negative sizes are not rejected and are rounded up (`NegativeRequestOvershoots`).
- An unpublish without node id does not always do nothing: it asks for a detach of a volume that nobody
  holds while that volume is being created or resized (`UnpublishWithoutNode`). In a serialised run this
  takes a volume out of its resize, and the retried expand resizes it again, without end
  (`ResizeIsUndone`); it cannot happen when every unpublish names its node (`NamedRunSpares`).
- The last read of ControllerExpandVolume must not fail (`LastReadMustSucceed`).
- All three "not available" answers after `waitForVolumeStatus` are unreachable (`WaitForVolumeStatus`).
- A listing of the informer that comes after the last deletion, a failed List in a callback and a tombstone
  each leave the PreStop waiter asleep until its context ends.
- A findmnt that fails without output reads as not mounted, and unpublishing a mounted target may then
  delete the volume's files: from an empty host, a stage, a publish, a write and such an unpublish lose
  what was written (`SilentFindmntLosesData`). Being a strict ancestor of a mount point is not the only
  danger: a target at or inside a mounted volume is as unsafe (`RemoveAllSafeExactly`). Paths of which none
  lies below another keep every unpublish safe (`DataSurvivesApart`).
- Every exit status 2 of blkid reads as not formatted. Should blkid answer so for a volume that was staged,
  published, written to, unpublished and unstaged, staging it again formats it (`FalseBlkidLosesData`).
- A create that refuses a size conflict may do so for a follower that came after the conflicting volume was
  deleted; `RefusalIsRespondExactly` says when a refusal is the caller's own.
- NodeStageVolume asks findmnt about the device path, so repeating a stage rests on the refusal of the second
  mount (`RepeatedStageRestsOnRefusal`), and its answer does not depend on whether the volume was
  formatted and mounted (`AnswerIgnoresEffects`).

## Model

| member | source | states |
|---|---|---|
| Controller.WaitForVolumeStatus | pkg/driver/controller_server.go:247-270 | the poll returns true exactly when an available volume is read within the retries before any read fails, makes at most `retries` reads, and never returns false without an error, so the callers' "not available" fallbacks are dead |
| Controller.SeenInTimeMeaning | pkg/driver/controller_server.go:256-268 | the condition of the poll's success, spelled out: some read within the retries is available and every read before it succeeded |
| Controller.ValidateCreate | pkg/driver/controller_server.go:36-71 | a create is let into its flight exactly for a name and supported, non-block capabilities, with the rounded-up size |
| Controller.ResolveExistingVolume | pkg/driver/controller_server.go:194-217 | an existing volume answers only with the requested size and after it became available; it has a response or an error, never both or none |
| Controller.LookupExistingByName | pkg/driver/controller_server.go:231-243 | found is true exactly when the listing succeeded and holds the name, also when resolving it failed; response and error follow the first listed volume of the name, in the pre-check and in the duplicate-name recovery |
| Controller.CreateVolumeUnsynced | pkg/driver/controller_server.go:88-188 | the log of a whole invocation fixes the calls, their order and the answer; success is given only for a volume that the last call read as available, with the requested size's bytes |
| CallLog.CreateSawAvailable | pkg/driver/controller_server.go:164-184 | every log a create may leave with success ends in an available read of the answered volume, after at least one other call |
| CallLog.NewVolumeNeedsRoom | pkg/driver/controller_server.go:115-142 | NewVolume is called at most once, for this name and size, after a listing without the name and a quota with room for size and count |
| CallLog.FirstNamedIsFirst | pkg/driver/controller_server.go:236-241 | the lookup takes the first listed volume of the name |
| Traces.CreateTrace | pkg/driver/controller_server.go:88-188 | every complete run of the create task leaves such a log |
| Witnesses.CreatedWasAvailable | pkg/driver/controller_server.go:164-184 | in every run of the system, a flight that ends with success has read its volume while it was available |
| Controller.DeleteVolume | pkg/driver/controller_server.go:273-295 | one DeleteVolume call for a valid request; success exactly when it is accepted or answered with not found, otherwise its error |
| Controller.ControllerPublishVolume | pkg/driver/controller_server.go:298-399 | the log of a whole invocation fixes its calls and its answer: node listed, first read, attach if wanted, and the last exchange decides |
| CallLog.AttachFollowsListing | pkg/driver/controller_server.go:313-371 | an attach is requested only for this volume and node, after a listing of the cluster that contains the node |
| CallLog.MissingNodeExactly | pkg/driver/controller_server.go:318-327 | a valid publish answers NotFound, after that one call, if and only if the cluster was listed without the node |
| Traces.PublishTrace | pkg/driver/controller_server.go:298-399 | every complete run of the publish task leaves such a log |
| Traces.StartsAsFirstTask | pkg/driver/controller_server.go:301-311 | each valid request starts in the code as it starts in the runs of the system, each invalid one ends at once |
| Witnesses.AttachedNodeWasListed | pkg/driver/controller_server.go:313-371 | in every run of the system, a request that attaches a volume to a node was told before that the cluster has the node |
| Controller.ControllerUnpublishVolume | pkg/driver/controller_server.go:402-471 | the log of a whole invocation fixes its calls and its answer |
| CallLog.UnpublishSawRelease | pkg/driver/controller_server.go:424-470 | success is given only on a last read of the volume as gone, available or another instance's |
| Traces.UnpublishTrace | pkg/driver/controller_server.go:402-471 | every complete run of the unpublish task leaves such a log |
| Controller.ControllerExpandVolume | pkg/driver/controller_server.go:474-543 | the log of a whole invocation fixes its calls and its answer, including the panic when the last read fails |
| CallLog.ReachedExpandAnswers | pkg/driver/controller_server.go:506-509 | an expand whose first read shows a volume that is not resizing and holds the requested bytes succeeds with its capacity after that one call |
| CallLog.ResizeIsNeeded | pkg/driver/controller_server.go:502-516 | a resize is requested at most once, for the desired size, of a volume read as available and smaller |
| Traces.ExpandTrace | pkg/driver/controller_server.go:474-543 | every complete run of the expand task leaves such a log |
| Handlers.FirstNamed | pkg/driver/controller_server.go:236-242 | the lookup finds a listed volume of the name exactly when there is one |
| Interleaving.CreateResumes | pkg/driver/controller_server.go:88-188 | a create never leaves its own name and size, whatever it is answered |
| Interleaving.RpcResumes | pkg/driver/controller_server.go:298-543 | a publish, unpublish, expand or delete only makes the calls of its own kind, for its own volume and node |
| Names.AtMostOneVolumePerName | pkg/driver/controller_server.go:73-75 | no interleaving of creates, deletes, publishes, unpublishes, expands, cloud steps and restarts gives a name to two volumes, even if the cloud never rejects duplicates |
| Names.StepKeepsInv | pkg/driver/driver.go:47-54 | the inductive core: a flight past its not-found lookup implies that no volume of its name exists |
| Names.FlightStaysCommitted | pkg/driver/controller_server.go:90-95 | a flight whose name is owned stays with the owner through every call and answer |
| Names.LookupCommits | pkg/driver/controller_server.go:231-243 | a listing in which the name is taken leads to its owner or to an error, never to a create |
| Names.OwnedNameIsNeverRecreated | pkg/driver/controller_server.go:73-95 | while a volume of the name exists no NewVolume is called for the name, and every success answers with that volume |
| Names.CreateIsRetrySafe | pkg/driver/controller_server.go:142-188 | once NewVolume took effect, with whatever answer, no retry calls it again and every later success returns that volume until it is deleted |
| Linearization.CreateRefinesGetOrCreate | pkg/driver/controller_server.go:36-83 | every run of a fresh controller, with callers of a flight agreeing on the size and held volumes neither deleted nor resized, is a run of an atomic get-or-create in which each call has one operation between its arrival and its answer: every creation is the operation of a waiting caller that asked for that name and size, and every successful response is what that very caller's operation returned |
| GetOrCreate.LookupDecidesAtomically | pkg/driver/controller_server.go:194-243 | at a lookup the code creates, waits or refuses exactly as the atomic operation would at that instant; in the recovery a refusal is reported as the duplicate-name error |
| Linearization.RunRefines | pkg/driver/controller_server.go:36-188 | the same from every state whose flights match the open calls of the specification |
| Linearization.StepRefines | pkg/driver/controller_server.go:88-188 | each event is one legal operation of the atomic specification, or changes neither the directory nor the open calls |
| Linearization.NewVolumeIsMake | pkg/driver/controller_server.go:142-142 | an effective NewVolume is the operation of one of the flight's callers, which asked for that name and size and was not served before, on a name that was free |
| Linearization.FlightEndIsRespond | pkg/driver/controller_server.go:73-82 | the response of a flight is the result of the one operation of each of its callers |
| Linearization.RefusalIsRespondExactly | pkg/driver/controller_server.go:194-198 | a size conflict answered to all callers of a flight is what each caller's own operation returns when the flight ends, if and only if the name then still belongs to a volume of another size |
| GetOrCreate.FollowerOfAnotherSize | pkg/driver/controller_server.go:73-82 | a run in which a follower asking for 20 GB is answered with the leader's 10 GB, so equal sizes are needed |
| GetOrCreate.ResizeLandsDuringFlight | pkg/driver/controller_server.go:194-213 | a run in which a resize lands on the volume a flight polls, which is then answered with a size it no longer has, so held volumes must not be resized |
| QuotaBound.OvershootIsBounded | pkg/driver/controller_server.go:115-142 | with at most k flights between quota check and NewVolume, used plus promised gigabytes stay within k limits and volumes plus pending flights within the count limit plus k - 1 |
| QuotaBound.FlightStepKeepsBounds | pkg/driver/controller_server.go:121-128 | a flight that passes the check fits, since each other pending flight promises at most one limit |
| QuotaBound.StartsWaiting | pkg/driver/controller_server.go:121-128 | a flight comes to call NewVolume only through the check, with a size that was still free and a count below the limit |
| QuotaTight.OvershootIsAttained | pkg/driver/controller_server.go:115-142 | for every k there is a run that reaches both bounds |
| Serial.StepKeepsInv | pkg/driver/controller_server.go:337-377 | under one call per volume, what a handler read stays true enough until it acts on it |
| Serial.SerialRunKeepsInv | pkg/driver/controller_server.go:298-543 | that knowledge holds in every state of every serialised run |
| Attachment.AttachDecision | pkg/driver/controller_server.go:337-377 | an attach is requested exactly for a volume read as available with another instance or as attaching to this node |
| Attachment.UnpublishWithoutNode | pkg/driver/controller_server.go:425-446 | with an empty node id a detach is requested exactly for an unheld volume that is not available |
| Attachment.NoForeignMovement | pkg/driver/controller_server.go:446-446 | in serialised runs every attach finds the volume free or this node's and every detach finds it this node's |
| Attachment.FreeHasNoInstance | pkg/driver/controller_server.go:355-357 | in serialised runs an available volume carries no instance's id |
| Attachment.PublishedStaysAttached | pkg/driver/controller_server.go:337-398 | after a successful publish in a serialised run the volume stays attached to the node until an unpublish of it from that node begins |
| Attachment.UnpublishedStaysReleased | pkg/driver/controller_server.go:424-470 | after a successful unpublish from a named node in a serialised run the volume is gone or does not carry the node's id, until a publish of it to that node begins |
| Attachment.SettledForGood | pkg/driver/controller_server.go:425-470 | a volume attached to a node and threatened by no call in flight stays so, whatever begins afterwards |
| AttachmentRace.StabilityNeedsSerialisation | pkg/driver/controller_server.go:446-446 | a run in which a delayed unpublish from one node takes the volume from the node it was published to since |
| Expansion.SizesNeverShrink | pkg/driver/controller_server.go:506-516 | over every serialised run no volume shrinks |
| Expansion.StepGrows | pkg/driver/controller_server.go:446-446 | a step cuts a resize under way back if and only if it is a detach that takes effect on that volume |
| Expansion.TargetsNeverShrink | pkg/driver/controller_server.go:502-516 | over every serialised run without such a detach no resize is cut back or undone |
| Expansion.NamedRunSpares | pkg/driver/controller_server.go:431-446 | when every unpublish names its node, no such detach happens |
| ExpansionRace.ResizeIsUndone | pkg/driver/controller_server.go:431-446 | a serialised run in which an unpublish without node id undoes a resize and the retried expand resizes again |
| Expansion.SuccessCoversRequest | pkg/driver/controller_server.go:527-542 | in every serialised run a successful expand reports, as an int64, its volume's size, which is the requested one or more; for sizes below 2^34 GB that is at least the requested bytes exactly when it fits int64 |
| Expansion.ReachedExpandSucceeds | pkg/driver/controller_server.go:506-509 | in every serialised run an expand of a volume that is not resizing and has the size can only end in success with that size, unless one of its calls fails |
| Expansion.ExpandResizesOnce | pkg/driver/controller_server.go:502-516 | after a resize took effect, and while no detach cuts it off, no retry asks for a resize to that size or a smaller one again |
| Expansion.ReachedForGood | pkg/driver/controller_server.go:506-509 | a size that is reached or under way, and not cut off by a detach, is never requested again |
| Expansion.LastReadMustSucceed | pkg/driver/controller_server.go:537-540 | the handler dereferences a nil volume exactly when its last read fails |
| Convergence.RetriesConverge | pkg/driver/controller_server.go:298-471 | in every run of the system in which calls on a volume pursue one goal, one at a time, at most as many calls end without success as got a faulty answer, plus one for each change of status still ahead, plus `bound` for each transition; so beyond that number some call has succeeded |
| Convergence.EndingsAddUp | pkg/driver/controller_server.go:379-398 | every call that ends succeeded, got a faulty answer, brought the volume nearer, or stalled in one of the two transitions |
| Convergence.StallsInTransition | pkg/driver/controller_server.go:455-470 | a call without a faulty answer that fails at the rank it began with met the volume in a transition and leaves it there |
| Convergence.AdvancesArePaid | pkg/driver/controller_server.go:337-377 | the calls that fail nearer to the goal than they began are at most as many as the rank fell |
| Convergence.StepKeepsInv | pkg/driver/controller_server.go:354-377 | no event, however faulty and whoever makes it, takes the volume off its course or raises its rank |
| Convergence.PublishConvergesExactly | pkg/driver/controller_server.go:354-358 | in every such run of publishes of an available volume, long enough for RetriesConverge, some call succeeds if and only if the volume does not carry the node's id |
| Convergence.StaleNeverPublished | pkg/driver/controller_server.go:355-357 | in no run does a retried publish of an available volume that carries the node's id succeed |
| Sizes.ComputeDesiredSize | pkg/driver/controller_server.go:60-69 | the required bytes, or the limit if none are required, or 10 GB without a range, rounded as RoundsTo says |
| Sizes.RoundsExactly | pkg/driver/controller_server.go:66-69 | truncating division plus the increment gives exactly that rounding, for negative bytes too |
| Sizes.DesiredIsCeiling | pkg/driver/controller_server.go:66-69 | a non-negative request is rounded up to the next whole gigabyte, and to nothing else |
| Sizes.NegativeRequestOvershoots | pkg/driver/controller_server.go:66-69 | a negative request overshoots by less than two gigabytes and may become positive |
| Sizes.FreshCapacityExact | pkg/driver/controller_server.go:178-182 | the reported capacity covers the request by less than a gigabyte exactly up to 2^63 - 2^30 bytes, and wraps to the smallest int64 above |
| Sizes.LimitRespectedExactly | pkg/driver/controller_server.go:919-931 | limit_bytes is respected exactly when a whole number of gigabytes lies between the two bounds |
| Sizes.GetCapacity | pkg/driver/controller_server.go:625-652 | nothing when the count is exhausted, else the free gigabytes in bytes where they fit int64 |
| Sizes.CapacityAgreementExact | pkg/driver/controller_server.go:636-645 | GetCapacity and the admission of CreateVolume agree on every positive request exactly for an exhausted count, for 0 to 2^33 - 1 free gigabytes, and for negative ones in the lower half of their residues modulo 2^34 |
| DrainHook.IsNodeDrained | pkg/driver/hook/prestop.go:63-70 | true exactly when the unschedulable taint is present |
| DrainHook.CheckVolumeAttachmentsExist | pkg/driver/hook/prestop.go:164-182 | no error exactly when a listing succeeded and showed nothing on the node; the flag tells the two errors apart and the named attachment is one of the node's |
| DrainHook.VolumeAttachmentEventHandler | pkg/driver/hook/prestop.go:150-162 | the channel is closed exactly for an attachment of this node whose own listing shows the node free, and an error reported exactly otherwise for tombstones and this node |
| DrainHook.StopChannel.Stop | pkg/driver/hook/prestop.go:77-84 | the channel is closed once, however often it is stopped |
| DrainHook.DeliveryListsExactly | pkg/driver/hook/prestop.go:86-107 | a delivered change makes a callback list exactly if it is an update or deletion of an attachment of this node and no tombstone |
| DrainHook.SelectLoop | pkg/driver/hook/prestop.go:132-147 | the loop ends with the first wake-up that is not a tick |
| DrainHookWaiter.WaitForVolumeAttachmentsCleanup | pkg/driver/hook/prestop.go:72-148 | an error exactly if the handler was not added or the listing failed, waiting exactly while the node has attachments and only ticks came, else nil; the channel is closed on every return |
| DrainHookWaiter.PreStop | pkg/driver/hook/prestop.go:28-61 | exactly when the hook returns nil, an error, or waits: a missing node is waited for like a drained one, another error is returned, any other node is skipped without touching the channel |
| DrainHookWaiter.ProtocolFollowsCode | pkg/driver/hook/prestop.go:28-148 | in every run of the protocol the waiter is where that code is after what the run showed it |
| DrainHookWaiter.ListingDecides | pkg/driver/hook/prestop.go:172-181 | scanning a listing of the API server's state finds out exactly whether the node is free |
| DrainHookSafety.NilOnlyWithCause | pkg/driver/hook/prestop.go:113-147 | on every interleaving nil is returned only if the node was read as not drained, a listing during the call showed it free, or the context ended; the channel is closed at most once |
| DrainHookSafety.SawFreeMeaning | pkg/driver/hook/prestop.go:164-182 | the recorded cause is exactly a successful listing in a state of the run in which the node was free |
| DrainHookLiveness.WokenExactlyBySeeingFree | pkg/driver/hook/prestop.go:150-162 | in every run, whatever failed, once no callback is about to stop the waiting hook finds the channel closed if and only if some callback's listing succeeded while the node was free |
| DrainHookLiveness.WokenExactlyIfKnown | pkg/driver/hook/prestop.go:86-113 | if nothing fails while the node is free, then once all is delivered and the node is free the channel is closed if and only if the informer ever knew an attachment of the node, and the waiter can then return nil |
| DrainHookLiveness.StepKeepsInv | pkg/driver/hook/prestop.go:86-107 | no lost wakeup: once an attachment was known and the node is free, the channel is closed or something that will close it is pending; faults while the node has attachments do no harm |
| DrainHookLiveness.InnerStepsClose | pkg/driver/hook/prestop.go:150-162 | deliveries and callbacks alone, boundedly many and in any order, close the channel |
| DrainHookLiveness.StrandedForGood | pkg/driver/hook/prestop.go:138-140 | a waiter with nothing pending sleeps on every run until the context ends or an attachment is created |
| DrainHookLiveness.LateInformerStrands | pkg/driver/hook/prestop.go:111-113 | a faultless run whose initial list comes too late ends so |
| DrainHookLiveness.FailedListStrands | pkg/driver/hook/prestop.go:156-158 | a run whose only fault is the failed listing of the last deletion's callback ends so |
| DrainHookLiveness.TombstoneStrands | pkg/driver/hook/prestop.go:151-154 | a run whose only fault is that the last deletion is delivered as a tombstone ends so |
| NodeServer.NodeStageVolume | pkg/driver/node_server.go:20-75 | changes the host and answers exactly as the specification function of stage |
| NodeServer.NodeUnstageVolume | pkg/driver/node_server.go:78-108 | changes the host and answers exactly as the specification function of unstage |
| NodeServer.NodePublishVolume | pkg/driver/node_server.go:111-159 | changes the host and answers exactly as the specification function of publish |
| NodeServer.NodeUnpublishVolume | pkg/driver/node_server.go:162-215 | changes the host and answers exactly as the specification function of unpublish, with the corrupted-mount path |
| NodeServer.AnswerIgnoresEffects | pkg/driver/node_server.go:53-72 | the answers of stage and publish are the same whatever became of format and mount |
| NodeServer.StagedExactly | pkg/driver/node_server.go:57-74 | exactly when a stage without error leaves the volume mounted at its staging path |
| NodeServer.PublishedExactly | pkg/driver/node_server.go:141-158 | exactly when a publish without error leaves the target leading where the staging path leads |
| NodeServer.StageAnswersExactly | pkg/driver/node_server.go:20-75 | exactly when a stage answers without error, and exactly when it runs mkfs and what that leaves |
| NodeServer.PublishAnswersExactly | pkg/driver/node_server.go:111-159 | exactly when a publish answers without error, also for a target that is mounted already, and that it changes directories and mounts only |
| NodeServer.UnstagedExactly | pkg/driver/node_server.go:78-108 | an unstage answers without error exactly if findmnt denied the mount or the visible mount was taken off; nothing else changes |
| NodeServer.UnpublishedExactly | pkg/driver/node_server.go:177-214 | an unpublish of a mounted or corrupted target answers without error exactly if the visible mount was taken off and the target removed, one of an unmounted target exactly if RemoveAll succeeded |
| NodeHost.Host.IsFormatted | pkg/driver/hotplug_disk.go:176-214 | blkid's exit status 2 reads as not formatted, any other failure is an error |
| NodeHost.Host.Format | pkg/driver/hotplug_disk.go:86-103 | the effect of mkfs, and success only when blkid finds a file system afterwards |
| NodeHost.Host.IsMounted | pkg/driver/hotplug_disk.go:217-247 | an empty path is an error, a findmnt that fails without output reads as not mounted |
| NodeHost.Host.MountAt | pkg/driver/hotplug_disk.go:106-160 | the directory is made first, the mount goes on top, and success is reported only when findmnt finds it afterwards |
| NodeHost.Host.Unmount | pkg/driver/hotplug_disk.go:163-173 | takes the top mount at the path away, or fails and changes nothing |
| NodeData.DataSurvivesApart | pkg/driver/node_server.go:45-212 | data survives every run of the four RPCs, with truthful blkid and findmnt, when no path of the calls or of a mounted volume lies below another |
| NodeData.DataSurvives | pkg/driver/node_server.go:45-55 | from the first completed format on, no run of the four RPCs with arbitrary failures runs mkfs on the device again or deletes a file, given truthful blkid and findmnt and unpublish targets that are clear |
| NodeData.RemoveAllSafeExactly | pkg/driver/node_server.go:192-199 | RemoveAll keeps every possible content of every volume if and only if the target leads into no volume and none is visibly mounted strictly below it |
| NodeData.StepKeepsData | pkg/driver/node_server.go:177-212 | one RPC, with any failures, keeps formats and files and runs mkfs on no formatted device |
| NodeData.SilentFindmntLosesData | pkg/driver/hotplug_disk.go:232-238 | a run from an empty host in which a findmnt that fails silently makes unpublish delete what was written to the published volume |
| NodeData.FalseBlkidLosesData | pkg/driver/hotplug_disk.go:202-205 | a run from an empty host in which an exit status 2 of blkid for a formatted device makes a second stage run mkfs and lose what was written |
| NodeLifecycle.TableFollowsLedger | pkg/driver/node_server.go:58-105 | in working runs the mount table is the ledger of what was staged and published and not yet undone |
| NodeLifecycle.LifecycleRestoresTable | pkg/driver/node_server.go:92-207 | any working interleaving of stages, publishes, repeats, unpublishes and unstages that undoes what it did restores the mount table |
| NodeLifecycle.LedgerKeys | pkg/driver/node_server.go:111-215 | a path is in the ledger exactly when the last call about it mounted it |
| NodeLifecycle.WithoutTopRemoves | pkg/driver/hotplug_disk.go:163-173 | an unmount removes exactly the mount at its path |
| NodeLifecycle.RepeatedStageRestsOnRefusal | pkg/driver/node_server.go:58-71 | if a second mount on the staging path were not refused, a repeated stage followed by one unstage would leave the volume mounted |
| FakeDisk.FaithfulExactly | pkg/driver/hotplug_disk.go:312-339 | the test double answers IsMounted like a mount table if and only if at most one path is mounted at a time |
| FakeDisk.FakeDiskHotPlugger.Mount | pkg/driver/hotplug_disk.go:313-319 | remembers the last device and mount point only |
| FakeDisk.FakeDiskHotPlugger.Unmount | pkg/driver/hotplug_disk.go:322-326 | forgets the mount whatever path it is given |
| FakeDisk.FakeDiskHotPlugger.IsMounted | pkg/driver/hotplug_disk.go:334-339 | true exactly for the remembered mount point while mounted |

## Left out

- Server setup, sockets, flags and configuration (`main.go`, `Driver.Run`, `NewDriver`): no protocol logic.
- Log lines, error texts and gRPC codes: errors are a datatype that keeps the code or the upstream error.
- ListVolumes, ValidateVolumeCapabilities, ControllerGetCapabilities, the identity service, NodeGetInfo, NodeGetVolumeStats: single-branch or constant answers.
- Snapshot RPCs: they answer Unimplemented.
- NodeExpandVolume and ExpandFilesystem: one lookup and one resize2fs call, no state this model keeps.
- The test double's PathForVolume, Format, ExpandFilesystem and call flags: constant answers and recorded arguments.
- The failure branch of GetQuota in GetCapacity: it returns the error.
- Cancellation of the controller's request contexts: the handlers never read them.
- NewVolume's other parameters (region, namespace, cluster, volume type): they do not affect the protocol.
- A second creator of volumes: the driver's design rests on a single controller replica.
- Concurrent node RPCs: each of the four RPCs runs to its end before the next one; the model covers every order of them.
- The read-only and other mount options of stage and publish: they do not change where a path leads.
- PathForVolume's glob pattern: a volume id names one device, which may come and go between readings.
- Convergence.RetriesConverge: is about runs without calls for another goal on that volume; that calls go on ending is the orchestrator's fairness and is not modelled.
- Linearization.CreateRefinesGetOrCreate: relates successes and standing size conflicts; any other error may be answered after NewVolume took effect, which `Names.CreateIsRetrySafe` covers.
- DrainHookLiveness.InnerStepsClose: bounds the informer's own steps; that these steps are eventually taken is the scheduler's fairness and is not modelled.
