/**
 The controller's handlers as resumable tasks. A task is a program counter with its locals; it asks
 one API call at a time (`Request`) and continues with the answer (`Resume`). Between two calls of
 a task anything may happen in the cloud, which is where the interleavings of the driver live.
 Controller.dfy proves that the handlers' code runs exactly these tasks.
 */
module Handlers {
  import opened Wrappers
  import opened Sizes
  import opened CivoApi

  const RETRIES := 20

  datatype Failure =
    | InvalidArgument
    | NotFound
    | AlreadyExists
    | OutOfRange
    | Unavailable
    | Aborted
    | FailedPrecondition
    | Internal
    | TimedOut
    | Upstream(err: ApiError)

  datatype Outcome =
    | CreateOk(id: string, bytes: int)
    | PublishOk
    | UnpublishOk
    | ExpandOk(bytes: int)
    | DeleteOk
    | Error(f: Failure)
    | Panicked  // a nil volume is dereferenced

  /** What the code after waitForVolumeStatus does with its result. */
  datatype Then =
    | ThenCreated(name: string, sizeGB: int)
    | ThenResolved(name: string, sizeGB: int, recovering: bool)
    | ThenExpanded(sizeGB: int)

  datatype Task =
    // createVolumeUnsynced, under its singleflight
    | CreateLookup(name: string, sizeGB: int)
    | CreateQuota(name: string, sizeGB: int)
    | CreateNew(name: string, sizeGB: int)
    | CreateRecover(name: string, sizeGB: int)
    | CreateRead(name: string, sizeGB: int, id: string)
    // waitForVolumeStatus(…, "available", retries) after `polls` reads
    | Poll(id: string, polls: nat, retries: nat, next: Then)
    | PublishCluster(id: string, node: string)
    | PublishRead(id: string, node: string)
    | PublishAttach(id: string, node: string)
    | PublishReread(id: string, node: string)
    | UnpublishRead(id: string, node: string)
    | UnpublishDetach(id: string, node: string)
    | UnpublishReread(id: string, node: string)
    | ExpandRead(id: string, range: Option<CapacityRange>)
    | ExpandResize(id: string, sizeGB: int)
    | ExpandFinal(id: string, sizeGB: int)
    | DeleteCall(id: string)
    | Finished(outcome: Outcome)

  function Fail(f: Failure): Task {
    Finished(Error(f))
  }

  function Request(t: Task): Call
    requires !t.Finished?
  {
    match t
    case CreateLookup(_, _) => ListVolumes
    case CreateQuota(_, _) => GetQuota
    case CreateNew(name, size) => NewVolume(name, size)
    case CreateRecover(_, _) => ListVolumes
    case CreateRead(_, _, id) => GetVolume(id)
    case Poll(id, _, _, _) => GetVolume(id)
    case PublishCluster(_, _) => GetCluster
    case PublishAttach(id, node) => AttachVolume(id, node)
    case UnpublishDetach(id, _) => DetachVolume(id)
    case ExpandResize(id, size) => ResizeVolume(id, size)
    case DeleteCall(id) => DeleteVolume(id)
    case PublishRead(id, _) => GetVolume(id)
    case PublishReread(id, _) => GetVolume(id)
    case UnpublishRead(id, _) => GetVolume(id)
    case UnpublishReread(id, _) => GetVolume(id)
    case ExpandRead(id, _) => GetVolume(id)
    case ExpandFinal(id, _) => GetVolume(id)
  }

  /** The first listed volume with the name, as the lookup loop finds it. */
  function FirstNamed(list: seq<Volume>, name: string): (v: Option<Volume>)
    ensures v.None? <==> forall w :: w in list ==> w.name != name
    ensures v.Some? ==> v.value in list && v.value.name == name
  {
    if list == [] then None
    else if list[0].name == name then Some(list[0])
    else FirstNamed(list[1..], name)
  }

  function PollSucceeded(id: string, next: Then): Task {
    match next
    case ThenExpanded(size) => ExpandFinal(id, size)
    case _ => Finished(CreateOk(id, CapacityBytes(next.sizeGB)))
  }

  function PollFailed(next: Then, f: Failure): Task {
    if next.ThenResolved? && next.recovering then Fail(Upstream(DuplicateName)) else Fail(f)
  }

  /**
   lookupExistingByName and resolveExistingVolume, and what their caller does. A failed resolution
   of a volume that was found is reported through the same error result as a failed listing, so the
   duplicate-name branch (recovering) answers with the original error for both.
   */
  function AfterLookup(name: string, size: int, found: Option<Volume>, recovering: bool): Task {
    if found.None? then
      if recovering then Fail(Upstream(DuplicateName)) else CreateQuota(name, size)
    else if found.value.sizeGB != size then PollFailed(ThenResolved(name, size, recovering), AlreadyExists)
    else Poll(found.value.id, 0, RETRIES, ThenResolved(name, size, recovering))
  }

  function PublishDecide(v: Volume, id: string, node: string): Task {
    if v.instance == node && v.status.Attached? then Finished(PublishOk)
    else if !v.status.Available? && v.instance != node then Fail(Unavailable)
    // the comment in the source says the opposite of this test
    else if v.instance == node && !v.status.Attaching? then PublishReread(id, node)
    else PublishAttach(id, node)
  }

  function UnpublishDecide(v: Volume, id: string, node: string): Task {
    if v.status.Available? then Finished(UnpublishOk)
    else if v.instance != node then Finished(UnpublishOk)
    else if v.status.Detaching? then UnpublishReread(id, node)
    else UnpublishDetach(id, node)
  }

  function ExpandDecide(v: Volume, id: string, desired: int): Task {
    if v.status.Resizing? then Fail(Aborted)
    else if desired <= v.sizeGB then Finished(ExpandOk(CapacityBytes(v.sizeGB)))
    else if !v.status.Available? then Fail(FailedPrecondition)
    else ExpandResize(id, desired)
  }

  function Resume(t: Task, r: Reply): Task
    requires !t.Finished?
  {
    match t
    case CreateLookup(name, size) =>
      if r.Volumes? then AfterLookup(name, size, FirstNamed(r.list, name), false) else Fail(Upstream(ErrorOf(r)))
    case CreateQuota(name, size) =>
      if !r.QuotaIs? then Fail(Upstream(ErrorOf(r)))
      else if Admits(r.quota, size) then CreateNew(name, size)
      else Fail(OutOfRange)
    case CreateNew(name, size) =>
      if r.Created? then CreateRead(name, size, r.id)
      else if ErrorOf(r).DuplicateName? then CreateRecover(name, size)
      else Fail(Upstream(ErrorOf(r)))
    case CreateRecover(name, size) =>
      if r.Volumes? then AfterLookup(name, size, FirstNamed(r.list, name), true) else Fail(Upstream(DuplicateName))
    case CreateRead(name, size, _) =>
      if r.VolumeIs? then Poll(r.volume.id, 0, RETRIES, ThenCreated(name, size)) else Fail(Upstream(ErrorOf(r)))
    case Poll(id, polls, retries, next) =>
      if !r.VolumeIs? then PollFailed(next, Upstream(ErrorOf(r)))
      else if r.volume.status.Available? then PollSucceeded(id, next)
      else if polls + 1 < retries then Poll(id, polls + 1, retries, next)
      else PollFailed(next, TimedOut)
    case PublishCluster(id, node) =>
      if !r.Instances? then Fail(Internal)
      else if node in r.nodes then PublishRead(id, node)
      else Fail(NotFound)
    case PublishRead(id, node) =>
      if !r.VolumeIs? then Fail(Upstream(ErrorOf(r))) else PublishDecide(r.volume, id, node)
    case PublishAttach(id, node) =>
      if r.Accepted? then PublishReread(id, node) else Fail(Upstream(ErrorOf(r)))
    case PublishReread(id, node) =>
      if !r.VolumeIs? then Fail(Upstream(ErrorOf(r)))
      else if r.volume.status.Attached? && r.volume.instance == node then Finished(PublishOk)
      else Fail(Unavailable)
    case UnpublishRead(id, node) =>
      if r.VolumeIs? then UnpublishDecide(r.volume, id, node)
      else if ErrorOf(r).VolumeNotFound? || ErrorOf(r).ZeroMatches? then Finished(UnpublishOk)
      else Fail(Upstream(ErrorOf(r)))
    case UnpublishDetach(id, node) =>
      if r.Accepted? then UnpublishReread(id, node) else Fail(Upstream(ErrorOf(r)))
    case UnpublishReread(id, node) =>
      if !r.VolumeIs? then Fail(Upstream(ErrorOf(r)))
      else if r.volume.status.Available? then Finished(UnpublishOk)
      else Fail(Unavailable)
    case ExpandRead(id, range) =>
      if !r.VolumeIs? then Fail(Internal)
      else if range.None? then Fail(InvalidArgument)
      else ExpandDecide(r.volume, id, DesiredGB(GetVolSizeInBytes(range)))
    case ExpandResize(id, size) =>
      if r.Accepted? then Poll(id, 0, 2 * RETRIES, ThenExpanded(size)) else Fail(Internal)
    case ExpandFinal(id, _) =>
      if r.VolumeIs? then Finished(ExpandOk(CapacityBytes(r.volume.sizeGB))) else Finished(Panicked)
    case DeleteCall(id) =>
      if r.Accepted? || ErrorOf(r).VolumeNotFound? then Finished(DeleteOk) else Fail(Upstream(ErrorOf(r)))
  }

  // ---- Requests as they arrive ----

  function PublishStart(id: string, node: string, hasCapability: bool): Task {
    if !hasCapability || id == "" || node == "" then Fail(InvalidArgument) else PublishCluster(id, node)
  }

  function UnpublishStart(id: string, node: string): Task {
    if id == "" then Fail(InvalidArgument) else UnpublishRead(id, node)
  }

  function ExpandStart(id: string, range: Option<CapacityRange>): Task {
    if id == "" then Fail(InvalidArgument) else ExpandRead(id, range)
  }

  function DeleteStart(id: string): Task {
    if id == "" then Fail(InvalidArgument) else DeleteCall(id)
  }
}
