/**
 The controller's code, statement by statement, over a client whose answers are chosen by the
 environment. Every method is proved to perform exactly the run of its task in Handlers.dfy: the
 calls the client logged are the ones its task asks for, and the result is that task's outcome. The log of
 a whole invocation is moreover one that CallLog.dfy allows for its answer.
 */
module Controller {
  import opened Wrappers
  import opened Sizes
  import opened CivoApi
  import opened Handlers
  import opened CallLog
  import opened Traces

  ghost predicate Scripted(log: seq<Exchange>, answers: seq<Reply>) {
    forall i :: 0 <= i < |log| ==> log[i].reply == Answer(answers, i)
  }

  /** The n-th answer of the environment; past the end of the script every call fails. */
  function Answer(answers: seq<Reply>, n: nat): Reply {
    if n < |answers| then answers[n] else Failed(Unexpected)
  }

  /** The civogo client of one handler invocation: an unknown script of answers and the calls made. */
  class Client {
    const answers: seq<Reply>
    var log: seq<Exchange>
    ghost const start: Task
    ghost var tasks: seq<Task>
    ghost var task: Task

    ghost predicate Valid()
      reads this
    {
      && Visits(tasks, log) && tasks[0] == start && tasks[|log|] == task
      && Scripted(log, answers)
    }

    constructor (answers: seq<Reply>, ghost start: Task)
      ensures Valid() && log == [] && task == start == this.start && this.answers == answers
    {
      this.answers := answers;
      this.log := [];
      this.start := start;
      this.tasks := [start];
      this.task := start;
    }

    method Ask(call: Call) returns (r: Reply)
      requires Valid() && !task.Finished? && Request(task) == call
      modifies this
      ensures Valid() && task == Resume(old(task), r)
      ensures r == Answer(answers, |old(log)|) && log == old(log) + [Exchange(call, r)]
    {
      r := Answer(answers, |log|);
      VisitsOn(tasks, log, r);
      log := log + [Exchange(call, r)];
      task := Resume(task, r);
      tasks := tasks + [task];
    }

    method GetVolume(id: string) returns (v: Result<Volume, ApiError>)
      requires Valid() && !task.Finished? && Request(task) == Call.GetVolume(id)
      modifies this
      ensures Valid() && |log| == |old(log)| + 1
      ensures var r := Answer(answers, |old(log)|);
              task == Resume(old(task), r) && v == if r.VolumeIs? then Ok(r.volume) else Err(ErrorOf(r))
    {
      var r := Ask(Call.GetVolume(id));
      v := if r.VolumeIs? then Ok(r.volume) else Err(ErrorOf(r));
    }

    method ListVolumes() returns (vs: Result<seq<Volume>, ApiError>)
      requires Valid() && !task.Finished? && Request(task) == Call.ListVolumes
      modifies this
      ensures Valid()
      ensures var r := Answer(answers, |old(log)|);
              task == Resume(old(task), r) && vs == if r.Volumes? then Ok(r.list) else Err(ErrorOf(r))
    {
      var r := Ask(Call.ListVolumes);
      vs := if r.Volumes? then Ok(r.list) else Err(ErrorOf(r));
    }

    /** A call answered by an acknowledgement only. */
    method Act(call: Call) returns (err: Option<ApiError>)
      requires Valid() && !task.Finished? && Request(task) == call
      modifies this
      ensures Valid()
      ensures var r := Answer(answers, |old(log)|);
              task == Resume(old(task), r) && err == if r.Accepted? then None else Some(ErrorOf(r))
    {
      var r := Ask(call);
      err := if r.Accepted? then None else Some(ErrorOf(r));
    }
  }

  ghost predicate ReadsAvailable(r: Reply) {
    r.VolumeIs? && r.volume.status.Available?
  }

  /** Whether polling from the n-th answer with this many retries left ends with success. */
  ghost predicate SeenInTime(answers: seq<Reply>, n: nat, retries: nat)
    decreases retries
  {
    && retries > 0
    && (ReadsAvailable(Answer(answers, n))
        || (Answer(answers, n).VolumeIs? && SeenInTime(answers, n + 1, retries - 1)))
  }

  /** Success means: within the retries some read is available, and no read before it failed. */
  lemma {:induction false} SeenInTimeMeaning(answers: seq<Reply>, n: nat, retries: nat)
    ensures SeenInTime(answers, n, retries)
            <==> exists k: nat :: n <= k < n + retries && ReadsAvailable(Answer(answers, k))
                                  && forall j: nat :: n <= j < k ==> Answer(answers, j).VolumeIs?
    decreases retries
  {
    if retries > 0 {
      SeenInTimeMeaning(answers, n + 1, retries - 1);
    }
  }

  method PollOnce(d: Client, id: string, ghost polls: nat, ghost retries: nat, ghost next: Then)
    returns (v: Result<Volume, ApiError>)
    requires d.Valid() && polls < retries && d.task == Poll(id, polls, retries, next)
    modifies d
    ensures d.Valid() && |d.log| == |old(d.log)| + 1
    ensures v.Err? <==> !Answer(d.answers, |old(d.log)|).VolumeIs?
    ensures v.Ok? ==> Answer(d.answers, |old(d.log)|) == VolumeIs(v.value)
    ensures d.task == if v.Err? then PollFailed(next, Upstream(v.error))
                      else if v.value.status.Available? then PollSucceeded(id, next)
                      else if polls + 1 < retries then Poll(id, polls + 1, retries, next)
                      else PollFailed(next, TimedOut)
  {
    v := d.GetVolume(id);
  }

  /**
   waitForVolumeStatus for "available". It returns true exactly when an available volume is read
   within the retries and before any read fails; it reads at most `retries` times and never returns
   false without an error.
   */
  method WaitForVolumeStatus(d: Client, id: string, retries: nat, ghost next: Then)
    returns (ok: bool, err: Option<Failure>)
    requires d.Valid() && retries > 0 && d.task == Poll(id, 0, retries, next)
    modifies d
    ensures d.Valid()
    ensures ok != err.Some?
    ensures d.task == if ok then PollSucceeded(id, next) else PollFailed(next, err.value)
    ensures ok <==> SeenInTime(d.answers, |old(d.log)|, retries)
    ensures |d.log| <= |old(d.log)| + retries
  {
    ghost var from := |d.log|;
    for i := 0 to retries
      invariant d.Valid()
      invariant d.task == if i < retries then Poll(id, i, retries, next) else PollFailed(next, TimedOut)
      invariant |d.log| == from + i
      invariant SeenInTime(d.answers, from, retries) <==> SeenInTime(d.answers, from + i, retries - i)
    {
      var v := PollOnce(d, id, i, retries, next);
      if v.Err? {
        return false, Some(Upstream(v.error));
      }
      if v.value.status.Available? {
        return true, None;
      }
    }
    return false, Some(TimedOut);
  }

  datatype AccessMode =
    | SingleNodeWriter
    | SingleNodeSingleWriter
    | SingleNodeReaderOnly
    | UnsupportedMode

  datatype Capability = Capability(mode: AccessMode, block: bool)

  predicate Supported(c: Capability) {
    !c.mode.UnsupportedMode? && !c.block
  }

  /** CreateVolume up to the singleflight: Ok carries the size the flight is led with. */
  method ValidateCreate(name: string, capabilities: seq<Capability>, range: Option<CapacityRange>)
    returns (r: Result<int, Failure>)
    ensures r.Ok? <==> name != "" && capabilities != [] && forall c :: c in capabilities ==> Supported(c)
    ensures r == if r.Ok? then Ok(DesiredGB(GetVolSizeInBytes(range))) else Err(InvalidArgument)
  {
    if name == "" {
      return Err(InvalidArgument);
    }
    if |capabilities| == 0 {
      return Err(InvalidArgument);
    }
    for i := 0 to |capabilities|
      invariant forall j :: 0 <= j < i ==> Supported(capabilities[j])
    {
      assert capabilities[i] in capabilities;
      if capabilities[i].mode.UnsupportedMode? {
        return Err(InvalidArgument);
      }
      if capabilities[i].block {
        return Err(InvalidArgument);
      }
    }
    var size := ComputeDesiredSize(range);
    return Ok(size);
  }

  /** The response is Some on success; `err` is Some otherwise. */
  method ResolveExistingVolume(d: Client, v: Volume, name: string, desiredSize: int, ghost recovering: bool)
    returns (resp: Option<Outcome>, err: Option<Failure>)
    requires d.Valid() && d.task == AfterLookup(name, desiredSize, Some(v), recovering)
    modifies d
    ensures d.Valid() && (resp.None? <==> err.Some?)
    ensures d.task == if resp.Some? then Finished(resp.value)
                      else PollFailed(ThenResolved(name, desiredSize, recovering), err.value)
  {
    if v.sizeGB != desiredSize {
      return None, Some(AlreadyExists);
    }
    var available, waitErr := WaitForVolumeStatus(d, v.id, RETRIES, ThenResolved(name, desiredSize, recovering));
    if waitErr.Some? {
      return None, waitErr;
    }
    assert available;  // the source's "not available" answer below this point is never given
    return Some(CreateOk(v.id, CapacityBytes(v.sizeGB))), None;
  }

  method LookupExistingByName(d: Client, name: string, desiredSize: int, ghost recovering: bool)
    returns (resp: Option<Outcome>, found: bool, err: Option<Failure>)
    requires d.Valid()
    requires d.task == if recovering then CreateRecover(name, desiredSize) else CreateLookup(name, desiredSize)
    modifies d
    ensures d.Valid() && (resp.Some? <==> found && err.None?)
    ensures resp.Some? ==> d.task == Finished(resp.value)
    ensures err.Some? ==> d.task == PollFailed(ThenResolved(name, desiredSize, recovering), err.value)
    ensures !found && err.None? ==> d.task == AfterLookup(name, desiredSize, None, recovering)
    ensures var r := Answer(d.answers, |old(d.log)|);
            found <==> r.Volumes? && exists v :: v in r.list && v.name == name
  {
    var volumes := d.ListVolumes();
    if volumes.Err? {
      return None, false, Some(Upstream(volumes.error));
    }
    var list := volumes.value;
    for i := 0 to |list|
      invariant d.Valid() && d.task == AfterLookup(name, desiredSize, FirstNamed(list[i..], name), recovering)
      invariant forall j :: 0 <= j < i ==> list[j].name != name
    {
      assert list[i..][1..] == list[i + 1..];
      if list[i].name == name {
        resp, err := ResolveExistingVolume(d, list[i], name, desiredSize, recovering);
        return resp, true, err;
      }
    }
    return None, false, None;
  }

  /**
   createVolumeUnsynced. The log of the invocation fixes the answer; in particular success is given only for a
   volume that the last call read as available.
   */
  method CreateVolumeUnsynced(d: Client, name: string, desiredSize: int) returns (o: Outcome)
    requires d.Valid() && d.task == CreateLookup(name, desiredSize)
    modifies d
    ensures d.Valid() && d.task == Finished(o)
    ensures old(d.log) == [] ==> CreateLog(name, desiredSize, d.log, o)
    ensures old(d.log) == [] && o.CreateOk? ==>
              |d.log| > 1 && ReadAvailable(Last(d.log), o.id) && o.bytes == CapacityBytes(desiredSize)
  {
    ghost var whole := d.log == [];
    o := LookupOrCreate(d, name, desiredSize);
    if whole {
      CreateTrace(name, desiredSize, d.tasks, d.log, o);
      if o.CreateOk? {
        CreateSawAvailable(name, desiredSize, d.log, o);
      }
    }
  }

  /** The calls of createVolumeUnsynced. */
  method LookupOrCreate(d: Client, name: string, desiredSize: int) returns (o: Outcome)
    requires d.Valid() && d.task == CreateLookup(name, desiredSize)
    modifies d
    ensures d.Valid() && d.task == Finished(o)
  {
    var resp, found, err := LookupExistingByName(d, name, desiredSize, false);
    if err.Some? {
      return Error(err.value);
    } else if found {
      return resp.value;
    }

    var quota := d.Ask(GetQuota);
    if !quota.QuotaIs? {
      return Error(Upstream(ErrorOf(quota)));
    }
    var availableSize := quota.quota.gbLimit - quota.quota.gbUsage;
    if availableSize < desiredSize {
      return Error(OutOfRange);
    } else if quota.quota.countUsage >= quota.quota.countLimit {
      return Error(OutOfRange);
    }

    var result := d.Ask(NewVolume(name, desiredSize));
    if !result.Created? {
      var newErr := ErrorOf(result);
      if newErr == DuplicateName {
        var resp, found, lookupErr := LookupExistingByName(d, name, desiredSize, true);
        if lookupErr.Some? {
          // logged only; the original error is returned
        } else if found {
          return resp.value;
        }
      }
      return Error(Upstream(newErr));
    }

    o := AwaitCreated(d, result.id, name, desiredSize);
  }

  /** createVolumeUnsynced once NewVolume has answered. */
  method AwaitCreated(d: Client, id: string, ghost name: string, desiredSize: int) returns (o: Outcome)
    requires d.Valid() && d.task == CreateRead(name, desiredSize, id)
    modifies d
    ensures d.Valid() && d.task == Finished(o)
  {
    var volume := d.GetVolume(id);
    if volume.Err? {
      return Error(Upstream(volume.error));
    }
    var available, waitErr := WaitForVolumeStatus(d, volume.value.id, RETRIES, ThenCreated(name, desiredSize));
    if waitErr.Some? {
      return Error(waitErr.value);
    }
    assert available;
    return CreateOk(volume.value.id, CapacityBytes(desiredSize));
  }

  method DeleteVolume(d: Client, id: string) returns (o: Outcome)
    requires d.Valid() && d.task == DeleteStart(id)
    modifies d
    ensures d.Valid() && d.task == Finished(o)
    ensures old(d.log) == [] ==> DeleteLog(id, d.log, o)
  {
    ghost var whole := d.log == [];
    if id == "" {
      return Error(InvalidArgument);
    }
    o := RequestDelete(d, id);
    if whole {
      DeleteTrace(id, d.tasks, d.log, o);
    }
  }

  /** DeleteVolume once its request is valid. */
  method RequestDelete(d: Client, id: string) returns (o: Outcome)
    requires d.Valid() && d.task == DeleteCall(id)
    modifies d
    ensures d.Valid() && d.task == Finished(o)
  {
    var err := d.Act(Call.DeleteVolume(id));
    if err.Some? {
      if err.value == VolumeNotFound {
        return DeleteOk;
      }
      return Error(Upstream(err.value));
    }
    return DeleteOk;
  }

  method ControllerPublishVolume(d: Client, id: string, node: string, hasCapability: bool) returns (o: Outcome)
    requires d.Valid() && d.task == PublishStart(id, node, hasCapability)
    modifies d
    ensures d.Valid() && d.task == Finished(o)
    ensures old(d.log) == [] ==> PublishLog(id, node, hasCapability, d.log, o)
  {
    ghost var whole := d.log == [];
    if !hasCapability {
      return Error(InvalidArgument);
    }
    if id == "" {
      return Error(InvalidArgument);
    }
    if node == "" {
      return Error(InvalidArgument);
    }
    o := FindNodeAndAttach(d, id, node);
    if whole {
      PublishTrace(id, node, d.tasks, d.log, o);
    }
  }

  /** ControllerPublishVolume once its request is valid. */
  method FindNodeAndAttach(d: Client, id: string, node: string) returns (o: Outcome)
    requires d.Valid() && d.task == PublishCluster(id, node)
    modifies d
    ensures d.Valid() && d.task == Finished(o)
  {
    var cluster := d.Ask(GetCluster);
    if !cluster.Instances? {
      return Error(Internal);
    }
    var found := false;
    for i := 0 to |cluster.nodes|
      invariant found <==> node in cluster.nodes[..i]
    {
      if cluster.nodes[i] == node {
        found := true;
        break;
      }
    }
    if !found {
      return Error(NotFound);
    }
    o := AttachTo(d, id, node);
  }

  /** ControllerPublishVolume once the node is known to exist. */
  method AttachTo(d: Client, id: string, node: string) returns (o: Outcome)
    requires d.Valid() && d.task == PublishRead(id, node)
    modifies d
    ensures d.Valid() && d.task == Finished(o)
  {
    var volume := d.GetVolume(id);
    if volume.Err? {
      return Error(Upstream(volume.error));
    }
    if volume.value.instance == node && volume.value.status == Attached {
      return PublishOk;
    }
    if volume.value.status != Available && volume.value.instance != node {
      return Error(Unavailable);
    }
    if volume.value.instance == node && volume.value.status != Attaching {
      // nothing is requested
    } else {
      var err := d.Act(AttachVolume(id, node));
      if err.Some? {
        return Error(Upstream(err.value));
      }
    }
    o := ConfirmAttached(d, id, node);
  }

  /** The read after the wait that ends ControllerPublishVolume. */
  method ConfirmAttached(d: Client, id: string, node: string) returns (o: Outcome)
    requires d.Valid() && d.task == PublishReread(id, node)
    modifies d
    ensures d.Valid() && d.task == Finished(o)
  {
    var volume := d.GetVolume(id);
    if volume.Err? {
      return Error(Upstream(volume.error));
    }
    if volume.value.status != Attached {
      return Error(Unavailable);
    }
    if volume.value.instance != node {
      return Error(Unavailable);
    }
    return PublishOk;
  }

  method ControllerUnpublishVolume(d: Client, id: string, node: string) returns (o: Outcome)
    requires d.Valid() && d.task == UnpublishStart(id, node)
    modifies d
    ensures d.Valid() && d.task == Finished(o)
    ensures old(d.log) == [] ==> UnpublishLog(id, node, d.log, o)
  {
    ghost var whole := d.log == [];
    if id == "" {
      return Error(InvalidArgument);
    }
    o := DetachFrom(d, id, node);
    if whole {
      UnpublishTrace(id, node, d.tasks, d.log, o);
    }
  }

  /** ControllerUnpublishVolume once its request is valid. */
  method DetachFrom(d: Client, id: string, node: string) returns (o: Outcome)
    requires d.Valid() && d.task == UnpublishRead(id, node)
    modifies d
    ensures d.Valid() && d.task == Finished(o)
  {
    var volume := d.GetVolume(id);
    if volume.Err? {
      if volume.error == VolumeNotFound || volume.error == ZeroMatches {
        return UnpublishOk;
      }
      return Error(Upstream(volume.error));
    }
    if volume.value.status == Available {
      return UnpublishOk;
    }
    if volume.value.instance != node {
      return UnpublishOk;
    }
    if volume.value.status != Detaching {
      var err := d.Act(DetachVolume(id));
      if err.Some? {
        return Error(Upstream(err.value));
      }
    }
    o := ConfirmDetached(d, id, node);
  }

  /** The read after the wait that ends ControllerUnpublishVolume. */
  method ConfirmDetached(d: Client, id: string, ghost node: string) returns (o: Outcome)
    requires d.Valid() && d.task == UnpublishReread(id, node)
    modifies d
    ensures d.Valid() && d.task == Finished(o)
  {
    var volume := d.GetVolume(id);
    if volume.Err? {
      return Error(Upstream(volume.error));
    }
    if volume.value.status == Available {
      return UnpublishOk;
    }
    return Error(Unavailable);
  }

  method ControllerExpandVolume(d: Client, id: string, range: Option<CapacityRange>) returns (o: Outcome)
    requires d.Valid() && d.task == ExpandStart(id, range)
    modifies d
    ensures d.Valid() && d.task == Finished(o)
    ensures old(d.log) == [] ==> ExpandLog(id, range, d.log, o)
  {
    ghost var whole := d.log == [];
    if id == "" {
      return Error(InvalidArgument);
    }
    o := ExpandTo(d, id, range);
    if whole {
      ExpandTrace(id, range, d.tasks, d.log, o);
    }
  }

  /** ControllerExpandVolume once its request is valid. */
  method ExpandTo(d: Client, id: string, range: Option<CapacityRange>) returns (o: Outcome)
    requires d.Valid() && d.task == ExpandRead(id, range)
    modifies d
    ensures d.Valid() && d.task == Finished(o)
  {
    var volume := d.GetVolume(id);
    if volume.Err? {
      return Error(Internal);
    }
    if range.None? {
      return Error(InvalidArgument);
    }
    var desiredSize := ComputeDesiredSize(range);
    if volume.value.status.Resizing? {
      return Error(Aborted);
    }
    if desiredSize <= volume.value.sizeGB {
      return ExpandOk(CapacityBytes(volume.value.sizeGB));
    }
    if volume.value.status != Available {
      return Error(FailedPrecondition);
    }
    o := ResizeAndWait(d, id, desiredSize);
  }

  /** The second half of ControllerExpandVolume. */
  method ResizeAndWait(d: Client, id: string, desiredSize: int) returns (o: Outcome)
    requires d.Valid() && d.task == ExpandResize(id, desiredSize)
    modifies d
    ensures d.Valid() && d.task == Finished(o)
  {
    var err := d.Act(ResizeVolume(id, desiredSize));
    if err.Some? {
      return Error(Internal);
    }
    // the volume that was read has the id it was asked for
    var available, waitErr := WaitForVolumeStatus(d, id, RETRIES * 2, ThenExpanded(desiredSize));
    if waitErr.Some? {
      return Error(waitErr.value);
    }
    assert available;
    var volume := d.GetVolume(id);
    if volume.Err? {
      return Panicked;  // the error is ignored and the nil volume read
    }
    return ExpandOk(CapacityBytes(volume.value.sizeGB));
  }
}
