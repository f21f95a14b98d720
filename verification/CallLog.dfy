/**
 What each handler may call, in which order, and what its answers mean, said of the log of its API calls alone.
 Nothing here mentions how the handlers work.
 */
module CallLog {
  import opened Wrappers
  import opened Sizes
  import opened CivoApi
  import opened Handlers

  datatype Exchange = Exchange(call: Call, reply: Reply)

  function Last(x: seq<Exchange>): Exchange
    requires x != []
  {
    x[|x| - 1]
  }

  predicate ReadAvailable(x: Exchange, id: string) {
    x.call == GetVolume(id) && x.reply.VolumeIs? && x.reply.volume.status.Available?
  }

  /** A successful read of a volume that is not available. */
  predicate ReadBusy(x: Exchange, id: string) {
    x.call == GetVolume(id) && x.reply.VolumeIs? && !x.reply.volume.status.Available?
  }

  predicate FailedUpstream(x: Exchange, o: Outcome) {
    o == Error(Upstream(ErrorOf(x.reply)))
  }

  // ---- Waiting ----

  /** Reads of one volume, at most `retries`: only the last may be available, or fail, and it decides the result. */
  predicate PollLog(x: seq<Exchange>, id: string, retries: nat, err: Option<Failure>) {
    && 0 < |x| <= retries
    && (forall i :: 0 <= i < |x| - 1 ==> ReadBusy(x[i], id))
    && Last(x).call == GetVolume(id)
    && match err
       case None => ReadAvailable(Last(x), id)
       case Some(TimedOut) => ReadBusy(Last(x), id) && |x| == retries
       case Some(Upstream(e)) => !Last(x).reply.VolumeIs? && e == ErrorOf(Last(x).reply)
       case _ => false
  }

  /** A create that waits for a volume answers with it, or with why the wait failed. */
  predicate WaitLog(id: string, size: int, x: seq<Exchange>, o: Outcome) {
    || (o == CreateOk(id, CapacityBytes(size)) && PollLog(x, id, RETRIES, None))
    || (o.Error? && PollLog(x, id, RETRIES, Some(o.f)))
  }

  // ---- CreateVolume ----

  ghost predicate CreateLog(name: string, size: int, x: seq<Exchange>, o: Outcome) {
    && x != [] && x[0].call == ListVolumes
    && if !x[0].reply.Volumes? then |x| == 1 && FailedUpstream(x[0], o)
       else match FirstNamed(x[0].reply.list, name)
            case Some(v) =>
              if v.sizeGB == size then WaitLog(v.id, size, x[1..], o) else |x| == 1 && o == Error(AlreadyExists)
            case None => QuotaLog(name, size, x[1..], o)
  }

  ghost predicate QuotaLog(name: string, size: int, x: seq<Exchange>, o: Outcome) {
    && x != [] && x[0].call == GetQuota
    && if !x[0].reply.QuotaIs? then |x| == 1 && FailedUpstream(x[0], o)
       else if x[0].reply.quota.gbUsage + size > x[0].reply.quota.gbLimit then |x| == 1 && o == Error(OutOfRange)
       else if x[0].reply.quota.countUsage >= x[0].reply.quota.countLimit then |x| == 1 && o == Error(OutOfRange)
       else NewLog(name, size, x[1..], o)
  }

  ghost predicate NewLog(name: string, size: int, x: seq<Exchange>, o: Outcome) {
    && x != [] && x[0].call == NewVolume(name, size)
    && if x[0].reply.Created? then MadeLog(x[0].reply.id, size, x[1..], o)
       else if x[0].reply == Failed(DuplicateName) then RecoverLog(name, size, x[1..], o)
       else |x| == 1 && FailedUpstream(x[0], o)
  }

  predicate MadeLog(id: string, size: int, x: seq<Exchange>, o: Outcome) {
    && x != [] && x[0].call == GetVolume(id)
    && if x[0].reply.VolumeIs? then WaitLog(x[0].reply.volume.id, size, x[1..], o)
       else |x| == 1 && FailedUpstream(x[0], o)
  }

  /** After a duplicate-name reply: the volume of the name and size, once available, or else the original error. */
  ghost predicate RecoverLog(name: string, size: int, x: seq<Exchange>, o: Outcome) {
    && x != [] && x[0].call == ListVolumes
    && var v := if x[0].reply.Volumes? then FirstNamed(x[0].reply.list, name) else None;
       if v.Some? && v.value.sizeGB == size then
         || (o == CreateOk(v.value.id, CapacityBytes(size)) && PollLog(x[1..], v.value.id, RETRIES, None))
         || (o == Error(Upstream(DuplicateName)) && exists f :: PollLog(x[1..], v.value.id, RETRIES, Some(f)))
       else |x| == 1 && o == Error(Upstream(DuplicateName))
  }

  lemma WaitEndsAvailable(id: string, size: int, x: seq<Exchange>, o: Outcome)
    requires WaitLog(id, size, x, o)
    ensures x != [] && (o.CreateOk? <==> ReadAvailable(Last(x), id))
    ensures o.CreateOk? ==> o == CreateOk(id, CapacityBytes(size))
  {
  }

  /** A create succeeds only with a volume that its last call read as available. */
  lemma CreateSawAvailable(name: string, size: int, x: seq<Exchange>, o: Outcome)
    requires CreateLog(name, size, x, o) && o.CreateOk?
    ensures |x| > 1 && ReadAvailable(Last(x), o.id) && o.bytes == CapacityBytes(size)
  {
    assert Last(x) == Last(x[1..]);
    var v := FirstNamed(x[0].reply.list, name);
    if v.None? {
      MakingSawAvailable(name, size, x[1..], o);
    }
  }

  lemma MakingSawAvailable(name: string, size: int, x: seq<Exchange>, o: Outcome)
    requires QuotaLog(name, size, x, o) && o.CreateOk?
    ensures |x| > 1 && ReadAvailable(Last(x), o.id) && o.bytes == CapacityBytes(size)
  {
    var y := x[1..];
    assert NewLog(name, size, y, o) && |y| > 1 && Last(y) == Last(y[1..]);
    var z := y[1..];
    assert |z| > 1 && Last(z) == Last(z[1..]);
  }

  /** NewVolume is called at most once, for this name and size, on a listing without the name and a quota with room. */
  lemma NewVolumeNeedsRoom(name: string, size: int, x: seq<Exchange>, o: Outcome, i: nat)
    requires CreateLog(name, size, x, o) && i < |x| && x[i].call.NewVolume?
    ensures i == 2 && x[2].call == NewVolume(name, size)
    ensures x[0].reply.Volumes? && forall v :: v in x[0].reply.list ==> v.name != name
    ensures x[1].call == GetQuota && x[1].reply.QuotaIs?
    ensures var q := x[1].reply.quota; q.gbUsage + size <= q.gbLimit && q.countUsage < q.countLimit
  {
    assert x[0].reply.Volumes?;
    var y := x[1..];
    assert i > 0 && y[i - 1] == x[i];
    if FirstNamed(x[0].reply.list, name).None? {
      var z := y[1..];
      assert i > 1 && z[i - 2] == x[i];
      assert NewLog(name, size, z, o);
      if i > 2 {
        assert z[1..][i - 3] == x[i];
        NothingNewAfter(name, size, z[1..], o, i - 3);
      }
    }
  }

  lemma NothingNewAfter(name: string, size: int, x: seq<Exchange>, o: Outcome, i: nat)
    requires i < |x| && ((exists id :: MadeLog(id, size, x, o)) || RecoverLog(name, size, x, o))
    ensures !x[i].call.NewVolume?
  {
    if i > 0 {
      assert x[1..][i - 1] == x[i];
    }
  }

  // ---- ControllerPublishVolume ----

  predicate ListsNode(r: Reply, node: string) {
    r.Instances? && node in r.nodes
  }

  predicate ReadAttached(x: Exchange, id: string, node: string) {
    && x.call == GetVolume(id) && x.reply.VolumeIs?
    && x.reply.volume.status.Attached? && x.reply.volume.instance == node
  }

  predicate PublishLog(id: string, node: string, hasCapability: bool, x: seq<Exchange>, o: Outcome) {
    if !hasCapability || id == "" || node == "" then x == [] && o == Error(InvalidArgument)
    else
      && x != [] && x[0].call == GetCluster
      && if !ListsNode(x[0].reply, node)
         then |x| == 1 && o == Error(if x[0].reply.Instances? then NotFound else Internal)
         else AttachLog(id, node, x[1..], o)
  }

  /** The volume is free for the node, or already on its way to it. */
  predicate Claimable(v: Volume, node: string) {
    if v.instance == node then !v.status.Attached? else v.status.Available?
  }

  /** The last exchange alone decides the answer; the first read decides what is asked. */
  predicate AttachLog(id: string, node: string, x: seq<Exchange>, o: Outcome) {
    && 0 < |x| <= 3 && x[0].call == GetVolume(id)
    && (o == PublishOk <==> ReadAttached(Last(x), id, node))
    && (o == Error(Unavailable) <==>
          Last(x).call == GetVolume(id) && Last(x).reply.VolumeIs? && !ReadAttached(Last(x), id, node))
    && (o == PublishOk || o == Error(Unavailable) || FailedUpstream(Last(x), o))
    && (|x| > 1 <==> x[0].reply.VolumeIs? && Claimable(x[0].reply.volume, node))
    && (|x| > 1 ==>
          var v := x[0].reply.volume;
          if v.instance != node || v.status.Attaching?
          then x[1].call == AttachVolume(id, node) && (|x| > 2 <==> x[1].reply.Accepted?)
          else x[1].call == GetVolume(id) && |x| == 2)
    && (|x| > 2 ==> x[2].call == GetVolume(id))
  }

  /** An attach is requested only for this volume and node, after a listing of the cluster with the node. */
  lemma AttachFollowsListing(id: string, node: string, hasCapability: bool, x: seq<Exchange>, o: Outcome, i: nat)
    requires PublishLog(id, node, hasCapability, x, o) && i < |x| && x[i].call.AttachVolume?
    ensures i == 2 && x[i].call == AttachVolume(id, node) && x[0].call == GetCluster && ListsNode(x[0].reply, node)
  {
    if i > 0 {
      assert x[1..][i - 1] == x[i];
    }
  }

  /** A valid publish answers NotFound, after that one call, exactly when the cluster is listed without the node. */
  lemma MissingNodeExactly(id: string, node: string, x: seq<Exchange>, o: Outcome)
    requires id != "" && node != "" && PublishLog(id, node, true, x, o)
    ensures o == Error(NotFound) <==> x[0].reply.Instances? && node !in x[0].reply.nodes
    ensures o == Error(NotFound) ==> x == [x[0]] && x[0].call == GetCluster
  {
  }

  // ---- ControllerUnpublishVolume ----

  /** The volume is gone, free, or another instance's. */
  predicate ShowsReleased(r: Reply, node: string) {
    if r.VolumeIs? then r.volume.status.Available? || r.volume.instance != node
    else ErrorOf(r) in {VolumeNotFound, ZeroMatches}
  }

  predicate UnpublishLog(id: string, node: string, x: seq<Exchange>, o: Outcome) {
    if id == "" then x == [] && o == Error(InvalidArgument)
    else
      && 0 < |x| <= 3 && x[0].call == GetVolume(id)
      && (o == UnpublishOk <==>
            (|x| == 1 && ShowsReleased(x[0].reply, node)) || (|x| > 1 && ReadAvailable(Last(x), id)))
      && (o == Error(Unavailable) <==> |x| > 1 && ReadBusy(Last(x), id))
      && (o == UnpublishOk || o == Error(Unavailable) || FailedUpstream(Last(x), o))
      && (|x| > 1 <==> x[0].reply.VolumeIs? && !ShowsReleased(x[0].reply, node))
      && (|x| > 1 ==>
            if x[0].reply.volume.status.Detaching? then x[1].call == GetVolume(id) && |x| == 2
            else x[1].call == DetachVolume(id) && (|x| > 2 <==> x[1].reply.Accepted?))
      && (|x| > 2 ==> x[2].call == GetVolume(id))
  }

  /** Success is given only on a last read of the volume as gone, available or another instance's. */
  lemma UnpublishSawRelease(id: string, node: string, x: seq<Exchange>, o: Outcome)
    requires UnpublishLog(id, node, x, o) && o == UnpublishOk
    ensures x != [] && Last(x).call == GetVolume(id) && ShowsReleased(Last(x).reply, node)
  {
  }

  // ---- ControllerExpandVolume ----

  predicate ExpandLog(id: string, range: Option<CapacityRange>, x: seq<Exchange>, o: Outcome) {
    if id == "" then x == [] && o == Error(InvalidArgument)
    else
      && x != [] && x[0].call == GetVolume(id)
      && if !x[0].reply.VolumeIs? then |x| == 1 && o == Error(Internal)
         else if range.None? then |x| == 1 && o == Error(InvalidArgument)
         else SizedLog(id, DesiredGB(GetVolSizeInBytes(range)), x[0].reply.volume, x[1..], o)
  }

  predicate SizedLog(id: string, desired: int, v: Volume, x: seq<Exchange>, o: Outcome) {
    if v.status.Resizing? then x == [] && o == Error(Aborted)
    else if v.sizeGB >= desired then x == [] && o == ExpandOk(CapacityBytes(v.sizeGB))
    else if !v.status.Available? then x == [] && o == Error(FailedPrecondition)
    else
      && x != [] && x[0].call == ResizeVolume(id, desired)
      && if x[0].reply.Accepted? then ResizedLog(id, x[1..], o) else |x| == 1 && o == Error(Internal)
  }

  /** A resize is waited for with twice the retries; its size is read once more, without looking at the error. */
  predicate ResizedLog(id: string, x: seq<Exchange>, o: Outcome) {
    || (o.Error? && PollLog(x, id, 2 * RETRIES, Some(o.f)))
    || (|x| > 1 && PollLog(x[..|x| - 1], id, 2 * RETRIES, None) && Last(x).call == GetVolume(id)
        && o == if Last(x).reply.VolumeIs? then ExpandOk(CapacityBytes(Last(x).reply.volume.sizeGB)) else Panicked)
  }

  /**
   An expand whose first read shows a volume that is not resizing and holds the requested bytes succeeds with
   that volume's capacity, and asks for nothing.
   */
  lemma ReachedExpandAnswers(id: string, range: CapacityRange, x: seq<Exchange>, o: Outcome)
    requires id != "" && ExpandLog(id, Some(range), x, o) && x[0].reply.VolumeIs?
    requires var v := x[0].reply.volume;
             !v.status.Resizing? && 0 <= GetVolSizeInBytes(Some(range)) <= v.sizeGB * GB
    ensures x == [x[0]] && o == ExpandOk(CapacityBytes(x[0].reply.volume.sizeGB))
  {
    CeilingBelow(GetVolSizeInBytes(Some(range)), x[0].reply.volume.sizeGB);
  }

  /** A resize is requested at most once, for the desired size, of a volume read as available and smaller. */
  lemma ResizeIsNeeded(id: string, range: Option<CapacityRange>, x: seq<Exchange>, o: Outcome, i: nat)
    requires ExpandLog(id, range, x, o) && i < |x| && x[i].call.ResizeVolume?
    ensures i == 1 && range.Some? && x[1].call == ResizeVolume(id, DesiredGB(GetVolSizeInBytes(range)))
    ensures ReadAvailable(x[0], id) && x[0].reply.volume.sizeGB < DesiredGB(GetVolSizeInBytes(range))
  {
    if i > 0 {
      assert x[1..][i - 1] == x[i];
    }
  }

  // ---- DeleteVolume ----

  predicate DeleteLog(id: string, x: seq<Exchange>, o: Outcome) {
    if id == "" then x == [] && o == Error(InvalidArgument)
    else
      && |x| == 1 && x[0].call == DeleteVolume(id)
      && (o == DeleteOk <==> x[0].reply == Accepted || x[0].reply == Failed(VolumeNotFound))
      && (o == DeleteOk || FailedUpstream(x[0], o))
  }

  /** The first volume of the name is the one the lookup finds. */
  lemma {:induction false} FirstNamedIsFirst(list: seq<Volume>, name: string)
    ensures FirstNamed(list, name).Some? ==>
              exists k :: 0 <= k < |list| && list[k] == FirstNamed(list, name).value
                          && forall j :: 0 <= j < k ==> list[j].name != name
    decreases |list|
  {
    if list != [] && list[0].name != name {
      FirstNamedIsFirst(list[1..], name);
      if FirstNamed(list, name).Some? {
        var k :| 0 <= k < |list[1..]| && list[1..][k] == FirstNamed(list[1..], name).value
                 && forall j :: 0 <= j < k ==> list[1..][j].name != name;
        assert list[k + 1] == list[1..][k];
        assert forall j :: 0 < j < k + 1 ==> list[j] == list[1..][j - 1];
      }
    }
  }
}
