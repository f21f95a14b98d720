/** Offline expansion: sizes never shrink, success covers the request, retries resize only once. */
module Expansion {
  import opened Wrappers
  import opened Sizes
  import opened CivoApi
  import opened Handlers
  import opened Interleaving
  import opened Serial

  /** No volume of c that is still there is smaller. */
  ghost predicate Grown(c: Cloud, c': Cloud) {
    && c.issued <= c'.issued
    && forall id :: id in c'.vols && id in c.issued ==>
         id in c.vols && c.vols[id].sizeGB <= c'.vols[id].sizeGB
  }

  /** No volume of c that is still there is heading for a smaller size. */
  ghost predicate TargetsGrown(c: Cloud, c': Cloud) {
    forall id :: id in c'.vols && id in c.vols ==> Target(c.vols[id]) <= Target(c'.vols[id])
  }

  /** The event is not a detach that takes effect on a volume that is being resized. */
  ghost predicate SparesResizes(s: System, e: Event)
    requires Enabled(s, e)
  {
    Applies(e) && CallOf(s, e).value.DetachVolume? ==> !s.cloud.vols[CallOf(s, e).value.id].status.Resizing?
  }

  ghost predicate SparingRun(s: System, es: seq<Event>)
    decreases |es|
  {
    es != [] && Enabled(s, es[0]) ==> SparesResizes(s, es[0]) && SparingRun(Apply(s, es[0]), es[1..])
  }

  lemma CallGrows(c: Cloud, r: Rpc, ch: Choice)
    requires OwnCall(c, r, ch)
    ensures Grown(c, Perform(c, Request(r.task), ch))
    ensures TargetsGrown(c, Perform(c, Request(r.task), ch))
            <==> !(ch.applied && Request(r.task).DetachVolume? && c.vols[Request(r.task).id].status.Resizing?)
  {
    match r.start
    case Publish(_, _) =>
    case Unpublish(_, _) => DetachGrows(c, r, ch);
    case Expand(_, _) =>
    case Delete(_) =>
  }

  lemma DetachGrows(c: Cloud, r: Rpc, ch: Choice)
    requires OwnCall(c, r, ch) && r.start.Unpublish?
    ensures Grown(c, Perform(c, Request(r.task), ch))
    ensures TargetsGrown(c, Perform(c, Request(r.task), ch))
            <==> !(ch.applied && Request(r.task).DetachVolume? && c.vols[Request(r.task).id].status.Resizing?)
  {
    var call := Request(r.task);
    var c' := Perform(c, call, ch);
    if ch.applied && call.DetachVolume? {
      var v := c.vols[call.id];
      assert Target(c'.vols[call.id]) == v.sizeGB && Sane(v);
    } else {
      assert c' == c;
    }
  }

  /** A step shrinks no volume, and cuts a resize back exactly by detaching a volume that is being resized. */
  lemma StepGrows(s: System, e: Event)
    requires Inv(s) && Enabled(s, e) && Lawful(s, e)
    ensures Grown(s.cloud, Apply(s, e).cloud)
    ensures TargetsGrown(s.cloud, Apply(s, e).cloud) <==> SparesResizes(s, e)
  {
    match e
    case FlightStep(name, _) => assert CreatesFor(s.flights[name].task, name, s.flights[name].sizeGB);
    case RpcStep(req, ch) => CallGrows(s.cloud, s.rpcs[req], ch);
    case Async(id, to) => AsyncKeeps(s.cloud.vols[id], to, Finished(DeleteOk), Delete(id));
    case _ =>
  }

  /** Over every serialised run no volume shrinks. */
  lemma {:induction false} SizesNeverShrink(s: System, es: seq<Event>, t: System)
    requires Inv(s) && Run(s, es, t) && SerialRun(s, es)
    ensures Grown(s.cloud, t.cloud)
    decreases |es|
  {
    if es != [] {
      StepGrows(s, es[0]);
      StepKeepsInv(s, es[0]);
      SizesNeverShrink(Apply(s, es[0]), es[1..], t);
    }
  }

  /** Without such detaches no resize under way is cut back or undone either. */
  lemma {:induction false} TargetsNeverShrink(s: System, es: seq<Event>, t: System)
    requires Inv(s) && Run(s, es, t) && SerialRun(s, es) && SparingRun(s, es)
    ensures TargetsGrown(s.cloud, t.cloud)
    decreases |es|
  {
    if es != [] {
      var s' := Apply(s, es[0]);
      StepGrows(s, es[0]);
      StepKeepsInv(s, es[0]);
      SizesNeverShrink(s', es[1..], t);
      TargetsNeverShrink(s', es[1..], t);
      forall id | id in t.cloud.vols && id in s.cloud.vols
        ensures Target(s.cloud.vols[id]) <= Target(t.cloud.vols[id])
      {
        assert id in s'.cloud.issued && id in s'.cloud.vols;
      }
    }
  }

  // ---- Unpublishes that name their node ----

  ghost predicate AllNamed(s: System) {
    forall r :: r in s.rpcs && s.rpcs[r].start.Unpublish? ==> s.rpcs[r].start.node != ""
  }

  predicate BeginsNamed(e: Event) {
    e.Begin? && e.start.Unpublish? ==> e.start.node != ""
  }

  lemma NamedStepSpares(s: System, e: Event)
    requires Inv(s) && Enabled(s, e) && AllNamed(s) && BeginsNamed(e)
    ensures SparesResizes(s, e) && AllNamed(Apply(s, e))
  {
    if e.RpcStep? {
      assert Serves(s.rpcs[e.req].task, s.rpcs[e.req].start) && Guarded(s.cloud, s.rpcs[e.req]);
    } else if e.FlightStep? {
      assert CreatesFor(s.flights[e.name].task, e.name, s.flights[e.name].sizeGB);
    }
  }

  /** When every unpublish names its node, the hypothesis on detaches holds by itself. */
  lemma {:induction false} NamedRunSpares(s: System, es: seq<Event>, t: System)
    requires Inv(s) && Run(s, es, t) && SerialRun(s, es) && AllNamed(s) && forall e :: e in es ==> BeginsNamed(e)
    ensures SparingRun(s, es)
    decreases |es|
  {
    if es != [] {
      assert es[0] in es;
      NamedStepSpares(s, es[0]);
      StepKeepsInv(s, es[0]);
      NamedRunSpares(Apply(s, es[0]), es[1..], t);
    }
  }

  // ---- Success covers the request ----

  /**
   A size that covers the desired one is reported as bytes that cover the request if its product fits
   int64, and for sizes below 2^34 GB, where the product wraps at most once, only then.
   */
  lemma SizeCoversBytes(bytes: int, size: int)
    requires DesiredGB(bytes) <= size
    ensures IsInt64(size * GB) ==> bytes <= CapacityBytes(size)
    ensures bytes >= 0 && size < TWO_34 ==> (bytes <= CapacityBytes(size) <==> IsInt64(size * GB))
  {
    if bytes >= 0 {
      DesiredIsCeiling(bytes, DesiredGB(bytes));
    } else {
      NegativeRequestOvershoots(bytes);
    }
    assert DesiredGB(bytes) * GB <= size * GB;
    if TWO_33 <= size < TWO_34 {
      CapacityWraps(size);
      assert (size + TWO_33) % TWO_34 == size - TWO_33;
    }
  }

  /** What the invariant knows of a successful expand. */
  lemma ReportIsCurrent(s: System, req: nat)
    requires Inv(s) && req in s.rpcs && s.rpcs[req].start.Expand?
    requires s.rpcs[req].task.Finished? && s.rpcs[req].task.outcome.ExpandOk?
    ensures var start, reported := s.rpcs[req].start, s.rpcs[req].task.outcome.bytes;
            && start.range.Some? && start.id in s.cloud.vols
            && DesiredGB(GetVolSizeInBytes(start.range)) <= s.cloud.vols[start.id].sizeGB
            && reported == CapacityBytes(s.cloud.vols[start.id].sizeGB)
  {
    assert Guarded(s.cloud, s.rpcs[req]);
    assert Fits(s.cloud.vols[s.rpcs[req].start.id], s.rpcs[req].task, s.rpcs[req].start);
  }

  /**
   A successful expand of a serialised run reports, as an int64, the size its volume has, which is the
   requested one or more: at least the requested bytes exactly when that size in bytes fits int64.
   */
  lemma SuccessCoversRequest(s0: System, es: seq<Event>, s: System, req: nat)
    requires Inv(s0) && Run(s0, es, s) && SerialRun(s0, es)
    requires req in s.rpcs && s.rpcs[req].start.Expand?
    requires s.rpcs[req].task.Finished? && s.rpcs[req].task.outcome.ExpandOk?
    ensures var start, reported := s.rpcs[req].start, s.rpcs[req].task.outcome.bytes;
            && start.range.Some? && start.id in s.cloud.vols
            && var bytes, size := GetVolSizeInBytes(start.range), s.cloud.vols[start.id].sizeGB;
               && DesiredGB(bytes) <= size && reported == CapacityBytes(size)
               && (IsInt64(size * GB) ==> bytes <= reported)
               && (bytes >= 0 && size < TWO_34 ==> (bytes <= reported <==> IsInt64(size * GB)))
  {
    SerialRunKeepsInv(s0, es, s);
    var start := s.rpcs[req].start;
    ReportIsCurrent(s, req);
    SizeCoversBytes(GetVolSizeInBytes(start.range), s.cloud.vols[start.id].sizeGB);
  }

  // ---- An expand to a reached size succeeds ----

  /** The expand has just begun, or has answered with the capacity of the size its volume already has. */
  ghost predicate AlreadyThere(s: System, req: nat, id: string, range: CapacityRange, size: int) {
    && req in s.rpcs && s.rpcs[req].start == Expand(id, Some(range))
    && s.rpcs[req].task in {ExpandRead(id, Some(range)), Finished(ExpandOk(CapacityBytes(size)))}
    && id in s.cloud.vols && !s.cloud.vols[id].status.Resizing? && s.cloud.vols[id].sizeGB == size
    && DesiredGB(GetVolSizeInBytes(Some(range))) <= size
  }

  /** The request is neither ended nor lost, and none of its calls fails. */
  predicate Undisturbed(e: Event, req: nat) {
    && !e.Restart? && !(e.RpcEnd? && e.req == req)
    && (e.RpcStep? && e.req == req ==> !e.ch.reply.Failed?)
  }

  /** The read of the expand decides it; nothing else happens to the volume meanwhile. */
  lemma OwnStepStaysThere(s: System, req: nat, ch: Choice, id: string, range: CapacityRange, size: int)
    requires WellFormed(s.cloud) && AlreadyThere(s, req, id, range, size)
    requires Enabled(s, RpcStep(req, ch)) && !ch.reply.Failed?
    ensures AlreadyThere(Apply(s, RpcStep(req, ch)), req, id, range, size)
  {
    assert s.rpcs[req].task == ExpandRead(id, Some(range)) && ch.reply == VolumeIs(s.cloud.vols[id]);
  }

  /** The volume and the request are untouched. */
  lemma UntouchedStaysThere(s: System, t: System, req: nat, id: string, range: CapacityRange, size: int)
    requires AlreadyThere(s, req, id, range, size) && req in t.rpcs && t.rpcs[req] == s.rpcs[req]
    requires id in t.cloud.vols && t.cloud.vols[id].sizeGB == size && !t.cloud.vols[id].status.Resizing?
    ensures AlreadyThere(t, req, id, range, size)
  {
  }

  lemma OtherStepStaysThere(s: System, other: nat, ch: Choice, req: nat, id: string, range: CapacityRange, size: int)
    requires Inv(s) && Enabled(s, RpcStep(other, ch)) && other != req && AlreadyThere(s, req, id, range, size)
    ensures AlreadyThere(Apply(s, RpcStep(other, ch)), req, id, range, size)
  {
    var r := s.rpcs[other];
    assert Serves(r.task, r.start) && r.start.id != id;
    CallNames(r);
    OthersUntouched(s.cloud, Request(r.task), ch, id);
    UntouchedStaysThere(s, Apply(s, RpcStep(other, ch)), req, id, range, size);
  }

  lemma FlightStepStaysThere(s: System, name: string, ch: Choice, req: nat, id: string, range: CapacityRange, size: int)
    requires Inv(s) && Enabled(s, FlightStep(name, ch)) && AlreadyThere(s, req, id, range, size)
    ensures AlreadyThere(Apply(s, FlightStep(name, ch)), req, id, range, size)
  {
    assert CreatesFor(s.flights[name].task, name, s.flights[name].sizeGB);
    OthersUntouched(s.cloud, Request(s.flights[name].task), ch, id);
    UntouchedStaysThere(s, Apply(s, FlightStep(name, ch)), req, id, range, size);
  }

  lemma QuietStaysThere(s: System, e: Event, req: nat, id: string, range: CapacityRange, size: int)
    requires Enabled(s, e) && AlreadyThere(s, req, id, range, size) && Undisturbed(e, req)
    requires e.Join? || e.FlightEnd? || e.Begin? || e.RpcEnd? || e.Async?
    ensures AlreadyThere(Apply(s, e), req, id, range, size)
  {
    UntouchedStaysThere(s, Apply(s, e), req, id, range, size);
  }

  lemma StaysThere(s: System, e: Event, req: nat, id: string, range: CapacityRange, size: int)
    requires Inv(s) && Enabled(s, e) && Undisturbed(e, req) && AlreadyThere(s, req, id, range, size)
    ensures AlreadyThere(Apply(s, e), req, id, range, size)
  {
    if e.RpcStep? {
      if e.req == req {
        OwnStepStaysThere(s, req, e.ch, id, range, size);
      } else {
        OtherStepStaysThere(s, e.req, e.ch, req, id, range, size);
      }
    } else if e.FlightStep? {
      FlightStepStaysThere(s, e.name, e.ch, req, id, range, size);
    } else {
      QuietStaysThere(s, e, req, id, range, size);
    }
  }

  /**
   In every serialised run, an expand of a volume that is not resizing and has the requested size can only end
   in success with that size's capacity, unless one of its calls fails.
   */
  lemma {:induction false} ReachedExpandSucceeds(s: System, es: seq<Event>, t: System, req: nat, id: string,
                                                 range: CapacityRange, size: int)
    requires Inv(s) && Run(s, es, t) && SerialRun(s, es) && AlreadyThere(s, req, id, range, size)
    requires forall e :: e in es ==> Undisturbed(e, req)
    ensures req in t.rpcs
    ensures t.rpcs[req].task.Finished? ==> t.rpcs[req].task.outcome == ExpandOk(CapacityBytes(size))
    decreases |es|
  {
    if es != [] {
      assert es[0] in es;
      StaysThere(s, es[0], req, id, range, size);
      StepKeepsInv(s, es[0]);
      ReachedExpandSucceeds(Apply(s, es[0]), es[1..], t, req, id, range, size);
    }
  }

  // ---- Retries ----

  ghost predicate ResizesUpTo(s: System, e: Event, id: string, size: int)
    requires Enabled(s, e)
  {
    CallOf(s, e).Some? && CallOf(s, e).value.ResizeVolume? && CallOf(s, e).value.id == id
    && CallOf(s, e).value.sizeGB <= size
  }

  ghost predicate NeverResizesUpTo(s: System, es: seq<Event>, id: string, size: int)
    decreases |es|
  {
    es != [] && Enabled(s, es[0]) ==>
      !ResizesUpTo(s, es[0], id, size) && NeverResizesUpTo(Apply(s, es[0]), es[1..], id, size)
  }

  /** The volume has or is being given the size, or was deleted for good. */
  ghost predicate Reached(c: Cloud, id: string, size: int) {
    id in c.issued && (id in c.vols ==> size <= Target(c.vols[id]))
  }

  lemma ReachedNotResized(s: System, e: Event, id: string, size: int)
    requires Inv(s) && Enabled(s, e) && Reached(s.cloud, id, size)
    ensures !ResizesUpTo(s, e, id, size) || id !in s.cloud.vols
  {
    if e.RpcStep? && Request(s.rpcs[e.req].task).ResizeVolume? {
      var r := s.rpcs[e.req];
      assert Serves(r.task, r.start) && Guarded(s.cloud, r);
    } else if e.FlightStep? {
      assert CreatesFor(s.flights[e.name].task, e.name, s.flights[e.name].sizeGB);
    }
  }

  lemma {:induction false} ReachedForGood(s: System, es: seq<Event>, t: System, id: string, size: int)
    requires Inv(s) && Run(s, es, t) && SerialRun(s, es) && SparingRun(s, es)
    requires Reached(s.cloud, id, size) && id in t.cloud.vols
    ensures NeverResizesUpTo(s, es, id, size)
    decreases |es|
  {
    if es != [] {
      SizesNeverShrink(s, es, t);
      ReachedNotResized(s, es[0], id, size);
      StepGrows(s, es[0]);
      StepKeepsInv(s, es[0]);
      ReachedForGood(Apply(s, es[0]), es[1..], t, id, size);
    }
  }

  /** A resize takes effect, in a run that keeps to the rules. */
  ghost predicate ResizeLands(s: System, e: Event, id: string, size: int) {
    Enabled(s, e) && Lawful(s, e) && Serialised(s, e) && Applies(e) && CallOf(s, e) == Some(ResizeVolume(id, size))
  }

  /**
   Idempotence: once a resize took effect, whatever its answer and whatever became of the call (a
   timeout, a restart), no retry of the expand, nor any expand of the volume to a size it covers,
   asks the cloud for a resize again. ExpansionRace.dfy shows why resizes must be spared.
   */
  lemma ExpandResizesOnce(s: System, e: Event, es: seq<Event>, t: System, id: string, size: int)
    requires Inv(s) && ResizeLands(s, e, id, size)
    requires Run(Apply(s, e), es, t) && SerialRun(Apply(s, e), es) && SparingRun(Apply(s, e), es)
    requires id in t.cloud.vols
    ensures NeverResizesUpTo(Apply(s, e), es, id, size) && size <= Target(t.cloud.vols[id])
  {
    var s' := Apply(s, e);
    StepKeepsInv(s, e);
    assert Reached(s'.cloud, id, size);
    ReachedForGood(s', es, t, id, size);
    SizesNeverShrink(s', es, t);
    TargetsNeverShrink(s', es, t);
  }

  /**
   The last read of ControllerExpandVolume ignores its error: exactly when that read fails, the call
   neither succeeds nor returns an error, it dereferences a nil volume.
   */
  lemma LastReadMustSucceed(t: Task, start: Start, r: Reply)
    requires Serves(t, start) && !t.Finished?
    ensures Resume(t, r) == Finished(Panicked) <==> t.ExpandFinal? && !r.VolumeIs?
  {
    match start
    case Publish(_, _) =>
    case Unpublish(_, _) =>
    case Expand(_, _) =>
    case Delete(_) =>
  }
}
