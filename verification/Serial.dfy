/**
 Runs in which the orchestrator keeps at most one publish, unpublish, expand or delete call in flight
 per volume (section "Concurrency" of the Container Storage Interface specification v1.6.0). Creates
 of any names, restarts and the cloud's own steps still interleave freely.
 */
module Serial {
  import opened Sizes
  import opened CivoApi
  import opened Handlers
  import opened Interleaving

  ghost predicate OneCallPerVolume(s: System) {
    forall q, r :: q in s.rpcs && r in s.rpcs && s.rpcs[q].start.id == s.rpcs[r].start.id ==> q == r
  }

  /** The calls the cloud turns down without effect. */
  predicate Refuses(c: Cloud, call: Call) {
    match call
    case DeleteVolume(id) => id in c.vols && c.vols[id].status.Attached?
    case ResizeVolume(id, _) => id in c.vols && c.vols[id].status.Attached?
    case _ => false
  }

  ghost predicate Lawful(s: System, e: Event)
    requires Enabled(s, e)
  {
    Applies(e) ==> !Refuses(s.cloud, CallOf(s, e).value)
  }

  ghost predicate Serialised(s: System, e: Event)
    requires Enabled(s, e)
  {
    e.Begin? ==> forall r :: r in s.rpcs ==> s.rpcs[r].start.id != e.start.id
  }

  ghost predicate SerialRun(s: System, es: seq<Event>)
    decreases |es|
  {
    es != [] && Enabled(s, es[0]) ==>
      Lawful(s, es[0]) && Serialised(s, es[0]) && SerialRun(Apply(s, es[0]), es[1..])
  }

  predicate HeldBySomeone(v: Volume) {
    v.status.Attaching? || v.status.Attached? || v.status.Detaching?
  }

  /** The size a volume has or is being given. */
  function Target(v: Volume): int {
    if v.status.Resizing? then v.status.toGB else v.sizeGB
  }

  predicate Sane(v: Volume) {
    && (v.instance != "" ==> HeldBySomeone(v))
    && (v.status.Attaching? || v.status.Attached? ==> v.instance != "")
    && (v.status.Resizing? ==> v.sizeGB < v.status.toGB)
  }

  ghost predicate CloudSane(c: Cloud) {
    forall id :: id in c.vols ==> Sane(c.vols[id])
  }

  /** What a call in flight may rely on about its volume, as long as the volume exists. */
  predicate Fits(v: Volume, t: Task, start: Start) {
    match t
    case PublishAttach(_, node) =>
      v.status.Available? || (v.instance == node && (v.status.Attaching? || v.status.Attached?))
    case UnpublishDetach(_, node) => v.instance == node && (node != "" ==> v.status.Attaching? || v.status.Attached?)
    case ExpandResize(_, size) => v.status.Available? && v.sizeGB < size
    case Poll(_, _, _, next) => next.ThenExpanded? ==> next.sizeGB <= Target(v)
    case ExpandFinal(_, size) => size <= v.sizeGB && !v.status.Resizing?
    case Finished(o) =>
      && (o.PublishOk? && start.Publish? ==> v.status.Attached? && v.instance == start.node)
      && (o.ExpandOk? && start.Expand? ==>
            && start.range.Some? && DesiredGB(GetVolSizeInBytes(start.range)) <= v.sizeGB
            && o.bytes == CapacityBytes(v.sizeGB) && !v.status.Resizing?)
    case _ => true
  }

  /** The tasks reached only after the volume was read: its id has been given out. */
  predicate HasRead(t: Task) {
    match t
    case PublishAttach(_, _) => true
    case UnpublishDetach(_, _) => true
    case ExpandResize(_, _) => true
    case Poll(_, _, _, _) => true
    case ExpandFinal(_, _) => true
    case Finished(o) => o.PublishOk? || o.ExpandOk?
    case _ => false
  }

  /** The volume is gone, or does not carry the node's id. */
  predicate ReleasedFrom(c: Cloud, id: string, node: string) {
    id in c.vols ==> c.vols[id].instance != node
  }

  ghost predicate Guarded(c: Cloud, r: Rpc) {
    && (r.task == Finished(UnpublishOk) && r.start.Unpublish? && r.start.node != "" ==>
          ReleasedFrom(c, r.start.id, r.start.node))
    && (HasRead(r.task) ==>
          r.start.id in c.issued && (r.start.id in c.vols ==> Fits(c.vols[r.start.id], r.task, r.start)))
    && (r.task.Finished? && (r.task.outcome.PublishOk? || r.task.outcome.ExpandOk?) ==> r.start.id in c.vols)
  }

  ghost predicate Inv(s: System) {
    && Typed(s) && WellFormed(s.cloud) && OneCallPerVolume(s) && CloudSane(s.cloud)
    && forall r :: r in s.rpcs ==> Guarded(s.cloud, s.rpcs[r])
  }

  /** A fresh controller over a sane cloud satisfies the invariant. */
  lemma FreshPodSane(c: Cloud)
    requires WellFormed(c) && CloudSane(c)
    ensures Inv(System(c, map[], map[]))
  {
  }

  // ---- One call of one request ----

  /** The step of a request, before it is known what kind of request it is. */
  ghost predicate OwnCall(c: Cloud, r: Rpc, ch: Choice) {
    && WellFormed(c) && CloudSane(c) && Guarded(c, r) && Serves(r.task, r.start) && !r.task.Finished?
    && Answers(c, Request(r.task), ch) && (ch.applied ==> !Refuses(c, Request(r.task)))
  }

  lemma PublishStep(c: Cloud, r: Rpc, ch: Choice)
    requires OwnCall(c, r, ch) && r.start.Publish? && r.start.node != ""
    ensures var c' := Perform(c, Request(r.task), ch);
            CloudSane(c') && Guarded(c', r.(task := Resume(r.task, ch.reply)))
  {
  }

  lemma UnpublishStep(c: Cloud, r: Rpc, ch: Choice)
    requires OwnCall(c, r, ch) && r.start.Unpublish?
    ensures var c' := Perform(c, Request(r.task), ch);
            CloudSane(c') && Guarded(c', r.(task := Resume(r.task, ch.reply)))
  {
  }

  lemma ExpandStep(c: Cloud, r: Rpc, ch: Choice)
    requires OwnCall(c, r, ch) && r.start.Expand?
    ensures var c' := Perform(c, Request(r.task), ch);
            CloudSane(c') && Guarded(c', r.(task := Resume(r.task, ch.reply)))
  {
  }

  /** A request's own step keeps what it relies on, and leaves a sane volume. */
  lemma OwnStep(c: Cloud, r: Rpc, ch: Choice)
    requires OwnCall(c, r, ch) && (r.start.Publish? ==> r.start.node != "")
    ensures var c' := Perform(c, Request(r.task), ch);
            CloudSane(c') && Guarded(c', r.(task := Resume(r.task, ch.reply)))
  {
    match r.start
    case Publish(_, _) => PublishStep(c, r, ch);
    case Unpublish(_, _) => UnpublishStep(c, r, ch);
    case Expand(_, _) => ExpandStep(c, r, ch);
    case Delete(_) =>
  }

  /** A call touches only the volume it names, and NewVolume only one that never existed. */
  lemma OthersUntouched(c: Cloud, call: Call, ch: Choice, id: string)
    requires WellFormed(c) && Answers(c, call, ch) && id in c.issued
    requires || call.NewVolume? || call.ListVolumes? || call.GetQuota? || call.GetVolume? || call.GetCluster?
             || call.id != id
    ensures var c' := Perform(c, call, ch);
            id in c'.issued && (id in c'.vols <==> id in c.vols) && (id in c.vols ==> c'.vols[id] == c.vols[id])
  {
  }

  /** The cloud's own steps keep what every request relies on. */
  lemma AsyncKeeps(v: Volume, w: Volume, t: Task, start: Start)
    requires Sane(v) && Progresses(v, w)
    ensures Sane(w) && v.sizeGB <= w.sizeGB && Target(w) == Target(v)
    ensures Fits(v, t, start) ==> Fits(w, t, start)
  {
  }

  /** Only an attach gives a volume to a node: a new volume has none, and the cloud's own steps only clear it. */
  lemma StaysReleased(c: Cloud, call: Call, ch: Choice, id: string, node: string)
    requires WellFormed(c) && Answers(c, call, ch) && node != "" && ReleasedFrom(c, id, node)
    requires !(call.AttachVolume? && call.id == id && call.node == node)
    ensures ReleasedFrom(Perform(c, call, ch), id, node)
  {
  }

  lemma GuardedElsewhere(c: Cloud, c': Cloud, r: Rpc)
    requires Guarded(c, r)
    requires forall node :: node != "" && ReleasedFrom(c, r.start.id, node) ==> ReleasedFrom(c', r.start.id, node)
    requires r.start.id in c.issued ==> r.start.id in c'.issued
    requires r.start.id in c.issued ==> (r.start.id in c'.vols <==> r.start.id in c.vols)
    requires r.start.id in c.vols && r.start.id in c'.vols ==>
               forall t :: Fits(c.vols[r.start.id], t, r.start) ==> Fits(c'.vols[r.start.id], t, r.start)
    ensures Guarded(c', r)
  {
  }

  lemma RpcStepKeepsInv(s: System, req: nat, ch: Choice)
    requires Inv(s) && Enabled(s, RpcStep(req, ch)) && Lawful(s, RpcStep(req, ch))
    ensures Inv(Apply(s, RpcStep(req, ch)))
  {
    var e := RpcStep(req, ch);
    var s' := Apply(s, e);
    var r := s.rpcs[req];
    TypedStep(s, e);
    WellFormedStep(s, e);
    OwnStep(s.cloud, r, ch);
    forall q | q in s'.rpcs
      ensures Guarded(s'.cloud, s'.rpcs[q])
    {
      if q != req {
        var other := s.rpcs[q];
        assert other.start.id != r.start.id;
        CallNames(r);
        forall node | node != "" && ReleasedFrom(s.cloud, other.start.id, node) {
          StaysReleased(s.cloud, Request(r.task), ch, other.start.id, node);
        }
        if other.start.id in s.cloud.issued {
          OthersUntouched(s.cloud, Request(r.task), ch, other.start.id);
        }
        GuardedElsewhere(s.cloud, s'.cloud, other);
      }
    }
  }

  /** A request's calls name its own volume. */
  lemma CallNames(r: Rpc)
    requires Serves(r.task, r.start) && !r.task.Finished?
    ensures var call := Request(r.task);
            call.GetCluster? || (!call.NewVolume? && !call.ListVolumes? && !call.GetQuota? && call.id == r.start.id)
  {
  }

  lemma FlightStepKeepsInv(s: System, name: string, ch: Choice)
    requires Inv(s) && Enabled(s, FlightStep(name, ch))
    ensures Inv(Apply(s, FlightStep(name, ch)))
  {
    var e := FlightStep(name, ch);
    var s' := Apply(s, e);
    var t := s.flights[name].task;
    TypedStep(s, e);
    WellFormedStep(s, e);
    assert CreatesFor(t, name, s.flights[name].sizeGB);
    forall q | q in s'.rpcs
      ensures Guarded(s'.cloud, s'.rpcs[q])
    {
      forall node | node != "" && ReleasedFrom(s.cloud, s.rpcs[q].start.id, node) {
        StaysReleased(s.cloud, Request(t), ch, s.rpcs[q].start.id, node);
      }
      if s.rpcs[q].start.id in s.cloud.issued {
        OthersUntouched(s.cloud, Request(t), ch, s.rpcs[q].start.id);
      }
      GuardedElsewhere(s.cloud, s'.cloud, s.rpcs[q]);
    }
  }

  lemma AsyncKeepsInv(s: System, id: string, to: Volume)
    requires Inv(s) && Enabled(s, Async(id, to))
    ensures Inv(Apply(s, Async(id, to)))
  {
    var e := Async(id, to);
    var s' := Apply(s, e);
    TypedStep(s, e);
    WellFormedStep(s, e);
    AsyncKeeps(s.cloud.vols[id], to, Finished(DeleteOk), Delete(id));
    forall q | q in s'.rpcs
      ensures Guarded(s'.cloud, s'.rpcs[q])
    {
      var r := s.rpcs[q];
      forall t {
        AsyncKeeps(s.cloud.vols[id], to, t, r.start);
      }
      GuardedElsewhere(s.cloud, s'.cloud, r);
    }
  }

  lemma StepKeepsInv(s: System, e: Event)
    requires Inv(s) && Enabled(s, e) && Lawful(s, e) && Serialised(s, e)
    ensures Inv(Apply(s, e))
  {
    match e
    case FlightStep(name, ch) => FlightStepKeepsInv(s, name, ch);
    case RpcStep(req, ch) => RpcStepKeepsInv(s, req, ch);
    case Async(id, to) => AsyncKeepsInv(s, id, to);
    case Begin(_, start) =>
      TypedStep(s, e);
      assert !FirstTask(start).Finished? && !HasRead(FirstTask(start));
    case _ => TypedStep(s, e);
  }

  lemma {:induction false} SerialRunKeepsInv(s: System, es: seq<Event>, t: System)
    requires Inv(s) && Run(s, es, t) && SerialRun(s, es)
    ensures Inv(t)
    decreases |es|
  {
    if es != [] {
      StepKeepsInv(s, es[0]);
      SerialRunKeepsInv(Apply(s, es[0]), es[1..], t);
    }
  }
}
