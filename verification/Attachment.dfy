/** Volumes are moved only on behalf of the node that holds them, and published volumes stay put. */
module Attachment {
  import opened CivoApi
  import opened Handlers
  import opened Interleaving
  import opened Serial

  // ---- When an attach or a detach is asked for ----

  /**
   AttachVolume is asked for exactly when the volume was read as available with another instance, or
   as attaching to the requested node. In particular an available volume that still carries the
   requested node's id is never attached.
   */
  lemma AttachDecision(v: Volume, id: string, node: string)
    ensures PublishDecide(v, id, node) == PublishAttach(id, node)
            <==> (v.status.Available? && v.instance != node) || (v.status.Attaching? && v.instance == node)
    ensures PublishDecide(v, id, node) == Finished(PublishOk) <==> v.status.Attached? && v.instance == node
  {
  }

  /**
   An unpublish without a node id never detaches a volume that some instance holds, but it does ask
   for a detach of a volume that nobody holds while that volume is being created or resized.
   */
  lemma UnpublishWithoutNode(v: Volume, id: string)
    requires Sane(v)
    ensures UnpublishDecide(v, id, "") == UnpublishDetach(id, "")
            <==> !HeldBySomeone(v) && !v.status.Available?
  {
  }

  /** No serialised run reaches an available volume that carries an instance's id. */
  lemma FreeHasNoInstance(s0: System, es: seq<Event>, s: System, id: string)
    requires Inv(s0) && Run(s0, es, s) && SerialRun(s0, es)
    requires id in s.cloud.vols && s.cloud.vols[id].status.Available?
    ensures s.cloud.vols[id].instance == ""
  {
    SerialRunKeepsInv(s0, es, s);
    assert Sane(s.cloud.vols[id]);
  }

  // ---- Movements are the holder's own ----

  /** Every attach finds the volume free or already the node's, every detach finds it the node's. */
  ghost predicate MovesOwn(s: System, e: Event)
    requires Enabled(s, e)
  {
    e.RpcStep? ==>
      var r := s.rpcs[e.req];
      var call := Request(r.task);
      && (call.AttachVolume? ==> r.start == Publish(call.id, call.node)
                                 && (call.id in s.cloud.vols ==> s.cloud.vols[call.id].instance in {"", call.node}))
      && (call.DetachVolume? ==> r.start.Unpublish? && r.start.id == call.id
                                 && (call.id in s.cloud.vols ==> s.cloud.vols[call.id].instance == r.start.node))
  }

  ghost predicate AlwaysMovesOwn(s: System, es: seq<Event>)
    decreases |es|
  {
    es != [] && Enabled(s, es[0]) ==> MovesOwn(s, es[0]) && AlwaysMovesOwn(Apply(s, es[0]), es[1..])
  }

  lemma InvMovesOwn(s: System, e: Event)
    requires Inv(s) && Enabled(s, e)
    ensures MovesOwn(s, e)
  {
    if e.RpcStep? {
      var r := s.rpcs[e.req];
      assert Serves(r.task, r.start) && Guarded(s.cloud, r);
    }
  }

  /** With one call per volume in flight, no call ever moves a volume that another node holds. */
  lemma {:induction false} NoForeignMovement(s: System, es: seq<Event>, t: System)
    requires Inv(s) && Run(s, es, t) && SerialRun(s, es)
    ensures AlwaysMovesOwn(s, es)
    decreases |es|
  {
    if es != [] {
      InvMovesOwn(s, es[0]);
      StepKeepsInv(s, es[0]);
      NoForeignMovement(Apply(s, es[0]), es[1..], t);
    }
  }

  // ---- A published volume stays attached ----

  ghost predicate Held(s: System, id: string, node: string) {
    id in s.cloud.vols && s.cloud.vols[id].status.Attached? && s.cloud.vols[id].instance == node
  }

  /** Calls on a volume attached to the node that can no longer move it. */
  predicate Harmless(t: Task, node: string) {
    match t
    case PublishAttach(_, _) => false
    case UnpublishRead(_, n) => n != node
    case UnpublishDetach(_, _) => false
    case _ => true
  }

  ghost predicate Settled(s: System, id: string, node: string) {
    && Typed(s) && WellFormed(s.cloud) && Held(s, id, node)
    && forall r :: r in s.rpcs && s.rpcs[r].start.id == id ==> Harmless(s.rpcs[r].task, node)
  }

  /** No unpublish of the volume from the node begins; the cloud refuses what it must refuse. */
  ghost predicate KeptPublished(s: System, es: seq<Event>, id: string, node: string)
    decreases |es|
  {
    es != [] && Enabled(s, es[0]) ==>
      && Lawful(s, es[0])
      && !(es[0].Begin? && es[0].start == Unpublish(id, node))
      && KeptPublished(Apply(s, es[0]), es[1..], id, node)
  }

  lemma HarmlessCall(c: Cloud, r: Rpc, ch: Choice, node: string)
    requires WellFormed(c) && Serves(r.task, r.start) && !r.task.Finished? && Harmless(r.task, node)
    requires r.start.id in c.vols && c.vols[r.start.id].status.Attached? && c.vols[r.start.id].instance == node
    requires var call := Request(r.task); Answers(c, call, ch) && (ch.applied ==> !Refuses(c, call))
    ensures Perform(c, Request(r.task), ch) == c
    ensures Harmless(Resume(r.task, ch.reply), node)
  {
    match r.start
    case Publish(_, _) =>
    case Unpublish(_, _) =>
    case Expand(_, _) =>
    case Delete(_) =>
  }

  lemma StaysSettled(s: System, e: Event, id: string, node: string)
    requires Settled(s, id, node) && Enabled(s, e) && Lawful(s, e)
    requires !(e.Begin? && e.start == Unpublish(id, node))
    ensures Settled(Apply(s, e), id, node)
  {
    TypedStep(s, e);
    WellFormedStep(s, e);
    if e.RpcStep? {
      var r := s.rpcs[e.req];
      CallNames(r);
      if r.start.id == id {
        HarmlessCall(s.cloud, r, e.ch, node);
      } else {
        OthersUntouched(s.cloud, Request(r.task), e.ch, id);
      }
    } else if e.FlightStep? {
      assert CreatesFor(s.flights[e.name].task, e.name, s.flights[e.name].sizeGB);
      OthersUntouched(s.cloud, Request(s.flights[e.name].task), e.ch, id);
    }
  }

  lemma {:induction false} SettledForGood(s: System, es: seq<Event>, t: System, id: string, node: string)
    requires Settled(s, id, node) && Run(s, es, t) && KeptPublished(s, es, id, node)
    ensures Held(t, id, node)
    decreases |es|
  {
    if es != [] {
      StaysSettled(s, es[0], id, node);
      SettledForGood(Apply(s, es[0]), es[1..], t, id, node);
    }
  }

  /**
   Once a publish succeeds in a serialised run, the volume stays attached to the node until an
   unpublish of it from that node begins, whatever else is called, restarted or retried meanwhile.
   Serialisation is needed only up to the success.
   */
  lemma PublishedStaysAttached(s0: System, before: seq<Event>, s: System, req: nat,
                               after: seq<Event>, t: System)
    requires Inv(s0) && Run(s0, before, s) && SerialRun(s0, before)
    requires req in s.rpcs && s.rpcs[req].start.Publish? && s.rpcs[req].task == Finished(PublishOk)
    requires var p := s.rpcs[req].start; Run(s, after, t) && KeptPublished(s, after, p.id, p.node)
    ensures Held(t, s.rpcs[req].start.id, s.rpcs[req].start.node)
  {
    SerialRunKeepsInv(s0, before, s);
    var p := s.rpcs[req].start;
    assert Guarded(s.cloud, s.rpcs[req]);
    assert Fits(s.cloud.vols[p.id], Finished(PublishOk), p);
    SettledForGood(s, after, t, p.id, p.node);
  }

  // ---- An unpublished volume stays released ----

  /** Nothing in flight is about to give the volume to the node. */
  ghost predicate Vacated(s: System, id: string, node: string) {
    && Typed(s) && WellFormed(s.cloud) && node != "" && ReleasedFrom(s.cloud, id, node)
    && forall r :: r in s.rpcs ==> s.rpcs[r].start != Publish(id, node)
  }

  predicate Unclaimed(es: seq<Event>, id: string, node: string) {
    forall e :: e in es ==> !(e.Begin? && e.start == Publish(id, node))
  }

  lemma StaysVacated(s: System, e: Event, id: string, node: string)
    requires Vacated(s, id, node) && Enabled(s, e) && !(e.Begin? && e.start == Publish(id, node))
    ensures Vacated(Apply(s, e), id, node)
  {
    TypedStep(s, e);
    WellFormedStep(s, e);
    if e.RpcStep? {
      var r := s.rpcs[e.req];
      assert Serves(r.task, r.start);
      StaysReleased(s.cloud, Request(r.task), e.ch, id, node);
    } else if e.FlightStep? {
      assert CreatesFor(s.flights[e.name].task, e.name, s.flights[e.name].sizeGB);
      StaysReleased(s.cloud, Request(s.flights[e.name].task), e.ch, id, node);
    }
  }

  lemma {:induction false} VacatedForGood(s: System, es: seq<Event>, t: System, id: string, node: string)
    requires Vacated(s, id, node) && Run(s, es, t) && Unclaimed(es, id, node)
    ensures ReleasedFrom(t.cloud, id, node)
    decreases |es|
  {
    if es != [] {
      assert es[0] in es;
      StaysVacated(s, es[0], id, node);
      VacatedForGood(Apply(s, es[0]), es[1..], t, id, node);
    }
  }

  /**
   Once an unpublish from a named node succeeds in a serialised run, the volume is gone or does not carry the
   node's id, and it stays so until a publish of it to that node begins, whatever else is called.
   */
  lemma UnpublishedStaysReleased(s0: System, before: seq<Event>, s: System, req: nat, after: seq<Event>, t: System)
    requires Inv(s0) && Run(s0, before, s) && SerialRun(s0, before)
    requires req in s.rpcs && s.rpcs[req].start.Unpublish? && s.rpcs[req].task == Finished(UnpublishOk)
    requires var u := s.rpcs[req].start; u.node != "" && Run(s, after, t) && Unclaimed(after, u.id, u.node)
    ensures ReleasedFrom(s.cloud, s.rpcs[req].start.id, s.rpcs[req].start.node)
    ensures ReleasedFrom(t.cloud, s.rpcs[req].start.id, s.rpcs[req].start.node)
  {
    SerialRunKeepsInv(s0, before, s);
    var u := s.rpcs[req].start;
    assert Guarded(s.cloud, s.rpcs[req]);
    VacatedForGood(s, after, t, u.id, u.node);
  }
}
