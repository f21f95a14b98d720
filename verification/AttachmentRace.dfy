/**
 Why the orchestrator must serialise calls per volume: DetachVolume takes no node, so an unpublish that
 was delayed between its read and its detach takes the volume away from whoever holds it by then.
 */
module AttachmentRace {
  import opened CivoApi
  import opened Handlers
  import opened Interleaving
  import opened Serial
  import opened Attachment

  /** The cloud refuses what it must refuse. */
  ghost predicate LawfulEvent(s: System, e: Event) {
    Enabled(s, e) && Lawful(s, e)
  }

  ghost predicate Reaches(s: System, t: System) {
    Leads(s, t, LawfulEvent)
  }

  lemma Next(s0: System, s: System, e: Event)
    requires Reaches(s0, s) && LawfulEvent(s, e)
    ensures Reaches(s0, Apply(s, e))
  {
    Extends(s0, s, e, Apply(s, e), LawfulEvent);
  }

  /** A controller with one volume and these requests in flight. */
  function With(status: Status, instance: string, rpcs: map<nat, Rpc>): System {
    var v := Volume("vol", "pvc", 10, status, instance);
    System(Cloud(map["vol" := v], {"vol"}, 100, 10), map[], rpcs)
  }

  function VolumeIn(status: Status, instance: string): Volume {
    Volume("vol", "pvc", 10, status, instance)
  }

  // Each step below extends a run that started in s0.

  lemma Begins(s0: System, st: Status, n: string, rpcs: map<nat, Rpc>, req: nat, start: Start)
    requires Reaches(s0, With(st, n, rpcs))
    requires req !in rpcs && start.id == "vol" && (start.Publish? ==> start.node != "")
    ensures Reaches(s0, With(st, n, rpcs[req := Rpc(start, FirstTask(start))]))
  {
    Next(s0, With(st, n, rpcs), Begin(req, start));
  }

  lemma Reads(s0: System, st: Status, n: string, rpcs: map<nat, Rpc>, req: nat, task: Task)
    requires Reaches(s0, With(st, n, rpcs))
    requires req in rpcs && !rpcs[req].task.Finished? && Request(rpcs[req].task) == GetVolume("vol")
    requires task == Resume(rpcs[req].task, VolumeIs(VolumeIn(st, n)))
    ensures Reaches(s0, With(st, n, rpcs[req := rpcs[req].(task := task)]))
  {
    var s := With(st, n, rpcs);
    var e := RpcStep(req, Choice(VolumeIs(VolumeIn(st, n)), false, "", Available));
    assert Answers(s.cloud, GetVolume("vol"), e.ch);
    Next(s0, s, e);
  }

  lemma FindsNode(s0: System, st: Status, n: string, rpcs: map<nat, Rpc>, req: nat, node: string)
    requires Reaches(s0, With(st, n, rpcs))
    requires req in rpcs && rpcs[req].task == PublishCluster("vol", node)
    ensures Reaches(s0, With(st, n, rpcs[req := rpcs[req].(task := PublishRead("vol", node))]))
  {
    Next(s0, With(st, n, rpcs), RpcStep(req, Choice(Instances([node]), false, "", Available)));
  }

  lemma Detaches(s0: System, st: Status, n: string, rpcs: map<nat, Rpc>, req: nat, node: string)
    requires Reaches(s0, With(st, n, rpcs))
    requires req in rpcs && rpcs[req].task == UnpublishDetach("vol", node) && n != ""
    ensures Reaches(s0, With(Detaching, n, rpcs[req := rpcs[req].(task := UnpublishReread("vol", node))]))
  {
    var s, e := With(st, n, rpcs), RpcStep(req, Choice(Accepted, true, "", Available));
    assert Apply(s, e).cloud.vols == map["vol" := VolumeIn(Detaching, n)];
    Next(s0, s, e);
  }

  lemma Attaches(s0: System, st: Status, n: string, rpcs: map<nat, Rpc>, req: nat, node: string)
    requires Reaches(s0, With(st, n, rpcs))
    requires req in rpcs && rpcs[req].task == PublishAttach("vol", node)
    ensures Reaches(s0, With(Attaching, node, rpcs[req := rpcs[req].(task := PublishReread("vol", node))]))
  {
    var s, e := With(st, n, rpcs), RpcStep(req, Choice(Accepted, true, "", Available));
    assert Apply(s, e).cloud.vols == map["vol" := VolumeIn(Attaching, node)];
    Next(s0, s, e);
  }

  lemma Moves(s0: System, st: Status, n: string, to: Volume, rpcs: map<nat, Rpc>)
    requires Reaches(s0, With(st, n, rpcs))
    requires Progresses(VolumeIn(st, n), to) && to == VolumeIn(to.status, to.instance)
    ensures Reaches(s0, With(to.status, to.instance, rpcs))
  {
    var s, e := With(st, n, rpcs), Async("vol", to);
    assert Apply(s, e).cloud.vols == map["vol" := to];
    Next(s0, s, e);
  }

  /** An unpublish from node a is delayed after its read, before its detach. */
  lemma Delayed(s0: System, rpcs: map<nat, Rpc>, req: nat)
    requires Reaches(s0, With(Attached, "a", rpcs)) && req !in rpcs
    ensures Reaches(s0, With(Attached, "a", rpcs[req := Rpc(Unpublish("vol", "a"), UnpublishDetach("vol", "a"))]))
  {
    var r := Rpc(Unpublish("vol", "a"), UnpublishRead("vol", "a"));
    Begins(s0, Attached, "a", rpcs, req, r.start);
    Reads(s0, Attached, "a", rpcs[req := r], req, UnpublishDetach("vol", "a"));
    assert rpcs[req := r][req := r.(task := UnpublishDetach("vol", "a"))]
        == rpcs[req := r.(task := UnpublishDetach("vol", "a"))];
  }

  const LATE := Rpc(Unpublish("vol", "a"), UnpublishDetach("vol", "a"))
  const LEFT := Rpc(Unpublish("vol", "a"), UnpublishReread("vol", "a"))
  const PUBLISHED := Rpc(Publish("vol", "b"), Finished(PublishOk))

  /** Two unpublishes from node a read the volume; the second one detaches it. */
  lemma LeavesFirstNode(s0: System)
    requires s0 == With(Attached, "a", map[])
    ensures Reaches(s0, With(Available, "", map[1 := LATE, 2 := LEFT]))
  {
    Stays(s0, LawfulEvent);
    Delayed(s0, map[], 1);
    Delayed(s0, map[1 := LATE], 2);
    Detaches(s0, Attached, "a", map[1 := LATE, 2 := LATE], 2, "a");
    assert map[1 := LATE, 2 := LATE][2 := LEFT] == map[1 := LATE, 2 := LEFT];
    Moves(s0, Detaching, "a", VolumeIn(Available, ""), map[1 := LATE, 2 := LEFT]);
  }

  /** A publish to node b finds its node. */
  lemma ReadsForSecondNode(s0: System, rpcs: map<nat, Rpc>)
    requires Reaches(s0, With(Available, "", rpcs)) && 3 !in rpcs
    ensures Reaches(s0, With(Available, "", rpcs[3 := Rpc(Publish("vol", "b"), PublishRead("vol", "b"))]))
  {
    var r := Rpc(Publish("vol", "b"), PublishCluster("vol", "b"));
    var reading := r.(task := PublishRead("vol", "b"));
    Begins(s0, Available, "", rpcs, 3, r.start);
    FindsNode(s0, Available, "", rpcs[3 := r], 3, "b");
    assert rpcs[3 := r][3 := reading] == rpcs[3 := reading];
  }

  /** It then finds the volume free and requests the attach. */
  lemma RequestsSecondNode(s0: System, rpcs: map<nat, Rpc>)
    requires Reaches(s0, With(Available, "", rpcs)) && 3 !in rpcs
    ensures Reaches(s0, With(Available, "", rpcs[3 := Rpc(Publish("vol", "b"), PublishAttach("vol", "b"))]))
  {
    var r := Rpc(Publish("vol", "b"), PublishRead("vol", "b"));
    var asking := r.(task := PublishAttach("vol", "b"));
    ReadsForSecondNode(s0, rpcs);
    Reads(s0, Available, "", rpcs[3 := r], 3, PublishAttach("vol", "b"));
    assert rpcs[3 := r][3 := asking] == rpcs[3 := asking];
  }

  /** The attach completes and the publish succeeds. */
  lemma PublishedToSecondNode(s0: System, rpcs: map<nat, Rpc>)
    requires Reaches(s0, With(Available, "", rpcs[3 := Rpc(Publish("vol", "b"), PublishAttach("vol", "b"))]))
    ensures Reaches(s0, With(Attached, "b", rpcs[3 := PUBLISHED]))
  {
    var r := Rpc(Publish("vol", "b"), PublishAttach("vol", "b"));
    var waiting := rpcs[3 := r.(task := PublishReread("vol", "b"))];
    Attaches(s0, Available, "", rpcs[3 := r], 3, "b");
    assert rpcs[3 := r][3 := r.(task := PublishReread("vol", "b"))] == waiting;
    Confirms(s0, rpcs, waiting);
  }

  lemma Confirms(s0: System, rpcs: map<nat, Rpc>, waiting: map<nat, Rpc>)
    requires waiting == rpcs[3 := Rpc(Publish("vol", "b"), PublishReread("vol", "b"))]
    requires Reaches(s0, With(Attaching, "b", waiting))
    ensures Reaches(s0, With(Attached, "b", rpcs[3 := PUBLISHED]))
  {
    Moves(s0, Attaching, "b", VolumeIn(Attached, "b"), waiting);
    Reads(s0, Attached, "b", waiting, 3, Finished(PublishOk));
    assert waiting[3 := PUBLISHED] == rpcs[3 := PUBLISHED];
  }

  /**
   Without serialisation the stability theorem fails: from a sound state, a run reaches a successful
   publish to node b after which the delayed unpublish from node a detaches the volume, although no
   unpublish from b ever begins and the cloud refuses everything it must refuse.
   */
  lemma StabilityNeedsSerialisation() returns (s: System, mid: System, e: Event)
    ensures Inv(s) && Leads(s, mid, LawfulEvent)
    ensures 3 in mid.rpcs && mid.rpcs[3].start == Publish("vol", "b") && mid.rpcs[3].task == Finished(PublishOk)
    ensures Held(mid, "vol", "b") && Enabled(mid, e) && KeptPublished(mid, [e], "vol", "b")
    ensures !Held(Apply(mid, e), "vol", "b")
  {
    s := With(Attached, "a", map[]);
    var left := map[1 := LATE, 2 := LEFT];
    mid := With(Attached, "b", left[3 := PUBLISHED]);
    LeavesFirstNode(s);
    RequestsSecondNode(s, left);
    PublishedToSecondNode(s, left);
    e := LateDetach(left[3 := PUBLISHED]);
  }

  lemma LateDetach(rpcs: map<nat, Rpc>) returns (e: Event)
    requires 1 in rpcs && rpcs[1] == LATE
    ensures var mid := With(Attached, "b", rpcs);
            Enabled(mid, e) && KeptPublished(mid, [e], "vol", "b") && !Held(Apply(mid, e), "vol", "b")
  {
    e := RpcStep(1, Choice(Accepted, true, "", Available));
    var mid := With(Attached, "b", rpcs);
    assert Lawful(mid, e);
    assert [e][1..] == [];
    assert KeptPublished(Apply(mid, e), [], "vol", "b");
  }
}
