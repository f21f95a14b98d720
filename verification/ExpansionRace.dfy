/**
 Why a resize must be spared: DetachVolume is also requested for a volume that nobody holds, when an
 unpublish carries no node id, and takes it out of its resize.
 */
module ExpansionRace {
  import opened Wrappers
  import opened Sizes
  import opened CivoApi
  import opened Handlers
  import opened Interleaving
  import opened Serial
  import opened Expansion

  ghost predicate SerialEvent(s: System, e: Event) {
    Enabled(s, e) && Lawful(s, e) && Serialised(s, e)
  }

  ghost predicate Reaches(s: System, t: System) {
    Leads(s, t, SerialEvent)
  }

  lemma Next(s0: System, s: System, e: Event)
    requires Reaches(s0, s) && SerialEvent(s, e)
    ensures Reaches(s0, Apply(s, e))
  {
    Extends(s0, s, e, Apply(s, e), SerialEvent);
  }

  lemma {:induction false} SerialEventsAreSerial(s: System, es: seq<Event>)
    requires Always(s, es, SerialEvent)
    ensures SerialRun(s, es)
    decreases |es|
  {
    if es != [] && Enabled(s, es[0]) {
      SerialEventsAreSerial(Apply(s, es[0]), es[1..]);
    }
  }

  const RANGE := Some(CapacityRange(20 * GB, 0))
  const EXPAND := Expand("vol", RANGE)
  const LEAVE := Unpublish("vol", "")

  /** A controller with one volume of 10 GB that nobody holds, and at most one request in flight. */
  function With(status: Status, rpcs: map<nat, Rpc>): System {
    System(Cloud(map["vol" := VolumeIn(status)], {"vol"}, 100, 10), map[], rpcs)
  }

  function VolumeIn(status: Status): Volume {
    Volume("vol", "pvc", 10, status, "")
  }

  lemma Desired()
    ensures DesiredGB(GetVolSizeInBytes(RANGE)) == 20
  {
    DesiredIsCeiling(20 * GB, 20);
  }

  lemma Begins(s0: System, st: Status, start: Start)
    requires Reaches(s0, With(st, map[])) && start.id == "vol" && !start.Publish?
    ensures Reaches(s0, With(st, map[1 := Rpc(start, FirstTask(start))]))
  {
    var s, t := With(st, map[]), With(st, map[1 := Rpc(start, FirstTask(start))]);
    assert Apply(s, Begin(1, start)) == t;
    Next(s0, s, Begin(1, start));
  }

  lemma Ends(s0: System, st: Status, start: Start, task: Task)
    requires Reaches(s0, With(st, map[1 := Rpc(start, task)])) && task.Finished?
    ensures Reaches(s0, With(st, map[]))
  {
    var s := With(st, map[1 := Rpc(start, task)]);
    assert s.rpcs - {1} == map[];
    Next(s0, s, RpcEnd(1));
  }

  /** The request reads the volume, successfully or not. */
  lemma Reads(s0: System, st: Status, start: Start, task: Task, r: Reply)
    requires Reaches(s0, With(st, map[1 := Rpc(start, task)])) && !task.Finished?
    requires Request(task) == GetVolume("vol") && r in {VolumeIs(VolumeIn(st)), Reply.Failed(Unexpected)}
    ensures Reaches(s0, With(st, map[1 := Rpc(start, Resume(task, r))]))
  {
    var s := With(st, map[1 := Rpc(start, task)]);
    var e := RpcStep(1, Choice(r, false, "", Available));
    assert Answers(s.cloud, GetVolume("vol"), e.ch);
    assert Apply(s, e) == With(st, map[1 := Rpc(start, Resume(task, r))]);
    Next(s0, s, e);
  }

  lemma ReadsVolume(s0: System, st: Status, start: Start, task: Task, task': Task)
    requires Reaches(s0, With(st, map[1 := Rpc(start, task)])) && !task.Finished?
    requires Request(task) == GetVolume("vol") && task' == Resume(task, VolumeIs(VolumeIn(st)))
    ensures Reaches(s0, With(st, map[1 := Rpc(start, task')]))
  {
    Reads(s0, st, start, task, VolumeIs(VolumeIn(st)));
  }

  lemma Detaches(s0: System, st: Status)
    requires Reaches(s0, With(st, map[1 := Rpc(LEAVE, UnpublishDetach("vol", ""))]))
    ensures Reaches(s0, With(Detaching, map[1 := Rpc(LEAVE, UnpublishReread("vol", ""))]))
  {
    var s := With(st, map[1 := Rpc(LEAVE, UnpublishDetach("vol", ""))]);
    var e := RpcStep(1, Choice(Accepted, true, "", Available));
    assert Apply(s, e).cloud.vols == map["vol" := VolumeIn(Detaching)];
    assert Apply(s, e) == With(Detaching, map[1 := Rpc(LEAVE, UnpublishReread("vol", ""))]);
    Next(s0, s, e);
  }

  lemma Settles(s0: System, start: Start, task: Task)
    requires Reaches(s0, With(Detaching, map[1 := Rpc(start, task)]))
    ensures Reaches(s0, With(Available, map[1 := Rpc(start, task)]))
  {
    var s, e := With(Detaching, map[1 := Rpc(start, task)]), Async("vol", VolumeIn(Available));
    assert Apply(s, e).cloud.vols == map["vol" := VolumeIn(Available)];
    Next(s0, s, e);
  }

  const AFTER_RESIZE := Poll("vol", 0, 2 * RETRIES, ThenExpanded(20))

  /** The expand's first poll fails, so it answers with an error while the resize goes on. */
  lemma ExpandGivesUp(s0: System)
    requires Reaches(s0, With(Resizing(20), map[1 := Rpc(EXPAND, AFTER_RESIZE)]))
    ensures Reaches(s0, With(Resizing(20), map[]))
  {
    Reads(s0, Resizing(20), EXPAND, AFTER_RESIZE, Reply.Failed(Unexpected));
    Ends(s0, Resizing(20), EXPAND, Resume(AFTER_RESIZE, Reply.Failed(Unexpected)));
  }

  /** An unpublish without node id reads the volume as nobody's and requests a detach. */
  lemma UnpublishRequestsDetach(s0: System)
    requires Reaches(s0, With(Resizing(20), map[]))
    ensures Reaches(s0, With(Resizing(20), map[1 := Rpc(LEAVE, UnpublishDetach("vol", ""))]))
  {
    Begins(s0, Resizing(20), LEAVE);
    ReadsVolume(s0, Resizing(20), LEAVE, UnpublishRead("vol", ""), UnpublishDetach("vol", ""));
  }

  lemma UnpublishEnds(s0: System)
    requires Reaches(s0, With(Available, map[1 := Rpc(LEAVE, UnpublishReread("vol", ""))]))
    ensures Reaches(s0, With(Available, map[]))
  {
    ReadsVolume(s0, Available, LEAVE, UnpublishReread("vol", ""), Finished(UnpublishOk));
    Ends(s0, Available, LEAVE, Finished(UnpublishOk));
  }

  /** An unpublish without node id then detaches the volume, which is available again with its old size. */
  lemma UnpublishUndoesResize(s0: System)
    requires Reaches(s0, With(Resizing(20), map[]))
    ensures Reaches(s0, With(Available, map[]))
  {
    UnpublishRequestsDetach(s0);
    Detaches(s0, Resizing(20));
    Settles(s0, LEAVE, UnpublishReread("vol", ""));
    UnpublishEnds(s0);
  }

  /** The retried expand is about to resize as the first one was. */
  lemma ExpandIsRetried(s0: System)
    requires Reaches(s0, With(Available, map[]))
    ensures Reaches(s0, With(Available, map[1 := Rpc(EXPAND, ExpandResize("vol", 20))]))
  {
    Desired();
    Begins(s0, Available, EXPAND);
    ReadsVolume(s0, Available, EXPAND, ExpandRead("vol", RANGE), ExpandResize("vol", 20));
  }

  lemma AboutToResize() returns (s: System, e: Event)
    ensures s == With(Available, map[1 := Rpc(EXPAND, ExpandResize("vol", 20))])
    ensures Inv(s) && ResizeLands(s, e, "vol", 20)
    ensures Apply(s, e) == With(Resizing(20), map[1 := Rpc(EXPAND, AFTER_RESIZE)])
  {
    s := With(Available, map[1 := Rpc(EXPAND, ExpandResize("vol", 20))]);
    e := RpcStep(1, Choice(Accepted, true, "", Available));
    Desired();
    assert Serves(ExpandResize("vol", 20), EXPAND);
    assert Apply(s, e).cloud.vols == map["vol" := VolumeIn(Resizing(20))];
  }

  /**
   A serialised run in which a resize takes effect, an unpublish without node id undoes it, and the
   retried expand stands where the first one stood: the same resize takes effect again, any number
   of times. The cloud refuses everything it must refuse.
   */
  lemma ResizeIsUndone() returns (s: System, e: Event, es: seq<Event>)
    ensures Inv(s) && ResizeLands(s, e, "vol", 20)
    ensures Run(Apply(s, e), es, s) && SerialRun(Apply(s, e), es)
    ensures s.cloud.vols["vol"].sizeGB == 10
  {
    s, e := AboutToResize();
    var s' := Apply(s, e);
    Stays(s', SerialEvent);
    ExpandGivesUp(s');
    UnpublishUndoesResize(s');
    ExpandIsRetried(s');
    es :| Run(s', es, s) && Always(s', es, SerialEvent);
    SerialEventsAreSerial(s', es);
  }
}
