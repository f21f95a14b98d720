/**
 What CreateVolume should be: one atomic get-or-create on a directory from names to volumes; the directory of
 a cloud, and what flights keep true of it. Linearization.dfy proves the refinement.
 */
module GetOrCreate {
  import opened Wrappers
  import opened Sizes
  import opened CivoApi
  import opened Handlers
  import opened Interleaving
  import opened Names

  // ---- The atomic operation ----

  datatype Entry = Entry(id: string, sizeGB: int)

  type Directory = map<string, Entry>

  /** What CreateVolume should be: one indivisible operation; `newId` is used only for a fresh name. */
  function GetOrCreate(dir: Directory, name: string, size: int, newId: string): (Directory, Outcome) {
    if name !in dir then (dir[name := Entry(newId, size)], CreateOk(newId, CapacityBytes(size)))
    else if dir[name].sizeGB == size then (dir, CreateOk(dir[name].id, CapacityBytes(size)))
    else (dir, Error(AlreadyExists))
  }

  // ---- The refinement mapping ----

  ghost function DirectoryOf(c: Cloud): Directory
    requires UniqueNames(c)
  {
    map id | id in c.vols :: c.vols[id].name := Entry(id, c.vols[id].sizeGB)
  }

  lemma DirectoryHas(c: Cloud, id: string)
    requires UniqueNames(c) && id in c.vols
    ensures var v := c.vols[id]; v.name in DirectoryOf(c) && DirectoryOf(c)[v.name] == Entry(id, v.sizeGB)
  {
  }

  /** The directory that lists exactly the cloud's volumes. */
  ghost predicate Shows(c: Cloud, d: Directory) {
    && (forall id :: id in c.vols ==> c.vols[id].name in d && d[c.vols[id].name] == Entry(id, c.vols[id].sizeGB))
    && (forall n :: n in d ==> d[n].id in c.vols && c.vols[d[n].id].name == n)
  }

  lemma DirectoryShows(c: Cloud)
    requires UniqueNames(c)
    ensures Shows(c, DirectoryOf(c))
  {
    forall id | id in c.vols {
      DirectoryHas(c, id);
    }
    forall n | n in DirectoryOf(c)
      ensures DirectoryOf(c)[n].id in c.vols && c.vols[DirectoryOf(c)[n].id].name == n
    {
      var id :| id in c.vols && c.vols[id].name == n;
      DirectoryHas(c, id);
    }
  }

  // ---- Refusals ----

  /**
   At a lookup the code decides as the atomic operation would at that instant: it goes on to create
   exactly a missing name and refuses exactly a name that is taken with another size. After a
   duplicate-name reply the refusal is reported as that reply.
   */
  lemma LookupDecidesAtomically(c: Cloud, list: seq<Volume>, name: string, size: int, newId: string, recovering: bool)
    requires WellFormed(c) && UniqueNames(c) && Enumerates(list, c.vols)
    ensures var t := if recovering then CreateRecover(name, size) else CreateLookup(name, size);
            var after := Resume(t, Volumes(list));
            var atomic := GetOrCreate(DirectoryOf(c), name, size, newId).1;
            && (after == CreateQuota(name, size) <==> name !in DirectoryOf(c) && !recovering)
            && (after == Finished(Error(AlreadyExists)) <==> atomic == Error(AlreadyExists) && !recovering)
            && (after.Poll? <==> atomic.CreateOk? && name in DirectoryOf(c))
            && (after.Poll? ==> atomic == CreateOk(after.id, CapacityBytes(size)))
            && (after == Fail(Upstream(DuplicateName)) <==>
                  recovering && (name !in DirectoryOf(c) || atomic == Error(AlreadyExists)))
  {
    var found := FirstNamed(list, name);
    if found.Some? {
      DirectoryHas(c, found.value.id);
    } else {
      assert forall id :: id in c.vols ==> c.vols[id] in list && c.vols[id].name != name;
    }
  }

  // ---- Hypotheses ----

  /** The flight works with this volume. */
  predicate Holds(t: Task, id: string) {
    match t
    case CreateRead(_, _, i) => i == id
    case Poll(i, _, _, _) => i == id
    case Finished(o) => o.CreateOk? && o.id == id
    case _ => false
  }

  ghost predicate HeldByFlight(s: System, id: string) {
    exists n :: n in s.flights && Holds(s.flights[n].task, id)
  }

  /**
   The hypotheses of the refinement: callers that share a flight ask for one size, and a volume is
   neither deleted nor resized while a flight works with it.
   */
  ghost predicate Orderly(s: System, e: Event)
    requires Enabled(s, e)
  {
    && (e.Join? && e.name in s.flights ==> e.sizeGB == s.flights[e.name].sizeGB)
    && (forall id :: Deletes(s, e, id) ==> !HeldByFlight(s, id))
    && (e.Async? && s.cloud.vols[e.id].status.Resizing? ==> !HeldByFlight(s, e.id))
  }

  ghost predicate OrderlyRun(s: System, es: seq<Event>)
    decreases |es|
  {
    es != [] && Enabled(s, es[0]) ==> Orderly(s, es[0]) && OrderlyRun(Apply(s, es[0]), es[1..])
  }

  // ---- The simulation invariant ----

  /** A flight has callers, and one that works with a volume works with the volume of its name and size. */
  ghost predicate Backed(c: Cloud, f: Flight, name: string) {
    && f.callers != map[]
    && (forall r :: r in f.callers ==> f.callers[r] == f.sizeGB)
    && (forall id :: Holds(f.task, id) ==>
          id in c.vols && c.vols[id].name == name && c.vols[id].sizeGB == f.sizeGB)
    && (f.task.Finished? && f.task.outcome.CreateOk? ==> f.task.outcome.bytes == CapacityBytes(f.sizeGB))
  }

  ghost predicate Sim(s: System) {
    Inv(s) && forall n :: n in s.flights ==> Backed(s.cloud, s.flights[n], n)
  }

  /** A fresh controller over any cloud with unique names satisfies the simulation invariant. */
  lemma FreshPodSimulates(c: Cloud)
    requires WellFormed(c) && UniqueNames(c)
    ensures Sim(System(c, map[], map[]))
  {
    FreshPod(c);
  }

  lemma FlightStepBacks(c: Cloud, f: Flight, name: string, ch: Choice)
    requires WellFormed(c) && CreatesFor(f.task, name, f.sizeGB) && !f.task.Finished?
    requires Answers(c, Request(f.task), ch) && Backed(c, f, name)
    ensures Backed(Perform(c, Request(f.task), ch), f.(task := Resume(f.task, ch.reply)), name)
  {
    var t' := Resume(f.task, ch.reply);
    if Request(f.task).ListVolumes? && ch.reply.Volumes? {
      var found := FirstNamed(ch.reply.list, name);
      assert found.Some? ==> c.vols[found.value.id] == found.value;
    } else if f.task.Poll? || f.task.CreateRead? {
      assert Holds(f.task, f.task.id);
    }
  }

  /** Calls that neither delete nor create leave every volume's name and size alone. */
  lemma SizesKept(c: Cloud, call: Call, ch: Choice)
    requires WellFormed(c) && Answers(c, call, ch)
    ensures var c' := Perform(c, call, ch);
            forall i :: i in c.vols && !(ch.applied && call == DeleteVolume(i)) ==>
              i in c'.vols && c'.vols[i].name == c.vols[i].name && c'.vols[i].sizeGB == c.vols[i].sizeGB
  {
  }

  lemma StepKeepsSim(s: System, e: Event)
    requires Sim(s) && Enabled(s, e) && Orderly(s, e)
    ensures Sim(Apply(s, e))
  {
    StepKeepsInv(s, e);
    var s' := Apply(s, e);
    forall n | n in s'.flights
      ensures Backed(s'.cloud, s'.flights[n], n)
    {
      if e.FlightStep? && e.name == n {
        FlightStepBacks(s.cloud, s.flights[n], n, e.ch);
      } else if n in s.flights {
        OthersStayBacked(s, e, n);
      } else {
        assert e.req in s'.flights[n].callers;
      }
    }
  }

  lemma OthersStayBacked(s: System, e: Event, n: string)
    requires Sim(s) && Enabled(s, e) && Orderly(s, e)
    requires n in s.flights && n in Apply(s, e).flights && !(e.FlightStep? && e.name == n)
    ensures Backed(Apply(s, e).cloud, Apply(s, e).flights[n], n)
  {
    var f, f', c, c' := s.flights[n], Apply(s, e).flights[n], s.cloud, Apply(s, e).cloud;
    assert f'.task == f.task && f'.sizeGB == f.sizeGB;
    assert e.Join? && e.name == n ==> e.req in f'.callers;
    forall id | Holds(f.task, id)
      ensures id in c'.vols && c'.vols[id].name == n && c'.vols[id].sizeGB == f.sizeGB
    {
      assert HeldByFlight(s, id);
      HeldVolumeKept(s, e, id);
    }
  }

  lemma HeldVolumeKept(s: System, e: Event, id: string)
    requires Sim(s) && Enabled(s, e) && Orderly(s, e) && HeldByFlight(s, id) && id in s.cloud.vols
    ensures var c, c' := s.cloud, Apply(s, e).cloud;
            id in c'.vols && c'.vols[id].name == c.vols[id].name && c'.vols[id].sizeGB == c.vols[id].sizeGB
  {
    assert !Deletes(s, e, id);
    if e.FlightStep? {
      SizesKept(s.cloud, Request(s.flights[e.name].task), e.ch);
    } else if e.RpcStep? {
      SizesKept(s.cloud, Request(s.rpcs[e.req].task), e.ch);
    }
  }

  lemma {:induction false} RunKeepsSim(s: System, es: seq<Event>, t: System)
    requires Sim(s) && Run(s, es, t) && OrderlyRun(s, es)
    ensures Sim(t)
    decreases |es|
  {
    if es != [] {
      StepKeepsSim(s, es[0]);
      RunKeepsSim(Apply(s, es[0]), es[1..], t);
    }
  }

  // ---- How the directory changes ----

  lemma MadeDirectory(c: Cloud, c': Cloud, d: Directory, v: Volume)
    requires Shows(c, d) && v.id !in c.vols && c'.vols == c.vols[v.id := v]
    requires forall i :: i in c.vols ==> c.vols[i].name != v.name
    ensures v.name !in d && Shows(c', d[v.name := Entry(v.id, v.sizeGB)])
  {
  }

  lemma ForgottenDirectory(c: Cloud, c': Cloud, d: Directory, id: string)
    requires Shows(c, d) && id in c.vols && c'.vols == c.vols - {id}
    ensures c.vols[id].name in d && Shows(c', d - {c.vols[id].name})
  {
  }

  lemma GrownDirectory(c: Cloud, c': Cloud, d: Directory, id: string, to: Volume)
    requires Shows(c, d) && id in c.vols && c'.vols == c.vols[id := to] && to.name == c.vols[id].name
    ensures to.name in d && Shows(c', d[to.name := d[to.name].(sizeGB := to.sizeGB)])
  {
  }

  ghost predicate SameVolumes(c: Cloud, c': Cloud) {
    && c'.vols.Keys == c.vols.Keys
    && forall i :: i in c.vols ==> c'.vols[i].name == c.vols[i].name && c'.vols[i].sizeGB == c.vols[i].sizeGB
  }

  lemma SameDirectory(c: Cloud, c': Cloud, d: Directory)
    requires Shows(c, d) && SameVolumes(c, c')
    ensures Shows(c', d)
  {
  }

  /**
   Sizes must agree within a flight: a follower that asks for 20 GB while the leader asks for 10 GB is
   answered with the leader's 10 GB volume, where its own atomic operation would fail.
   */
  lemma FollowerOfAnotherSize() returns (s: System, rest: seq<Event>, t: System)
    ensures Sim(s) && Run(s, [Join(1, "pvc", 10), Join(2, "pvc", 20)] + rest, t) && Inv(t)
    ensures FlightAnswers(t, "pvc") == Some("vol") && 2 in t.flights["pvc"].callers
    ensures GetOrCreate(DirectoryOf(t.cloud), "pvc", 20, "").1 == Error(AlreadyExists)
  {
    var v := Volume("vol", "pvc", 10, Available, "");
    var c := Cloud(map["vol" := v], {"vol"}, 100, 10);
    var led := Flight(10, CreateLookup("pvc", 10), map[1 := 10, 2 := 20]);
    s := System(c, map[], map[]);
    rest, t := LookupAndPoll(c, v, s.(flights := map["pvc" := led]));
    BothJoin(s, rest, t);
    FreshPod(c);
    AtMostOneVolumePerName(s, [Join(1, "pvc", 10), Join(2, "pvc", 20)] + rest, t);
    DirectoryHas(c, "vol");
  }

  lemma BothJoin(s: System, rest: seq<Event>, t: System)
    requires s.flights == map[]
    requires Run(s.(flights := map["pvc" := Flight(10, CreateLookup("pvc", 10), map[1 := 10, 2 := 20])]), rest, t)
    ensures Run(s, [Join(1, "pvc", 10), Join(2, "pvc", 20)] + rest, t)
  {
    var first, second := Join(1, "pvc", 10), Join(2, "pvc", 20);
    var led := Apply(s, first);
    assert led == s.(flights := map["pvc" := Flight(10, CreateLookup("pvc", 10), map[1 := 10])]);
    assert Apply(led, second)
        == s.(flights := map["pvc" := Flight(10, CreateLookup("pvc", 10), map[1 := 10, 2 := 20])]);
    RunFirst(led, second, rest, t);
    RunFirst(s, first, [second] + rest, t);
    assert [first] + ([second] + rest) == [first, second] + rest;
  }

  lemma LookupAndPoll(c: Cloud, v: Volume, s: System) returns (es: seq<Event>, t: System)
    requires v == Volume("vol", "pvc", 10, Available, "") && c.vols == map["vol" := v]
    requires s.cloud == c && "pvc" in s.flights && s.flights["pvc"].task == CreateLookup("pvc", 10)
    ensures Run(s, es, t) && t.cloud == c && "pvc" in t.flights
    ensures t.flights["pvc"] == s.flights["pvc"].(task := Finished(CreateOk("vol", CapacityBytes(10))))
  {
    var lists := ListsVolume(s, v);
    var mid := Apply(s, lists);
    var polls := PollsVolume(mid, v);
    t := Apply(mid, polls);
    assert Run(t, [], t);
    RunFirst(mid, polls, [], t);
    RunFirst(s, lists, [polls] + [], t);
    es := [lists] + ([polls] + []);
  }

  /**
   No resize may land on a held volume: a flight for 10 GB that found a volume of 10 GB polls until its resize
   has landed, and answers with it although it has 20 GB by then, where the atomic operation would refuse.
   */
  lemma ResizeLandsDuringFlight() returns (s: System, es: seq<Event>, t: System)
    ensures Sim(s) && Run(s, es, t)
    ensures FlightAnswers(t, "pvc") == Some("vol") && t.flights["pvc"].callers == map[1 := 10]
    ensures GetOrCreate(DirectoryOf(s.cloud), "pvc", 10, "").1 == CreateOk("vol", CapacityBytes(10))
    ensures UniqueNames(t.cloud) && GetOrCreate(DirectoryOf(t.cloud), "pvc", 10, "").1 == Error(AlreadyExists)
  {
    var v, w := Volume("vol", "pvc", 10, Resizing(20), ""), Volume("vol", "pvc", 20, Available, "");
    var c := Cloud(map["vol" := v], {"vol"}, 100, 10);
    s := System(c, map[], map[]);
    FreshPodSimulates(c);
    var joins := Join(1, "pvc", 10);
    var s1 := Apply(s, joins);
    assert s1 == s.(flights := map["pvc" := Flight(10, CreateLookup("pvc", 10), map[1 := 10])]);
    es, t := LookupLandPoll(s1, v, w);
    RunFirst(s, joins, es, t);
    es := [joins] + es;
    DirectoryHas(s.cloud, "vol");
    DirectoryHas(t.cloud, "vol");
  }

  lemma LookupLandPoll(s: System, v: Volume, w: Volume) returns (es: seq<Event>, t: System)
    requires v == Volume("vol", "pvc", 10, Resizing(20), "") && w == Volume("vol", "pvc", 20, Available, "")
    requires s.cloud.vols == map["vol" := v] && "pvc" in s.flights
    requires s.flights["pvc"].task == CreateLookup("pvc", 10)
    ensures Run(s, es, t) && t.cloud.vols == map["vol" := w] && "pvc" in t.flights
    ensures t.flights["pvc"] == s.flights["pvc"].(task := Finished(CreateOk("vol", CapacityBytes(10))))
  {
    var lists := ListsVolume(s, v);
    var lands := Async("vol", w);
    var s2 := Apply(s, lists);
    var s3 := Apply(s2, lands);
    assert s3.cloud.vols == map["vol" := w];
    var polls := PollsVolume(s3, w);
    t := Apply(s3, polls);
    assert Run(t, [], t);
    RunFirst(s3, polls, [], t);
    RunFirst(s2, lands, [polls] + [], t);
    RunFirst(s, lists, [lands] + ([polls] + []), t);
    es := [lists] + ([lands] + ([polls] + []));
  }

  lemma ListsVolume(s: System, v: Volume) returns (e: Event)
    requires v.name == "pvc" && v.sizeGB == 10 && s.cloud.vols == map[v.id := v]
    requires "pvc" in s.flights && s.flights["pvc"].task == CreateLookup("pvc", 10)
    ensures Enabled(s, e)
    ensures Apply(s, e) == s.(flights := s.flights["pvc" := s.flights["pvc"].(
                                task := Poll(v.id, 0, RETRIES, ThenResolved("pvc", 10, false)))])
  {
    e := FlightStep("pvc", Choice(Volumes([v]), false, "", Available));
    assert FirstNamed([v], "pvc") == Some(v);
  }

  lemma PollsVolume(s: System, v: Volume) returns (e: Event)
    requires v.status.Available? && s.cloud.vols == map[v.id := v]
    requires "pvc" in s.flights && s.flights["pvc"].task == Poll(v.id, 0, RETRIES, ThenResolved("pvc", 10, false))
    ensures Enabled(s, e)
    ensures Apply(s, e) == s.(flights := s.flights["pvc" := s.flights["pvc"].(
                                task := Finished(CreateOk(v.id, CapacityBytes(10))))])
  {
    e := FlightStep("pvc", Choice(VolumeIs(v), false, "", Available));
  }
}
