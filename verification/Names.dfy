/**
 One volume per name, and creates that can be retried from every point of failure, on every
 interleaving of creates, deletes, publishes, unpublishes, expands, cloud steps and pod restarts.
 The cloud is not assumed to reject duplicate names.
 */
module Names {
  import opened Wrappers
  import opened CivoApi
  import opened Handlers
  import opened Interleaving

  ghost predicate UniqueNames(c: Cloud) {
    forall i, j :: i in c.vols && j in c.vols && c.vols[i].name == c.vols[j].name ==> i == j
  }

  /**
   What a flight may be doing while its name belongs to volume `id`: looking it up, or working with
   that very volume. In particular it is not between a lookup that found nothing and NewVolume.
   */
  predicate Committed(t: Task, id: string) {
    match t
    case CreateLookup(_, _) => true
    case CreateRecover(_, _) => true
    case CreateRead(_, _, i) => i == id
    case Poll(i, _, _, _) => i == id
    case Finished(o) => o.CreateOk? ==> o.id == id
    case _ => false
  }

  ghost predicate FlightsCommitted(s: System) {
    forall n, id :: n in s.flights && id in s.cloud.vols && s.cloud.vols[id].name == n
                    ==> Committed(s.flights[n].task, id)
  }

  ghost predicate Inv(s: System) {
    Typed(s) && WellFormed(s.cloud) && UniqueNames(s.cloud) && FlightsCommitted(s)
  }

  /** A step of a flight that is committed to `id`, or whose name is still unused, stays so. */
  lemma FlightStaysCommitted(c: Cloud, t: Task, name: string, size: int, ch: Choice, id: string)
    requires WellFormed(c) && UniqueNames(c) && CreatesFor(t, name, size) && !t.Finished?
    requires Answers(c, Request(t), ch)
    requires forall i :: i in c.vols && c.vols[i].name == name ==> Committed(t, i)
    requires var c' := Perform(c, Request(t), ch); id in c'.vols && c'.vols[id].name == name
    ensures Committed(Resume(t, ch.reply), id)
  {
    if t.CreateNew? {
      assert id == ch.newId;
    } else if Request(t).ListVolumes? {
      if ch.reply.Volumes? {
        LookupCommits(c, ch.reply.list, name, size, t.CreateRecover?, id);
      }
    } else {
      assert c.vols[id].name == name;
    }
  }

  /** A listing of a cloud in which the name is taken resolves to its owner. */
  lemma LookupCommits(c: Cloud, list: seq<Volume>, name: string, size: int, recovering: bool, id: string)
    requires WellFormed(c) && UniqueNames(c) && Enumerates(list, c.vols)
    requires id in c.vols && c.vols[id].name == name
    ensures Committed(AfterLookup(name, size, FirstNamed(list, name), recovering), id)
  {
    assert c.vols[id] in list;
    assert FirstNamed(list, name).Some?;
  }

  /** Calls other than NewVolume keep names, and only a flight calls NewVolume, for its own name. */
  lemma NamesKept(c: Cloud, call: Call, ch: Choice)
    requires WellFormed(c) && Answers(c, call, ch)
    ensures var c' := Perform(c, call, ch);
            forall i :: i in c'.vols && !(call.NewVolume? && ch.applied && i == ch.newId)
                        ==> i in c.vols && c'.vols[i].name == c.vols[i].name
    ensures var c' := Perform(c, call, ch);
            (call.NewVolume? && ch.applied) ==>
              ch.newId in c'.vols && ch.newId !in c.vols && c'.vols[ch.newId].name == call.name
  {
  }

  lemma FlightStepKeepsInv(s: System, name: string, ch: Choice)
    requires Inv(s) && Enabled(s, FlightStep(name, ch))
    ensures Inv(Apply(s, FlightStep(name, ch)))
  {
    var e := FlightStep(name, ch);
    var s' := Apply(s, e);
    var f := s.flights[name];
    TypedStep(s, e);
    WellFormedStep(s, e);
    NamesKept(s.cloud, Request(f.task), ch);
    forall n, id | n in s'.flights && id in s'.cloud.vols && s'.cloud.vols[id].name == n
      ensures Committed(s'.flights[n].task, id)
    {
      if n == name {
        FlightStaysCommitted(s.cloud, f.task, name, f.sizeGB, ch, id);
      }
    }
    if Request(f.task).NewVolume? && ch.applied {
      forall i | i in s.cloud.vols
        ensures s.cloud.vols[i].name != name
      {
        assert !Committed(f.task, i);
      }
    }
  }

  /** A step that renames and creates nothing and moves no flight past its first lookup keeps the invariant. */
  lemma QuietStepKeepsInv(s: System, s': System)
    requires Inv(s) && Typed(s') && WellFormed(s'.cloud)
    requires forall i :: i in s'.cloud.vols ==> i in s.cloud.vols && s'.cloud.vols[i].name == s.cloud.vols[i].name
    requires forall n :: n in s'.flights ==>
               s'.flights[n].task.CreateLookup? || (n in s.flights && s'.flights[n].task == s.flights[n].task)
    ensures Inv(s')
  {
  }

  lemma StepKeepsInv(s: System, e: Event)
    requires Inv(s) && Enabled(s, e)
    ensures Inv(Apply(s, e))
  {
    if e.FlightStep? {
      FlightStepKeepsInv(s, e.name, e.ch);
    } else {
      TypedStep(s, e);
      WellFormedStep(s, e);
      if e.RpcStep? {
        NamesKept(s.cloud, Request(s.rpcs[e.req].task), e.ch);
      }
      QuietStepKeepsInv(s, Apply(s, e));
    }
  }

  /** No interleaving whatsoever gives a name to two volumes. */
  lemma {:induction false} AtMostOneVolumePerName(s: System, es: seq<Event>, t: System)
    requires Inv(s) && Run(s, es, t)
    ensures Inv(t) && UniqueNames(t.cloud)
    decreases |es|
  {
    if es != [] {
      StepKeepsInv(s, es[0]);
      AtMostOneVolumePerName(Apply(s, es[0]), es[1..], t);
    }
  }

  /** A fresh controller over any cloud with unique names satisfies the invariant. */
  lemma FreshPod(c: Cloud)
    requires WellFormed(c) && UniqueNames(c)
    ensures Inv(System(c, map[], map[]))
  {
  }

  /** The volume a finished flight of the name is about to answer all its callers with. */
  function FlightAnswers(s: System, name: string): Option<string> {
    if name in s.flights && s.flights[name].task.Finished? && s.flights[name].task.outcome.CreateOk?
    then Some(s.flights[name].task.outcome.id)
    else None
  }

  ghost predicate Deletes(s: System, e: Event, id: string)
    requires Enabled(s, e)
  {
    Applies(e) && CallOf(s, e) == Some(DeleteVolume(id))
  }

  ghost predicate CallsNewVolume(s: System, e: Event, name: string)
    requires Enabled(s, e)
  {
    CallOf(s, e).Some? && CallOf(s, e).value.NewVolume? && CallOf(s, e).value.name == name
  }

  ghost predicate NeverDeleted(s: System, es: seq<Event>, id: string)
    decreases |es|
  {
    es != [] && Enabled(s, es[0]) ==> !Deletes(s, es[0], id) && NeverDeleted(Apply(s, es[0]), es[1..], id)
  }

  ghost predicate NewVolumeNeverCalled(s: System, es: seq<Event>, name: string)
    decreases |es|
  {
    es != [] && Enabled(s, es[0]) ==>
      !CallsNewVolume(s, es[0], name) && NewVolumeNeverCalled(Apply(s, es[0]), es[1..], name)
  }

  ghost predicate Owns(s: System, id: string, name: string) {
    id in s.cloud.vols && s.cloud.vols[id].name == name
  }

  lemma OwnerStays(s: System, e: Event, id: string, name: string)
    requires Inv(s) && Enabled(s, e) && Owns(s, id, name) && !Deletes(s, e, id)
    ensures Owns(Apply(s, e), id, name)
    ensures !CallsNewVolume(s, e, name)
  {
    if e.FlightStep? {
      var t := s.flights[e.name].task;
      assert CreatesFor(t, e.name, s.flights[e.name].sizeGB);
      assert Request(t).NewVolume? && e.name == name ==> !Committed(t, id);
      NamesKept(s.cloud, Request(t), e.ch);
    }
  }

  /**
   While a volume of the name exists, no call of NewVolume for the name is made, whatever is retried
   or restarted, and every successful create of the name answers with that volume.
   */
  lemma {:induction false} OwnedNameIsNeverRecreated(s: System, es: seq<Event>, t: System, id: string, name: string)
    requires Inv(s) && Run(s, es, t) && Owns(s, id, name) && NeverDeleted(s, es, id)
    ensures NewVolumeNeverCalled(s, es, name)
    ensures Inv(t) && Owns(t, id, name)
    ensures FlightAnswers(t, name).Some? ==> FlightAnswers(t, name).value == id
    decreases |es|
  {
    if es != [] {
      StepKeepsInv(s, es[0]);
      OwnerStays(s, es[0], id, name);
      OwnedNameIsNeverRecreated(Apply(s, es[0]), es[1..], t, id, name);
    } else if name in s.flights {
      assert Committed(s.flights[name].task, id);
    }
  }

  /**
   Retry safety: once a NewVolume call for the name took effect, with whatever answer (success, a
   failure after the effect, a duplicate-name reply), no later event calls NewVolume for that name
   and every later success returns the volume made by that call, until it is deleted.
   */
  lemma CreateIsRetrySafe(s: System, e: Event, es: seq<Event>, t: System, name: string)
    requires Inv(s) && Enabled(s, e) && CallsNewVolume(s, e, name) && Applies(e)
    requires Run(Apply(s, e), es, t) && NeverDeleted(Apply(s, e), es, e.ch.newId)
    ensures NewVolumeNeverCalled(Apply(s, e), es, name)
    ensures Owns(t, e.ch.newId, name)
    ensures FlightAnswers(t, name).Some? ==> FlightAnswers(t, name).value == e.ch.newId
  {
    StepKeepsInv(s, e);
    var call := CallOf(s, e).value;
    assert e.FlightStep?;
    NamesKept(s.cloud, call, e.ch);
    OwnedNameIsNeverRecreated(Apply(s, e), es, t, e.ch.newId, name);
  }
}
