/**
 The controller as a whole: any number of handlers, the singleflight group that coalesces creates
 of one name, and the cloud, interleaved at API-call granularity. One event is one atomic step; a
 run is any sequence of enabled events.
 */
module Interleaving {
  import opened Wrappers
  import opened Sizes
  import opened CivoApi
  import opened Handlers

  /** An active singleflight: its leader's size, its task, and every caller with the size it asked for. */
  datatype Flight = Flight(sizeGB: int, task: Task, callers: map<nat, int>)

  /** A valid publish, unpublish, expand or delete request. */
  datatype Start =
    | Publish(id: string, node: string)
    | Unpublish(id: string, node: string)
    | Expand(id: string, range: Option<CapacityRange>)
    | Delete(id: string)

  function FirstTask(start: Start): Task {
    match start
    case Publish(id, node) => PublishCluster(id, node)
    case Unpublish(id, node) => UnpublishRead(id, node)
    case Expand(id, range) => ExpandRead(id, range)
    case Delete(id) => DeleteCall(id)
  }

  /** A request in flight. */
  datatype Rpc = Rpc(start: Start, task: Task)

  datatype System = System(cloud: Cloud, flights: map<string, Flight>, rpcs: map<nat, Rpc>)

  datatype Event =
    | Join(req: nat, name: string, sizeGB: int)  // CreateVolume enters singleflight: leads or waits
    | FlightStep(name: string, ch: Choice)       // a flight's next API call
    | FlightEnd(name: string)                    // the flight returns: all its callers get the response
    | Begin(req: nat, start: Start)
    | RpcStep(req: nat, ch: Choice)
    | RpcEnd(req: nat)
    | Async(id: string, to: Volume)              // the cloud moves a volume on
    | Restart                                    // the controller pod is replaced

  ghost predicate Enabled(s: System, e: Event) {
    match e
    case Join(req, name, _) => name != "" && (name in s.flights ==> req !in s.flights[name].callers)
    case FlightStep(name, ch) =>
      && name in s.flights
      && !s.flights[name].task.Finished?
      && Answers(s.cloud, Request(s.flights[name].task), ch)
    case FlightEnd(name) => name in s.flights && s.flights[name].task.Finished?
    case Begin(req, start) =>
      req !in s.rpcs && start.id != "" && (start.Publish? ==> start.node != "")
    case RpcStep(req, ch) =>
      && req in s.rpcs
      && !s.rpcs[req].task.Finished?
      && Answers(s.cloud, Request(s.rpcs[req].task), ch)
    case RpcEnd(req) => req in s.rpcs && s.rpcs[req].task.Finished?
    case Async(id, to) => id in s.cloud.vols && Progresses(s.cloud.vols[id], to)
    case Restart => true
  }

  ghost function Apply(s: System, e: Event): System
    requires Enabled(s, e)
  {
    match e
    case Join(req, name, size) =>
      var f := if name in s.flights then s.flights[name] else Flight(size, CreateLookup(name, size), map[]);
      s.(flights := s.flights[name := f.(callers := f.callers[req := size])])
    case FlightStep(name, ch) =>
      var f := s.flights[name];
      s.(cloud := Perform(s.cloud, Request(f.task), ch),
         flights := s.flights[name := f.(task := Resume(f.task, ch.reply))])
    case FlightEnd(name) => s.(flights := s.flights - {name})
    case Begin(req, start) => s.(rpcs := s.rpcs[req := Rpc(start, FirstTask(start))])
    case RpcStep(req, ch) =>
      var r := s.rpcs[req];
      s.(cloud := Perform(s.cloud, Request(r.task), ch),
         rpcs := s.rpcs[req := r.(task := Resume(r.task, ch.reply))])
    case RpcEnd(req) => s.(rpcs := s.rpcs - {req})
    case Async(id, to) => s.(cloud := s.cloud.(vols := s.cloud.vols[id := to]))
    case Restart => s.(flights := map[], rpcs := map[])
  }

  ghost predicate Run(s: System, es: seq<Event>, t: System)
    decreases |es|
  {
    if es == [] then s == t
    else Enabled(s, es[0]) && Run(Apply(s, es[0]), es[1..], t)
  }

  lemma RunFirst(s: System, e: Event, es: seq<Event>, t: System)
    requires Enabled(s, e) && Run(Apply(s, e), es, t)
    ensures Run(s, [e] + es, t)
  {
    assert ([e] + es)[1..] == es;
  }

  lemma {:induction false} RunAppend(s: System, es: seq<Event>, mid: System, fs: seq<Event>, t: System)
    requires Run(s, es, mid) && Run(mid, fs, t)
    ensures Run(s, es + fs, t)
    decreases |es|
  {
    if es == [] {
      assert es + fs == fs;
    } else {
      RunAppend(Apply(s, es[0]), es[1..], mid, fs, t);
      assert (es + fs)[1..] == es[1..] + fs;
    }
  }

  // ---- Runs that keep to a rule ----

  ghost predicate Always(s: System, es: seq<Event>, rule: (System, Event) -> bool)
    decreases |es|
  {
    es != [] && Enabled(s, es[0]) ==> rule(s, es[0]) && Always(Apply(s, es[0]), es[1..], rule)
  }

  ghost predicate Leads(s: System, t: System, rule: (System, Event) -> bool) {
    exists es :: Run(s, es, t) && Always(s, es, rule)
  }

  lemma {:induction false} AlwaysAppend(s: System, es: seq<Event>, mid: System, fs: seq<Event>,
                                        rule: (System, Event) -> bool)
    requires Run(s, es, mid) && Always(s, es, rule) && Always(mid, fs, rule)
    ensures Always(s, es + fs, rule)
    decreases |es|
  {
    if es == [] {
      assert es + fs == fs;
    } else {
      AlwaysAppend(Apply(s, es[0]), es[1..], mid, fs, rule);
      assert (es + fs)[1..] == es[1..] + fs;
    }
  }

  lemma Stays(s: System, rule: (System, Event) -> bool)
    ensures Leads(s, s, rule)
  {
    assert Run(s, [], s) && Always(s, [], rule);
  }

  /** One more event at the end of a run. */
  lemma Extends(s: System, mid: System, e: Event, t: System, rule: (System, Event) -> bool)
    requires Leads(s, mid, rule) && Enabled(mid, e) && rule(mid, e) && t == Apply(mid, e)
    ensures Leads(s, t, rule)
  {
    var es :| Run(s, es, mid) && Always(s, es, rule);
    assert Run(t, [], t) && Always(t, [], rule);
    RunFirst(mid, e, [], t);
    assert ([e] + [])[1..] == [];
    assert Always(mid, [e] + [], rule);
    RunAppend(s, es, mid, [e] + [], t);
    AlwaysAppend(s, es, mid, [e] + [], rule);
  }

  /** The call an event makes, if it makes one. */
  ghost function CallOf(s: System, e: Event): Option<Call>
    requires Enabled(s, e)
  {
    match e
    case FlightStep(name, _) => Some(Request(s.flights[name].task))
    case RpcStep(req, _) => Some(Request(s.rpcs[req].task))
    case _ => None
  }

  ghost predicate Applies(e: Event) {
    (e.FlightStep? || e.RpcStep?) && e.ch.applied
  }

  // ---- What every task keeps ----

  /** A task of createVolumeUnsynced for the name and size of its flight. */
  predicate CreatesFor(t: Task, name: string, size: int) {
    match t
    case CreateLookup(n, z) => n == name && z == size
    case CreateQuota(n, z) => n == name && z == size
    case CreateNew(n, z) => n == name && z == size
    case CreateRecover(n, z) => n == name && z == size
    case CreateRead(n, z, _) => n == name && z == size
    case Poll(_, _, _, next) => !next.ThenExpanded? && next.name == name && next.sizeGB == size
    case Finished(o) => o.CreateOk? || o.Error?
    case _ => false
  }

  /** A task of a publish, unpublish, expand or delete request. */
  predicate Serves(t: Task, start: Start) {
    match start
    case Publish(id, node) =>
      t in {PublishCluster(id, node), PublishRead(id, node), PublishAttach(id, node), PublishReread(id, node)}
      || (t.Finished? && (t.outcome.PublishOk? || t.outcome.Error?))
    case Unpublish(id, node) =>
      t in {UnpublishRead(id, node), UnpublishDetach(id, node), UnpublishReread(id, node)}
      || (t.Finished? && (t.outcome.UnpublishOk? || t.outcome.Error?))
    case Expand(id, range) =>
      || t == ExpandRead(id, range)
      || (range.Some?
          && var size := DesiredGB(GetVolSizeInBytes(range));
             || t == ExpandResize(id, size)
             || t == ExpandFinal(id, size)
             || (t.Poll? && t.id == id && t.next == ThenExpanded(size)))
      || (t.Finished? && (t.outcome.ExpandOk? || t.outcome.Error? || t.outcome.Panicked?))
    case Delete(id) => t == DeleteCall(id) || (t.Finished? && (t.outcome.DeleteOk? || t.outcome.Error?))
  }

  lemma CreateResumes(t: Task, name: string, size: int, r: Reply)
    requires !t.Finished? && CreatesFor(t, name, size)
    ensures CreatesFor(Resume(t, r), name, size)
  {}

  lemma RpcResumes(t: Task, start: Start, r: Reply)
    requires !t.Finished? && Serves(t, start)
    ensures Serves(Resume(t, r), start)
  {}

  /** Every flight runs a create for its key, every other call the request it started from. */
  ghost predicate Typed(s: System) {
    && (forall n :: n in s.flights ==> CreatesFor(s.flights[n].task, n, s.flights[n].sizeGB))
    && (forall r :: r in s.rpcs ==> Serves(s.rpcs[r].task, s.rpcs[r].start))
    && (forall r :: r in s.rpcs && s.rpcs[r].start.Publish? ==> s.rpcs[r].start.node != "")
  }

  lemma TypedStep(s: System, e: Event)
    requires Typed(s) && Enabled(s, e)
    ensures Typed(Apply(s, e))
  {
    match e
    case FlightStep(name, ch) =>
      CreateResumes(s.flights[name].task, name, s.flights[name].sizeGB, ch.reply);
    case RpcStep(req, ch) =>
      RpcResumes(s.rpcs[req].task, s.rpcs[req].start, ch.reply);
    case _ =>
  }

  lemma WellFormedStep(s: System, e: Event)
    requires WellFormed(s.cloud) && Enabled(s, e)
    ensures WellFormed(Apply(s, e).cloud)
    ensures s.cloud.issued <= Apply(s, e).cloud.issued
  {
  }
}
