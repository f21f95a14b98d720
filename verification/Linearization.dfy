/**
 Concurrent CreateVolume calls refine an atomic get-or-create. Every caller's operation takes effect at one
 instant between its call and its response: for one caller of a flight that creates, at NewVolume; for
 every other, when the flight ends.
 */
module Linearization {
  import opened Wrappers
  import opened Sizes
  import opened CivoApi
  import opened Handlers
  import opened Interleaving
  import opened Names
  import opened GetOrCreate

  // ---- The atomic specification ----

  /** A call that has not been answered: its size, and the result of its operation if that has happened. */
  datatype Caller = Caller(sizeGB: int, made: Option<Outcome>)

  datatype Atomic = Atomic(dir: Directory, open: map<string, map<nat, Caller>>)

  datatype Op =
    | Ask(name: string, req: nat, sizeGB: int)     // a call arrives
    | Make(name: string, req: nat, id: string)     // the operation of one open call happens, and creates
    | Respond(name: string, response: Outcome)     // so do those of its other open calls; all are answered
    | GiveUp(name: string)                         // all open calls of the name are answered with an error
    | GiveUpAll                                    // all open calls are lost
    | Forget(name: string)                         // DeleteVolume
    | Grow(name: string, sizeGB: int)              // a resize lands

  /** The response is what the caller's own operation returned, or returns now without changing the directory. */
  ghost predicate Explains(dir: Directory, name: string, c: Caller, response: Outcome) {
    match c.made
    case Some(o) => o == response
    case None => forall newId :: GetOrCreate.GetOrCreate(dir, name, c.sizeGB, newId) == (dir, response)
  }

  ghost predicate Legal(a: Atomic, op: Op) {
    match op
    case Ask(name, req, _) => name in a.open ==> req !in a.open[name]
    case Make(name, req, _) =>
      name in a.open && req in a.open[name] && a.open[name][req].made.None? && name !in a.dir
    case Respond(name, response) =>
      name in a.open && forall r :: r in a.open[name] ==> Explains(a.dir, name, a.open[name][r], response)
    case GiveUp(name) => name in a.open
    case GiveUpAll => true
    case Forget(name) => name in a.dir
    case Grow(name, _) => name in a.dir
  }

  function After(a: Atomic, op: Op): Atomic {
    match op
    case Ask(name, req, size) =>
      var callers := if name in a.open then a.open[name] else map[];
      a.(open := a.open[name := callers[req := Caller(size, None)]])
    case Make(name, req, id) =>
      if name in a.open && req in a.open[name] then
        var (dir, o) := GetOrCreate.GetOrCreate(a.dir, name, a.open[name][req].sizeGB, id);
        Atomic(dir, a.open[name := a.open[name][req := a.open[name][req].(made := Some(o))]])
      else a
    case Respond(name, _) => a.(open := a.open - {name})
    case GiveUp(name) => a.(open := a.open - {name})
    case GiveUpAll => a.(open := map[])
    case Forget(name) => a.(dir := a.dir - {name})
    case Grow(name, size) => if name in a.dir then a.(dir := a.dir[name := a.dir[name].(sizeGB := size)]) else a
  }

  ghost predicate LegalRun(a: Atomic, ops: seq<Op>)
    decreases |ops|
  {
    ops != [] ==> Legal(a, ops[0]) && LegalRun(After(a, ops[0]), ops[1..])
  }

  function AfterAll(a: Atomic, ops: seq<Op>): Atomic
    decreases |ops|
  {
    if ops == [] then a else AfterAll(After(a, ops[0]), ops[1..])
  }

  // ---- The operation of each event ----

  ghost function SomeCaller(f: Flight): nat
    requires f.callers != map[]
  {
    var r :| r in f.callers;
    r
  }

  ghost predicate TakenOtherwise(c: Cloud, name: string, size: int) {
    exists id :: id in c.vols && c.vols[id].name == name && c.vols[id].sizeGB != size
  }

  /** The flight ends with a refusal, while the name still belongs to a volume of another size. */
  ghost predicate RefusedAsOf(s: System, name: string)
    requires name in s.flights && s.flights[name].task.Finished?
  {
    s.flights[name].task == Fail(AlreadyExists) && TakenOtherwise(s.cloud, name, s.flights[name].sizeGB)
  }

  ghost function Linearized(s: System, e: Event): Option<Op>
    requires Enabled(s, e)
  {
    match e
    case Join(req, name, size) => Some(Ask(name, req, size))
    case FlightStep(name, ch) =>
      if Makes(s, e) then Some(Make(name, SomeCaller(s.flights[name]), ch.newId)) else None
    case FlightEnd(name) =>
      var o := s.flights[name].task.outcome;
      if o.CreateOk? || RefusedAsOf(s, name) then Some(Respond(name, o)) else Some(GiveUp(name))
    case RpcStep(req, ch) =>
      var call := Request(s.rpcs[req].task);
      if call.DeleteVolume? && ch.applied then Some(Forget(s.cloud.vols[call.id].name)) else None
    case Async(id, to) =>
      if s.cloud.vols[id].status.Resizing? then Some(Grow(s.cloud.vols[id].name, to.sizeGB)) else None
    case Restart => Some(GiveUpAll)
    case Begin(_, _) => None
    case RpcEnd(_) => None
  }

  /** NewVolume takes effect, for a flight with callers. */
  ghost predicate Makes(s: System, e: Event)
    requires Enabled(s, e)
  {
    e.FlightStep? && e.ch.applied && Request(s.flights[e.name].task).NewVolume? && s.flights[e.name].callers != map[]
  }

  function OneOrNone(op: Option<Op>): seq<Op> {
    match op
    case None => []
    case Some(o) => [o]
  }

  ghost function Linearization(s: System, es: seq<Event>): seq<Op>
    decreases |es|
  {
    if es == [] || !Enabled(s, es[0]) then []
    else
      OneOrNone(Linearized(s, es[0])) + Linearization(Apply(s, es[0]), es[1..])
  }

  // ---- The refinement relation ----

  /** Where a flight can be once its NewVolume took effect; a size conflict is not reported there. */
  predicate PastNew(t: Task) {
    t.CreateRecover? || t.CreateRead? || t.Poll? || (t.Finished? && t != Fail(AlreadyExists))
  }

  /** What a caller's operation that has happened returned: the volume that still owns the name, if any does. */
  ghost predicate MadeBy(c: Cloud, f: Flight, name: string, o: Outcome) {
    && o.CreateOk? && o.bytes == CapacityBytes(f.sizeGB) && PastNew(f.task)
    && forall i :: i in c.vols && c.vols[i].name == name ==> i == o.id
  }

  ghost predicate Mirrors(c: Cloud, f: Flight, name: string, callers: map<nat, Caller>) {
    && callers.Keys == f.callers.Keys
    && forall r :: r in callers ==>
         callers[r].sizeGB == f.callers[r] && (callers[r].made.Some? ==> MadeBy(c, f, name, callers[r].made.value))
  }

  ghost predicate OpenTracks(c: Cloud, flights: map<string, Flight>, open: map<string, map<nat, Caller>>) {
    && open.Keys == flights.Keys
    && forall n :: n in flights ==> Mirrors(c, flights[n], n, open[n])
  }

  ghost predicate Tracks(s: System, a: Atomic) {
    Shows(s.cloud, a.dir) && OpenTracks(s.cloud, s.flights, a.open)
  }

  /** No volume takes the name. */
  ghost predicate NoNewOwner(c: Cloud, c': Cloud, name: string) {
    forall i :: i in c'.vols && c'.vols[i].name == name ==> i in c.vols && c.vols[i].name == name
  }

  lemma MirrorsOn(c: Cloud, c': Cloud, f: Flight, f': Flight, name: string, callers: map<nat, Caller>)
    requires Mirrors(c, f, name, callers) && NoNewOwner(c, c', name)
    requires f'.callers == f.callers && f'.sizeGB == f.sizeGB && (PastNew(f.task) ==> PastNew(f'.task))
    ensures Mirrors(c', f', name, callers)
  {
  }

  /** One flight changes, and the cloud gives no other name away. */
  lemma OneFlightTracks(c: Cloud, c': Cloud, flights: map<string, Flight>, open: map<string, map<nat, Caller>>,
                        name: string, f': Flight, callers': map<nat, Caller>)
    requires OpenTracks(c, flights, open) && Mirrors(c', f', name, callers')
    requires forall n :: n != name ==> NoNewOwner(c, c', n)
    ensures OpenTracks(c', flights[name := f'], open[name := callers'])
  {
    forall n | n in flights && n != name
      ensures Mirrors(c', flights[n], n, open[n])
    {
      MirrorsOn(c, c', flights[n], flights[n], n, open[n]);
    }
  }

  lemma FlightGoneTracks(c: Cloud, flights: map<string, Flight>, open: map<string, map<nat, Caller>>, name: string)
    requires OpenTracks(c, flights, open)
    ensures OpenTracks(c, flights - {name}, open - {name})
  {
  }

  /** The cloud changes and gives no name away. */
  lemma CloudTracks(c: Cloud, c': Cloud, flights: map<string, Flight>, open: map<string, map<nat, Caller>>)
    requires OpenTracks(c, flights, open) && forall n :: NoNewOwner(c, c', n)
    ensures OpenTracks(c', flights, open)
  {
    forall n | n in flights
      ensures Mirrors(c', flights[n], n, open[n])
    {
      MirrorsOn(c, c', flights[n], flights[n], n, open[n]);
    }
  }

  /** The specification can take the operation, if there is one, to a state that tracks s'. */
  ghost predicate Follows(a: Atomic, op: Option<Op>, s': System) {
    match op
    case None => Tracks(s', a)
    case Some(o) => Legal(a, o) && Tracks(s', After(a, o))
  }

  // ---- Each event is its operation ----

  lemma JoinShape(s: System, req: nat, name: string, size: int)
    requires Enabled(s, Join(req, name, size))
    ensures var f := if name in s.flights then s.flights[name] else Flight(size, CreateLookup(name, size), map[]);
            var s' := Apply(s, Join(req, name, size));
            s'.cloud == s.cloud && s'.flights == s.flights[name := f.(callers := f.callers[req := size])]
  {
  }

  lemma CallerMirrors(c: Cloud, f: Flight, name: string, callers: map<nat, Caller>, req: nat, size: int)
    requires Mirrors(c, f, name, callers)
    ensures Mirrors(c, f.(callers := f.callers[req := size]), name, callers[req := Caller(size, None)])
  {
  }

  /** The calls of the name with one more. */
  lemma JoinTracks(c: Cloud, flights: map<string, Flight>, open: map<string, map<nat, Caller>>,
                   req: nat, name: string, size: int)
    requires OpenTracks(c, flights, open)
    ensures var f := if name in flights then flights[name] else Flight(size, CreateLookup(name, size), map[]);
            var callers := if name in open then open[name] else map[];
            OpenTracks(c, flights[name := f.(callers := f.callers[req := size])],
                       open[name := callers[req := Caller(size, None)]])
  {
    var f := if name in flights then flights[name] else Flight(size, CreateLookup(name, size), map[]);
    var callers := if name in open then open[name] else map[];
    CallerMirrors(c, f, name, callers, req, size);
    OneFlightTracks(c, c, flights, open, name, f.(callers := f.callers[req := size]),
                    callers[req := Caller(size, None)]);
  }

  lemma JoinIsAsk(s: System, a: Atomic, req: nat, name: string, size: int)
    requires Tracks(s, a) && Enabled(s, Join(req, name, size))
    ensures Legal(a, Ask(name, req, size)) && Tracks(Apply(s, Join(req, name, size)), After(a, Ask(name, req, size)))
  {
    JoinShape(s, req, name, size);
    JoinTracks(s.cloud, s.flights, a.open, req, name, size);
    JoinIsLegal(s.cloud, s.flights, a, req, name, size);
  }

  lemma JoinIsLegal(c: Cloud, flights: map<string, Flight>, a: Atomic, req: nat, name: string, size: int)
    requires OpenTracks(c, flights, a.open) && (name in flights ==> req !in flights[name].callers)
    ensures Legal(a, Ask(name, req, size))
  {
    if name in flights {
      assert Mirrors(c, flights[name], name, a.open[name]);
    }
  }

  /** The name is free when a flight is about to call NewVolume. */
  lemma NameIsFree(s: System, name: string)
    requires Names.Inv(s) && name in s.flights && s.flights[name].task.CreateNew?
    ensures forall i :: i in s.cloud.vols ==> s.cloud.vols[i].name != name
  {
    forall i | i in s.cloud.vols
      ensures s.cloud.vols[i].name != name
    {
      assert !Committed(s.flights[name].task, i);
    }
  }

  /** What the flight and its callers are after NewVolume took effect. */
  lemma MadeMirrors(c: Cloud, c': Cloud, f: Flight, name: string, callers: map<nat, Caller>, req: nat,
                    v: Volume, reply: Reply)
    requires f.task == CreateNew(name, f.sizeGB) && Mirrors(c, f, name, callers)
    requires req in f.callers && f.callers[req] == f.sizeGB
    requires v.name == name && v.sizeGB == f.sizeGB && c'.vols == c.vols[v.id := v]
    requires forall i :: i in c.vols ==> c.vols[i].name != name
    ensures callers[req].made.None?
    ensures Mirrors(c', f.(task := Resume(f.task, reply)), name,
                    callers[req := callers[req].(made := Some(CreateOk(v.id, CapacityBytes(f.sizeGB))))])
  {
    assert !PastNew(f.task) && PastNew(Resume(f.task, reply));
    assert MadeBy(c', f.(task := Resume(f.task, reply)), name, CreateOk(v.id, CapacityBytes(f.sizeGB)));
  }

  /** What NewVolume does to the directory and to the open calls. */
  lemma MadeTracks(c: Cloud, dir: Directory, flights: map<string, Flight>, open: map<string, map<nat, Caller>>,
                   name: string, req: nat, ch: Choice) returns (c': Cloud, f': Flight, callers': map<nat, Caller>)
    requires Shows(c, dir) && OpenTracks(c, flights, open) && name in flights && req in flights[name].callers
    requires var f := flights[name]; f.task == CreateNew(name, f.sizeGB) && f.callers[req] == f.sizeGB
    requires ch.applied && ch.newId !in c.vols && forall i :: i in c.vols ==> c.vols[i].name != name
    ensures c' == Perform(c, Request(flights[name].task), ch)
    ensures name !in dir && Shows(c', dir[name := Entry(ch.newId, flights[name].sizeGB)])
    ensures f' == flights[name].(task := Resume(flights[name].task, ch.reply))
    ensures open[name][req].made.None?
    ensures callers' == open[name][req := open[name][req].(made := Some(CreateOk(ch.newId, CapacityBytes(f'.sizeGB))))]
    ensures OpenTracks(c', flights[name := f'], open[name := callers'])
  {
    var f := flights[name];
    var v := Volume(ch.newId, name, f.sizeGB, ch.initial, "");
    c' := Perform(c, Request(f.task), ch);
    f' := f.(task := Resume(f.task, ch.reply));
    callers' := open[name][req := open[name][req].(made := Some(CreateOk(ch.newId, CapacityBytes(f'.sizeGB))))];
    assert Mirrors(c, f, name, open[name]);
    MadeDirectory(c, c', dir, v);
    MadeMirrors(c, c', f, name, open[name], req, v, ch.reply);
    OneFlightTracks(c, c', flights, open, name, f', callers');
  }

  /** Creating is the operation of a caller that asked for the name and size and has not been served. */
  lemma NewVolumeIsMake(s: System, a: Atomic, name: string, ch: Choice)
    requires Sim(s) && Tracks(s, a) && Enabled(s, FlightStep(name, ch)) && Makes(s, FlightStep(name, ch))
    ensures var f := s.flights[name];
            var op := Make(name, SomeCaller(f), ch.newId);
            && op.req in f.callers && f.callers[op.req] == Request(f.task).sizeGB
            && Legal(a, op) && Tracks(Apply(s, FlightStep(name, ch)), After(a, op))
  {
    var f := s.flights[name];
    assert CreatesFor(f.task, name, f.sizeGB) && Backed(s.cloud, f, name) && Mirrors(s.cloud, f, name, a.open[name]);
    NameIsFree(s, name);
    assert ch.newId !in s.cloud.vols;
    var c', f', callers' := MadeTracks(s.cloud, a.dir, s.flights, a.open, name, SomeCaller(f), ch);
    var s' := Apply(s, FlightStep(name, ch));
    assert s'.cloud == c' && s'.flights == s.flights[name := f'];
    var a' := After(a, Make(name, SomeCaller(f), ch.newId));
    assert a.open[name][SomeCaller(f)].sizeGB == f.sizeGB;
    assert a'.dir == a.dir[name := Entry(ch.newId, f.sizeGB)] && a'.open == a.open[name := callers'];
  }

  lemma SilentFlightTracks(c: Cloud, flights: map<string, Flight>, open: map<string, map<nat, Caller>>,
                           name: string, reply: Reply)
    requires OpenTracks(c, flights, open) && name in flights && !flights[name].task.Finished?
    requires CreatesFor(flights[name].task, name, flights[name].sizeGB)
    ensures OpenTracks(c, flights[name := flights[name].(task := Resume(flights[name].task, reply))], open)
  {
    var f := flights[name];
    var f' := f.(task := Resume(f.task, reply));
    MirrorsOn(c, c, f, f', name, open[name]);
    OneFlightTracks(c, c, flights, open, name, f', open[name]);
    assert open[name := open[name]] == open;
  }

  lemma SilentFlightStep(s: System, a: Atomic, name: string, ch: Choice)
    requires Sim(s) && Tracks(s, a) && Enabled(s, FlightStep(name, ch)) && !Makes(s, FlightStep(name, ch))
    ensures Tracks(Apply(s, FlightStep(name, ch)), a)
  {
    var f, s' := s.flights[name], Apply(s, FlightStep(name, ch));
    assert CreatesFor(f.task, name, f.sizeGB) && Backed(s.cloud, f, name);
    SilentFlightTracks(s.cloud, s.flights, a.open, name, ch.reply);
    assert s'.cloud == s.cloud;
  }

  /** The response of a flight is the answer of the one operation of each of its callers. */
  lemma FlightEndIsRespond(c: Cloud, f: Flight, name: string, a: Atomic)
    requires Shows(c, a.dir) && name in a.open && Backed(c, f, name) && Mirrors(c, f, name, a.open[name])
    requires f.task.Finished? && f.task.outcome.CreateOk?
    ensures Legal(a, Respond(name, f.task.outcome))
  {
    var o := f.task.outcome;
    assert Holds(f.task, o.id);
    forall r | r in a.open[name]
      ensures Explains(a.dir, name, a.open[name][r], o)
    {
      assert a.open[name][r].sizeGB == f.sizeGB;
    }
  }

  lemma UnservedWhenRefused(c: Cloud, f: Flight, name: string, callers: map<nat, Caller>)
    requires Mirrors(c, f, name, callers) && Backed(c, f, name) && f.task == Fail(AlreadyExists)
    ensures callers != map[] && forall r :: r in callers ==> callers[r] == Caller(f.sizeGB, None)
  {
    var r :| r in f.callers;
    assert r in callers;
  }

  /** One unserved caller is refused now exactly if the name belongs to a volume of another size. */
  lemma RefusalExplained(c: Cloud, d: Directory, name: string, size: int)
    requires Shows(c, d)
    ensures Explains(d, name, Caller(size, None), Error(AlreadyExists)) <==> TakenOtherwise(c, name, size)
  {
    if TakenOtherwise(c, name, size) {
      var id :| id in c.vols && c.vols[id].name == name && c.vols[id].sizeGB != size;
      assert d[name] == Entry(id, c.vols[id].sizeGB);
    }
    if Explains(d, name, Caller(size, None), Error(AlreadyExists)) {
      assert GetOrCreate.GetOrCreate(d, name, size, "") == (d, Error(AlreadyExists));
      assert d[name].id in c.vols;
    }
  }

  /** A refusal is what each caller's operation returns when the flight ends, exactly if the conflict still exists. */
  lemma RefusalIsRespondExactly(c: Cloud, f: Flight, name: string, a: Atomic)
    requires Shows(c, a.dir) && name in a.open && Backed(c, f, name) && Mirrors(c, f, name, a.open[name])
    requires f.task == Fail(AlreadyExists)
    ensures Legal(a, Respond(name, Error(AlreadyExists))) <==> TakenOtherwise(c, name, f.sizeGB)
  {
    UnservedWhenRefused(c, f, name, a.open[name]);
    RefusalExplained(c, a.dir, name, f.sizeGB);
    var r :| r in a.open[name];
    assert a.open[name][r] == Caller(f.sizeGB, None);
  }

  lemma EndShape(s: System, name: string)
    requires Enabled(s, FlightEnd(name))
    ensures Apply(s, FlightEnd(name)).cloud == s.cloud && Apply(s, FlightEnd(name)).flights == s.flights - {name}
    ensures var o := s.flights[name].task.outcome;
            Linearized(s, FlightEnd(name))
            == if o.CreateOk? || RefusedAsOf(s, name) then Some(Respond(name, o)) else Some(GiveUp(name))
  {
  }

  /** What any call but NewVolume does to the directory and to the open calls. */
  lemma CallTracks(c: Cloud, call: Call, ch: Choice, d: Directory, flights: map<string, Flight>,
                   open: map<string, map<nat, Caller>>)
    requires WellFormed(c) && Answers(c, call, ch) && !call.NewVolume? && Shows(c, d) && OpenTracks(c, flights, open)
    ensures OpenTracks(Perform(c, call, ch), flights, open)
    ensures if call.DeleteVolume? && ch.applied
            then c.vols[call.id].name in d && Shows(Perform(c, call, ch), d - {c.vols[call.id].name})
            else Shows(Perform(c, call, ch), d)
  {
    var c' := Perform(c, call, ch);
    NamesKept(c, call, ch);
    CloudTracks(c, c', flights, open);
    if call.DeleteVolume? && ch.applied {
      ForgottenDirectory(c, c', d, call.id);
    } else {
      SizesKept(c, call, ch);
      assert c'.vols.Keys == c.vols.Keys;
      SameDirectory(c, c', d);
    }
  }

  lemma NeverNewVolume(t: Task, start: Start)
    requires Serves(t, start) && !t.Finished?
    ensures !Request(t).NewVolume?
  {
  }

  lemma RpcStepShape(s: System, req: nat, ch: Choice)
    requires Enabled(s, RpcStep(req, ch))
    ensures var e, call := RpcStep(req, ch), Request(s.rpcs[req].task);
            && Apply(s, e).flights == s.flights && Apply(s, e).cloud == Perform(s.cloud, call, ch)
            && Linearized(s, e)
               == if call.DeleteVolume? && ch.applied then Some(Forget(s.cloud.vols[call.id].name)) else None
  {
  }

  lemma RpcStepTracks(s: System, a: Atomic, req: nat, ch: Choice)
    requires WellFormed(s.cloud) && Tracks(s, a) && Enabled(s, RpcStep(req, ch))
    requires Serves(s.rpcs[req].task, s.rpcs[req].start)
    ensures Follows(a, Linearized(s, RpcStep(req, ch)), Apply(s, RpcStep(req, ch)))
  {
    NeverNewVolume(s.rpcs[req].task, s.rpcs[req].start);
    RpcStepShape(s, req, ch);
    CallTracks(s.cloud, Request(s.rpcs[req].task), ch, a.dir, s.flights, a.open);
  }

  lemma ProgressTracks(c: Cloud, c': Cloud, id: string, to: Volume, d: Directory, flights: map<string, Flight>,
                       open: map<string, map<nat, Caller>>)
    requires Shows(c, d) && OpenTracks(c, flights, open)
    requires id in c.vols && Progresses(c.vols[id], to) && c' == c.(vols := c.vols[id := to])
    ensures OpenTracks(c', flights, open)
    ensures if c.vols[id].status.Resizing?
            then to.name == c.vols[id].name && to.name in d
                 && Shows(c', d[to.name := d[to.name].(sizeGB := to.sizeGB)])
            else Shows(c', d)
  {
    CloudTracks(c, c', flights, open);
    if c.vols[id].status.Resizing? {
      GrownDirectory(c, c', d, id, to);
    } else {
      assert c'.vols.Keys == c.vols.Keys;
      SameDirectory(c, c', d);
    }
  }

  lemma AsyncTracks(s: System, a: Atomic, id: string, to: Volume)
    requires Tracks(s, a) && Enabled(s, Async(id, to))
    ensures Follows(a, Linearized(s, Async(id, to)), Apply(s, Async(id, to)))
  {
    ProgressTracks(s.cloud, Apply(s, Async(id, to)).cloud, id, to, a.dir, s.flights, a.open);
  }

  lemma FlightStepRefines(s: System, a: Atomic, name: string, ch: Choice)
    requires Sim(s) && Tracks(s, a) && Enabled(s, FlightStep(name, ch))
    ensures Follows(a, Linearized(s, FlightStep(name, ch)), Apply(s, FlightStep(name, ch)))
  {
    if Makes(s, FlightStep(name, ch)) {
      NewVolumeIsMake(s, a, name, ch);
    } else {
      SilentFlightStep(s, a, name, ch);
    }
  }

  /** The end of a flight, without what makes it possible. */
  lemma EndFollows(s: System, s': System, a: Atomic, name: string)
    requires Tracks(s, a) && name in s.flights && Backed(s.cloud, s.flights[name], name)
    requires s.flights[name].task.Finished? && s'.cloud == s.cloud && s'.flights == s.flights - {name}
    ensures var o := s.flights[name].task.outcome;
            Follows(a, if o.CreateOk? || RefusedAsOf(s, name) then Some(Respond(name, o)) else Some(GiveUp(name)), s')
  {
    var f := s.flights[name];
    FlightGoneTracks(s.cloud, s.flights, a.open, name);
    if f.task.outcome.CreateOk? {
      FlightEndIsRespond(s.cloud, f, name, a);
    } else if RefusedAsOf(s, name) {
      RefusalIsRespondExactly(s.cloud, f, name, a);
    }
  }

  lemma FlightEndRefines(s: System, a: Atomic, name: string)
    requires Sim(s) && Tracks(s, a) && Enabled(s, FlightEnd(name))
    ensures Follows(a, Linearized(s, FlightEnd(name)), Apply(s, FlightEnd(name)))
  {
    EndShape(s, name);
    assert Backed(s.cloud, s.flights[name], name);
    EndFollows(s, Apply(s, FlightEnd(name)), a, name);
  }

  lemma QuietShape(s: System, e: Event)
    requires Enabled(s, e) && (e.Restart? || e.Begin? || e.RpcEnd?)
    ensures Apply(s, e).cloud == s.cloud && Apply(s, e).flights == if e.Restart? then map[] else s.flights
    ensures Linearized(s, e) == if e.Restart? then Some(GiveUpAll) else None
  {
  }

  lemma QuietFollows(s: System, e: Event, a: Atomic)
    requires Tracks(s, a) && Enabled(s, e) && (e.Restart? || e.Begin? || e.RpcEnd?)
    ensures Follows(a, Linearized(s, e), Apply(s, e))
  {
    QuietShape(s, e);
  }

  lemma StepFollows(s: System, e: Event, a: Atomic)
    requires Sim(s) && Tracks(s, a) && Enabled(s, e)
    ensures Follows(a, Linearized(s, e), Apply(s, e))
  {
    match e
    case Join(req, name, size) => JoinIsAsk(s, a, req, name, size);
    case FlightStep(name, ch) => FlightStepRefines(s, a, name, ch);
    case FlightEnd(name) => FlightEndRefines(s, a, name);
    case RpcStep(req, ch) =>
      assert Serves(s.rpcs[req].task, s.rpcs[req].start);
      RpcStepTracks(s, a, req, ch);
    case Async(id, to) => AsyncTracks(s, a, id, to);
    case _ => QuietFollows(s, e, a);
  }

  lemma StepRefines(s: System, e: Event, a: Atomic)
    requires Sim(s) && Tracks(s, a) && Enabled(s, e) && Orderly(s, e)
    ensures Sim(Apply(s, e)) && Follows(a, Linearized(s, e), Apply(s, e))
  {
    StepKeepsSim(s, e);
    StepFollows(s, e, a);
  }

  /** The specification takes the operations of the run to a state that tracks its end. */
  ghost predicate Refines(s: System, es: seq<Event>, t: System, a: Atomic) {
    LegalRun(a, Linearization(s, es)) && Tracks(t, AfterAll(a, Linearization(s, es)))
  }

  function AfterOption(a: Atomic, op: Option<Op>): Atomic {
    match op
    case None => a
    case Some(o) => After(a, o)
  }

  lemma RunOfFirst(a: Atomic, op: Option<Op>, rest: seq<Op>)
    requires (op.Some? ==> Legal(a, op.value)) && LegalRun(AfterOption(a, op), rest)
    ensures LegalRun(a, OneOrNone(op) + rest)
    ensures AfterAll(a, OneOrNone(op) + rest) == AfterAll(AfterOption(a, op), rest)
  {
    if op.Some? {
      assert ([op.value] + rest)[1..] == rest;
    } else {
      assert [] + rest == rest;
    }
  }

  /** From every state that tracks a specification state, an orderly run is one of the specification. */
  lemma {:induction false} RunRefines(s: System, es: seq<Event>, t: System, a: Atomic)
    requires Sim(s) && Tracks(s, a) && Run(s, es, t) && OrderlyRun(s, es)
    ensures Refines(s, es, t, a)
    decreases |es|
  {
    if es != [] {
      StepRefines(s, es[0], a);
      var op, s' := Linearized(s, es[0]), Apply(s, es[0]);
      RunRefines(s', es[1..], t, AfterOption(a, op));
      RunOfFirst(a, op, Linearization(s', es[1..]));
    }
  }

  /** A fresh controller tracks its cloud's directory with no open call. */
  lemma FreshPodTracks(c: Cloud)
    requires WellFormed(c) && UniqueNames(c)
    ensures var s := System(c, map[], map[]); Sim(s) && Tracks(s, Atomic(DirectoryOf(c), map[]))
  {
    FreshPodSimulates(c);
    DirectoryShows(c);
  }

  /**
   The refinement. From a fresh controller over any cloud with unique names, every orderly run, with any
   number of concurrent callers, names, restarts and failures, is a run of the atomic get-or-create: every
   creation is the operation of a caller that asked for that name and size and is still waiting, and
   every successful response is what the one operation of that very caller returned, at NewVolume or at
   the instant the flight ends. So is every refusal given while the size conflict still exists; see
   RefusalIsRespondExactly.
   */
  lemma CreateRefinesGetOrCreate(c: Cloud, es: seq<Event>, t: System)
    requires WellFormed(c) && UniqueNames(c)
    requires Run(System(c, map[], map[]), es, t) && OrderlyRun(System(c, map[], map[]), es)
    ensures Refines(System(c, map[], map[]), es, t, Atomic(DirectoryOf(c), map[]))
  {
    FreshPodTracks(c);
    RunRefines(System(c, map[], map[]), es, t, Atomic(DirectoryOf(c), map[]));
  }
}
