/**
 Publish and Unpublish retried by the orchestrator converge, in every run of the system in which a volume is
 only called for one goal, one call at a time. Every call that ends without success got a faulty answer,
 brought the volume nearer to its goal, or met a transition of the cloud that did not end during the call;
 the second happens at most three times, so only faults and slow transitions can delay success.
 */
module Convergence {
  import opened Wrappers
  import opened CivoApi
  import opened Handlers
  import opened Interleaving
  import Serial

  datatype Goal = AttachTo(node: string) | DetachFrom(node: string)

  function StartOf(g: Goal, id: string): Start {
    match g
    case AttachTo(node) => Publish(id, node)
    case DetachFrom(node) => Unpublish(id, node)
  }

  function Success(g: Goal): Outcome {
    match g
    case AttachTo(_) => PublishOk
    case DetachFrom(_) => UnpublishOk
  }

  // ---- The measure ----

  /** Free, or held by or leaving the node; for an attach it may also be leaving another node. */
  predicate OnCourse(g: Goal, v: Volume) {
    match g
    case AttachTo(node) =>
      || (v.status.Available? && v.instance != node)
      || ((v.status.Attaching? || v.status.Attached?) && v.instance == node)
      || (v.status.Detaching? && node != "")
    case DetachFrom(node) =>
      || v.status.Available?
      || ((v.status.Attaching? || v.status.Attached? || v.status.Detaching?) && v.instance == node)
  }

  /** How many changes of status are still ahead. */
  function Rank(g: Goal, v: Volume): nat {
    match g
    case AttachTo(_) =>
      (match v.status
       case Detaching => 3
       case Available => 2
       case Attaching => 1
       case _ => 0)
    case DetachFrom(_) =>
      (match v.status
       case Attaching => 3
       case Attached => 2
       case Detaching => 1
       case _ => 0)
  }

  predicate InTransition(v: Volume) {
    v.status.Attaching? || v.status.Detaching?
  }

  // ---- Retrying ----

  /**
   Calls on the volume are made for the goal only, one at a time, and an attach takes effect on an available
   volume only: repeating it is harmless. Everything else may happen as it likes.
   */
  ghost predicate Retry(g: Goal, id: string, s: System, e: Event)
    requires Enabled(s, e)
  {
    && (e.Begin? && e.start.id == id ==>
          e.start == StartOf(g, id) && forall r :: r in s.rpcs ==> s.rpcs[r].start.id != id)
    && (Applies(e) && CallOf(s, e).value.AttachVolume? && CallOf(s, e).value.id == id ==>
          s.cloud.vols[id].status.Available?)
  }

  ghost predicate Retrying(g: Goal, id: string, s: System, es: seq<Event>)
    decreases |es|
  {
    es != [] && Enabled(s, es[0]) ==> Retry(g, id, s, es[0]) && Retrying(g, id, Apply(s, es[0]), es[1..])
  }

  /** A failure, or a cluster in which the node is missing. */
  predicate FaultyAnswer(t: Task, r: Reply) {
    r.Failed? || (t.PublishCluster? && r.Instances? && t.node !in r.nodes)
  }

  /** What is remembered of a call in flight: the rank when it began, and whether it got a faulty answer. */
  datatype Record = Record(rank: nat, faulted: bool)

  /** The records of the calls on the volume, after an event. */
  ghost function Note(g: Goal, id: string, s: System, e: Event, h: map<nat, Record>): map<nat, Record>
    requires Enabled(s, e) && id in s.cloud.vols
  {
    match e
    case Begin(req, start) => if start.id == id then h[req := Record(Rank(g, s.cloud.vols[id]), false)] else h
    case RpcStep(req, ch) =>
      if req in h then h[req := h[req].(faulted := h[req].faulted || FaultyAnswer(s.rpcs[req].task, ch.reply))] else h
    case RpcEnd(req) => h - {req}
    case Restart => map[]
    case _ => h
  }

  // ---- What a call relies on ----

  /** A call has its decision still valid, and, should it fail without a fault, something to show for it. */
  predicate Ongoing(g: Goal, v: Volume, t: Task, rec: Record) {
    && Rank(g, v) <= rec.rank
    && (rec.faulted ==> t.Finished?)
    && match t
       case PublishAttach(_, _) => !v.status.Detaching?
       case PublishReread(_, _) => Rank(g, v) < rec.rank || !v.status.Available?
       case UnpublishDetach(_, _) => v.status.Attaching? || v.status.Attached?
       case UnpublishReread(_, _) => Rank(g, v) < rec.rank || !v.status.Attached?
       case Finished(o) =>
         o == Success(g) || (o.Error? && (rec.faulted || Rank(g, v) < rec.rank || InTransition(v)))
       case _ => true
  }

  ghost predicate Inv(g: Goal, id: string, s: System, h: map<nat, Record>) {
    && Typed(s) && WellFormed(s.cloud) && id in s.cloud.vols && OnCourse(g, s.cloud.vols[id])
    && (g.AttachTo? ==> g.node != "")
    && (forall r :: r in h <==> r in s.rpcs && s.rpcs[r].start.id == id)
    && (forall q, r :: q in h && r in h ==> q == r)
    && (forall r :: r in h ==>
          s.rpcs[r].start == StartOf(g, id) && Ongoing(g, s.cloud.vols[id], s.rpcs[r].task, h[r]))
  }

  /** An answer to a call of the goal. */
  lemma OwnCall(g: Goal, c: Cloud, r: Rpc, ch: Choice, rec: Record)
    requires WellFormed(c) && r.start.id in c.vols && r.start == StartOf(g, r.start.id) && Serves(r.task, r.start)
    requires !r.task.Finished? && Answers(c, Request(r.task), ch)
    requires OnCourse(g, c.vols[r.start.id]) && Ongoing(g, c.vols[r.start.id], r.task, rec)
    requires ch.applied && Request(r.task).AttachVolume? ==> c.vols[r.start.id].status.Available?
    ensures var c', t' := Perform(c, Request(r.task), ch), Resume(r.task, ch.reply);
            && r.start.id in c'.vols && OnCourse(g, c'.vols[r.start.id])
            && Rank(g, c'.vols[r.start.id]) <= Rank(g, c.vols[r.start.id])
            && Ongoing(g, c'.vols[r.start.id], t', rec.(faulted := rec.faulted || FaultyAnswer(r.task, ch.reply)))
  {
    match g
    case AttachTo(_) =>
    case DetachFrom(_) =>
  }

  /** The cloud completes a transition. */
  lemma Completes(g: Goal, v: Volume, w: Volume, t: Task, rec: Record)
    requires OnCourse(g, v) && Progresses(v, w)
    ensures OnCourse(g, w) && Rank(g, w) < Rank(g, v)
    ensures Ongoing(g, v, t, rec) ==> Ongoing(g, w, t, rec)
  {
  }

  // ---- Every event keeps to the course ----

  ghost predicate NoFurther(g: Goal, id: string, s: System, t: System)
    requires id in s.cloud.vols
  {
    id in t.cloud.vols && Rank(g, t.cloud.vols[id]) <= Rank(g, s.cloud.vols[id])
  }

  /** The step of another volume's call or of a flight. */
  lemma OtherCallKeeps(c: Cloud, call: Call, ch: Choice, id: string)
    requires WellFormed(c) && Answers(c, call, ch) && id in c.vols
    requires || call.NewVolume? || call.ListVolumes? || call.GetQuota? || call.GetVolume? || call.GetCluster?
             || call.id != id
    ensures var c' := Perform(c, call, ch); id in c'.vols && c'.vols[id] == c.vols[id]
  {
    Serial.OthersUntouched(c, call, ch, id);
  }

  lemma FlightStepKeeps(g: Goal, id: string, s: System, h: map<nat, Record>, name: string, ch: Choice)
    requires Inv(g, id, s, h) && Enabled(s, FlightStep(name, ch))
    ensures var s' := Apply(s, FlightStep(name, ch));
            id in s'.cloud.vols && s'.cloud.vols[id] == s.cloud.vols[id] && s'.rpcs == s.rpcs
  {
    assert CreatesFor(s.flights[name].task, name, s.flights[name].sizeGB);
    OtherCallKeeps(s.cloud, Request(s.flights[name].task), ch, id);
  }

  lemma OtherRpcKeeps(g: Goal, id: string, s: System, h: map<nat, Record>, req: nat, ch: Choice)
    requires Inv(g, id, s, h) && Enabled(s, RpcStep(req, ch)) && s.rpcs[req].start.id != id
    ensures var s' := Apply(s, RpcStep(req, ch));
            id in s'.cloud.vols && s'.cloud.vols[id] == s.cloud.vols[id]
  {
    assert Serves(s.rpcs[req].task, s.rpcs[req].start);
    Serial.CallNames(s.rpcs[req]);
    OtherCallKeeps(s.cloud, Request(s.rpcs[req].task), ch, id);
  }

  lemma OwnRpcKeeps(g: Goal, id: string, s: System, h: map<nat, Record>, req: nat, ch: Choice)
    requires Inv(g, id, s, h) && Enabled(s, RpcStep(req, ch)) && s.rpcs[req].start.id == id
    requires Retry(g, id, s, RpcStep(req, ch))
    ensures var e := RpcStep(req, ch);
            && NoFurther(g, id, s, Apply(s, e)) && OnCourse(g, Apply(s, e).cloud.vols[id])
            && req in Note(g, id, s, e, h)
            && Ongoing(g, Apply(s, e).cloud.vols[id], Apply(s, e).rpcs[req].task, Note(g, id, s, e, h)[req])
  {
    assert req in h && Serves(s.rpcs[req].task, s.rpcs[req].start);
    Serial.CallNames(s.rpcs[req]);
    OwnCall(g, s.cloud, s.rpcs[req], ch, h[req]);
  }

  lemma RpcStepKeepsInv(g: Goal, id: string, s: System, h: map<nat, Record>, req: nat, ch: Choice)
    requires Inv(g, id, s, h) && Enabled(s, RpcStep(req, ch)) && Retry(g, id, s, RpcStep(req, ch))
    ensures var e := RpcStep(req, ch); Inv(g, id, Apply(s, e), Note(g, id, s, e, h)) && NoFurther(g, id, s, Apply(s, e))
  {
    var e := RpcStep(req, ch);
    TypedStep(s, e);
    WellFormedStep(s, e);
    if s.rpcs[req].start.id == id {
      OwnRpcKeeps(g, id, s, h, req, ch);
    } else {
      OtherRpcKeeps(g, id, s, h, req, ch);
    }
  }

  lemma AsyncKeepsInv(g: Goal, id: string, s: System, h: map<nat, Record>, i: string, to: Volume)
    requires Inv(g, id, s, h) && Enabled(s, Async(i, to))
    ensures Inv(g, id, Apply(s, Async(i, to)), h) && NoFurther(g, id, s, Apply(s, Async(i, to)))
  {
    TypedStep(s, Async(i, to));
    WellFormedStep(s, Async(i, to));
    if i == id {
      forall r | r in h {
        Completes(g, s.cloud.vols[id], to, s.rpcs[r].task, h[r]);
      }
      Completes(g, s.cloud.vols[id], to, Finished(Success(g)), Record(0, false));
    }
  }

  /** Joining, beginning, ending and restarting change no volume. */
  lemma QuietKeepsInv(g: Goal, id: string, s: System, e: Event, h: map<nat, Record>)
    requires Inv(g, id, s, h) && Enabled(s, e) && Retry(g, id, s, e)
    requires e.Join? || e.FlightEnd? || e.Begin? || e.RpcEnd? || e.Restart?
    ensures Apply(s, e).cloud == s.cloud && Inv(g, id, Apply(s, e), Note(g, id, s, e, h))
  {
    TypedStep(s, e);
    match e
    case Begin(req, start) => BeginKeepsInv(g, id, s, h, req, start);
    case RpcEnd(_) =>
    case Restart =>
    case _ =>
  }

  lemma BeginKeepsInv(g: Goal, id: string, s: System, h: map<nat, Record>, req: nat, start: Start)
    requires Inv(g, id, s, h) && Enabled(s, Begin(req, start)) && Retry(g, id, s, Begin(req, start))
    ensures Inv(g, id, Apply(s, Begin(req, start)), Note(g, id, s, Begin(req, start), h))
  {
    var e := Begin(req, start);
    TypedStep(s, e);
    if start.id == id {
      assert h == map[];
    }
  }

  lemma StepKeepsInv(g: Goal, id: string, s: System, e: Event, h: map<nat, Record>)
    requires Inv(g, id, s, h) && Enabled(s, e) && Retry(g, id, s, e)
    ensures Inv(g, id, Apply(s, e), Note(g, id, s, e, h)) && NoFurther(g, id, s, Apply(s, e))
  {
    match e
    case FlightStep(name, ch) =>
      TypedStep(s, e);
      WellFormedStep(s, e);
      FlightStepKeeps(g, id, s, h, name, ch);
    case RpcStep(req, ch) => RpcStepKeepsInv(g, id, s, h, req, ch);
    case Async(i, to) => AsyncKeepsInv(g, id, s, h, i, to);
    case _ => QuietKeepsInv(g, id, s, e, h);
  }

  // ---- How calls end ----

  /** A call ends in success, after a faulty answer, nearer to the goal than it began, or at the rank it began with. */
  datatype Ending = Succeeded | Faulted | Advanced | Stalled(rank: nat)

  ghost function Ends(g: Goal, id: string, s: System, e: Event, h: map<nat, Record>): Option<Ending>
    requires Enabled(s, e) && id in s.cloud.vols
  {
    if !e.RpcEnd? || e.req !in h then None
    else if s.rpcs[e.req].task.outcome == Success(g) then Some(Succeeded)
    else if h[e.req].faulted then Some(Faulted)
    else if Rank(g, s.cloud.vols[id]) < h[e.req].rank then Some(Advanced)
    else Some(Stalled(h[e.req].rank))
  }

  function One(b: bool): nat {
    if b then 1 else 0
  }

  /** The calls on the volume that end so in the run. */
  ghost function Count(g: Goal, id: string, s: System, es: seq<Event>, h: map<nat, Record>, k: Ending): nat
    decreases |es|
  {
    if es == [] || !Enabled(s, es[0]) || id !in s.cloud.vols then 0
    else
      One(Ends(g, id, s, es[0], h) == Some(k))
      + Count(g, id, Apply(s, es[0]), es[1..], Note(g, id, s, es[0], h), k)
  }

  ghost function Ended(g: Goal, id: string, s: System, es: seq<Event>, h: map<nat, Record>): nat
    decreases |es|
  {
    if es == [] || !Enabled(s, es[0]) || id !in s.cloud.vols then 0
    else
      One(Ends(g, id, s, es[0], h).Some?)
      + Ended(g, id, Apply(s, es[0]), es[1..], Note(g, id, s, es[0], h))
  }

  /** A call that stalls leaves the volume in the transition it found it in. */
  lemma StallsInTransition(g: Goal, id: string, s: System, e: Event, h: map<nat, Record>)
    requires Inv(g, id, s, h) && Enabled(s, e) && Ends(g, id, s, e, h).Some? && Ends(g, id, s, e, h).value.Stalled?
    ensures InTransition(s.cloud.vols[id]) && h[e.req].rank == Rank(g, s.cloud.vols[id])
    ensures Ends(g, id, s, e, h).value.rank in {1, 3}
  {
    assert Ongoing(g, s.cloud.vols[id], s.rpcs[e.req].task, h[e.req]);
  }

  lemma EndingIsCounted(g: Goal, id: string, s: System, e: Event, h: map<nat, Record>)
    requires Inv(g, id, s, h) && Enabled(s, e)
    ensures var end := Ends(g, id, s, e, h);
            One(end.Some?) == One(end == Some(Succeeded)) + One(end == Some(Faulted)) + One(end == Some(Advanced))
                              + One(end == Some(Stalled(1))) + One(end == Some(Stalled(3)))
  {
    var end := Ends(g, id, s, e, h);
    if end.Some? && end.value.Stalled? {
      StallsInTransition(g, id, s, e, h);
    }
  }

  lemma {:induction false} EndingsAddUp(g: Goal, id: string, s: System, es: seq<Event>, t: System, h: map<nat, Record>)
    requires Inv(g, id, s, h) && Run(s, es, t) && Retrying(g, id, s, es)
    ensures Ended(g, id, s, es, h)
            == Count(g, id, s, es, h, Succeeded) + Count(g, id, s, es, h, Faulted) + Count(g, id, s, es, h, Advanced)
               + Count(g, id, s, es, h, Stalled(1)) + Count(g, id, s, es, h, Stalled(3))
    decreases |es|
  {
    if es != [] {
      EndingIsCounted(g, id, s, es[0], h);
      StepKeepsInv(g, id, s, es[0], h);
      EndingsAddUp(g, id, Apply(s, es[0]), es[1..], t, Note(g, id, s, es[0], h));
    }
  }

  // ---- Advances are paid by the rank ----

  /** 1 while a call is in flight that has seen the rank fall. */
  ghost function Credit(g: Goal, id: string, s: System, h: map<nat, Record>): nat
    requires id in s.cloud.vols
  {
    if exists r :: r in h && Rank(g, s.cloud.vols[id]) < h[r].rank then 1 else 0
  }

  /** What the end of a call and the fall of the rank do to the account. */
  lemma StepPays(g: Goal, id: string, s: System, e: Event, h: map<nat, Record>)
    requires Inv(g, id, s, h) && Enabled(s, e) && Retry(g, id, s, e) && NoFurther(g, id, s, Apply(s, e))
    requires Inv(g, id, Apply(s, e), Note(g, id, s, e, h))
    ensures One(Ends(g, id, s, e, h) == Some(Advanced)) + Rank(g, Apply(s, e).cloud.vols[id])
            + Credit(g, id, Apply(s, e), Note(g, id, s, e, h))
            <= Rank(g, s.cloud.vols[id]) + Credit(g, id, s, h)
  {
    match e
    case RpcEnd(req) => EndPays(g, id, s, h, req);
    case Begin(req, start) => BeginPays(g, id, s, h, req, start);
    case Restart =>
    case _ => SameCallsPay(g, id, s, e, h);
  }

  lemma EndPays(g: Goal, id: string, s: System, h: map<nat, Record>, req: nat)
    requires Inv(g, id, s, h) && Enabled(s, RpcEnd(req))
    ensures One(Ends(g, id, s, RpcEnd(req), h) == Some(Advanced)) + Credit(g, id, Apply(s, RpcEnd(req)), h - {req})
            <= Credit(g, id, s, h)
  {
  }

  lemma BeginPays(g: Goal, id: string, s: System, h: map<nat, Record>, req: nat, start: Start)
    requires Inv(g, id, s, h) && Enabled(s, Begin(req, start)) && Retry(g, id, s, Begin(req, start))
    ensures Credit(g, id, Apply(s, Begin(req, start)), Note(g, id, s, Begin(req, start), h)) <= Credit(g, id, s, h)
  {
    if start.id == id {
      assert h == map[];
    }
  }

  /** The same calls stay in flight: a new credit means that the rank fell. */
  lemma SameCallsPay(g: Goal, id: string, s: System, e: Event, h: map<nat, Record>)
    requires Inv(g, id, s, h) && Enabled(s, e) && NoFurther(g, id, s, Apply(s, e))
    requires !e.RpcEnd? && !e.Begin? && !e.Restart?
    ensures Rank(g, Apply(s, e).cloud.vols[id]) + Credit(g, id, Apply(s, e), Note(g, id, s, e, h))
            <= Rank(g, s.cloud.vols[id]) + Credit(g, id, s, h)
  {
    var h' := Note(g, id, s, e, h);
    assert h'.Keys == h.Keys && forall r :: r in h ==> h'[r].rank == h[r].rank;
  }

  lemma {:induction false} AdvancesArePaid(g: Goal, id: string, s: System, es: seq<Event>, t: System,
                                           h: map<nat, Record>)
    requires Inv(g, id, s, h) && Run(s, es, t) && Retrying(g, id, s, es)
    ensures id in t.cloud.vols
    ensures Count(g, id, s, es, h, Advanced) + Rank(g, t.cloud.vols[id])
            <= Rank(g, s.cloud.vols[id]) + Credit(g, id, s, h)
    decreases |es|
  {
    if es != [] {
      StepKeepsInv(g, id, s, es[0], h);
      StepPays(g, id, s, es[0], h);
      AdvancesArePaid(g, id, Apply(s, es[0]), es[1..], t, Note(g, id, s, es[0], h));
    }
  }

  // ---- Convergence ----

  /** A volume on course, without a call on it in flight. */
  ghost predicate AtRest(g: Goal, id: string, s: System) {
    && Typed(s) && WellFormed(s.cloud) && id in s.cloud.vols && OnCourse(g, s.cloud.vols[id])
    && (g.AttachTo? ==> g.node != "")
    && forall r :: r in s.rpcs ==> s.rpcs[r].start.id != id
  }

  /** The cloud ends each transition before more than `bound` calls have stalled in it. */
  ghost predicate Prompt(g: Goal, id: string, s: System, es: seq<Event>, bound: nat) {
    Count(g, id, s, es, map[], Stalled(1)) <= bound && Count(g, id, s, es, map[], Stalled(3)) <= bound
  }

  /**
   Convergence: of the calls that end in any such run, all succeed but those with a faulty answer, at most
   one for each change of status still ahead, and `bound` for each transition. So once more calls than
   that have ended, one of them has succeeded.
   */
  lemma RetriesConverge(g: Goal, id: string, s: System, es: seq<Event>, t: System, bound: nat)
    requires AtRest(g, id, s) && Run(s, es, t) && Retrying(g, id, s, es) && Prompt(g, id, s, es, bound)
    ensures id in t.cloud.vols
    ensures Ended(g, id, s, es, map[])
            <= Count(g, id, s, es, map[], Succeeded) + Count(g, id, s, es, map[], Faulted)
               + Rank(g, s.cloud.vols[id]) - Rank(g, t.cloud.vols[id]) + 2 * bound
  {
    EndingsAddUp(g, id, s, es, t, map[]);
    AdvancesArePaid(g, id, s, es, t, map[]);
  }

  // ---- A volume that is free but still carries the node's id ----

  ghost predicate Stale(id: string, node: string, s: System, h: map<nat, Record>) {
    && Typed(s) && WellFormed(s.cloud) && id in s.cloud.vols
    && s.cloud.vols[id].status.Available? && s.cloud.vols[id].instance == node
    && (forall r :: r in h <==> r in s.rpcs && s.rpcs[r].start.id == id)
    && forall r :: r in h ==>
         s.rpcs[r].start == Publish(id, node) && !s.rpcs[r].task.PublishAttach? && s.rpcs[r].task != Finished(PublishOk)
  }

  lemma StaleOwnCall(c: Cloud, r: Rpc, ch: Choice, node: string)
    requires WellFormed(c) && r.start.id in c.vols && r.start == Publish(r.start.id, node) && Serves(r.task, r.start)
    requires !r.task.Finished? && !r.task.PublishAttach? && Answers(c, Request(r.task), ch)
    requires c.vols[r.start.id].status.Available? && c.vols[r.start.id].instance == node
    ensures Perform(c, Request(r.task), ch) == c
    ensures var t' := Resume(r.task, ch.reply); !t'.PublishAttach? && t' != Finished(PublishOk)
  {
  }

  lemma StaleFlightStep(id: string, node: string, s: System, h: map<nat, Record>, name: string, ch: Choice)
    requires Stale(id, node, s, h) && Enabled(s, FlightStep(name, ch))
    ensures Stale(id, node, Apply(s, FlightStep(name, ch)), h)
  {
    TypedStep(s, FlightStep(name, ch));
    WellFormedStep(s, FlightStep(name, ch));
    assert CreatesFor(s.flights[name].task, name, s.flights[name].sizeGB);
    OtherCallKeeps(s.cloud, Request(s.flights[name].task), ch, id);
  }

  lemma StaleRpcStep(id: string, node: string, s: System, h: map<nat, Record>, req: nat, ch: Choice)
    requires Stale(id, node, s, h) && Enabled(s, RpcStep(req, ch))
    ensures var e := RpcStep(req, ch); Stale(id, node, Apply(s, e), Note(AttachTo(node), id, s, e, h))
  {
    var r := s.rpcs[req];
    TypedStep(s, RpcStep(req, ch));
    WellFormedStep(s, RpcStep(req, ch));
    assert Serves(r.task, r.start);
    Serial.CallNames(r);
    if r.start.id == id {
      StaleOwnCall(s.cloud, r, ch, node);
    } else {
      OtherCallKeeps(s.cloud, Request(r.task), ch, id);
    }
  }

  /** A free volume makes no progress of its own. */
  lemma StaleQuietStep(id: string, node: string, s: System, h: map<nat, Record>, e: Event)
    requires Stale(id, node, s, h) && Enabled(s, e) && Retry(AttachTo(node), id, s, e)
    requires !e.FlightStep? && !e.RpcStep?
    ensures Stale(id, node, Apply(s, e), Note(AttachTo(node), id, s, e, h))
  {
    TypedStep(s, e);
    WellFormedStep(s, e);
    match e
    case Join(_, _, _) =>
    case FlightEnd(_) =>
    case Begin(_, _) =>
    case RpcEnd(_) =>
    case Async(_, _) =>
    case Restart =>
  }

  lemma StaleStays(id: string, node: string, s: System, e: Event, h: map<nat, Record>)
    requires Stale(id, node, s, h) && Enabled(s, e) && Retry(AttachTo(node), id, s, e)
    ensures Stale(id, node, Apply(s, e), Note(AttachTo(node), id, s, e, h))
  {
    match e
    case FlightStep(name, ch) => StaleFlightStep(id, node, s, h, name, ch);
    case RpcStep(req, ch) => StaleRpcStep(id, node, s, h, req, ch);
    case _ => StaleQuietStep(id, node, s, h, e);
  }

  /** An available volume that still carries the requested node's id is never attached by any retry. */
  lemma {:induction false} StaleNeverPublished(id: string, node: string, s: System, es: seq<Event>, t: System,
                                               h: map<nat, Record>)
    requires Stale(id, node, s, h) && Run(s, es, t) && Retrying(AttachTo(node), id, s, es)
    ensures Count(AttachTo(node), id, s, es, h, Succeeded) == 0
    decreases |es|
  {
    if es != [] {
      StaleStays(id, node, s, es[0], h);
      StaleNeverPublished(id, node, Apply(s, es[0]), es[1..], t, Note(AttachTo(node), id, s, es[0], h));
    }
  }

  /**
   For an available volume, more retries of a publish than the bound of RetriesConverge contain a success
   if and only if the volume does not carry the node's id.
   */
  lemma PublishConvergesExactly(id: string, node: string, s: System, es: seq<Event>, t: System, bound: nat)
    requires Typed(s) && WellFormed(s.cloud) && id in s.cloud.vols && s.cloud.vols[id].status.Available? && node != ""
    requires forall r :: r in s.rpcs ==> s.rpcs[r].start.id != id
    requires var g := AttachTo(node);
             && Run(s, es, t) && Retrying(g, id, s, es) && Prompt(g, id, s, es, bound)
             && Ended(g, id, s, es, map[]) > Count(g, id, s, es, map[], Faulted) + 2 + 2 * bound
    ensures Count(AttachTo(node), id, s, es, map[], Succeeded) > 0 <==> s.cloud.vols[id].instance != node
  {
    if s.cloud.vols[id].instance == node {
      StaleNeverPublished(id, node, s, es, t, map[]);
    } else {
      RetriesConverge(AttachTo(node), id, s, es, t, bound);
    }
  }
}
