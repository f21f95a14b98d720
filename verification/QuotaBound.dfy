/**
 CreateVolume checks the quota and calls NewVolume in two separate API calls, so creates of different
 names can race past the limits. The overshoot has an exact bound in the number of flights between
 the two calls.
 */
module QuotaBound {
  import opened MapSums
  import opened CivoApi
  import opened Handlers
  import opened Interleaving

  /** 1 for a flight between its quota check and NewVolume. */
  function Waiting(f: Flight): int {
    if f.task.CreateNew? then 1 else 0
  }

  /** The gigabytes such a flight is about to ask for. */
  function Promised(f: Flight): int {
    if f.task.CreateNew? then f.task.sizeGB else 0
  }

  ghost function PendingMap(fs: map<string, Flight>): map<string, int> {
    map n | n in fs :: Waiting(fs[n])
  }

  ghost function PromisedMap(fs: map<string, Flight>): map<string, int> {
    map n | n in fs :: Promised(fs[n])
  }

  ghost function PendingCount(s: System): int {
    Total(PendingMap(s.flights))
  }

  ghost function PromisedGB(s: System): int {
    Total(PromisedMap(s.flights))
  }

  ghost predicate WithinBounds(s: System, k: nat) {
    && UsedGB(s.cloud) + PromisedGB(s) <= k * s.cloud.gbLimit
    && |s.cloud.vols.Keys| + PendingCount(s) <= s.cloud.countLimit + k - 1
  }

  ghost predicate SizesSane(s: System) {
    && (forall id :: id in s.cloud.vols ==> 0 <= s.cloud.vols[id].sizeGB)
    && (forall n :: n in s.flights ==>
          0 <= s.flights[n].sizeGB && 0 <= Promised(s.flights[n]) <= s.cloud.gbLimit)
    && 0 <= s.cloud.gbLimit
  }

  ghost predicate Inv(s: System, k: nat) {
    Typed(s) && WellFormed(s.cloud) && SizesSane(s) && WithinBounds(s, k)
  }

  /** Creates of non-negative sizes and deletes; nothing resizes a volume. */
  ghost predicate NoResize(s: System, e: Event)
    requires Enabled(s, e)
  {
    && (e.Join? ==> 0 <= e.sizeGB)
    && (Applies(e) ==> !CallOf(s, e).value.ResizeVolume?)
    && (e.Async? ==> e.to.sizeGB == s.cloud.vols[e.id].sizeGB)
  }

  /** A run without resizes in whose states at most k flights are pending. */
  ghost predicate BoundedRun(s: System, es: seq<Event>, k: nat)
    decreases |es|
  {
    && PendingCount(s) <= k
    && (es != [] && Enabled(s, es[0]) ==> NoResize(s, es[0]) && BoundedRun(Apply(s, es[0]), es[1..], k))
  }

  // ---- The effect of one call on the usage ----

  ghost function MadeGB(call: Call, ch: Choice): int {
    if call.NewVolume? && ch.applied then call.sizeGB else 0
  }

  ghost function Made(call: Call, ch: Choice): int {
    if call.NewVolume? && ch.applied then 1 else 0
  }

  lemma UsageAfterChange(c: Cloud, c': Cloud, id: string)
    requires c'.vols - {id} == c.vols - {id}
    ensures UsedGB(c') == UsedGB(c) - At(SizesOf(c), id) + At(SizesOf(c'), id)
    ensures |c'.vols.Keys| == |c.vols.Keys| - (if id in c.vols then 1 else 0) + (if id in c'.vols then 1 else 0)
  {
    SameElsewhere(c.vols, c'.vols, id);
    assert SizesOf(c') - {id} == SizesOf(c) - {id};
    TotalChange(SizesOf(c), SizesOf(c'), id);
  }

  lemma UsageAfterCall(c: Cloud, call: Call, ch: Choice)
    requires WellFormed(c) && Answers(c, call, ch) && !(call.ResizeVolume? && ch.applied)
    requires forall id :: id in c.vols ==> 0 <= c.vols[id].sizeGB
    ensures var c' := Perform(c, call, ch);
            UsedGB(c') <= UsedGB(c) + MadeGB(call, ch) && |c'.vols.Keys| <= |c.vols.Keys| + Made(call, ch)
  {
    if ch.applied {
      match call
      case NewVolume(_, _) => UsageAfterChange(c, Perform(c, call, ch), ch.newId);
      case DeleteVolume(id) => UsageAfterChange(c, Perform(c, call, ch), id);
      case AttachVolume(id, _) => UsageAfterChange(c, Perform(c, call, ch), id);
      case DetachVolume(id) => UsageAfterChange(c, Perform(c, call, ch), id);
    }
  }

  /** The pending totals change only by the entry of the flight that moves. */
  lemma PendingAfterChange(fs: map<string, Flight>, fs': map<string, Flight>, name: string)
    requires fs' - {name} == fs - {name}
    ensures Total(PendingMap(fs')) == Total(PendingMap(fs)) - At(PendingMap(fs), name) + At(PendingMap(fs'), name)
  {
    SameElsewhere(fs, fs', name);
    assert PendingMap(fs') - {name} == PendingMap(fs) - {name};
    TotalChange(PendingMap(fs), PendingMap(fs'), name);
  }

  lemma PromisedAfterChange(fs: map<string, Flight>, fs': map<string, Flight>, name: string)
    requires fs' - {name} == fs - {name}
    ensures Total(PromisedMap(fs'))
            == Total(PromisedMap(fs)) - At(PromisedMap(fs), name) + At(PromisedMap(fs'), name)
  {
    SameElsewhere(fs, fs', name);
    assert PromisedMap(fs') - {name} == PromisedMap(fs) - {name};
    TotalChange(PromisedMap(fs), PromisedMap(fs'), name);
  }

  // ---- Preservation, event by event ----

  lemma Monotone(a: int, b: int, x: int)
    requires a <= b && 0 <= x
    ensures a * x <= b * x
  {}

  lemma OthersPromiseLittle(s: System)
    requires SizesSane(s)
    ensures PromisedGB(s) <= PendingCount(s) * s.cloud.gbLimit
  {
    TotalScaled(PromisedMap(s.flights), PendingMap(s.flights), s.cloud.gbLimit);
  }

  lemma UnderOneMore(n: int, k: nat, limit: int, own: int, others: int)
    requires n + 1 <= k && 0 <= limit && own <= limit && others <= n * limit
    ensures own + others <= k * limit
  {
    Monotone(n + 1, k, limit);
    Distribute(n, 1, limit);
  }

  /** A flight starts waiting only by passing the quota check, with a size that was still available. */
  lemma StartsWaiting(s: System, name: string, ch: Choice)
    requires Typed(s) && SizesSane(s) && Enabled(s, FlightStep(name, ch))
    ensures var f := s.flights[name];
            var f' := f.(task := Resume(f.task, ch.reply));
            && (Waiting(f') == 1 ==>
                  f.task.CreateQuota? && Promised(f') == f.sizeGB <= s.cloud.gbLimit - UsedGB(s.cloud)
                  && |s.cloud.vols.Keys| < s.cloud.countLimit)
            && (Waiting(f') == 0 ==> Promised(f') == 0)
  {
    assert CreatesFor(s.flights[name].task, name, s.flights[name].sizeGB);
  }

  lemma FlightStepKeepsSane(s: System, name: string, ch: Choice)
    requires Typed(s) && WellFormed(s.cloud) && SizesSane(s) && Enabled(s, FlightStep(name, ch))
    ensures SizesSane(Apply(s, FlightStep(name, ch)))
  {
    TotalNonNegative(SizesOf(s.cloud));
    StartsWaiting(s, name, ch);
    var f := s.flights[name];
    assert CreatesFor(f.task, name, f.sizeGB);
  }

  lemma RpcNeverCreates(t: Task, start: Start)
    requires Serves(t, start) && !t.Finished?
    ensures !Request(t).NewVolume?
  {
  }

  lemma StepKeepsSane(s: System, e: Event)
    requires Typed(s) && WellFormed(s.cloud) && SizesSane(s) && Enabled(s, e) && NoResize(s, e)
    ensures SizesSane(Apply(s, e))
  {
    if e.FlightStep? {
      FlightStepKeepsSane(s, e.name, e.ch);
    } else if e.RpcStep? {
      RpcNeverCreates(s.rpcs[e.req].task, s.rpcs[e.req].start);
    }
  }

  /** The others promise at most a limit each, so one that passes the check fits under k limits. */
  lemma FlightStepKeepsBounds(s: System, name: string, ch: Choice, k: nat)
    requires Inv(s, k) && Enabled(s, FlightStep(name, ch))
    requires PendingCount(Apply(s, FlightStep(name, ch))) <= k
    ensures WithinBounds(Apply(s, FlightStep(name, ch)), k)
  {
    var s' := Apply(s, FlightStep(name, ch));
    var f := s.flights[name];
    assert s'.flights - {name} == s.flights - {name};
    PendingAfterChange(s.flights, s'.flights, name);
    PromisedAfterChange(s.flights, s'.flights, name);
    StartsWaiting(s, name, ch);
    if Waiting(s'.flights[name]) == 1 {
      assert s'.cloud == s.cloud;
      OthersPromiseLittle(s);
      UnderOneMore(PendingCount(s), k, s.cloud.gbLimit, UsedGB(s.cloud) + f.sizeGB, PromisedGB(s));
    } else {
      assert CreatesFor(f.task, name, f.sizeGB);
      UsageAfterCall(s.cloud, Request(f.task), ch);
    }
  }

  lemma RpcStepKeepsBounds(s: System, req: nat, ch: Choice, k: nat)
    requires Inv(s, k) && Enabled(s, RpcStep(req, ch)) && NoResize(s, RpcStep(req, ch))
    ensures WithinBounds(Apply(s, RpcStep(req, ch)), k)
  {
    RpcNeverCreates(s.rpcs[req].task, s.rpcs[req].start);
    UsageAfterCall(s.cloud, Request(s.rpcs[req].task), ch);
  }

  /** Joining and ending a flight moves no pending total: neither end of it is waiting. */
  lemma BoundaryKeepsPending(fs: map<string, Flight>, fs': map<string, Flight>, name: string)
    requires fs' - {name} == fs - {name}
    requires name in fs && name in fs' ==> fs'[name].task == fs[name].task
    requires name in fs && name !in fs' ==> fs[name].task.Finished?
    requires name !in fs && name in fs' ==> fs'[name].task.CreateLookup?
    ensures Total(PendingMap(fs')) == Total(PendingMap(fs))
    ensures Total(PromisedMap(fs')) == Total(PromisedMap(fs))
  {
    PendingAfterChange(fs, fs', name);
    PromisedAfterChange(fs, fs', name);
  }

  lemma JoinKeepsBounds(s: System, e: Event, k: nat)
    requires WithinBounds(s, k) && Enabled(s, e) && e.Join?
    ensures WithinBounds(Apply(s, e), k)
  {
    assert Apply(s, e).flights - {e.name} == s.flights - {e.name};
    BoundaryKeepsPending(s.flights, Apply(s, e).flights, e.name);
  }

  lemma EndKeepsBounds(s: System, name: string, k: nat)
    requires WithinBounds(s, k) && Enabled(s, FlightEnd(name))
    ensures WithinBounds(Apply(s, FlightEnd(name)), k)
  {
    BoundaryKeepsPending(s.flights, s.flights - {name}, name);
  }

  lemma RestartKeepsBounds(s: System, k: nat)
    requires Inv(s, k)
    ensures WithinBounds(Apply(s, Restart), k)
  {
    TotalNonNegative(PromisedMap(s.flights));
    TotalNonNegative(PendingMap(s.flights));
    assert PendingMap(map[]) == map[] && PromisedMap(map[]) == map[];
  }

  lemma StepKeepsBounds(s: System, e: Event, k: nat)
    requires Inv(s, k) && Enabled(s, e) && NoResize(s, e) && PendingCount(Apply(s, e)) <= k
    ensures Inv(Apply(s, e), k)
  {
    TypedStep(s, e);
    WellFormedStep(s, e);
    StepKeepsSane(s, e);
    match e
    case FlightStep(name, ch) => FlightStepKeepsBounds(s, name, ch, k);
    case RpcStep(req, ch) => RpcStepKeepsBounds(s, req, ch, k);
    case Restart => RestartKeepsBounds(s, k);
    case Join(_, _, _) => JoinKeepsBounds(s, e, k);
    case FlightEnd(name) => EndKeepsBounds(s, name, k);
    case Async(id, _) => UsageAfterChange(s.cloud, Apply(s, e).cloud, id);
    case Begin(_, _) =>
    case RpcEnd(_) =>
  }

  /**
   Quota overshoot: with at most k flights between quota check and NewVolume at once, the gigabytes in
   use and promised stay within k times the limit, and the volumes existing and pending within the
   count limit plus k - 1. With k = 1 neither limit is ever exceeded.
   */
  lemma {:induction false} OvershootIsBounded(s: System, es: seq<Event>, t: System, k: nat)
    requires k >= 1 && Inv(s, k) && Run(s, es, t) && BoundedRun(s, es, k)
    ensures WithinBounds(t, k)
    decreases |es|
  {
    if es != [] {
      StepKeepsBounds(s, es[0], k);
      OvershootIsBounded(Apply(s, es[0]), es[1..], t, k);
    }
  }

  /** A fresh controller over a cloud within its limits satisfies the invariant for every k >= 1. */
  lemma InitiallyWithinLimits(c: Cloud, k: nat)
    requires k >= 1 && WellFormed(c) && 0 <= c.gbLimit
    requires forall id :: id in c.vols ==> 0 <= c.vols[id].sizeGB
    requires UsedGB(c) <= c.gbLimit && |c.vols.Keys| <= c.countLimit
    ensures Inv(System(c, map[], map[]), k)
  {
    var s := System(c, map[], map[]);
    assert PendingMap(s.flights) == map[] && PromisedMap(s.flights) == map[];
    Monotone(1, k, c.gbLimit);
  }
}
