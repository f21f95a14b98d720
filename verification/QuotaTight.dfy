/** The overshoot bound of QuotaBound.dfy is attained: for every k there is a run that reaches it. */
module QuotaTight {
  import opened Sizes
  import opened CivoApi
  import opened Handlers
  import opened Interleaving
  import opened QuotaBound

  /** Distinct names and volume ids. */
  function Key(i: nat): string {
    seq(i + 1, _ => 'x')
  }

  lemma KeysDiffer(i: nat, j: nat)
    requires i != j
    ensures Key(i) != Key(j)
  {
    assert |Key(i)| != |Key(j)|;
  }

  /** The first k names all have flights that passed the quota check for the whole limit. */
  ghost predicate Armed(s: System, k: nat) {
    forall i: nat :: i < k ==>
      && Key(i) in s.flights && s.flights[Key(i)].task == CreateNew(Key(i), s.cloud.gbLimit)
      && Key(i) !in s.cloud.issued && Key(i) !in s.cloud.vols
  }

  lemma {:induction false} BoundedAppend(s: System, es: seq<Event>, mid: System, fs: seq<Event>, k: nat)
    requires Run(s, es, mid) && BoundedRun(s, es, k) && BoundedRun(mid, fs, k)
    ensures BoundedRun(s, es + fs, k)
    decreases |es|
  {
    if es == [] {
      assert es + fs == fs;
    } else {
      BoundedAppend(Apply(s, es[0]), es[1..], mid, fs, k);
      assert (es + fs)[1..] == es[1..] + fs;
    }
  }

  ghost predicate Reaches(s: System, es: seq<Event>, t: System, k: nat) {
    Run(s, es, t) && BoundedRun(s, es, k)
  }

  lemma ReachesByOne(s: System, e: Event, t: System, k: nat)
    requires Enabled(s, e) && NoResize(s, e) && Apply(s, e) == t
    requires PendingCount(s) <= k && PendingCount(t) <= k
    ensures Reaches(s, [e], t, k)
  {
    assert Run(t, [], t) && BoundedRun(t, [], k);
    assert [e][1..] == [];
  }

  lemma ReachesAppend(s: System, es: seq<Event>, mid: System, fs: seq<Event>, t: System, k: nat)
    requires Reaches(s, es, mid, k) && Reaches(mid, fs, t, k)
    ensures Reaches(s, es + fs, t, k)
  {
    RunAppend(s, es, mid, fs, t);
    BoundedAppend(s, es, mid, fs, k);
  }

  /** n volumes of the whole limit were made on the way from s to t, with at most bound flights pending. */
  ghost predicate Fired(s: System, es: seq<Event>, t: System, n: nat, bound: nat) {
    && Reaches(s, es, t, bound)
    && UsedGB(t.cloud) == UsedGB(s.cloud) + n * s.cloud.gbLimit
    && |t.cloud.vols.Keys| == |s.cloud.vols.Keys| + n
    && t.cloud.gbLimit == s.cloud.gbLimit
  }

  /** All armed flights call NewVolume, one after the other. */
  lemma {:induction false} Fire(s: System, k: nat, bound: nat) returns (es: seq<Event>, t: System)
    requires Armed(s, k) && PendingCount(s) <= bound
    ensures Fired(s, es, t, k, bound)
    decreases k
  {
    if k == 0 {
      es, t := [], s;
    } else {
      var first, mid := FireOne(s, k, bound);
      var rest;
      rest, t := Fire(mid, k - 1, bound);
      es := FiredBoth(s, first, mid, rest, t, k - 1, bound);
    }
  }

  lemma FiredBoth(s: System, es: seq<Event>, mid: System, fs: seq<Event>, t: System, n: nat, bound: nat)
    returns (all: seq<Event>)
    requires Fired(s, es, mid, 1, bound) && Fired(mid, fs, t, n, bound)
    ensures Fired(s, all, t, n + 1, bound)
  {
    ReachesAppend(s, es, mid, fs, t, bound);
    all := es + fs;
    OneMore(n + 1, s.cloud.gbLimit);
  }

  lemma OneMore(k: nat, x: int)
    requires k > 0
    ensures k * x == (k - 1) * x + x
  {}

  lemma FireOne(s: System, k: nat, bound: nat) returns (es: seq<Event>, t: System)
    requires Armed(s, k) && k > 0 && PendingCount(s) <= bound
    ensures Fired(s, es, t, 1, bound) && Armed(t, k - 1) && PendingCount(t) <= bound
  {
    var name, limit := Key(k - 1), s.cloud.gbLimit;
    var e := FlightStep(name, Choice(Created(name), true, name, Available));
    var v := Volume(name, name, limit, Available, "");
    t := System(s.cloud.(vols := s.cloud.vols[name := v], issued := s.cloud.issued + {name}),
                s.flights[name := s.flights[name].(task := CreateRead(name, limit, name))], s.rpcs);
    es := [e];
    FiredUsage(s, t, name, v);
    assert Apply(s, e) == t;
    ReachesByOne(s, e, t, bound);
    forall i: nat | i < k - 1 { KeysDiffer(i, k - 1); }
  }

  lemma FiredUsage(s: System, t: System, name: string, v: Volume)
    requires name in s.flights && name !in s.cloud.vols && t.cloud.vols == s.cloud.vols[name := v]
    requires t.flights == s.flights[name := s.flights[name].(task := CreateRead(name, v.sizeGB, name))]
    ensures PendingCount(t) <= PendingCount(s)
    ensures UsedGB(t.cloud) == UsedGB(s.cloud) + v.sizeGB
    ensures |t.cloud.vols.Keys| == |s.cloud.vols.Keys| + 1
  {
    UsageAfterChange(s.cloud, t.cloud, name);
    PendingAfterChange(s.flights, t.flights, name);
  }

  /** A controller over an empty cloud that allows one volume. */
  function Start(limit: int): System {
    System(Cloud(map[], {}, limit, 1), map[], map[])
  }

  /** The only flights are the k armed ones. */
  ghost predicate Loaded(s: System, limit: int, k: nat) {
    && s.cloud == Start(limit).cloud && Armed(s, k) && PendingCount(s) == k
    && forall i: nat :: k <= i ==> Key(i) !in s.flights
  }

  lemma {:induction false} Load(limit: int, k: nat) returns (es: seq<Event>, t: System)
    requires 0 <= limit
    ensures Reaches(Start(limit), es, t, k) && Loaded(t, limit, k)
    decreases k
  {
    if k == 0 {
      es, t := [], Start(limit);
      assert PendingMap(t.flights) == map[];
    } else {
      var before, s := Load(limit, k - 1);
      var more;
      more, t := LoadOne(s, limit, k - 1);
      Widen(Start(limit), before, k - 1);
      ReachesAppend(Start(limit), before, s, more, t, k);
      es := before + more;
    }
  }

  lemma {:induction false} Widen(s: System, es: seq<Event>, k: nat)
    requires BoundedRun(s, es, k)
    ensures BoundedRun(s, es, k + 1)
    decreases |es|
  {
    if es != [] && Enabled(s, es[0]) {
      Widen(Apply(s, es[0]), es[1..], k);
    }
  }

  function With(s: System, name: string, task: Task, size: int): System {
    s.(flights := s.flights[name := Flight(size, task, map[0 := size])])
  }

  lemma WithCount(s: System, name: string, task: Task, size: int)
    requires name !in s.flights
    ensures PendingCount(With(s, name, task, size)) == PendingCount(s) + if task.CreateNew? then 1 else 0
  {
    var fs' := With(s, name, task, size).flights;
    assert fs' - {name} == s.flights - {name};
    PendingAfterChange(s.flights, fs', name);
  }

  /** One more name is joined, listed as absent, and passes the quota check. */
  lemma LoadOne(s: System, limit: int, k: nat) returns (es: seq<Event>, t: System)
    requires Loaded(s, limit, k) && 0 <= limit
    ensures Reaches(s, es, t, k + 1) && Loaded(t, limit, k + 1)
  {
    var name := Key(k);
    var s1, s2 := With(s, name, CreateLookup(name, limit), limit), With(s, name, CreateQuota(name, limit), limit);
    t := With(s, name, CreateNew(name, limit), limit);
    WithCount(s, name, CreateLookup(name, limit), limit);
    WithCount(s, name, CreateQuota(name, limit), limit);
    WithCount(s, name, CreateNew(name, limit), limit);
    var e0 := JoinsAs(s, name, limit, s1, k + 1);
    var e1 := ListedAbsent(s, name, limit, s1, s2, k + 1);
    var e2 := PassesCheck(s, name, limit, s2, t, k + 1);
    ReachesAppend(s1, [e1], s2, [e2], t, k + 1);
    ReachesAppend(s, [e0], s1, [e1] + [e2], t, k + 1);
    es := [e0] + ([e1] + [e2]);
    forall i: nat | i != k { KeysDiffer(i, k); }
  }

  lemma JoinsAs(s: System, name: string, limit: int, t: System, k: nat) returns (e: Event)
    requires name !in s.flights && name != "" && 0 <= limit && t == With(s, name, CreateLookup(name, limit), limit)
    requires PendingCount(s) <= k && PendingCount(t) <= k
    ensures Reaches(s, [e], t, k)
  {
    e := Join(0, name, limit);
    ReachesByOne(s, e, t, k);
  }

  lemma ListedAbsent(s: System, name: string, limit: int, s1: System, t: System, k: nat) returns (e: Event)
    requires s1 == With(s, name, CreateLookup(name, limit), limit)
    requires t == With(s, name, CreateQuota(name, limit), limit)
    requires s.cloud.vols == map[] && PendingCount(s1) <= k && PendingCount(t) <= k
    ensures Reaches(s1, [e], t, k)
  {
    e := FlightStep(name, Choice(Volumes([]), false, "", Available));
    assert Resume(CreateLookup(name, limit), Volumes([])) == CreateQuota(name, limit);
    assert Apply(s1, e) == t;
    ReachesByOne(s1, e, t, k);
  }

  lemma PassesCheck(s: System, name: string, limit: int, s2: System, t: System, k: nat) returns (e: Event)
    requires s2 == With(s, name, CreateQuota(name, limit), limit)
    requires t == With(s, name, CreateNew(name, limit), limit)
    requires s.cloud == Start(limit).cloud && PendingCount(s2) <= k && PendingCount(t) <= k
    ensures Reaches(s2, [e], t, k)
  {
    var quota := Quota(limit, 0, 1, 0);
    e := FlightStep(name, Choice(QuotaIs(quota), false, "", Available));
    assert SizesOf(s.cloud) == map[] && s.cloud.vols.Keys == {};
    assert Resume(CreateQuota(name, limit), QuotaIs(quota)) == CreateNew(name, limit);
    assert Apply(s2, e) == t;
    ReachesByOne(s2, e, t, k);
  }

  /**
   The bound is exact in both quantities: k racing creates of the whole limit end with k times the
   gigabyte limit in use and with the count limit plus k - 1 volumes.
   */
  lemma OvershootIsAttained(limit: int, k: nat) returns (es: seq<Event>, t: System)
    requires 0 <= limit
    ensures Run(Start(limit), es, t) && BoundedRun(Start(limit), es, k)
    ensures UsedGB(t.cloud) == k * limit
    ensures |t.cloud.vols.Keys| == Start(limit).cloud.countLimit + k - 1
  {
    var before, s := Load(limit, k);
    var after;
    after, t := Fire(s, k, k);
    ReachesAppend(Start(limit), before, s, after, t, k);
    es := before + after;
    assert SizesOf(s.cloud) == map[];
  }
}
