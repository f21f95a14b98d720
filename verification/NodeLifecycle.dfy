/**
 The life cycle of volumes on a node: when the commands work, the mount table follows a simple ledger,
 so every sequence of calls that undoes what it did restores the table.
 */
module NodeLifecycle {
  import opened Wrappers
  import opened NodeHost
  import opened NodeServer
  import opened NodeData

  type Ledger = map<Path, Place>

  function LedgerPlace(l: Ledger, p: Path): Place
    decreases |p|
  {
    if p in l then l[p]
    else if p == [] then Place(None, [])
    else
      var parent := LedgerPlace(l, p[..|p| - 1]);
      parent.(rel := parent.rel + [p[|p| - 1]])
  }

  /** What each call is for, regardless of how it works. */
  function Record(l: Ledger, e: Event): Ledger {
    match e
    case StageCall(vol, staging, _, _) => if staging in l then l else l[staging := DeviceRoot(vol)]
    case UnstageCall(_, staging, _) => l - {staging}
    case PublishCall(_, staging, target, _, _) => if target in l then l else l[target := LedgerPlace(l, staging)]
    case UnpublishCall(_, target, _) => l - {target}
    case Write(_, _) => l
  }

  function RecordAll(l: Ledger, es: seq<Event>): Ledger
    decreases |es|
  {
    if es == [] then l else RecordAll(Record(l, es[0]), es[1..])
  }

  /** No mount hides an earlier one. */
  ghost predicate AllVisible(mounts: seq<Mount>) {
    forall i, j :: 0 <= i < j < |mounts| ==> !(mounts[j].point <= mounts[i].point)
  }

  /** Every mount is visible, and they are exactly the ledger's. */
  ghost predicate Matches(mounts: seq<Mount>, l: Ledger) {
    && AllVisible(mounts)
    && (forall m :: m in mounts ==> m.point in l && l[m.point] == m.source)
    && (forall p :: p in l ==> Mount(p, l[p]) in mounts)
  }

  predicate Adds(e: Event, p: Path) {
    (e.StageCall? && e.staging == p) || (e.PublishCall? && e.target == p)
  }

  predicate Removes(e: Event, p: Path) {
    (e.UnstageCall? && e.staging == p) || (e.UnpublishCall? && e.target == p)
  }

  /** findmnt tells the truth about a path. */
  predicate Truthful(findmnt: Findmnt, mounts: seq<Mount>, p: Path) {
    findmnt == if Mounted(mounts, p) then Present else Absent
  }

  /** Mounting there would hide no other mount. */
  predicate HidesNothing(mounts: seq<Mount>, p: Path) {
    Mounted(mounts, p) || forall m :: m in mounts ==> !(p < m.point)
  }

  /**
   The commands work, and mounting a device again where it is already mounted is refused. A staging path is
   used for one volume only, nothing is mounted over a device node or above another mount.
   */
  predicate Works(h: HostState, e: Event) {
    match e
    case StageCall(vol, staging, capable, env) =>
      && vol != "" && staging != [] && capable && env.plugged == [true, true, true, true] && !env.blkid.BlkidFailed?
      && Truthful(env.findmnt, h.mounts, DevicePath(vol)) && !Mounted(h.mounts, DevicePath(vol))
      && TopAt(h.mounts, staging) in {None, Some(DeviceRoot(vol))} && HidesNothing(h.mounts, staging)
      && env.mount == if Mounted(h.mounts, staging) then OnlyDirectory else Mounts
    case UnstageCall(vol, staging, env) =>
      vol != "" && staging != [] && Truthful(env.findmnt, h.mounts, staging) && env.umount
    case PublishCall(vol, staging, target, capable, env) =>
      vol != "" && staging != [] && target != [] && capable && env.mkdir
      && Truthful(env.findmnt, h.mounts, target) && env.mount.Mounts? && HidesNothing(h.mounts, target)
    case UnpublishCall(vol, target, env) =>
      vol != "" && target != [] && Truthful(env.findmnt, h.mounts, target) && env.umount
    case Write(_, _) => true
  }

  ghost predicate WorkingRun(h: HostState, es: seq<Event>)
    decreases |es|
  {
    es != [] ==> Works(h, es[0]) && WorkingRun(Step(h, es[0]), es[1..])
  }

  // ---- The mount table ----

  lemma {:induction false} VisibleOnTop(mounts: seq<Mount>, m: Mount)
    requires AllVisible(mounts) && m in mounts
    ensures Covering(mounts, m.point) == Some(m)
    decreases |mounts|
  {
    var n := |mounts| - 1;
    if mounts[n] != m {
      assert mounts == mounts[..n] + [mounts[n]];
      VisibleOnTop(mounts[..n], m);
      var i :| 0 <= i < n && mounts[i] == m;
      assert !(mounts[n].point <= mounts[i].point);
    }
  }

  lemma TopMatches(mounts: seq<Mount>, l: Ledger, p: Path)
    requires Matches(mounts, l)
    ensures TopAt(mounts, p) == if p in l then Some(l[p]) else None
  {
    if p in l {
      VisibleOnTop(mounts, Mount(p, l[p]));
    }
  }

  lemma {:induction false} PlaceMatches(mounts: seq<Mount>, l: Ledger, p: Path)
    requires Matches(mounts, l)
    ensures Resolve(mounts, p) == LedgerPlace(l, p)
    decreases |p|
  {
    if p in l {
      VisibleOnTop(mounts, Mount(p, l[p]));
      assert l[p].rel + p[|p|..] == l[p].rel;
    } else if p != [] {
      ParentResolves(mounts, l, p);
      PlaceMatches(mounts, l, p[..|p| - 1]);
    }
  }

  lemma ParentResolves(mounts: seq<Mount>, l: Ledger, p: Path)
    requires Matches(mounts, l) && p !in l && p != []
    ensures var parent := Resolve(mounts, p[..|p| - 1]);
            Resolve(mounts, p) == parent.(rel := parent.rel + [p[|p| - 1]])
  {
    var above, name := p[..|p| - 1], p[|p| - 1];
    assert p == above + [name];
    CoveringOfChild(mounts, above, name);
    var m := Covering(mounts, above);
    if m.Some? {
      var k := |m.value.point|;
      assert m.value.source.rel + p[k..] == (m.value.source.rel + above[k..]) + [name];
    }
  }

  lemma AppendVisible(mounts: seq<Mount>, m: Mount)
    requires AllVisible(mounts) && forall k :: k in mounts ==> !(m.point <= k.point)
    ensures AllVisible(mounts + [m])
  {
    var mounts' := mounts + [m];
    forall i, j | 0 <= i < j < |mounts'|
      ensures !(mounts'[j].point <= mounts'[i].point)
    {
      if j == |mounts| {
        assert mounts[i] in mounts;
      }
    }
  }

  lemma MountMatches(mounts: seq<Mount>, l: Ledger, p: Path, source: Place)
    requires Matches(mounts, l) && p !in l && HidesNothing(mounts, p)
    ensures Matches(mounts + [Mount(p, source)], l[p := source])
  {
    TopMatches(mounts, l, p);
    forall k | k in mounts
      ensures !(p <= k.point)
    {
      assert k.point in l && !(p < k.point);
      assert p <= k.point ==> p == k.point || p < k.point;
    }
    AppendVisible(mounts, Mount(p, source));
    var mounts', l' := mounts + [Mount(p, source)], l[p := source];
    assert forall m :: m in mounts' <==> m in mounts || m == Mount(p, source);
    forall q | q in l'
      ensures Mount(q, l'[q]) in mounts'
    {
      assert q == p || Mount(q, l[q]) in mounts;
    }
  }

  /** Unmounting takes away the one mount at the path and keeps the order of the others. */
  lemma {:induction false} WithoutTopRemoves(mounts: seq<Mount>, p: Path)
    requires AllVisible(mounts)
    ensures var rest := WithoutTop(mounts, p);
            (forall m :: m in rest <==> m in mounts && m.point != p) && AllVisible(rest)
    decreases |mounts|
  {
    if mounts != [] {
      var n := |mounts| - 1;
      assert mounts == mounts[..n] + [mounts[n]];
      if mounts[n].point != p {
        WithoutTopRemoves(mounts[..n], p);
        var rest := WithoutTop(mounts[..n], p);
        forall i | 0 <= i < |rest|
          ensures !(mounts[n].point <= rest[i].point)
        {
          assert rest[i] in rest;
        }
      }
    }
  }

  lemma UnmountMatches(mounts: seq<Mount>, l: Ledger, p: Path)
    requires Matches(mounts, l)
    ensures Matches(WithoutTop(mounts, p), l - {p})
  {
    WithoutTopRemoves(mounts, p);
  }

  /** A working stage mounts the volume where nothing was mounted, and changes no mount otherwise. */
  lemma StageMounts(h: HostState, e: Event)
    requires e.StageCall? && Works(h, e)
    ensures Step(h, e).mounts
            == if Mounted(h.mounts, e.staging) then h.mounts else h.mounts + [Mount(e.staging, DeviceRoot(e.vol))]
  {
  }

  lemma StageMatches(h: HostState, e: Event, l: Ledger)
    requires e.StageCall? && Matches(h.mounts, l) && Works(h, e)
    ensures Matches(Step(h, e).mounts, Record(l, e))
  {
    StageMounts(h, e);
    TopMatches(h.mounts, l, e.staging);
    if e.staging !in l {
      MountMatches(h.mounts, l, e.staging, DeviceRoot(e.vol));
    }
  }

  lemma PublishMatches(h: HostState, e: Event, l: Ledger)
    requires e.PublishCall? && Matches(h.mounts, l) && Works(h, e)
    ensures Matches(Step(h, e).mounts, Record(l, e))
  {
    TopMatches(h.mounts, l, e.target);
    PlaceMatches(h.mounts, l, e.staging);
    if e.target !in l {
      MountMatches(h.mounts, l, e.target, LedgerPlace(l, e.staging));
    }
  }

  /** A working unstage or unpublish takes away the mount at its path, if there is one. */
  lemma UndoUnmounts(h: HostState, e: Event, p: Path)
    requires Removes(e, p) && Works(h, e)
    ensures Step(h, e).mounts == if Mounted(h.mounts, p) then WithoutTop(h.mounts, p) else h.mounts
  {
  }

  lemma UndoMatches(h: HostState, e: Event, l: Ledger, p: Path)
    requires Removes(e, p) && Matches(h.mounts, l) && Works(h, e)
    ensures Matches(Step(h, e).mounts, Record(l, e))
  {
    UndoUnmounts(h, e, p);
    TopMatches(h.mounts, l, p);
    UnmountMatches(h.mounts, l, p);
    assert p !in l ==> l - {p} == l;
    assert Record(l, e) == l - {p};
  }

  lemma StepMatches(h: HostState, e: Event, l: Ledger)
    requires Matches(h.mounts, l) && Works(h, e)
    ensures Matches(Step(h, e).mounts, Record(l, e))
  {
    match e
    case StageCall(_, _, _, _) => StageMatches(h, e, l);
    case UnstageCall(_, staging, _) => UndoMatches(h, e, l, staging);
    case PublishCall(_, _, _, _, _) => PublishMatches(h, e, l);
    case UnpublishCall(_, target, _) => UndoMatches(h, e, l, target);
    case Write(_, _) =>
  }

  /** The mount table of every working run is the ledger's, whatever is staged, published and repeated. */
  lemma {:induction false} TableFollowsLedger(h: HostState, es: seq<Event>, l: Ledger)
    requires Matches(h.mounts, l) && WorkingRun(h, es)
    ensures Matches(RunOf(h, es).mounts, RecordAll(l, es))
    decreases |es|
  {
    if es != [] {
      StepMatches(h, es[0], l);
      TableFollowsLedger(Step(h, es[0]), es[1..], Record(l, es[0]));
    }
  }

  // ---- Round trips ----

  /** Whether the path is mounted after the calls, from the last call about it. */
  predicate EndsMounted(es: seq<Event>, p: Path, before: bool)
    decreases |es|
  {
    if es == [] then before
    else EndsMounted(es[1..], p, if Adds(es[0], p) then true else if Removes(es[0], p) then false else before)
  }

  lemma {:induction false} LedgerKeys(l: Ledger, es: seq<Event>, p: Path)
    ensures p in RecordAll(l, es) <==> EndsMounted(es, p, p in l)
    decreases |es|
  {
    if es != [] {
      LedgerKeys(Record(l, es[0]), es[1..], p);
    }
  }

  lemma {:induction false} LedgerKeeps(l: Ledger, es: seq<Event>, p: Path)
    requires p in l && forall e :: e in es ==> !Removes(e, p)
    ensures p in RecordAll(l, es) && RecordAll(l, es)[p] == l[p]
    decreases |es|
  {
    if es != [] {
      assert es[0] in es;
      LedgerKeeps(Record(l, es[0]), es[1..], p);
    }
  }

  /**
   The round trip: from a table without hidden mounts, any working interleaving of stages, publishes,
   unpublishes and unstages of any volumes, with any repetitions, in which the last call about every
   new path removes it and the old mounts are left alone, restores the mount table.
   */
  lemma LifecycleRestoresTable(h: HostState, es: seq<Event>, l: Ledger)
    requires Matches(h.mounts, l) && WorkingRun(h, es)
    requires forall p, e :: p in l && e in es ==> !Removes(e, p)
    requires forall p :: p !in l ==> !EndsMounted(es, p, false)
    ensures forall m :: m in RunOf(h, es).mounts <==> m in h.mounts
    ensures Matches(RunOf(h, es).mounts, l)
  {
    TableFollowsLedger(h, es, l);
    forall p
      ensures p in RecordAll(l, es) <==> p in l
      ensures p in l ==> RecordAll(l, es)[p] == l[p]
    {
      LedgerKeys(l, es, p);
      if p in l {
        LedgerKeeps(l, es, p);
      }
    }
    assert RecordAll(l, es) == l;
    var after := RunOf(h, es).mounts;
    assert forall m :: m in after <==> m.point in l && m == Mount(m.point, l[m.point]);
    assert forall m :: m in h.mounts <==> m.point in l && m == Mount(m.point, l[m.point]);
  }

  /**
   Repeating a stage is harmless only because mounting the device again is refused: the handler asks whether
   the device path is mounted, which it never is, and so mounts again. Were the second mount not
   refused, an unstage would leave the volume mounted.
   */
  lemma RepeatedStageRestsOnRefusal(h: HostState, vol: string, staging: Path, env: StageEnv, out: UnstageEnv)
    requires vol != "" && staging != [] && env.plugged == [true, true, true, true] && env.blkid.Found?
    requires env.findmnt.Absent? && env.mount.Mounts? && out.findmnt.Present? && out.umount
    ensures var once := Stage(h, vol, staging, true, env).0;
            var twice := Stage(once, vol, staging, true, env).0;
            Unstage(twice, vol, staging, out).0.mounts == h.mounts + [Mount(staging, DeviceRoot(vol))]
  {
    var m := Mount(staging, DeviceRoot(vol));
    assert (h.mounts + [m] + [m])[..|h.mounts| + 1] == h.mounts + [m];
  }
}
