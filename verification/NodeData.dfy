/** Volume data survives every run of the node service, and exactly when unpublishing is safe. */
module NodeData {
  import opened Wrappers
  import opened NodeHost
  import opened NodeServer

  // ---- What RemoveAll can reach ----

  /** The file is reached by a path at or below the target that is no mount point: those cannot be removed. */
  ghost predicate Exposed(mounts: seq<Mount>, target: Path, dev: string, file: Path) {
    exists q: Path :: target <= q && !Mounted(mounts, q) && Resolve(mounts, q) == Place(Some(dev), file)
  }

  /** The target leads into no volume, and no volume is visibly mounted strictly below it. */
  ghost predicate Clear(mounts: seq<Mount>, target: Path) {
    && Resolve(mounts, target).dev.None?
    && forall p: Path :: target < p && Mounted(mounts, p) ==> TopAt(mounts, p).value.dev.None?
  }

  lemma {:induction false} CoveringBetween(mounts: seq<Mount>, p: Path, q: Path)
    requires p <= q && Covering(mounts, q).Some? && Covering(mounts, q).value.point <= p
    ensures Covering(mounts, p) == Covering(mounts, q)
    decreases |mounts|
  {
    var n := |mounts| - 1;
    if !(mounts[n].point <= q) {
      CoveringBetween(mounts[..n], p, q);
    }
  }

  /** A path below a clear target leads into no volume. */
  lemma ClearBelow(mounts: seq<Mount>, target: Path, q: Path)
    requires Clear(mounts, target) && target <= q
    ensures Resolve(mounts, q).dev.None?
  {
    var m := Covering(mounts, q);
    if m.Some? {
      if m.value.point <= target {
        CoveringBetween(mounts, target, q);
      } else {
        CoveringBetween(mounts, m.value.point, q);
        assert target < m.value.point && Mounted(mounts, m.value.point);
      }
    }
  }

  /** The length of the longest last name of a mount point. */
  function LongestName(mounts: seq<Mount>): (n: nat)
    ensures forall m :: m in mounts && m.point != [] ==> |m.point[|m.point| - 1]| <= n
    decreases |mounts|
  {
    if mounts == [] then 0
    else
      var last := mounts[|mounts| - 1].point;
      var rest := LongestName(mounts[..|mounts| - 1]);
      if last != [] && |last[|last| - 1]| > rest then |last[|last| - 1]| else rest
  }

  lemma {:induction false} CoveringOfChild(mounts: seq<Mount>, p: Path, name: string)
    requires forall m :: m in mounts ==> m.point != p + [name]
    ensures Covering(mounts, p + [name]) == Covering(mounts, p)
    decreases |mounts|
  {
    if mounts != [] {
      var n := |mounts| - 1;
      assert mounts[n] in mounts;
      assert mounts[n].point <= p + [name] <==> mounts[n].point <= p by {
        if mounts[n].point <= p + [name] {
          assert |mounts[n].point| <= |p|;
          assert (p + [name])[..|p|] == p;
        }
      }
      CoveringOfChild(mounts[..n], p, name);
    }
  }

  /** Every directory has names below it on which nothing is mounted. */
  lemma UnmountedChild(mounts: seq<Mount>, p: Path) returns (child: Path)
    ensures p < child && !Mounted(mounts, child)
    ensures Resolve(mounts, child).dev == Resolve(mounts, p).dev
  {
    var name := seq(LongestName(mounts) + 1, _ => 'x');
    child := p + [name];
    assert child[|child| - 1] == name;
    forall m | m in mounts
      ensures m.point != child
    {
      if m.point != [] {
        assert m.point[|m.point| - 1] != name;
      }
    }
    CoveringOfChild(mounts, p, name);
  }

  lemma UnclearExposes(mounts: seq<Mount>, target: Path)
    requires !Clear(mounts, target)
    ensures exists dev, file :: Exposed(mounts, target, dev, file)
  {
    var into := target;
    if Resolve(mounts, target).dev.None? {
      into :| target < into && Mounted(mounts, into) && TopAt(mounts, into).value.dev.Some?;
    }
    var child := UnmountedChild(mounts, into);
    var place := Resolve(mounts, child);
    assert Exposed(mounts, target, place.dev.value, place.rel);
  }

  /** What may be left after RemoveAll(target), which may fail at any point. */
  ghost predicate LegalRemoval(mounts: seq<Mount>, target: Path, files: map<string, set<Path>>,
                               left: map<string, set<Path>>)
  {
    && left.Keys == files.Keys
    && forall dev :: dev in files ==>
         left[dev] <= files[dev] && forall f :: f in files[dev] - left[dev] ==> Exposed(mounts, target, dev, f)
  }

  /**
   RemoveAll of a target keeps every possible content of every volume if and only if the target is clear.
   A target strictly above a visible mount of a volume is not clear, and neither is one at or inside it.
   */
  lemma RemoveAllSafeExactly(mounts: seq<Mount>, target: Path)
    ensures Clear(mounts, target) <==>
            forall files, left :: LegalRemoval(mounts, target, files, left) ==> left == files
  {
    if Clear(mounts, target) {
      forall files, left | LegalRemoval(mounts, target, files, left)
        ensures left == files
      {
        ClearKeepsFiles(mounts, target, files, left);
      }
    } else {
      UnclearExposes(mounts, target);
      var dev, file :| Exposed(mounts, target, dev, file);
      var files, left := map[dev := {file}], map[dev := {}];
      assert files[dev] - left[dev] == {file};
      assert LegalRemoval(mounts, target, files, left) && file in files[dev];
    }
  }

  lemma ClearKeepsFiles(mounts: seq<Mount>, target: Path, files: map<string, set<Path>>, left: map<string, set<Path>>)
    requires Clear(mounts, target) && LegalRemoval(mounts, target, files, left)
    ensures left == files
  {
    forall dev | dev in files
      ensures left[dev] == files[dev]
    {
      forall f | f in files[dev]
        ensures f in left[dev]
      {
        if f !in left[dev] {
          assert f in files[dev] - left[dev];
          var q: Path :| target <= q && Resolve(mounts, q) == Place(Some(dev), f);
          ClearBelow(mounts, target, q);
          assert false;
        }
      }
    }
  }

  // ---- Runs ----

  datatype Event =
    | StageCall(vol: string, staging: Path, capable: bool, stageEnv: StageEnv)
    | UnstageCall(vol: string, staging: Path, unstageEnv: UnstageEnv)
    | PublishCall(vol: string, staging: Path, target: Path, capable: bool, publishEnv: PublishEnv)
    | UnpublishCall(vol: string, target: Path, unpublishEnv: UnpublishEnv)
    | Write(dev: string, file: Path)  // by a workload

  function Step(h: HostState, e: Event): HostState {
    match e
    case StageCall(vol, staging, capable, env) => Stage(h, vol, staging, capable, env).0
    case UnstageCall(vol, staging, env) => Unstage(h, vol, staging, env).0
    case PublishCall(vol, staging, target, capable, env) => Publish(h, vol, staging, target, capable, env).0
    case UnpublishCall(vol, target, env) => Unpublish(h, vol, target, env).0
    case Write(dev, file) => if dev in h.files then h.(files := h.files[dev := h.files[dev] + {file}]) else h
  }

  function RunOf(h: HostState, es: seq<Event>): HostState
    decreases |es|
  {
    if es == [] then h else RunOf(Step(h, es[0]), es[1..])
  }

  /**
   blkid denies a file system only where there is none, findmnt denies a mount only where there is none,
   and RemoveAll removes only what is below its target; everything else may fail as it likes.
   */
  ghost predicate Honest(h: HostState, e: Event) {
    match e
    case StageCall(vol, _, _, env) => env.blkid.NotFound? ==> vol !in h.formatted
    case UnpublishCall(_, target, env) =>
      env.findmnt.Absent? ==>
        !Mounted(h.mounts, target) && LegalRemoval(h.mounts, target, h.files, env.survivingFiles)
    case _ => true
  }

  ghost predicate HonestRun(h: HostState, es: seq<Event>)
    decreases |es|
  {
    es != [] ==> Honest(h, es[0]) && HonestRun(Step(h, es[0]), es[1..])
  }

  /** The orchestrator unpublishes only targets that are clear once nothing is mounted on them. */
  ghost predicate Careful(h: HostState, e: Event) {
    e.UnpublishCall? && !Mounted(h.mounts, e.target) ==> Clear(h.mounts, e.target)
  }

  ghost predicate CarefulRun(h: HostState, es: seq<Event>)
    decreases |es|
  {
    es != [] ==> Careful(h, es[0]) && CarefulRun(Step(h, es[0]), es[1..])
  }

  /** Formats and files stay, and mkfs has not run again on a device that was formatted. */
  ghost predicate DataKept(h: HostState, h': HostState) {
    && h.formatted <= h'.formatted
    && (forall dev :: dev in h.formatted && dev in h.files ==> dev in h'.files && h.files[dev] <= h'.files[dev])
    && h.mkfsRuns <= h'.mkfsRuns
    && (forall i :: |h.mkfsRuns| <= i < |h'.mkfsRuns| ==> h'.mkfsRuns[i] !in h.formatted)
  }

  lemma StepKeepsData(h: HostState, e: Event)
    requires Honest(h, e) && Careful(h, e)
    ensures DataKept(h, Step(h, e))
  {
    if e.UnpublishCall? && e.unpublishEnv.findmnt.Absent? {
      ClearKeepsFiles(h.mounts, e.target, h.files, e.unpublishEnv.survivingFiles);
    }
  }

  /**
   From the first completed format of a device on, no sequence of stages, unstages, publishes and
   unpublishes, with arbitrary failures, ever runs mkfs on it again or deletes any of its files.
   */
  lemma {:induction false} DataSurvives(h: HostState, es: seq<Event>)
    requires HonestRun(h, es) && CarefulRun(h, es)
    ensures DataKept(h, RunOf(h, es))
    decreases |es|
  {
    if es != [] {
      StepKeepsData(h, es[0]);
      DataSurvives(Step(h, es[0]), es[1..]);
    }
  }

  // ---- Carefulness from the paths alone ----

  /** No path of the set lies below another. */
  predicate Apart(paths: set<Path>) {
    forall p, q :: p in paths && q in paths && p != q ==> !(p <= q)
  }

  predicate Uses(e: Event, paths: set<Path>) {
    match e
    case StageCall(_, staging, _, _) => staging in paths
    case UnstageCall(_, staging, _) => staging in paths
    case PublishCall(_, staging, target, _, _) => staging in paths && target in paths
    case UnpublishCall(_, target, _) => target in paths
    case Write(_, _) => true
  }

  ghost predicate VolumesWithin(mounts: seq<Mount>, paths: set<Path>) {
    forall m :: m in mounts && m.source.dev.Some? ==> m.point in paths
  }

  lemma {:induction false} WithoutTopKeepsOnly(mounts: seq<Mount>, p: Path)
    ensures forall m :: m in WithoutTop(mounts, p) ==> m in mounts
    decreases |mounts|
  {
    if mounts != [] {
      WithoutTopKeepsOnly(mounts[..|mounts| - 1], p);
    }
  }

  lemma StepStaysWithin(h: HostState, e: Event, paths: set<Path>)
    requires Uses(e, paths) && VolumesWithin(h.mounts, paths)
    ensures VolumesWithin(Step(h, e).mounts, paths)
  {
    match e
    case UnstageCall(_, staging, _) => WithoutTopKeepsOnly(h.mounts, staging);
    case UnpublishCall(_, target, _) => WithoutTopKeepsOnly(h.mounts, target);
    case _ =>
  }

  lemma MountedWithin(mounts: seq<Mount>, p: Path, paths: set<Path>)
    requires VolumesWithin(mounts, paths) && Mounted(mounts, p)
    ensures TopAt(mounts, p).value.dev.Some? ==> p in paths
  {
    assert Covering(mounts, p).value in mounts;
  }

  lemma ApartIsCareful(h: HostState, e: Event, paths: set<Path>)
    requires Apart(paths) && Uses(e, paths) && VolumesWithin(h.mounts, paths)
    ensures Careful(h, e)
  {
    if e.UnpublishCall? && !Mounted(h.mounts, e.target) {
      forall p: Path | e.target < p && Mounted(h.mounts, p)
        ensures TopAt(h.mounts, p).value.dev.None?
      {
        MountedWithin(h.mounts, p, paths);
      }
    }
  }

  lemma {:induction false} ApartRunIsCareful(h: HostState, es: seq<Event>, paths: set<Path>)
    requires Apart(paths) && VolumesWithin(h.mounts, paths) && forall e :: e in es ==> Uses(e, paths)
    ensures CarefulRun(h, es)
    decreases |es|
  {
    if es != [] {
      assert es[0] in es;
      ApartIsCareful(h, es[0], paths);
      StepStaysWithin(h, es[0], paths);
      ApartRunIsCareful(Step(h, es[0]), es[1..], paths);
    }
  }

  /**
   A condition that can be checked before the run: data survives when the staging and target paths of all
   calls and the mount points of all volumes at the start lie in a set in which no path is below another.
   */
  lemma DataSurvivesApart(h: HostState, es: seq<Event>, paths: set<Path>)
    requires HonestRun(h, es)
    requires Apart(paths) && VolumesWithin(h.mounts, paths) && forall e :: e in es ==> Uses(e, paths)
    ensures DataKept(h, RunOf(h, es))
  {
    ApartRunIsCareful(h, es, paths);
    DataSurvives(h, es);
  }

  // ---- The hypotheses on findmnt and blkid are needed ----

  const EMPTY_HOST := HostState([], {}, map[], {}, [])
  const STAGING: Path := ["staging"]
  const TARGET: Path := ["target"]
  const UNDER_STAGING := Mount(STAGING, Place(Some("vol"), []))
  const UNDER_TARGET := Mount(TARGET, Place(Some("vol"), []))

  /** A volume is staged, published and written to, without any fault. */
  function UsedVolume(): seq<Event> {
    [StageCall("vol", STAGING, true, StageEnv([true, true, true, true], NotFound, Mkfs(true, true, true, Found),
                                              Absent, Mounts, Present)),
     PublishCall("vol", STAGING, TARGET, true, PublishEnv(true, Absent, Mounts, Present)),
     Write("vol", ["data"])]
  }

  lemma StagedState() returns (h: HostState)
    ensures h == Step(EMPTY_HOST, UsedVolume()[0])
    ensures h.mounts == [UNDER_STAGING] && h.formatted == {"vol"} && h.files == map["vol" := {}]
    ensures h.mkfsRuns == ["vol"]
  {
    h := Step(EMPTY_HOST, UsedVolume()[0]);
    assert h.mounts == [UNDER_STAGING];
  }

  lemma PublishedState(h: HostState) returns (t: HostState)
    requires h.mounts == [UNDER_STAGING]
    ensures t == Step(h, UsedVolume()[1])
    ensures t.mounts == [UNDER_STAGING, UNDER_TARGET]
    ensures t.formatted == h.formatted && t.files == h.files && t.mkfsRuns == h.mkfsRuns
  {
    assert h.mounts[0].point <= STAGING && STAGING[1..] == [];
    assert Resolve(h.mounts, STAGING) == DeviceRoot("vol");
    t := Step(h, UsedVolume()[1]);
  }

  lemma UsedVolumeState() returns (h: HostState)
    ensures h == RunOf(EMPTY_HOST, UsedVolume()) && HonestRun(EMPTY_HOST, UsedVolume())
    ensures h.mounts == [UNDER_STAGING, UNDER_TARGET] && h.formatted == {"vol"} && h.files == map["vol" := {["data"]}]
  {
    var es := UsedVolume();
    var h1 := StagedState();
    var h2 := PublishedState(h1);
    h := Step(h2, es[2]);
    assert h.files["vol"] == {} + {["data"]} == {["data"]};
    UsedRun(h1, h2, h);
  }

  lemma UsedRun(h1: HostState, h2: HostState, h: HostState)
    requires h1 == Step(EMPTY_HOST, UsedVolume()[0])
    requires h2 == Step(h1, UsedVolume()[1]) && h == Step(h2, UsedVolume()[2])
    ensures h == RunOf(EMPTY_HOST, UsedVolume()) && HonestRun(EMPTY_HOST, UsedVolume())
  {
    var es := UsedVolume();
    assert es[1..][1..] == es[2..] && es[2..][1..] == [];
    assert RunOf(h, []) == h && RunOf(h2, es[2..]) == h && RunOf(h1, es[1..]) == h;
    assert HonestRun(h, []) && HonestRun(h2, es[2..]) && HonestRun(h1, es[1..]);
    assert Honest(EMPTY_HOST, es[0]);
  }

  /** What the published volume holds is reached through the target. */
  lemma DataIsExposed(mounts: seq<Mount>)
    requires mounts == [UNDER_STAGING, UNDER_TARGET]
    ensures Mounted(mounts, TARGET) && Exposed(mounts, TARGET, "vol", ["data"])
  {
    var q := TARGET + ["data"];
    assert UNDER_TARGET.point <= TARGET && UNDER_TARGET.point <= q && q[1..] == ["data"];
    assert mounts[1].point <= q && mounts[1].point <= TARGET;
    assert Covering(mounts, TARGET) == Some(UNDER_TARGET);
    assert Covering(mounts, q) == Some(UNDER_TARGET);
    assert TARGET <= q && !Mounted(mounts, q) && Resolve(mounts, q) == Place(Some("vol"), ["data"]);
  }

  /**
   Any failure of findmnt without output reads as not mounted. From an empty host, a volume is staged,
   published and written to; if findmnt then fails so, unpublishing may delete what was written.
   */
  lemma SilentFindmntLosesData(env: UnpublishEnv)
    requires env.findmnt.Absent? && env.survivingFiles == map["vol" := {}]
    ensures var h := RunOf(EMPTY_HOST, UsedVolume());
            && HonestRun(EMPTY_HOST, UsedVolume())
            && Mounted(h.mounts, TARGET) && h.files["vol"] == {["data"]}
            && LegalRemoval(h.mounts, TARGET, h.files, env.survivingFiles)
            && !DataKept(h, Unpublish(h, "vol", TARGET, env).0)
  {
    var h := UsedVolumeState();
    DataIsExposed(h.mounts);
    assert ["data"] in h.files["vol"];
  }

  /** The volume is unpublished and unstaged again, without any fault. */
  function LeftVolume(files: map<string, set<Path>>): seq<Event> {
    [UnpublishCall("vol", TARGET, UnpublishEnv(Present, true, true, files, {}, true)),
     UnstageCall("vol", STAGING, UnstageEnv(Present, true))]
  }

  lemma LeftVolumeState(h: HostState) returns (t: HostState)
    requires h.mounts == [UNDER_STAGING, UNDER_TARGET]
    ensures t == RunOf(h, LeftVolume(h.files)) && HonestRun(h, LeftVolume(h.files))
    ensures t.mounts == [] && t.files == h.files && t.formatted == h.formatted
  {
    var es := LeftVolume(h.files);
    DataIsExposed(h.mounts);
    var h1 := Step(h, es[0]);
    assert h1.mounts == [UNDER_STAGING];
    assert h1.mounts[0].point <= STAGING && Mounted(h1.mounts, STAGING);
    t := Step(h1, es[1]);
    assert t.mounts == [];
    assert es[1..][1..] == [];
    assert RunOf(t, []) == t && RunOf(h1, es[1..]) == t;
    assert HonestRun(t, []) && HonestRun(h1, es[1..]);
  }

  /**
   Every exit status 2 of blkid reads as not formatted. From an empty host, a volume is staged, published,
   written to, unpublished and unstaged; if blkid then answers so, staging it again runs mkfs a second
   time and loses what was written.
   */
  lemma FalseBlkidLosesData(env: StageEnv) returns (h: HostState)
    requires env.plugged == [true, true, true, true] && env.blkid.NotFound? && env.mkfs.completes
    ensures HonestRun(EMPTY_HOST, UsedVolume())
    ensures var used := RunOf(EMPTY_HOST, UsedVolume());
            HonestRun(used, LeftVolume(used.files)) && h == RunOf(used, LeftVolume(used.files))
    ensures "vol" in h.formatted && h.files == map["vol" := {["data"]}]
    ensures var h' := Stage(h, "vol", STAGING, true, env).0;
            h'.files == map["vol" := {}] && h'.mkfsRuns == h.mkfsRuns + ["vol"] && !DataKept(h, h')
  {
    var used := UsedVolumeState();
    h := LeftVolumeState(used);
    ReformatLosesData(h, env);
  }

  lemma ReformatLosesData(h: HostState, env: StageEnv)
    requires env.plugged == [true, true, true, true] && env.blkid.NotFound? && env.mkfs.completes
    requires "vol" in h.formatted && h.files == map["vol" := {["data"]}]
    ensures var h' := Stage(h, "vol", STAGING, true, env).0;
            h'.files == map["vol" := {}] && h'.mkfsRuns == h.mkfsRuns + ["vol"] && !DataKept(h, h')
  {
    var h' := Stage(h, "vol", STAGING, true, env).0;
    assert h'.files == map["vol" := {}];
    assert ["data"] in h.files["vol"] && ["data"] !in h'.files["vol"];
  }
}
