/**
 The node service: staging, unstaging, publishing and unpublishing a volume. Each handler is written as
 in the source over the mutable host and proved to change it as its specification function says.
 */
module NodeServer {
  import opened Wrappers
  import opened NodeHost

  /** PathForVolume is read up to four times; a disk may vanish and return in between. */
  datatype StageEnv = StageEnv(plugged: seq<bool>, blkid: Blkid, mkfs: Mkfs, findmnt: Findmnt, mount: MountResult,
                               after: Findmnt)

  datatype PublishEnv = PublishEnv(mkdir: bool, findmnt: Findmnt, mount: MountResult, after: Findmnt)

  datatype UnpublishEnv = UnpublishEnv(findmnt: Findmnt, umount: bool, remove: bool,
                                       survivingFiles: map<string, set<Path>>, survivingDirs: set<Path>,
                                       removeAll: bool)

  datatype UnstageEnv = UnstageEnv(findmnt: Findmnt, umount: bool)

  datatype Answer = Done | Failed

  /** The n-th reading of PathForVolume. */
  function DeviceAt(vol: string, env: StageEnv, n: nat): Option<string> {
    if n < |env.plugged| && env.plugged[n] then Some(vol) else None
  }

  function Stage(h: HostState, vol: string, staging: Path, capable: bool, env: StageEnv): (HostState, Answer) {
    if vol == "" || staging == [] || !capable || DeviceAt(vol, env, 0).None? || env.blkid.BlkidFailed? then (h, Failed)
    else
      var h1 := if env.blkid.NotFound? && DeviceAt(vol, env, 1).Some? then Formatted(h, vol, env.mkfs) else h;
      if DeviceAt(vol, env, 2).None? || env.findmnt.Unknown? then (h1, Failed)
      else if env.findmnt.Present? then (h1, Done)
      else if DeviceAt(vol, env, 3).Some? then (MountedOn(h1, DeviceRoot(vol), staging, env.mount), Done)
      else (MountedOn(h1, DeviceRoot(vol), staging, if env.mount.Mounts? then OnlyDirectory else env.mount), Done)
  }

  function Unstage(h: HostState, vol: string, staging: Path, env: UnstageEnv): (HostState, Answer) {
    if vol == "" || staging == [] || env.findmnt.Unknown? then (h, Failed)
    else if env.findmnt.Absent? then (h, Done)
    else if env.umount && Mounted(h.mounts, staging) then (h.(mounts := WithoutTop(h.mounts, staging)), Done)
    else (h, Failed)
  }

  function Publish(h: HostState, vol: string, staging: Path, target: Path, capable: bool, env: PublishEnv)
    : (HostState, Answer)
  {
    if vol == "" || staging == [] || target == [] || !capable || !env.mkdir then (h, Failed)
    else
      var h1 := h.(dirs := h.dirs + Prefixes(target));
      if env.findmnt.Unknown? then (h1, Failed)
      else if env.findmnt.Present? then (h1, Done)
      else (MountedOn(h1, Resolve(h.mounts, staging), target, env.mount), Done)
  }

  function Unpublish(h: HostState, vol: string, target: Path, env: UnpublishEnv): (HostState, Answer) {
    if vol == "" || target == [] then (h, Failed)
    else if env.findmnt == Unknown(NotExist) then (h, Done)
    else if env.findmnt == Unknown(OtherError) then (h, Failed)
    else if env.findmnt.Absent? then
      (h.(files := env.survivingFiles, dirs := env.survivingDirs), if env.removeAll then Done else Failed)
    else if env.umount && Mounted(h.mounts, target) then
      var h1 := h.(mounts := WithoutTop(h.mounts, target));
      if env.remove then (h1.(dirs := h1.dirs - {target}), Done) else (h1, Failed)
    else (h, Failed)
  }

  // ---- What success means ----

  /** The answer of a stage or publish says nothing about whether its format and mount worked. */
  lemma AnswerIgnoresEffects(h: HostState, vol: string, staging: Path, target: Path, capable: bool,
                             e: StageEnv, e': StageEnv, p: PublishEnv, p': PublishEnv)
    requires e'.plugged == e.plugged && e'.blkid == e.blkid && e'.findmnt == e.findmnt
    requires p'.mkdir == p.mkdir && p'.findmnt == p.findmnt
    ensures Stage(h, vol, staging, capable, e).1 == Stage(h, vol, staging, capable, e').1
    ensures Publish(h, vol, staging, target, capable, p).1 == Publish(h, vol, staging, target, capable, p').1
  {
  }

  lemma TopOfAppended(mounts: seq<Mount>, m: Mount, p: Path)
    ensures m.point == p ==> TopAt(mounts + [m], p) == Some(m.source)
    ensures !(m.point <= p) ==> TopAt(mounts + [m], p) == TopAt(mounts, p)
  {
    assert (mounts + [m])[..|mounts|] == mounts;
  }

  /**
   Exactly when a stage that answers without error has the volume's root on top at the staging path: it
   was there already, or findmnt denied the device, the device was still plugged in at its fourth
   reading, and the mount command worked.
   */
  lemma StagedExactly(h: HostState, vol: string, staging: Path, capable: bool, env: StageEnv)
    requires Stage(h, vol, staging, capable, env).1.Done?
    ensures TopAt(Stage(h, vol, staging, capable, env).0.mounts, staging) == Some(DeviceRoot(vol))
            <==> TopAt(h.mounts, staging) == Some(DeviceRoot(vol))
                 || (env.findmnt.Absent? && DeviceAt(vol, env, 3).Some? && env.mount.Mounts?)
  {
    TopOfAppended(h.mounts, Mount(staging, DeviceRoot(vol)), staging);
  }

  /** The same for publish: the target then leads where the staging path leads. */
  lemma PublishedExactly(h: HostState, vol: string, staging: Path, target: Path, capable: bool, env: PublishEnv)
    requires Publish(h, vol, staging, target, capable, env).1.Done?
    ensures var place := Resolve(h.mounts, staging);
            TopAt(Publish(h, vol, staging, target, capable, env).0.mounts, target) == Some(place)
            <==> TopAt(h.mounts, target) == Some(place) || (env.findmnt.Absent? && env.mount.Mounts?)
  {
    TopOfAppended(h.mounts, Mount(target, Resolve(h.mounts, staging)), target);
  }

  /** Exactly when a stage answers without error, and exactly when it runs mkfs, which may come before an error. */
  lemma StageAnswersExactly(h: HostState, vol: string, staging: Path, capable: bool, env: StageEnv)
    ensures var (h', a) := Stage(h, vol, staging, capable, env);
            var checked := vol != "" && staging != [] && capable && DeviceAt(vol, env, 0).Some?
                           && !env.blkid.BlkidFailed?;
            && (a.Done? <==> checked && DeviceAt(vol, env, 2).Some? && !env.findmnt.Unknown?)
            && h'.mkfsRuns == h.mkfsRuns
                              + (if checked && env.blkid.NotFound? && DeviceAt(vol, env, 1).Some? then [vol] else [])
            && (h'.mkfsRuns != h.mkfsRuns && env.mkfs.completes ==>
                  h'.formatted == h.formatted + {vol} && vol in h'.files && h'.files[vol] == {})
            && (h'.mkfsRuns == h.mkfsRuns || (!env.mkfs.wipes && !env.mkfs.completes) ==>
                  h'.formatted == h.formatted && h'.files == h.files)
            && (a.Failed? || env.findmnt.Present? ==> h'.mounts == h.mounts && h'.dirs == h.dirs)
            && (a.Done? && env.findmnt.Absent? ==>
                  && h'.dirs == (if env.mount.NoDirectory? then h.dirs else h.dirs + Prefixes(staging))
                  && h'.mounts in {h.mounts, h.mounts + [Mount(staging, DeviceRoot(vol))]})
  {
  }

  /** Exactly when a publish answers without error; a target that is mounted already is left as it is. */
  lemma PublishAnswersExactly(h: HostState, vol: string, staging: Path, target: Path, capable: bool, env: PublishEnv)
    ensures var (h', a) := Publish(h, vol, staging, target, capable, env);
            var made := vol != "" && staging != [] && target != [] && capable && env.mkdir;
            && (a.Done? <==> made && !env.findmnt.Unknown?)
            && h'.dirs == (if made then h.dirs + Prefixes(target) else h.dirs)
            && h'.files == h.files && h'.formatted == h.formatted && h'.mkfsRuns == h.mkfsRuns
            && (a.Failed? || env.findmnt.Present? ==> h'.mounts == h.mounts)
            && h'.mounts in {h.mounts, h.mounts + [Mount(target, Resolve(h.mounts, staging))]}
  {
  }

  /** The visible mount at a path is one that WithoutTop takes away. */
  lemma {:induction false} WithoutTopShrinks(mounts: seq<Mount>, p: Path)
    ensures (exists m :: m in mounts && m.point == p) ==> |WithoutTop(mounts, p)| == |mounts| - 1
    decreases |mounts|
  {
    if mounts != [] {
      var n := |mounts| - 1;
      assert mounts == mounts[..n] + [mounts[n]];
      WithoutTopShrinks(mounts[..n], p);
    }
  }

  lemma MountedShrinks(mounts: seq<Mount>, p: Path)
    requires Mounted(mounts, p)
    ensures WithoutTop(mounts, p) != mounts && |WithoutTop(mounts, p)| == |mounts| - 1
  {
    var m := Covering(mounts, p).value;
    assert m in mounts && m.point == p;
    WithoutTopShrinks(mounts, p);
  }

  /**
   Exactly when an unstage answers without error: nothing was mounted as far as findmnt knows, or the visible
   mount was taken off. Nothing else changes.
   */
  lemma UnstagedExactly(h: HostState, vol: string, staging: Path, env: UnstageEnv)
    ensures var (h', a) := Unstage(h, vol, staging, env);
            var taken := Mounted(h.mounts, staging) && h'.mounts == WithoutTop(h.mounts, staging);
            && h' == h.(mounts := h'.mounts)
            && (a.Done? <==> vol != "" && staging != [] && (env.findmnt.Absent? || (env.findmnt.Present? && taken)))
            && (taken || h'.mounts == h.mounts)
            && (taken <==>
                  vol != "" && staging != [] && env.findmnt.Present? && env.umount && Mounted(h.mounts, staging))
  {
    if Mounted(h.mounts, staging) {
      MountedShrinks(h.mounts, staging);
    }
  }

  /**
   Exactly when an unpublish answers without error: of a target that findmnt knows as mounted or corrupted, when
   the visible mount was taken off and the target removed; of one it knows as not mounted, when RemoveAll
   succeeded; and of one that does not exist.
   */
  lemma UnpublishedExactly(h: HostState, vol: string, target: Path, env: UnpublishEnv)
    requires vol != "" && target != []
    ensures var (h', a) := Unpublish(h, vol, target, env);
            var taken := Mounted(h.mounts, target) && h'.mounts == WithoutTop(h.mounts, target);
            && (env.findmnt in {Present, Unknown(Corrupted)} ==>
                  && h'.files == h.files
                  && (taken <==> env.umount && Mounted(h.mounts, target)) && (taken || h' == h)
                  && (a.Done? <==> taken && env.remove) && (a.Done? ==> h'.dirs == h.dirs - {target}))
            && (env.findmnt.Absent? ==>
                  && h' == h.(files := env.survivingFiles, dirs := env.survivingDirs) && (a.Done? <==> env.removeAll))
            && (env.findmnt == Unknown(NotExist) ==> h' == h && a.Done?)
            && (env.findmnt == Unknown(OtherError) ==> h' == h && a.Failed?)
  {
    if Mounted(h.mounts, target) {
      MountedShrinks(h.mounts, target);
    }
  }

  lemma InvalidUnpublishFails(h: HostState, vol: string, target: Path, env: UnpublishEnv)
    requires vol == "" || target == []
    ensures Unpublish(h, vol, target, env) == (h, Failed)
  {
  }

  // ---- The handlers ----

  method NodeStageVolume(host: Host, vol: string, staging: Path, capable: bool, env: StageEnv) returns (a: Answer)
    modifies host
    ensures (host.State(), a) == Stage(old(host.State()), vol, staging, capable, env)
  {
    if vol == "" {
      return Failed;
    }
    if staging == [] {
      return Failed;
    }
    if !capable {
      return Failed;
    }
    var attachedDiskPath := DeviceAt(vol, env, 0);
    if attachedDiskPath.None? {
      return Failed;
    }
    var formatted := host.IsFormatted(attachedDiskPath, env.blkid);
    if formatted.Err? {
      return Failed;
    }
    if !formatted.value {
      var _ := host.Format(DeviceAt(vol, env, 1), env.mkfs);  // the error is dropped
    }
    // asks about the device path, not about the staging path
    var device := DeviceAt(vol, env, 2);
    var mounted := host.IsMounted(if device.Some? then Some(DevicePath(vol)) else None, env.findmnt);
    if mounted.Err? {
      return Failed;
    }
    if !mounted.value {
      var source := DeviceAt(vol, env, 3);
      // the error is dropped
      var _ := host.MountAt(if source.Some? then Some(DeviceRoot(vol)) else None, staging, env.mount, env.after);
    }
    return Done;
  }

  method NodeUnstageVolume(host: Host, vol: string, staging: Path, env: UnstageEnv) returns (a: Answer)
    modifies host
    ensures (host.State(), a) == Unstage(old(host.State()), vol, staging, env)
  {
    if vol == "" {
      return Failed;
    }
    if staging == [] {
      return Failed;
    }
    var mounted := host.IsMounted(Some(staging), env.findmnt);
    if mounted.Err? {
      return Failed;
    }
    if mounted.value {
      var ok := host.Unmount(staging, env.umount);
      if !ok {
        return Failed;
      }
    }
    return Done;
  }

  method NodePublishVolume(host: Host, vol: string, staging: Path, target: Path, capable: bool, env: PublishEnv)
    returns (a: Answer)
    modifies host
    ensures (host.State(), a) == Publish(old(host.State()), vol, staging, target, capable, env)
  {
    if vol == "" {
      return Failed;
    }
    if staging == [] {
      return Failed;
    }
    if target == [] {
      return Failed;
    }
    if !capable {
      return Failed;
    }
    host.MkdirAll(target, env.mkdir);
    if !env.mkdir {
      return Failed;
    }
    var mounted := host.IsMounted(Some(target), env.findmnt);
    if mounted.Err? {
      return Failed;
    }
    if !mounted.value {
      var _ := host.MountAt(Some(Resolve(host.mounts, staging)), target, env.mount, env.after);  // the error is dropped
    }
    return Done;
  }

  method NodeUnpublishVolume(host: Host, vol: string, target: Path, env: UnpublishEnv) returns (a: Answer)
    modifies host
    ensures (host.State(), a) == Unpublish(old(host.State()), vol, target, env)
  {
    if vol == "" {
      return Failed;
    }
    if target == [] {
      return Failed;
    }
    var reading := host.IsMounted(Some(target), env.findmnt);
    var mounted := reading.Ok? && reading.value;
    if reading.Err? {
      if reading.error == NotExist {
        return Done;
      }
      if reading.error != Corrupted {
        return Failed;
      }
      mounted := true;
    }
    if !mounted {
      host.RemoveAll(env.survivingFiles, env.survivingDirs);
      if !env.removeAll {
        return Failed;
      }
      return Done;
    }
    var ok := host.Unmount(target, env.umount);
    if !ok {
      return Failed;
    }
    host.Remove(target, env.remove);
    if !env.remove {
      return Failed;
    }
    return Done;
  }
}
