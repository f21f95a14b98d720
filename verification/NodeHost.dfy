/**
 A node's disks and mounts: which devices carry a file system, what files they hold, what is mounted
 where. Every operation of the DiskHotPlugger and of the os package may fail, as its result
 parameter says; the parameters are the environment's choice.
 */
module NodeHost {
  import opened Wrappers

  type Path = seq<string>

  /** A place in a file system: of a volume's device, or of the node itself. */
  datatype Place = Place(dev: Option<string>, rel: Path)

  datatype Mount = Mount(point: Path, source: Place)

  /**
   `mounts` lists the mount table in the order of mounting; `files` what each device's file system holds;
   `mkfsRuns` the devices mkfs has run on, in order.
   */
  datatype HostState = HostState(
    mounts: seq<Mount>,
    formatted: set<string>,
    files: map<string, set<Path>>,
    dirs: set<Path>,
    mkfsRuns: seq<string>)

  // ---- What the external commands report ----

  /** blkid: a file system was found, none was found (exit status 2), or it failed. */
  datatype Blkid = Found | NotFound | BlkidFailed

  datatype ReadError = NotExist | Corrupted | OtherError

  /**
   findmnt for a path: present, not present (any failure without output), or an error. The last two
   errors come from other implementations of the DiskHotPlugger interface.
   */
  datatype Findmnt = Present | Absent | Unknown(err: ReadError)

  /** mkfs: whether it wiped the device, left a file system and reported success; `after` is blkid's check. */
  datatype Mkfs = Mkfs(wipes: bool, completes: bool, succeeds: bool, after: Blkid)

  /** mount: the directory could not be made, only the directory was made, or it succeeded. */
  datatype MountResult = NoDirectory | OnlyDirectory | Mounts

  // ---- Mount table ----

  /** The mount a path leads through: the latest one on the path or on an ancestor, which hides all earlier ones. */
  function Covering(mounts: seq<Mount>, p: Path): (m: Option<Mount>)
    ensures m.None? <==> forall k :: k in mounts ==> !(k.point <= p)
    ensures m.Some? ==> m.value in mounts && m.value.point <= p
    decreases |mounts|
  {
    if mounts == [] then None
    else
      var n := |mounts| - 1;
      assert mounts == mounts[..n] + [mounts[n]];
      if mounts[n].point <= p then Some(mounts[n]) else Covering(mounts[..n], p)
  }

  /** The visible mount at this very path. */
  function TopAt(mounts: seq<Mount>, p: Path): Option<Place> {
    var m := Covering(mounts, p);
    if m.Some? && m.value.point == p then Some(m.value.source) else None
  }

  predicate Mounted(mounts: seq<Mount>, p: Path) {
    TopAt(mounts, p).Some?
  }

  /** The place a path leads to. */
  function Resolve(mounts: seq<Mount>, p: Path): Place {
    var m := Covering(mounts, p);
    if m.None? then Place(None, p)
    else m.value.source.(rel := m.value.source.rel + p[|m.value.point|..])
  }

  function WithoutTop(mounts: seq<Mount>, p: Path): seq<Mount>
    decreases |mounts|
  {
    if mounts == [] then []
    else
      var n := |mounts| - 1;
      if mounts[n].point == p then mounts[..n] else WithoutTop(mounts[..n], p) + [mounts[n]]
  }

  function Prefixes(p: Path): set<Path> {
    set i | 0 <= i <= |p| :: p[..i]
  }

  // ---- Operations on the state ----

  function Formatted(h: HostState, dev: string, m: Mkfs): HostState {
    h.(mkfsRuns := h.mkfsRuns + [dev],
       files := if m.wipes || m.completes then h.files[dev := {}] else h.files,
       formatted := if m.completes then h.formatted + {dev} else h.formatted)
  }

  function MountedOn(h: HostState, source: Place, point: Path, r: MountResult): HostState {
    match r
    case NoDirectory => h
    case OnlyDirectory => h.(dirs := h.dirs + Prefixes(point))
    case Mounts => h.(dirs := h.dirs + Prefixes(point), mounts := h.mounts + [Mount(point, source)])
  }

  /** The device node of a volume, as a path and as a place. */
  function DevicePath(vol: string): Path {
    ["dev", "disk", "by-id", vol]
  }

  function DeviceRoot(vol: string): Place {
    Place(Some(vol), [])
  }

  /**
   The driver's view of the disks of one node. Each method is one operation of the DiskHotPlugger
   interface or of the os package.
   */
  class Host {
    var mounts: seq<Mount>
    var formatted: set<string>
    var files: map<string, set<Path>>
    var dirs: set<Path>
    var mkfsRuns: seq<string>

    function State(): HostState
      reads this
    {
      HostState(mounts, formatted, files, dirs, mkfsRuns)
    }

    method IsFormatted(path: Option<string>, blkid: Blkid) returns (r: Result<bool, ReadError>)
      ensures r == if path.None? || blkid.BlkidFailed? then Err(OtherError) else Ok(blkid.Found?)
    {
      if path.None? {
        return Err(OtherError);
      }
      if blkid.BlkidFailed? {
        return Err(OtherError);
      }
      return Ok(blkid.Found?);
    }

    /**
     Format: an empty path makes mkfs fail without effect. Success is reported only when blkid, asked
     afterwards, finds a file system.
     */
    method Format(path: Option<string>, m: Mkfs) returns (ok: bool)
      modifies this
      ensures State() == if path.Some? then Formatted(old(State()), path.value, m) else old(State())
      ensures ok <==> path.Some? && m.succeeds && m.after.Found?
    {
      if path.None? {
        return false;
      }
      mkfsRuns := mkfsRuns + [path.value];
      if m.wipes || m.completes {
        files := files[path.value := {}];
      }
      if m.completes {
        formatted := formatted + {path.value};
      }
      if !m.succeeds {
        return false;
      }
      var check := IsFormatted(path, m.after);
      return check.Ok? && check.value;
    }

    method IsMounted(path: Option<Path>, findmnt: Findmnt) returns (r: Result<bool, ReadError>)
      ensures r == if path.None? then Err(OtherError)
                   else if findmnt.Unknown? then Err(findmnt.err)
                   else Ok(findmnt.Present?)
    {
      if path.None? {
        return Err(OtherError);
      }
      if findmnt.Unknown? {
        return Err(findmnt.err);
      }
      return Ok(findmnt.Present?);
    }

    /**
     Mount: the directory is made before the mount command runs, whatever it is given. Success is reported
     only when findmnt, asked afterwards, finds the mount point.
     */
    method MountAt(source: Option<Place>, point: Path, r: MountResult, after: Findmnt) returns (ok: bool)
      modifies this
      ensures State() == if source.Some? then MountedOn(old(State()), source.value, point, r)
                         else MountedOn(old(State()), Place(None, []), point, if r.Mounts? then OnlyDirectory else r)
      ensures ok <==> source.Some? && r.Mounts? && after.Present?
    {
      if r.NoDirectory? {
        return false;
      }
      dirs := dirs + Prefixes(point);
      if !r.Mounts? || source.None? {
        return false;
      }
      mounts := mounts + [Mount(point, source.value)];
      var check := IsMounted(Some(point), after);
      return check.Ok? && check.value;
    }

    /** Unmount fails when nothing is mounted there. */
    method Unmount(point: Path, works: bool) returns (ok: bool)
      modifies `mounts
      ensures ok <==> works && Mounted(old(mounts), point)
      ensures mounts == if ok then WithoutTop(old(mounts), point) else old(mounts)
    {
      ok := works && Mounted(mounts, point);
      if ok {
        mounts := WithoutTop(mounts, point);
      }
    }

    method MkdirAll(p: Path, works: bool)
      modifies `dirs
      ensures dirs == if works then old(dirs) + Prefixes(p) else old(dirs)
    {
      if works {
        dirs := dirs + Prefixes(p);
      }
    }

    /** RemoveAll with the files and directories that survive it. */
    method RemoveAll(survivingFiles: map<string, set<Path>>, survivingDirs: set<Path>)
      modifies `files, `dirs
      ensures files == survivingFiles && dirs == survivingDirs
    {
      files, dirs := survivingFiles, survivingDirs;
    }

    method Remove(p: Path, works: bool)
      modifies `dirs
      ensures dirs == if works then old(dirs) - {p} else old(dirs)
    {
      if works {
        dirs := dirs - {p};
      }
    }
  }
}
