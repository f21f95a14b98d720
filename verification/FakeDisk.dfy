/**
 The one-disk test double of the DiskHotPlugger. It remembers a single mount point, and so answers like a
 mount table exactly as long as at most one path is mounted at a time.
 */
module FakeDisk {
  datatype Fields = Fields(device: string, mountpoint: string, mounted: bool)

  function AfterMount(f: Fields, path: string, point: string): Fields {
    f.(device := path, mountpoint := point, mounted := true)
  }

  function AfterUnmount(f: Fields): Fields {
    f.(mountpoint := "", mounted := false)
  }

  predicate SaysMounted(f: Fields, target: string) {
    f.mountpoint == target && f.mounted
  }

  class FakeDiskHotPlugger {
    var device: string
    var mountpoint: string
    var mounted: bool

    function State(): Fields
      reads this
    {
      Fields(device, mountpoint, mounted)
    }

    constructor ()
      ensures State() == Fields("", "", false)
    {
      device, mountpoint, mounted := "", "", false;
    }

    method Mount(path: string, point: string)
      modifies this
      ensures State() == AfterMount(old(State()), path, point)
    {
      device, mountpoint, mounted := path, point, true;
    }

    /** The argument is ignored. */
    method Unmount(point: string)
      modifies `mountpoint, `mounted
      ensures State() == AfterUnmount(old(State()))
    {
      mountpoint, mounted := "", false;
    }

    method IsMounted(target: string) returns (r: bool)
      ensures r == SaysMounted(State(), target)
    {
      if mountpoint != target {
        return false;
      }
      return mounted;
    }
  }

  // ---- Against a mount table ----

  datatype Op = MountOp(path: string, point: string) | UnmountOp(point: string)

  function FakeStep(f: Fields, op: Op): Fields {
    match op
    case MountOp(path, point) => AfterMount(f, path, point)
    case UnmountOp(_) => AfterUnmount(f)
  }

  /** The mounted paths of a host that mounts each path at most once. */
  function TableStep(table: set<string>, op: Op): set<string> {
    match op
    case MountOp(_, point) => table + {point}
    case UnmountOp(point) => table - {point}
  }

  ghost predicate Agrees(f: Fields, table: set<string>) {
    forall p :: SaysMounted(f, p) <==> p in table
  }

  ghost predicate AgreesThroughout(f: Fields, table: set<string>, ops: seq<Op>)
    decreases |ops|
  {
    Agrees(f, table)
    && (ops != [] ==> AgreesThroughout(FakeStep(f, ops[0]), TableStep(table, ops[0]), ops[1..]))
  }

  /** Every operation names the only path that may be mounted when it is done. */
  predicate OneAtATime(table: set<string>, ops: seq<Op>)
    decreases |ops|
  {
    ops != [] ==> table <= {ops[0].point} && OneAtATime(TableStep(table, ops[0]), ops[1..])
  }

  lemma StepAgreesExactly(f: Fields, table: set<string>, op: Op)
    requires Agrees(f, table)
    ensures Agrees(FakeStep(f, op), TableStep(table, op)) <==> table <= {op.point}
  {
    var f', table' := FakeStep(f, op), TableStep(table, op);
    if Agrees(f', table') {
      forall p | p in table
        ensures p == op.point
      {
        assert p in table' <==> SaysMounted(f', p);
      }
    }
  }

  /**
   The double answers every IsMounted like a mount table if and only if at most one path is mounted at a
   time. A stage followed by a publish is already beyond it: the staging path then reads as unmounted.
   */
  lemma {:induction false} FaithfulExactly(f: Fields, table: set<string>, ops: seq<Op>)
    requires Agrees(f, table)
    ensures AgreesThroughout(f, table, ops) <==> OneAtATime(table, ops)
    decreases |ops|
  {
    if ops != [] {
      StepAgreesExactly(f, table, ops[0]);
      if table <= {ops[0].point} {
        FaithfulExactly(FakeStep(f, ops[0]), TableStep(table, ops[0]), ops[1..]);
      }
    }
  }
}
