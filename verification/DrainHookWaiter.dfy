/**
 The waiter's own code: PreStop and waitForVolumeAttachmentsCleanup, proved to move through the waiter
 states of DrainHook.dfy on whatever they observe, and every run of the protocol to move them so.
 */
module DrainHookWaiter {
  import opened Wrappers
  import opened DrainHook

  /** What the waiter observes: `listing` is None when the List call failed. */
  datatype Observation =
    | NodeIs(reply: NodeReply)
    | HandlerAdded(ok: bool)
    | ListingShows(free: Option<bool>)
    | Woke(why: Wake)

  function Observe(w: Waiter, o: Observation): Waiter {
    match o
    case NodeIs(reply) =>
      if !w.Starting? then w
      else if reply.NodeError? then ReturnedError
      else if reply.NotDrained? then ReturnedNil
      else Registering
    case HandlerAdded(ok) => if !w.Registering? then w else if ok then Checking else ReturnedError
    case ListingShows(free) =>
      if !w.Checking? then w
      else if free.None? then ReturnedError
      else if free.value then ReturnedNil
      else Selecting
    case Woke(why) => if w.Selecting? && !why.Ticked? then ReturnedNil else w
  }

  function ObserveAll(w: Waiter, os: seq<Observation>): Waiter
    decreases |os|
  {
    if os == [] then w else ObserveAll(Observe(w, os[0]), os[1..])
  }

  function Wakings(wakes: seq<Wake>): seq<Observation> {
    seq(|wakes|, i requires 0 <= i < |wakes| => Woke(wakes[i]))
  }

  function Verdict(listing: Option<seq<Attachment>>, node: string): Option<bool> {
    match listing
    case None => None
    case Some(list) => Some(NoneOn(list, node))
  }

  lemma {:induction false} WakingsEnd(wakes: seq<Wake>)
    ensures ObserveAll(Selecting, Wakings(wakes))
            == if forall w :: w in wakes ==> w == Ticked then Selecting else ReturnedNil
    decreases |wakes|
  {
    if wakes != [] {
      assert Wakings(wakes)[1..] == Wakings(wakes[1..]);
      assert forall w :: w in wakes <==> w == wakes[0] || w in wakes[1..];
      if wakes[0].Ticked? {
        WakingsEnd(wakes[1..]);
      } else {
        assert wakes[0] in wakes;
        ReturnedStays(ReturnedNil, Wakings(wakes[1..]));
      }
    }
  }

  lemma {:induction false} ReturnedStays(w: Waiter, os: seq<Observation>)
    requires w.ReturnedNil? || w.ReturnedError?
    ensures ObserveAll(w, os) == w
    decreases |os|
  {
    if os != [] {
      ReturnedStays(w, os[1..]);
    }
  }

  // ---- The hook's code ----

  /** The result is Selecting while every wake-up so far was a tick; the deferred stop runs on every return. */
  method WaitForVolumeAttachmentsCleanup(node: string, added: bool, listing: Option<seq<Attachment>>,
                                         wakes: seq<Wake>, ch: StopChannel) returns (w: Waiter)
    requires ch.Valid()
    modifies ch
    ensures ch.Valid()
    ensures w == ObserveAll(Registering, [HandlerAdded(added), ListingShows(Verdict(listing, node))] + Wakings(wakes))
    ensures w.ReturnedNil? || w.ReturnedError? ==> ch.closes == 1
    ensures w.Selecting? ==> ch.closes == old(ch.closes)
    ensures w.ReturnedNil? || w.ReturnedError? || w.Selecting?
    ensures w.ReturnedError? <==> !added || listing.None?
    ensures w.Selecting? <==>
              added && listing.Some? && !NoneOn(listing.value, node) && forall v :: v in wakes ==> v == Ticked
  {
    ghost var rest := [ListingShows(Verdict(listing, node))] + Wakings(wakes);
    assert ([HandlerAdded(added), ListingShows(Verdict(listing, node))] + Wakings(wakes))[1..] == rest;
    assert rest[1..] == Wakings(wakes);
    if !added {
      ReturnedStays(ReturnedError, rest);
      ch.Stop();
      return ReturnedError;
    }
    var found, err := CheckVolumeAttachmentsExist(listing, node);
    if err.None? {
      ReturnedStays(ReturnedNil, Wakings(wakes));
      ch.Stop();
      return ReturnedNil;
    } else if !found {
      ReturnedStays(ReturnedError, Wakings(wakes));
      ch.Stop();
      return ReturnedError;
    }
    WakingsEnd(wakes);
    var wake := SelectLoop(wakes);
    if wake.None? {
      return Selecting;
    }
    ch.Stop();
    return ReturnedNil;
  }

  /**
   The whole hook. It waits for a drained node and for a missing one, returns nil for any other node, and an
   error when the node cannot be read; only a hook that waited touches the channel.
   */
  method PreStop(taints: Result<seq<string>, NodeReply>, node: string, added: bool, listing: Option<seq<Attachment>>,
                 wakes: seq<Wake>, ch: StopChannel) returns (w: Waiter)
    requires ch.Valid() && (taints.Err? ==> taints.error in {NodeMissing, NodeError})
    modifies ch
    ensures ch.Valid()
    ensures var reply := if taints.Err? then taints.error
                         else if UNSCHEDULABLE in taints.value then Drained else NotDrained;
            w == ObserveAll(Starting, [NodeIs(reply), HandlerAdded(added), ListingShows(Verdict(listing, node))]
                                      + Wakings(wakes))
    ensures var waits := if taints.Err? then taints.error == NodeMissing else UNSCHEDULABLE in taints.value;
            var free := listing.Some? && NoneOn(listing.value, node);
            && (w.ReturnedError? <==> (taints.Err? && !waits) || (waits && (!added || listing.None?)))
            && (w.ReturnedNil? <==>
                  || (taints.Ok? && !waits)
                  || (waits && added && listing.Some? && (free || exists v :: v in wakes && v != Ticked)))
            && (!waits ==> ch.closes == old(ch.closes))
            && (waits && !w.Selecting? ==> ch.closes == 1)
  {
    ghost var rest := [HandlerAdded(added), ListingShows(Verdict(listing, node))] + Wakings(wakes);
    assert forall o :: ([o, HandlerAdded(added), ListingShows(Verdict(listing, node))] + Wakings(wakes))[1..] == rest;
    if taints.Err? {
      if taints.error != NodeMissing {
        ReturnedStays(ReturnedError, rest);
        return ReturnedError;
      }
    } else {
      var drained := IsNodeDrained(taints.value);
      if !drained {
        ReturnedStays(ReturnedNil, rest);
        return ReturnedNil;
      }
    }
    w := WaitForVolumeAttachmentsCleanup(node, added, listing, wakes, ch);
  }

  // ---- The protocol moves the waiter as its code does ----

  /** What an event of the protocol shows the waiter, if anything. */
  function Shown(s: State, e: Event): seq<Observation> {
    match e
    case ReadNode(reply) => [NodeIs(reply)]
    case Register(ok) => [HandlerAdded(ok)]
    case Check(ok) => [ListingShows(if ok then Some(NodeFree(s)) else None)]
    case Woken(why) => [Woke(why)]
    case _ => []
  }

  ghost function ShownAll(s: State, es: seq<Event>): seq<Observation>
    decreases |es|
  {
    if es == [] || !Enabled(s, es[0]) then [] else Shown(s, es[0]) + ShownAll(Apply(s, es[0]), es[1..])
  }

  /** Events of the others leave the waiter where it is. */
  lemma OthersLeaveWaiter(s: State, e: Event)
    requires Enabled(s, e) && !e.ReadNode? && !e.Register? && !e.Check? && !e.Woken?
    ensures Apply(s, e).waiter == s.waiter
  {
    match e
    case Deliver(_) =>
    case CallbackList(_) =>
    case CallbackStop =>
    case _ =>
  }

  lemma WaiterFollowsCode(s: State, e: Event)
    requires Enabled(s, e) && (e.ReadNode? || e.Register? || e.Check? || e.Woken?)
    ensures |Shown(s, e)| == 1 && Apply(s, e).waiter == Observe(s.waiter, Shown(s, e)[0])
  {
    match e
    case ReadNode(_) =>
    case Register(_) =>
    case Check(_) =>
    case Woken(_) =>
  }

  lemma StepFollowsCode(s: State, e: Event)
    requires Enabled(s, e)
    ensures Apply(s, e).waiter == ObserveAll(s.waiter, Shown(s, e))
  {
    if e.ReadNode? || e.Register? || e.Check? || e.Woken? {
      WaiterFollowsCode(s, e);
      assert Shown(s, e)[1..] == [];
    } else {
      OthersLeaveWaiter(s, e);
    }
  }

  lemma {:induction false} ObserveAppend(w: Waiter, os: seq<Observation>, rest: seq<Observation>)
    ensures ObserveAll(w, os + rest) == ObserveAll(ObserveAll(w, os), rest)
    decreases |os|
  {
    if os == [] {
      assert os + rest == rest;
    } else {
      assert (os + rest)[1..] == os[1..] + rest;
      ObserveAppend(Observe(w, os[0]), os[1..], rest);
    }
  }

  /** In every run of the protocol the waiter is where its code is after what the run showed it. */
  lemma {:induction false} ProtocolFollowsCode(s: State, es: seq<Event>, t: State)
    requires Run(s, es, t)
    ensures t.waiter == ObserveAll(s.waiter, ShownAll(s, es))
    decreases |es|
  {
    if es != [] {
      StepFollowsCode(s, es[0]);
      ProtocolFollowsCode(Apply(s, es[0]), es[1..], t);
      ObserveAppend(s.waiter, Shown(s, es[0]), ShownAll(Apply(s, es[0]), es[1..]));
    }
  }

  /** A List call made in a state answers with its attachments. */
  ghost predicate Lists(list: seq<Attachment>, attachments: map<string, string>) {
    && (forall a :: a in list ==> a.name in attachments && attachments[a.name] == a.node)
    && (forall name :: name in attachments ==> Attachment(name, attachments[name]) in list)
  }

  /** Scanning a listing for the node finds out whether the node is free. */
  lemma ListingDecides(s: State, list: seq<Attachment>)
    requires Lists(list, s.attachments)
    ensures NoneOn(list, s.node) <==> NodeFree(s)
  {
    if !NodeFree(s) {
      var name :| name in s.attachments && s.attachments[name] == s.node;
      assert Attachment(name, s.attachments[name]) in list;
    }
  }
}
