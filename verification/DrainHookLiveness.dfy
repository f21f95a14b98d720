/** When the PreStop waiter is woken, and when it sleeps until its context ends. */
module DrainHookLiveness {
  import opened DrainHook

  /** Something that will still lead a callback to list the attachments, or is about to stop. */
  ghost predicate Pending(s: State) {
    s.listing > 0 || s.stopping > 0 || exists c :: c in s.stream && CallsBack(s, c)
  }

  /** Deletions arrive as attachments and the callbacks' listings succeed. */
  predicate Faultless(e: Event) {
    && (e.Deliver? ==> !e.tombstone)
    && (e.CallbackList? ==> e.ok)
  }

  ghost predicate FaultlessRun(es: seq<Event>) {
    forall e :: e in es ==> Faultless(e)
  }

  /** While the node still has attachments, deliveries and listings may fail as they like. */
  predicate FaultlessOnceFree(s: State, e: Event) {
    NodeFree(s) ==> Faultless(e)
  }

  ghost predicate FaultlessWhileFree(s: State, es: seq<Event>)
    decreases |es|
  {
    es != [] && Enabled(s, es[0]) ==> FaultlessOnceFree(s, es[0]) && FaultlessWhileFree(Apply(s, es[0]), es[1..])
  }

  /**
   The wakeup is never lost: once the informer has known an attachment of the node and the node is
   free, the channel is closed or something is pending. Before the waiter returns, only known
   attachments cause anything.
   */
  ghost predicate Inv(s: State) {
    && (s.knew ==> s.synced)
    && (!s.synced ==> s.stream == [] && s.listing == 0 && s.stopping == 0)
    && (s.synced && !NodeFree(s) ==> s.knew)
    && (s.knew && NodeFree(s) ==> s.closes > 0 || Pending(s))
    && (s.closes > 0 <==> s.once)
    && (Pending(s) ==> s.knew)
    && (s.closes > 0 && Running(s) ==> s.knew)
    && (s.waiter.Starting? || s.waiter.Registering? ==> !s.synced && s.closes == 0)
  }

  lemma DeliveryKeepsInv(s: State, e: Event)
    requires Inv(s) && Enabled(s, e) && e == Deliver(false)
    ensures Inv(Apply(s, e))
  {
    var t := Apply(s, e);
    assert s.stream == [s.stream[0]] + t.stream;
    forall c | c in t.stream && CallsBack(t, c)
      ensures c in s.stream && CallsBack(s, c)
    {
    }
    if s.knew && NodeFree(s) && s.closes == 0 && s.listing == 0 && s.stopping == 0 {
      var c :| c in s.stream && CallsBack(s, c);
      assert c == s.stream[0] || c in t.stream;
    }
  }

  /** A change of the API server reaches the informer's stream behind everything pending. */
  lemma StreamGrows(s: State, t: State, change: Change)
    requires t.node == s.node && t.stream == s.stream + [change] && t.listing == s.listing && t.stopping == s.stopping
    ensures Pending(t) <==> Pending(s) || CallsBack(s, change)
  {
    forall c | c in s.stream
      ensures c in t.stream && (CallsBack(s, c) <==> CallsBack(t, c))
    {
    }
    assert change in t.stream && (CallsBack(s, change) <==> CallsBack(t, change));
  }

  lemma CreateKeepsInv(s: State, name: string, on: string)
    requires Inv(s) && Enabled(s, Create(name, on))
    ensures Inv(Apply(s, Create(name, on)))
  {
    var t := Apply(s, Create(name, on));
    assert t.attachments[name] == on;
    assert NodeFree(t) ==> NodeFree(s) by {
      assert forall n :: n in s.attachments ==> n in t.attachments && t.attachments[n] == s.attachments[n];
    }
    if s.synced {
      StreamGrows(s, t, Added(name, on));
    }
  }

  lemma UpdateKeepsInv(s: State, name: string)
    requires Inv(s) && Enabled(s, Update(name))
    ensures Inv(Apply(s, Update(name)))
  {
    if s.synced {
      StreamGrows(s, Apply(s, Update(name)), Modified(name, s.attachments[name]));
    }
  }

  lemma RemoveKeepsInv(s: State, name: string)
    requires Inv(s) && Enabled(s, Remove(name))
    ensures Inv(Apply(s, Remove(name)))
  {
    var t := Apply(s, Remove(name));
    if NodeFree(t) && s.attachments[name] != s.node {
      forall n | n in s.attachments
        ensures s.attachments[n] != s.node
      {
        assert n == name || n in t.attachments;
      }
    }
    if s.synced {
      StreamGrows(s, t, Deleted(name, s.attachments[name]));
    }
  }

  /** The waiter and the channel moved, nothing else. */
  lemma WaiterMoves(s: State, t: State)
    requires Inv(s) && t.node == s.node && t.attachments == s.attachments && t.synced == s.synced && t.knew == s.knew
    requires t.stream == s.stream && t.listing == s.listing && t.stopping == s.stopping
    requires (t.closes > 0 <==> t.once) && (s.closes > 0 ==> t.closes > 0)
    requires t.closes > 0 && Running(t) ==> s.knew
    requires t.waiter.Starting? || t.waiter.Registering? ==> !s.synced && t.closes == 0
    ensures Inv(t)
  {
    assert Pending(t) <==> Pending(s);
    assert NodeFree(t) <==> NodeFree(s);
  }

  lemma ReturnKeepsInv(s: State, w: Waiter)
    requires Inv(s) && (w.ReturnedNil? || w.ReturnedError?)
    ensures Inv(Return(s, w))
  {
    WaiterMoves(s, Return(s, w));
  }

  lemma CheckKeepsInv(s: State, ok: bool)
    requires Inv(s) && s.waiter.Checking?
    ensures Inv(Checked(s, ok))
  {
    if !ok {
      ReturnKeepsInv(s, ReturnedError);
    } else {
      WaiterMoves(s, Checked(s, ok));
    }
  }

  lemma NodeReadKeepsInv(s: State, reply: NodeReply)
    requires Inv(s) && s.waiter.Starting?
    ensures Inv(NodeRead(s, reply))
  {
    WaiterMoves(s, NodeRead(s, reply));
  }

  /** The waiter's own steps and the end of its context. */
  lemma WaiterKeepsInv(s: State, e: Event)
    requires Inv(s) && Enabled(s, e)
    requires e.ReadNode? || e.Register? || e.Check? || e.Woken? || e.EndContext?
    ensures Inv(Apply(s, e))
  {
    match e
    case ReadNode(reply) => NodeReadKeepsInv(s, reply);
    case Check(ok) => CheckKeepsInv(s, ok);
    case Register(ok) => if ok { WaiterMoves(s, s.(waiter := Checking)); } else { ReturnKeepsInv(s, ReturnedError); }
    case Woken(why) => if why != Ticked { ReturnKeepsInv(s, ReturnedNil); }
    case EndContext => WaiterMoves(s, s.(contextEnded := true));
  }

  lemma CallbackKeepsInv(s: State, e: Event)
    requires Inv(s) && Enabled(s, e) && Faultless(e) && (e.CallbackList? || e.CallbackStop?)
    ensures Inv(Apply(s, e))
  {
    assert Pending(s);
  }

  /** What a fault loses while the node has attachments is not needed: the last of them will be deleted. */
  lemma FaultWhileOccupied(s: State, e: Event)
    requires Inv(s) && Enabled(s, e) && !NodeFree(s) && (e.Deliver? || e.CallbackList?)
    ensures Inv(Apply(s, e))
  {
    var t := Apply(s, e);
    assert !NodeFree(t);
    forall c | c in t.stream && CallsBack(t, c)
      ensures c in s.stream && CallsBack(s, c)
    {
      assert e.Deliver? ==> s.stream == [s.stream[0]] + t.stream;
    }
  }

  lemma StepKeepsInv(s: State, e: Event)
    requires Inv(s) && Enabled(s, e) && FaultlessOnceFree(s, e)
    ensures Inv(Apply(s, e))
  {
    if !Faultless(e) {
      FaultWhileOccupied(s, e);
    } else {
      FaultlessStepKeepsInv(s, e);
    }
  }

  lemma FaultlessStepKeepsInv(s: State, e: Event)
    requires Inv(s) && Enabled(s, e) && Faultless(e)
    ensures Inv(Apply(s, e))
  {
    match e
    case Deliver(_) => DeliveryKeepsInv(s, e);
    case Create(name, on) => CreateKeepsInv(s, name, on);
    case Update(name) => UpdateKeepsInv(s, name);
    case Remove(name) => RemoveKeepsInv(s, name);
    case CallbackList(_) => CallbackKeepsInv(s, e);
    case CallbackStop => CallbackKeepsInv(s, e);
    case InitialList =>
    case _ => WaiterKeepsInv(s, e);
  }

  lemma {:induction false} RunKeepsInv(s: State, es: seq<Event>, t: State)
    requires Inv(s) && Run(s, es, t) && FaultlessWhileFree(s, es)
    ensures Inv(t)
    decreases |es|
  {
    if es != [] {
      StepKeepsInv(s, es[0]);
      RunKeepsInv(Apply(s, es[0]), es[1..], t);
    }
  }

  predicate Quiescent(s: State) {
    s.synced && s.stream == [] && s.listing == 0 && s.stopping == 0
  }

  /**
   Exactly when the waiter is woken: if nothing fails while the node is free, then once the informer has
   delivered everything and the node is free, the channel is closed if and only if the informer ever
   knew an attachment of the node, from its initial list or from a later creation.
   */
  lemma WokenExactlyIfKnown(s: State, es: seq<Event>, t: State)
    requires Initial(s) && Run(s, es, t) && FaultlessWhileFree(s, es)
    requires t.waiter.Selecting? && Quiescent(t) && NodeFree(t)
    ensures t.closes > 0 <==> t.knew
    ensures t.knew ==> Enabled(t, Woken(InformerClosed)) && Apply(t, Woken(InformerClosed)).waiter.ReturnedNil?
  {
    RunKeepsInv(s, es, t);
  }

  // ---- Whatever fails ----

  /** A callback's listing succeeds in a state in which the node is free, somewhere along the run. */
  ghost predicate CallbackSeesFree(s: State, es: seq<Event>)
    decreases |es|
  {
    && es != [] && Enabled(s, es[0])
    && ((NodeFree(s) && es[0] == CallbackList(true)) || CallbackSeesFree(Apply(s, es[0]), es[1..]))
  }

  predicate Signalled(s: State) {
    s.closes > 0 || s.stopping > 0
  }

  predicate HasReturned(s: State) {
    s.waiter.ReturnedNil? || s.waiter.ReturnedError?
  }

  lemma WaiterSignalsNothing(s: State, e: Event)
    requires Enabled(s, e) && !HasReturned(Apply(s, e)) && (e.ReadNode? || e.Register? || e.Check? || e.Woken?)
    ensures Apply(s, e).closes == s.closes && Apply(s, e).stopping == s.stopping && Apply(s, e).once == s.once
  {
    match e
    case ReadNode(_) =>
    case Register(_) =>
    case Check(_) =>
    case Woken(_) =>
  }

  lemma ListingSignals(s: State, ok: bool)
    requires s.listing > 0
    ensures var t := Listed(s, ok);
            t.closes == s.closes && t.once == s.once && (Signalled(t) <==> Signalled(s) || (NodeFree(s) && ok))
  {
  }

  lemma StopSignals(s: State)
    requires s.stopping > 0 && (s.closes > 0 <==> s.once)
    ensures var t := Stop(s.(stopping := s.stopping - 1)); t.closes > 0 && t.once
  {
  }

  lemma OutsideSignalsNothing(s: State, e: Event)
    requires Enabled(s, e) && (e.Create? || e.Update? || e.Remove? || e.InitialList? || e.EndContext?)
    ensures Apply(s, e).closes == s.closes && Apply(s, e).stopping == s.stopping && Apply(s, e).once == s.once
  {
  }

  lemma DeliverySignalsNothing(s: State, tombstone: bool)
    requires s.stream != []
    ensures var t := Delivered(s, tombstone); t.closes == s.closes && t.stopping == s.stopping && t.once == s.once
  {
    var next := s.(stream := s.stream[1..]);
    assert next.closes == s.closes && next.stopping == s.stopping && next.once == s.once;
  }

  /** Until the waiter returns, only a callback that saw the node free signals. */
  lemma SignalStep(s: State, e: Event)
    requires Enabled(s, e) && !HasReturned(Apply(s, e)) && (s.closes > 0 <==> s.once)
    ensures Apply(s, e).closes > 0 <==> Apply(s, e).once
    ensures Signalled(Apply(s, e)) <==> Signalled(s) || (NodeFree(s) && e == CallbackList(true))
  {
    if e.CallbackList? {
      ListingSignals(s, e.ok);
    } else if e.CallbackStop? {
      StopSignals(s);
    } else if e.Deliver? {
      DeliverySignalsNothing(s, e.tombstone);
    } else if e.ReadNode? || e.Register? || e.Check? || e.Woken? {
      WaiterSignalsNothing(s, e);
    } else {
      OutsideSignalsNothing(s, e);
    }
  }

  lemma ReturnedStays(s: State, e: Event)
    requires HasReturned(s) && Enabled(s, e)
    ensures Apply(s, e).waiter == s.waiter
  {
    match e
    case Deliver(_) =>
    case CallbackList(_) =>
    case CallbackStop =>
    case _ =>
  }

  lemma {:induction false} ReturnedForGood(s: State, es: seq<Event>, t: State)
    requires HasReturned(s) && Run(s, es, t)
    ensures HasReturned(t)
    decreases |es|
  {
    if es != [] {
      ReturnedStays(s, es[0]);
      ReturnedForGood(Apply(s, es[0]), es[1..], t);
    }
  }

  lemma {:induction false} SignalledExactly(s: State, es: seq<Event>, t: State)
    requires (s.closes > 0 <==> s.once) && Run(s, es, t) && !HasReturned(t)
    ensures Signalled(t) <==> Signalled(s) || CallbackSeesFree(s, es)
    decreases |es|
  {
    if es != [] {
      var s' := Apply(s, es[0]);
      if HasReturned(s') {
        ReturnedForGood(s', es[1..], t);
      } else {
        SignalStep(s, es[0]);
        SignalledExactly(s', es[1..], t);
      }
    }
  }

  /**
   No wakeup is lost, and none is invented, whatever failed: when no callback is about to stop, the
   waiter finds the channel closed if and only if some callback's listing succeeded while the node was
   free. One deletion that is delivered, whose listing succeeds before a new attachment, is enough.
   */
  lemma WokenExactlyBySeeingFree(s: State, es: seq<Event>, t: State)
    requires Initial(s) && Run(s, es, t) && t.waiter.Selecting? && t.stopping == 0
    ensures t.closes > 0 <==> CallbackSeesFree(s, es)
    ensures Enabled(t, Woken(InformerClosed)) <==> CallbackSeesFree(s, es)
  {
    SignalledExactly(s, es, t);
  }

  // ---- Progress ----

  /** Steps the informer's side can still make without news from the API server. */
  function Work(s: State): nat {
    3 * |s.stream| + 2 * s.listing + s.stopping
  }

  predicate Inner(e: Event) {
    e.Deliver? || e.CallbackList? || e.CallbackStop?
  }

  /** What inner steps leave alone. */
  predicate SameOutside(s: State, t: State) {
    t.waiter == s.waiter && t.attachments == s.attachments && t.knew == s.knew && t.node == s.node
  }

  lemma DeliveryShrinksWork(s: State, tombstone: bool)
    requires s.stream != []
    ensures Work(Delivered(s, tombstone)) < Work(s) && SameOutside(s, Delivered(s, tombstone))
  {
    var t := Delivered(s, tombstone);
    assert t.stream == s.stream[1..] && t.stopping == s.stopping;
    assert t.listing <= s.listing + 1;
  }

  lemma ListingShrinksWork(s: State, ok: bool)
    requires s.listing > 0
    ensures Work(Listed(s, ok)) < Work(s) && SameOutside(s, Listed(s, ok))
  {
  }

  lemma StopShrinksWork(s: State)
    requires s.stopping > 0
    ensures var t := Stop(s.(stopping := s.stopping - 1)); Work(t) < Work(s) && SameOutside(s, t)
  {
  }

  lemma InnerStepsShrinkWork(s: State, e: Event)
    requires Enabled(s, e) && Inner(e)
    ensures Work(Apply(s, e)) < Work(s) && SameOutside(s, Apply(s, e))
  {
    match e
    case Deliver(tombstone) => DeliveryShrinksWork(s, tombstone);
    case CallbackList(ok) => ListingShrinksWork(s, ok);
    case CallbackStop => StopShrinksWork(s);
  }

  /** Deliveries and callbacks alone, at most Work(s) of them and in any order, close the channel. */
  lemma {:induction false} InnerStepsClose(s: State, es: seq<Event>, t: State)
    requires Inv(s) && s.knew && NodeFree(s) && s.waiter.Selecting? && Run(s, es, t) && FaultlessRun(es)
    requires forall e :: e in es ==> Inner(e)
    ensures |es| <= Work(s)
    ensures |es| == Work(s) || Work(t) == 0 ==> t.closes > 0
    ensures t.closes == 0 ==> exists e :: Enabled(t, e) && Faultless(e) && Inner(e)
    decreases |es|
  {
    if es != [] {
      assert es[0] in es;
      InnerStepsShrinkWork(s, es[0]);
      StepKeepsInv(s, es[0]);
      InnerStepsClose(Apply(s, es[0]), es[1..], t);
    } else if s.closes == 0 {
      if s.stream != [] {
        assert Enabled(s, Deliver(false)) && Faultless(Deliver(false));
      } else if s.listing > 0 {
        assert Enabled(s, CallbackList(true)) && Faultless(CallbackList(true));
      } else {
        assert Enabled(s, CallbackStop) && Faultless(CallbackStop);
      }
    }
  }

  // ---- Sleeping until the context ends ----

  /** The waiter sleeps, the node is free, and nothing is on its way. */
  ghost predicate Stranded(s: State) {
    s.waiter.Selecting? && s.closes == 0 && !s.once && NodeFree(s) && s.synced && !Pending(s)
  }

  /** No new attachment of the node, and the context goes on. */
  predicate Quiet(s: State, e: Event) {
    !e.EndContext? && !(e.Create? && e.on == s.node)
  }

  ghost predicate QuietRun(s: State, es: seq<Event>)
    decreases |es|
  {
    es != [] && Enabled(s, es[0]) ==> Quiet(s, es[0]) && QuietRun(Apply(s, es[0]), es[1..])
  }

  lemma StrandedStep(s: State, e: Event)
    requires Stranded(s) && Enabled(s, e) && Quiet(s, e) && !s.contextEnded
    ensures Stranded(Apply(s, e)) && !Apply(s, e).contextEnded
  {
    var t := Apply(s, e);
    forall c | c in t.stream
      ensures !CallsBack(t, c)
    {
      if c in s.stream {
        assert !CallsBack(s, c);
      }
    }
  }

  /** A stranded waiter stays so on every run, until the context ends or an attachment is created. */
  lemma {:induction false} StrandedForGood(s: State, es: seq<Event>, t: State)
    requires Stranded(s) && !s.contextEnded && Run(s, es, t) && QuietRun(s, es)
    ensures t.waiter.Selecting? && t.closes == 0
    decreases |es|
  {
    if es != [] {
      StrandedStep(s, es[0]);
      StrandedForGood(Apply(s, es[0]), es[1..], t);
    }
  }

  lemma RunFirst(s: State, e: Event, es: seq<Event>, t: State)
    requires Enabled(s, e) && Run(Apply(s, e), es, t)
    ensures Run(s, [e] + es, t)
  {
    assert ([e] + es)[1..] == es;
  }

  /** A hook on a drained node with one attachment, before and after its informer is started. */
  function OnDrainedNode(waiter: Waiter): State {
    State("n", map["va" := "n"], waiter, false, false, [], 0, 0, false, 0, false, false, false)
  }

  /**
   The initial list matters: the waiter's check sees the attachment, which is deleted before the informer
   lists. No fault occurs and the informer is quiescent, yet the waiter sleeps for good.
   */
  lemma LateInformerStrands() returns (s: State, es: seq<Event>, t: State)
    ensures Initial(s) && FaultlessRun(es) && Run(s, es, t)
    ensures Stranded(t) && Quiescent(t) && !t.contextEnded && !t.knew
  {
    s := OnDrainedNode(Starting);
    var s1 := OnDrainedNode(Registering);
    var s2 := OnDrainedNode(Checking);
    assert "va" in s2.attachments && !NodeFree(s2);
    var s3 := Apply(s2, Check(true));
    var s4 := Apply(s3, Remove("va"));
    t := Apply(s4, InitialList);
    assert s4.attachments == map[];
    assert Run(t, [], t);
    RunFirst(s4, InitialList, [], t);
    RunFirst(s3, Remove("va"), [InitialList] + [], t);
    RunFirst(s2, Check(true), [Remove("va")] + ([InitialList] + []), t);
    RunFirst(s1, Register(true), [Check(true)] + ([Remove("va")] + ([InitialList] + [])), t);
    es := [ReadNode(Drained)] + ([Register(true)] + ([Check(true)] + ([Remove("va")] + ([InitialList] + []))));
    RunFirst(s, ReadNode(Drained), es[1..], t);
  }

  lemma {:induction false} RunAppend(s: State, es: seq<Event>, mid: State, e: Event)
    requires Run(s, es, mid) && Enabled(mid, e)
    ensures Run(s, es + [e], Apply(mid, e))
    decreases |es|
  {
    if es == [] {
      assert es + [e] == [e] && [e][1..] == [];
    } else {
      RunAppend(Apply(s, es[0]), es[1..], mid, e);
      assert (es + [e])[1..] == es[1..] + [e];
    }
  }

  /** The waiter sees the attachment, the informer knows it, and its deletion is about to be delivered. */
  lemma LastDeletionPending() returns (s: State, es: seq<Event>, t: State)
    ensures Initial(s) && FaultlessRun(es) && Run(s, es, t)
    ensures t.waiter.Selecting? && t.knew && t.synced && t.closes == 0 && !t.once && !t.contextEnded
    ensures t.node == "n" && t.attachments == map[] && t.stream == [Deleted("va", "n")]
    ensures t.listing == 0 && t.stopping == 0
  {
    s := OnDrainedNode(Starting);
    var s1, s2 := OnDrainedNode(Registering), OnDrainedNode(Checking);
    assert "va" in s2.attachments && !NodeFree(s2);
    var s3 := Apply(s2, InitialList);
    assert "va" in s3.attachments && !NodeFree(s3);
    var s4 := Apply(s3, Check(true));
    t := Apply(s4, Remove("va"));
    assert t.attachments == map[];
    es := [];
    RunAppend(s, es, s, ReadNode(Drained));
    RunAppend(s, es + [ReadNode(Drained)], s1, Register(true));
    RunAppend(s, es + [ReadNode(Drained)] + [Register(true)], s2, InitialList);
    RunAppend(s, es + [ReadNode(Drained)] + [Register(true)] + [InitialList], s3, Check(true));
    RunAppend(s, es + [ReadNode(Drained)] + [Register(true)] + [InitialList] + [Check(true)], s4, Remove("va"));
    es := es + [ReadNode(Drained)] + [Register(true)] + [InitialList] + [Check(true)] + [Remove("va")];
  }

  /** A failed listing is not retried: a run whose only fault is the last one, and the waiter sleeps for good. */
  lemma FailedListStrands() returns (s: State, es: seq<Event>, t: State)
    ensures Initial(s) && FaultlessRun(es) && Run(s, es + [CallbackList(false)], t)
    ensures Stranded(t) && Quiescent(t) && !t.contextEnded && t.knew
  {
    var before, pending;
    s, before, pending := LastDeletionPending();
    RunAppend(s, before, pending, Deliver(false));
    es := before + [Deliver(false)];
    var listing := Apply(pending, Deliver(false));
    assert listing.stream == [] && listing.listing == 1;
    RunAppend(s, es, listing, CallbackList(false));
    t := Apply(listing, CallbackList(false));
  }

  /** A tombstone is dropped: again the only fault is the last one, and the waiter sleeps for good. */
  lemma TombstoneStrands() returns (s: State, es: seq<Event>, t: State)
    ensures Initial(s) && FaultlessRun(es) && Run(s, es + [Deliver(true)], t)
    ensures Stranded(t) && Quiescent(t) && !t.contextEnded && t.knew
  {
    var pending;
    s, es, pending := LastDeletionPending();
    RunAppend(s, es, pending, Deliver(true));
    t := Apply(pending, Deliver(true));
    assert t.stream == [];
  }
}
