/** PreStop returns nil only with cause, and its channel is closed at most once. */
module DrainHookSafety {
  import opened DrainHook

  predicate Inv(s: State) {
    && (s.closes == if s.once then 1 else 0)
    && (s.stopping > 0 ==> s.sawFree)
    && (s.closes > 0 ==> s.sawFree || s.waiter.ReturnedNil? || s.waiter.ReturnedError?)
    && (s.waiter.ReturnedNil? ==> s.notDrained || s.sawFree || s.contextEnded)
  }

  predicate SeesFree(s: State, e: Event) {
    NodeFree(s) && (e == Check(true) || e == CallbackList(true))
  }

  lemma ReturnKeepsInv(s: State, w: Waiter)
    requires Inv(s) && (w.ReturnedNil? ==> s.notDrained || s.sawFree || s.contextEnded)
    requires w.ReturnedNil? || w.ReturnedError?
    ensures Inv(Return(s, w)) && Return(s, w).sawFree == s.sawFree
  {
  }

  lemma CheckKeepsInv(s: State, ok: bool)
    requires Inv(s) && s.waiter.Checking?
    ensures Inv(Checked(s, ok)) && (Checked(s, ok).sawFree <==> s.sawFree || (ok && NodeFree(s)))
  {
    if !ok {
      ReturnKeepsInv(s, ReturnedError);
    } else if NodeFree(s) {
      ReturnKeepsInv(s.(sawFree := true), ReturnedNil);
    }
  }

  lemma WaiterStepKeepsInv(s: State, e: Event)
    requires Inv(s) && Enabled(s, e) && (e.ReadNode? || e.Register? || e.Check? || e.Woken?)
    ensures Inv(Apply(s, e)) && (Apply(s, e).sawFree <==> s.sawFree || SeesFree(s, e))
  {
    match e
    case ReadNode(_) =>
    case Register(ok) => if !ok { ReturnKeepsInv(s, ReturnedError); }
    case Check(ok) => CheckKeepsInv(s, ok);
    case Woken(why) => if why != Ticked { ReturnKeepsInv(s, ReturnedNil); }
  }

  lemma ApiStepKeepsInv(s: State, e: Event)
    requires Inv(s) && Enabled(s, e) && (e.Create? || e.Update? || e.Remove? || e.InitialList? || e.EndContext?)
    ensures Inv(Apply(s, e)) && (Apply(s, e).sawFree <==> s.sawFree)
  {
  }

  lemma ListingKeepsInv(s: State, ok: bool)
    requires Inv(s) && s.listing > 0
    ensures Inv(Listed(s, ok)) && (Listed(s, ok).sawFree <==> s.sawFree || (ok && NodeFree(s)))
  {
  }

  lemma DeliveryKeepsInv(s: State, tombstone: bool)
    requires Inv(s) && s.stream != []
    ensures Inv(Delivered(s, tombstone)) && Delivered(s, tombstone).sawFree == s.sawFree
  {
  }

  lemma CallbackStepKeepsInv(s: State, e: Event)
    requires Inv(s) && Enabled(s, e) && (e.Deliver? || e.CallbackList? || e.CallbackStop?)
    ensures Inv(Apply(s, e)) && (Apply(s, e).sawFree <==> s.sawFree || SeesFree(s, e))
  {
    match e
    case Deliver(tombstone) => DeliveryKeepsInv(s, tombstone);
    case CallbackList(ok) => ListingKeepsInv(s, ok);
    case CallbackStop =>
  }

  lemma StepKeepsInv(s: State, e: Event)
    requires Inv(s) && Enabled(s, e)
    ensures Inv(Apply(s, e)) && (Apply(s, e).sawFree <==> s.sawFree || SeesFree(s, e))
  {
    if e.ReadNode? || e.Register? || e.Check? || e.Woken? {
      WaiterStepKeepsInv(s, e);
    } else if e.Deliver? || e.CallbackList? || e.CallbackStop? {
      CallbackStepKeepsInv(s, e);
    } else {
      ApiStepKeepsInv(s, e);
    }
  }

  /** A successful listing in a state without attachments of the node, somewhere along the run. */
  ghost predicate ListedFree(s: State, es: seq<Event>)
    decreases |es|
  {
    && es != [] && Enabled(s, es[0])
    && (SeesFree(s, es[0]) || ListedFree(Apply(s, es[0]), es[1..]))
  }

  lemma {:induction false} SawFreeMeaning(s: State, es: seq<Event>, t: State)
    requires Inv(s) && Run(s, es, t)
    ensures t.sawFree <==> s.sawFree || ListedFree(s, es)
    decreases |es|
  {
    if es != [] {
      StepKeepsInv(s, es[0]);
      SawFreeMeaning(Apply(s, es[0]), es[1..], t);
    }
  }

  lemma {:induction false} RunKeepsInv(s: State, es: seq<Event>, t: State)
    requires Inv(s) && Run(s, es, t)
    ensures Inv(t)
    decreases |es|
  {
    if es != [] {
      StepKeepsInv(s, es[0]);
      RunKeepsInv(Apply(s, es[0]), es[1..], t);
    }
  }

  /**
   On every interleaving of events, callbacks, failures, checks and cancellation: nil is returned only
   if the node was read as not drained, or some listing during the call showed the node free, or the
   context ended; and the channel is closed at most once.
   */
  lemma NilOnlyWithCause(s: State, es: seq<Event>, t: State)
    requires Initial(s) && Run(s, es, t)
    ensures t.waiter.ReturnedNil? ==> t.notDrained || t.contextEnded || ListedFree(s, es)
    ensures t.closes <= 1
  {
    RunKeepsInv(s, es, t);
    SawFreeMeaning(s, es, t);
  }
}
