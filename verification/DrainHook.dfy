/**
 The PreStop hook: one waiter, an informer that delivers events of VolumeAttachments, callbacks that
 list the attachments and close the stop channel through a once, and a context that may end.
 */
module DrainHook {
  import opened Wrappers

  const UNSCHEDULABLE := "node.kubernetes.io/unschedulable"

  datatype Attachment = Attachment(name: string, node: string)

  // ---- The hook's code ----

  method IsNodeDrained(taints: seq<string>) returns (drained: bool)
    ensures drained <==> UNSCHEDULABLE in taints
  {
    for i := 0 to |taints|
      invariant UNSCHEDULABLE !in taints[..i]
    {
      if taints[i] == UNSCHEDULABLE {
        return true;
      }
    }
    return false;
  }

  datatype CheckError = ListFailed | StillAttached(name: string)

  predicate NoneOn(list: seq<Attachment>, node: string) {
    forall a :: a in list ==> a.node != node
  }

  /** No error means that the listing showed no attachment of the node; `found` tells the errors apart. */
  method CheckVolumeAttachmentsExist(listing: Option<seq<Attachment>>, node: string)
    returns (found: bool, err: Option<CheckError>)
    ensures err.None? <==> listing.Some? && NoneOn(listing.value, node)
    ensures found <==> listing.Some? && !NoneOn(listing.value, node)
    ensures found ==> err.Some? && err.value.StillAttached? && Attachment(err.value.name, node) in listing.value
  {
    if listing.None? {
      return false, Some(ListFailed);
    }
    var items := listing.value;
    for i := 0 to |items|
      invariant NoneOn(items[..i], node)
    {
      if items[i].node == node {
        assert items[i] == Attachment(items[i].name, node);
        return true, Some(StillAttached(items[i].name));
      }
    }
    return false, None;
  }

  /** The informer's stop channel and the once that guards its close. */
  class StopChannel {
    var done: bool
    var closes: nat

    ghost predicate Valid()
      reads this
    {
      closes == if done then 1 else 0
    }

    constructor ()
      ensures Valid() && closes == 0
    {
      done, closes := false, 0;
    }

    method Stop()
      requires Valid()
      modifies this
      ensures Valid() && closes == 1
    {
      if !done {
        done := true;
        closes := closes + 1;
      }
    }
  }

  /** What an informer callback is handed: an attachment, or a tombstone of another type. */
  datatype Object = IsAttachment(attachment: Attachment) | Tombstone

  /** The channel is closed exactly by callbacks for this node whose own listing shows it free. */
  method VolumeAttachmentEventHandler(obj: Object, node: string, listing: Option<seq<Attachment>>, ch: StopChannel)
    returns (failed: bool)
    requires ch.Valid()
    modifies ch
    ensures ch.Valid()
    ensures var stops := obj.IsAttachment? && obj.attachment.node == node
                         && listing.Some? && NoneOn(listing.value, node);
            ch.closes == if stops then 1 else old(ch.closes)
    ensures failed <==>
              obj.Tombstone? || (obj.attachment.node == node && !(listing.Some? && NoneOn(listing.value, node)))
  {
    if obj.Tombstone? {
      return true;
    }
    if obj.attachment.node == node {
      var _, err := CheckVolumeAttachmentsExist(listing, node);
      if err.Some? {
        return true;
      }
      ch.Stop();
    }
    return false;
  }

  datatype Wake = InformerClosed | Ticked | ContextEnded

  /** The select loop over the wake-ups that occur; None while all of them were ticks. */
  method SelectLoop(wakes: seq<Wake>) returns (wake: Option<Wake>)
    ensures wake.None? <==> forall w :: w in wakes ==> w == Ticked
    ensures wake.Some? ==> exists k :: 0 <= k < |wakes| && WokenAt(wakes, k, wake.value)
  {
    for i := 0 to |wakes|
      invariant forall j :: 0 <= j < i ==> wakes[j] == Ticked
    {
      if wakes[i] != Ticked {
        assert wakes[i] in wakes && WokenAt(wakes, i, wakes[i]);
        return Some(wakes[i]);
      }
    }
    return None;
  }

  /** The first wake-up that is not a tick. */
  predicate WokenAt(wakes: seq<Wake>, k: nat, w: Wake)
    requires k < |wakes|
  {
    wakes[k] == w && w != Ticked && forall j :: 0 <= j < k ==> wakes[j] == Ticked
  }

  // ---- The protocol ----

  datatype Waiter = Starting | Registering | Checking | Selecting | ReturnedNil | ReturnedError

  datatype Change =
    | Added(name: string, node: string)
    | Modified(name: string, node: string)
    | Deleted(name: string, node: string)

  /**
   `listing` and `stopping` count the callbacks for this node about to list and about to stop. The last
   three fields only record what happened: the node was read as not drained, some listing of this call
   showed no attachment of the node, the informer has known an attachment of the node.
   */
  datatype State = State(
    node: string,
    attachments: map<string, string>,  // by name, the node of each attachment in the API server
    waiter: Waiter,
    contextEnded: bool,
    synced: bool,                      // the informer has made its initial list
    stream: seq<Change>,               // changes since then, not yet delivered
    listing: nat,
    stopping: nat,
    once: bool,
    closes: nat,
    notDrained: bool,
    sawFree: bool,
    knew: bool)

  datatype NodeReply = Drained | NotDrained | NodeMissing | NodeError

  datatype Event =
    | ReadNode(reply: NodeReply)
    | Register(ok: bool)               // the event handler is added and the informer started
    | Check(ok: bool)                  // the waiter's own List
    | Woken(why: Wake)
    | Create(name: string, on: string)
    | Update(name: string)
    | Remove(name: string)
    | InitialList
    | Deliver(tombstone: bool)
    | CallbackList(ok: bool)
    | CallbackStop
    | EndContext

  predicate NodeFree(s: State) {
    forall name :: name in s.attachments ==> s.attachments[name] != s.node
  }

  predicate Running(s: State) {
    s.waiter.Checking? || s.waiter.Selecting?
  }

  predicate Enabled(s: State, e: Event) {
    match e
    case ReadNode(_) => s.waiter.Starting?
    case Register(_) => s.waiter.Registering?
    case Check(_) => s.waiter.Checking?
    case Woken(why) =>
      && s.waiter.Selecting?
      && (why.InformerClosed? ==> s.closes > 0)
      && (why.ContextEnded? ==> s.contextEnded)
    case Create(name, _) => name !in s.attachments
    case Update(name) => name in s.attachments
    case Remove(name) => name in s.attachments
    case InitialList => !s.synced && !s.waiter.Starting? && !s.waiter.Registering?
    case Deliver(_) => s.stream != []
    case CallbackList(_) => s.listing > 0
    case CallbackStop => s.stopping > 0
    case EndContext => true
  }

  /** stopInformerFn */
  function Stop(s: State): State {
    if s.once then s else s.(once := true, closes := s.closes + 1)
  }

  /** waitForVolumeAttachmentsCleanup returns: its deferred stop runs. */
  function Return(s: State, w: Waiter): State {
    Stop(s).(waiter := w)
  }

  function Streamed(s: State, c: Change): State {
    if s.synced then s.(stream := s.stream + [c], knew := s.knew || (c.Added? && c.node == s.node)) else s
  }

  /** Add has no callback; Update and Delete have one, which first compares the node. */
  predicate CallsBack(s: State, c: Change) {
    !c.Added? && c.node == s.node
  }

  function NodeRead(s: State, reply: NodeReply): State {
    match reply
    case NodeError => s.(waiter := ReturnedError)
    case NotDrained => s.(waiter := ReturnedNil, notDrained := true)
    case _ => s.(waiter := Registering)
  }

  /** The waiter's own check, after the informer was started. */
  function Checked(s: State, ok: bool): State {
    if !ok then Return(s, ReturnedError)
    else if NodeFree(s) then Return(s.(sawFree := true), ReturnedNil)
    else s.(waiter := Selecting)
  }

  function Delivered(s: State, tombstone: bool): State
    requires s.stream != []
  {
    var next := s.(stream := s.stream[1..]);
    if CallsBack(s, s.stream[0]) && !tombstone then next.(listing := s.listing + 1) else next
  }

  /** A callback lists exactly for an update or deletion of an attachment of this node that is no tombstone. */
  lemma DeliveryListsExactly(s: State, tombstone: bool)
    requires s.stream != []
    ensures var t := Delivered(s, tombstone);
            && t.stream == s.stream[1..]
            && t.listing == s.listing
                            + (if !s.stream[0].Added? && s.stream[0].node == s.node && !tombstone then 1 else 0)
            && t == s.(stream := t.stream, listing := t.listing)
  {
  }

  function Listed(s: State, ok: bool): State
    requires s.listing > 0
  {
    if ok && NodeFree(s) then s.(listing := s.listing - 1, stopping := s.stopping + 1, sawFree := true)
    else s.(listing := s.listing - 1)
  }

  function Apply(s: State, e: Event): State
    requires Enabled(s, e)
  {
    match e
    case ReadNode(reply) => NodeRead(s, reply)
    case Register(ok) => if ok then s.(waiter := Checking) else Return(s, ReturnedError)
    case Check(ok) => Checked(s, ok)
    case Woken(why) => if why.Ticked? then s else Return(s, ReturnedNil)
    case Create(name, on) => Streamed(s.(attachments := s.attachments[name := on]), Added(name, on))
    case Update(name) => Streamed(s, Modified(name, s.attachments[name]))
    case Remove(name) => Streamed(s.(attachments := s.attachments - {name}), Deleted(name, s.attachments[name]))
    case InitialList => s.(synced := true, knew := !NodeFree(s))
    case Deliver(tombstone) => Delivered(s, tombstone)
    case CallbackList(ok) => Listed(s, ok)
    case CallbackStop => Stop(s.(stopping := s.stopping - 1))
    case EndContext => s.(contextEnded := true)
  }

  ghost predicate Run(s: State, es: seq<Event>, t: State)
    decreases |es|
  {
    if es == [] then s == t
    else Enabled(s, es[0]) && Run(Apply(s, es[0]), es[1..], t)
  }

  predicate Initial(s: State) {
    && s.waiter.Starting? && !s.contextEnded && !s.synced && s.stream == [] && s.listing == 0 && s.stopping == 0
    && !s.once && s.closes == 0 && !s.notDrained && !s.sawFree && !s.knew
  }
}
