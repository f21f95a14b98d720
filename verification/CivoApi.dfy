/**
 The Civo cloud as the controller sees it: volumes, quota, the API calls of the civogo client and
 the answers they may give. The cloud is nondeterministic: a call may fail before or after it took
 effect, and volumes change state on their own.
 */
module CivoApi {
  import opened MapSums
  import opened Sizes

  /** Volume.Status; every string the controller never compares against is `Other`. */
  datatype Status =
    | Available
    | Attaching
    | Attached
    | Detaching
    | Resizing(toGB: int)
    | Other(word: string)

  /** `instance` is the empty string while the volume belongs to no instance. */
  datatype Volume = Volume(id: string, name: string, sizeGB: int, status: Status, instance: string)

  datatype ApiError = VolumeNotFound | ZeroMatches | DuplicateName | Unexpected

  datatype Call =
    | GetCluster
    | ListVolumes
    | GetQuota
    | NewVolume(name: string, sizeGB: int)
    | GetVolume(id: string)
    | DeleteVolume(id: string)
    | AttachVolume(id: string, node: string)
    | DetachVolume(id: string)
    | ResizeVolume(id: string, sizeGB: int)

  datatype Reply =
    | Instances(nodes: seq<string>)
    | Volumes(list: seq<Volume>)
    | QuotaIs(quota: Quota)
    | Created(id: string)
    | VolumeIs(volume: Volume)
    | Accepted
    | Failed(err: ApiError)

  /** A reply of the wrong shape is what a decoding error is to the client. */
  function ErrorOf(r: Reply): ApiError {
    if r.Failed? then r.err else Unexpected
  }

  /** `issued` remembers every id the cloud ever gave out: ids are never reused. */
  datatype Cloud = Cloud(vols: map<string, Volume>, issued: set<string>, gbLimit: int, countLimit: int)

  ghost function SizesOf(c: Cloud): map<string, int> {
    map id | id in c.vols :: c.vols[id].sizeGB
  }

  ghost function UsedGB(c: Cloud): int {
    Total(SizesOf(c))
  }

  /** How the cloud resolves one call: its answer, whether it took effect, and what it chose. */
  datatype Choice = Choice(reply: Reply, applied: bool, newId: string, initial: Status)

  predicate Enumerates(list: seq<Volume>, vols: map<string, Volume>) {
    && (forall v :: v in list ==> v.id in vols && vols[v.id] == v)
    && (forall id :: id in vols ==> vols[id] in list)
  }

  /** The answers a truthful cloud may give to a call, including failures after the effect. */
  ghost predicate Answers(c: Cloud, call: Call, ch: Choice) {
    match call
    case GetCluster => !ch.applied && (ch.reply.Instances? || ch.reply.Failed?)
    case ListVolumes => !ch.applied && (ch.reply.Failed? || (ch.reply.Volumes? && Enumerates(ch.reply.list, c.vols)))
    case GetQuota =>
      && !ch.applied
      && (ch.reply.Failed?
          || ch.reply == QuotaIs(Quota(c.gbLimit, UsedGB(c), c.countLimit, |c.vols.Keys|)))
    case GetVolume(id) =>
      && !ch.applied
      && (ch.reply.Failed? || (id in c.vols && ch.reply == VolumeIs(c.vols[id])))
      && (ch.reply.Failed? && ch.reply.err in {VolumeNotFound, ZeroMatches} ==> id !in c.vols)
    case NewVolume(_, _) =>
      && (ch.applied ==> ch.newId !in c.issued && ch.newId != "" && (ch.initial.Available? || ch.initial.Other?))
      && (ch.reply.Failed? || (ch.applied && ch.reply == Created(ch.newId)))
    case _ =>
      && (ch.applied ==> call.id in c.vols)
      && (ch.reply.Failed? || (ch.reply == Accepted && (ch.applied || UnderWay(c, call))))
  }

  /** An attach or detach may be acknowledged without effect when the volume is already on that way. */
  predicate UnderWay(c: Cloud, call: Call) {
    match call
    case AttachVolume(id, node) =>
      id in c.vols && c.vols[id].instance == node && (c.vols[id].status.Attaching? || c.vols[id].status.Attached?)
    case DetachVolume(id) => id in c.vols && c.vols[id].status.Detaching?
    case _ => false
  }

  function Perform(c: Cloud, call: Call, ch: Choice): Cloud {
    if !ch.applied then c
    else
      match call
      case NewVolume(name, size) =>
        c.(vols := c.vols[ch.newId := Volume(ch.newId, name, size, ch.initial, "")], issued := c.issued + {ch.newId})
      case DeleteVolume(id) => c.(vols := c.vols - {id})
      case AttachVolume(id, _) => Alter(c, id, call)
      case DetachVolume(id) => Alter(c, id, call)
      case ResizeVolume(id, _) => Alter(c, id, call)
      case _ => c
  }

  function Alter(c: Cloud, id: string, call: Call): Cloud {
    if id in c.vols then c.(vols := c.vols[id := Altered(c.vols[id], call)]) else c
  }

  /** A resize marks the volume as resizing at once; attaching and detaching take time too. */
  function Altered(v: Volume, call: Call): Volume {
    match call
    case AttachVolume(_, node) => v.(status := Attaching, instance := node)
    case DetachVolume(_) => v.(status := Detaching)
    case ResizeVolume(_, size) => v.(status := Resizing(size))
    case _ => v
  }

  /** The cloud's own transitions: attaching and detaching complete, resizes land, creation ends. */
  predicate Progresses(v: Volume, w: Volume) {
    match v.status
    case Attaching => w == v.(status := Attached)
    case Detaching => w == v.(status := Available, instance := "")
    case Resizing(gb) => w == v.(status := Available, sizeGB := gb)
    case Other(_) => (w.status.Available? || w.status.Other?) && w == v.(status := w.status)
    case _ => false
  }

  predicate WellFormed(c: Cloud) {
    forall id :: id in c.vols ==> c.vols[id].id == id && id in c.issued && id != ""
  }
}
