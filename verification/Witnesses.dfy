/** Events of a run that an answer or a call rests on: what was read, and of what, before it. */
module Witnesses {
  import opened Wrappers
  import opened CivoApi
  import opened Handlers
  import opened Interleaving
  import opened Names

  // ---- A created volume was available ----

  /** The flight reads the volume, which is available at that moment. */
  ghost predicate ReadsAvailable(s: System, e: Event, name: string, id: string)
    requires Enabled(s, e)
  {
    && e.FlightStep? && e.name == name && CallOf(s, e) == Some(GetVolume(id))
    && id in s.cloud.vols && s.cloud.vols[id].status.Available? && e.ch.reply == VolumeIs(s.cloud.vols[id])
  }

  ghost predicate SawAvailable(s: System, es: seq<Event>, name: string, id: string)
    decreases |es|
  {
    && es != [] && Enabled(s, es[0])
    && (ReadsAvailable(s, es[0], name, id) || SawAvailable(Apply(s, es[0]), es[1..], name, id))
  }

  lemma AnswerRestsOnRead(s: System, e: Event, name: string, id: string)
    requires Enabled(s, e) && FlightAnswers(Apply(s, e), name) == Some(id) && FlightAnswers(s, name) != Some(id)
    ensures ReadsAvailable(s, e, name, id)
  {
  }

  /** In every run, a flight that ends with success has read its volume as available during the run. */
  lemma {:induction false} CreatedWasAvailable(s: System, es: seq<Event>, t: System, name: string, id: string)
    requires Run(s, es, t) && FlightAnswers(t, name) == Some(id) && FlightAnswers(s, name) != Some(id)
    ensures SawAvailable(s, es, name, id)
    decreases |es|
  {
    if es != [] {
      if FlightAnswers(Apply(s, es[0]), name) == Some(id) {
        AnswerRestsOnRead(s, es[0], name, id);
      } else {
        CreatedWasAvailable(Apply(s, es[0]), es[1..], t, name, id);
      }
    }
  }

  // ---- A node that gets a volume was listed ----

  /** The request is told that the cluster has the node. */
  ghost predicate ListsNode(s: System, e: Event, req: nat, node: string)
    requires Enabled(s, e)
  {
    && e.RpcStep? && e.req == req && CallOf(s, e) == Some(GetCluster)
    && e.ch.reply.Instances? && node in e.ch.reply.nodes
  }

  ghost predicate SawNode(s: System, es: seq<Event>, req: nat, node: string)
    decreases |es|
  {
    && es != [] && Enabled(s, es[0])
    && (ListsNode(s, es[0], req, node) || SawNode(Apply(s, es[0]), es[1..], req, node))
  }

  ghost predicate PastNodeCheck(s: System, req: nat, node: string) {
    && req in s.rpcs
    && (s.rpcs[req].task.PublishRead? || s.rpcs[req].task.PublishAttach? || s.rpcs[req].task.PublishReread?)
    && s.rpcs[req].task.node == node
  }

  lemma CheckRestsOnListing(s: System, e: Event, req: nat, node: string)
    requires Enabled(s, e) && PastNodeCheck(Apply(s, e), req, node) && !PastNodeCheck(s, req, node)
    ensures ListsNode(s, e, req, node)
  {
  }

  lemma {:induction false} CheckWasMade(s: System, es: seq<Event>, t: System, req: nat, node: string)
    requires Run(s, es, t) && PastNodeCheck(t, req, node) && !PastNodeCheck(s, req, node)
    ensures SawNode(s, es, req, node)
    decreases |es|
  {
    if es != [] {
      if PastNodeCheck(Apply(s, es[0]), req, node) {
        CheckRestsOnListing(s, es[0], req, node);
      } else {
        CheckWasMade(Apply(s, es[0]), es[1..], t, req, node);
      }
    }
  }

  /** In every run, a request that attaches a volume to a node has been told that the cluster has that node. */
  lemma AttachedNodeWasListed(s: System, es: seq<Event>, t: System, req: nat, ch: Choice, id: string, node: string)
    requires req !in s.rpcs && Run(s, es, t) && Enabled(t, RpcStep(req, ch))
    requires CallOf(t, RpcStep(req, ch)) == Some(AttachVolume(id, node))
    ensures SawNode(s, es, req, node)
  {
    assert t.rpcs[req].task == PublishAttach(id, node);
    CheckWasMade(s, es, t, req, node);
  }
}
