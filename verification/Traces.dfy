/**
 The calls and answers of the tasks of Handlers.dfy: every complete run of a handler's task leaves a log that
 CallLog.dfy allows, and every valid request starts as the task that Interleaving.dfy runs.
 */
module Traces {
  import opened Wrappers
  import opened Sizes
  import opened CivoApi
  import opened Handlers
  import opened CallLog
  import Interleaving

  /** One exchange of a task: it asks the call and continues with the answer. */
  ghost predicate Exchanges(t: Task, x: Exchange, t': Task) {
    !t.Finished? && x.call == Request(t) && t' == Resume(t, x.reply)
  }

  /** The tasks visited while the calls of the log were made, in order. */
  ghost predicate Visits(tasks: seq<Task>, log: seq<Exchange>) {
    |tasks| == |log| + 1 && forall i :: 0 <= i < |log| ==> Exchanges(tasks[i], log[i], tasks[i + 1])
  }

  lemma VisitsOn(tasks: seq<Task>, log: seq<Exchange>, r: Reply)
    requires Visits(tasks, log) && !tasks[|log|].Finished?
    ensures var t := tasks[|log|]; Visits(tasks + [Resume(t, r)], log + [Exchange(Request(t), r)])
  {
  }

  /** A complete run of the task from its beginning to its outcome. */
  ghost predicate Traces(t: Task, tasks: seq<Task>, x: seq<Exchange>, o: Outcome) {
    Visits(tasks, x) && tasks[0] == t && tasks[|x|] == Finished(o)
  }

  /** A run that is not over goes on with the task's call and its answer. */
  lemma Step(t: Task, tasks: seq<Task>, x: seq<Exchange>, o: Outcome)
    requires Traces(t, tasks, x, o)
    ensures t.Finished? <==> x == []
    ensures t.Finished? ==> t == Finished(o)
    ensures x != [] ==> x[0].call == Request(t) && Traces(Resume(t, x[0].reply), tasks[1..], x[1..], o)
  {
    if x != [] {
      assert Exchanges(tasks[0], x[0], tasks[1]);
      var tasks', x' := tasks[1..], x[1..];
      forall i | 0 <= i < |x'|
        ensures Exchanges(tasks'[i], x'[i], tasks'[i + 1])
      {
        assert Exchanges(tasks[i + 1], x[i + 1], tasks[i + 2]);
      }
    }
  }

  // ---- Waiting ----

  /** The first n exchanges are a wait, and the rest is what follows its result. */
  ghost predicate Waited(x: seq<Exchange>, n: nat, id: string, retries: nat, err: Option<Failure>) {
    n <= |x| && PollLog(x[..n], id, retries, err)
  }

  lemma {:induction false} PollTrace(id: string, polls: nat, retries: nat, next: Then, tasks: seq<Task>,
                                     x: seq<Exchange>, o: Outcome) returns (n: nat, err: Option<Failure>)
    requires polls < retries && Traces(Poll(id, polls, retries, next), tasks, x, o)
    ensures Waited(x, n, id, retries - polls, err) && n < |tasks|
    ensures Traces(if err.None? then PollSucceeded(id, next) else PollFailed(next, err.value), tasks[n..], x[n..], o)
    decreases retries - polls
  {
    var t := Poll(id, polls, retries, next);
    Step(t, tasks, x, o);
    var r := x[0].reply;
    if r.VolumeIs? && !r.volume.status.Available? && polls + 1 < retries {
      var n', err' := PollTrace(id, polls + 1, retries, next, tasks[1..], x[1..], o);
      n, err := n' + 1, err';
      assert tasks[1..][n'..] == tasks[n..] && x[1..][n'..] == x[n..];
      LaterPoll(x, n, id, retries - polls, err);
    } else {
      n := 1;
      err := if !r.VolumeIs? then Some(Upstream(ErrorOf(r)))
             else if r.volume.status.Available? then None
             else Some(TimedOut);
      assert x[..1] == [x[0]];
    }
  }

  lemma LaterPoll(x: seq<Exchange>, n: nat, id: string, retries: nat, err: Option<Failure>)
    requires 1 < n <= |x| && 1 < retries && ReadBusy(x[0], id) && PollLog(x[1..][..n - 1], id, retries - 1, err)
    ensures PollLog(x[..n], id, retries, err)
  {
    var y := x[1..][..n - 1];
    assert forall i :: 0 < i < n ==> x[..n][i] == y[i - 1];
    assert Last(x[..n]) == Last(y);
  }

  /** A wait that the run ends with. */
  lemma WaitTrace(id: string, next: Then, tasks: seq<Task>, x: seq<Exchange>, o: Outcome)
    requires Traces(Poll(id, 0, RETRIES, next), tasks, x, o) && !next.ThenExpanded?
    ensures if next.ThenResolved? && next.recovering then
              || (o == CreateOk(id, CapacityBytes(next.sizeGB)) && PollLog(x, id, RETRIES, None))
              || (o == Error(Upstream(DuplicateName)) && exists f :: PollLog(x, id, RETRIES, Some(f)))
            else WaitLog(id, next.sizeGB, x, o)
  {
    var n, err := PollTrace(id, 0, RETRIES, next, tasks, x, o);
    Step(if err.None? then PollSucceeded(id, next) else PollFailed(next, err.value), tasks[n..], x[n..], o);
    assert x[n..] == [] && x[..n] == x;
    assert err.Some? ==> PollLog(x, id, RETRIES, Some(err.value));
  }

  // ---- CreateVolume ----

  lemma CreateTrace(name: string, size: int, tasks: seq<Task>, x: seq<Exchange>, o: Outcome)
    requires Traces(CreateLookup(name, size), tasks, x, o)
    ensures CreateLog(name, size, x, o)
  {
    Step(CreateLookup(name, size), tasks, x, o);
    var t := Resume(CreateLookup(name, size), x[0].reply);
    if t.Finished? {
      Step(t, tasks[1..], x[1..], o);
    } else if t.Poll? {
      WaitTrace(t.id, t.next, tasks[1..], x[1..], o);
    } else {
      QuotaTrace(name, size, tasks[1..], x[1..], o);
    }
  }

  lemma QuotaTrace(name: string, size: int, tasks: seq<Task>, x: seq<Exchange>, o: Outcome)
    requires Traces(CreateQuota(name, size), tasks, x, o)
    ensures QuotaLog(name, size, x, o)
  {
    Step(CreateQuota(name, size), tasks, x, o);
    var t := Resume(CreateQuota(name, size), x[0].reply);
    if t.Finished? {
      Step(t, tasks[1..], x[1..], o);
    } else {
      NewTrace(name, size, tasks[1..], x[1..], o);
    }
  }

  lemma NewTrace(name: string, size: int, tasks: seq<Task>, x: seq<Exchange>, o: Outcome)
    requires Traces(CreateNew(name, size), tasks, x, o)
    ensures NewLog(name, size, x, o)
  {
    Step(CreateNew(name, size), tasks, x, o);
    var t := Resume(CreateNew(name, size), x[0].reply);
    if t.Finished? {
      Step(t, tasks[1..], x[1..], o);
    } else if t.CreateRead? {
      MadeTrace(name, size, t.id, tasks[1..], x[1..], o);
    } else {
      RecoverTrace(name, size, tasks[1..], x[1..], o);
    }
  }

  lemma MadeTrace(name: string, size: int, id: string, tasks: seq<Task>, x: seq<Exchange>, o: Outcome)
    requires Traces(CreateRead(name, size, id), tasks, x, o)
    ensures MadeLog(id, size, x, o)
  {
    Step(CreateRead(name, size, id), tasks, x, o);
    var t := Resume(CreateRead(name, size, id), x[0].reply);
    if t.Finished? {
      Step(t, tasks[1..], x[1..], o);
    } else {
      WaitTrace(t.id, t.next, tasks[1..], x[1..], o);
    }
  }

  lemma RecoverTrace(name: string, size: int, tasks: seq<Task>, x: seq<Exchange>, o: Outcome)
    requires Traces(CreateRecover(name, size), tasks, x, o)
    ensures RecoverLog(name, size, x, o)
  {
    Step(CreateRecover(name, size), tasks, x, o);
    var t := Resume(CreateRecover(name, size), x[0].reply);
    if t.Finished? {
      Step(t, tasks[1..], x[1..], o);
    } else {
      WaitTrace(t.id, t.next, tasks[1..], x[1..], o);
    }
  }

  // ---- ControllerPublishVolume ----

  lemma PublishTrace(id: string, node: string, tasks: seq<Task>, x: seq<Exchange>, o: Outcome)
    requires id != "" && node != "" && Traces(PublishCluster(id, node), tasks, x, o)
    ensures PublishLog(id, node, true, x, o)
  {
    Step(PublishCluster(id, node), tasks, x, o);
    var t := Resume(PublishCluster(id, node), x[0].reply);
    if t.Finished? {
      Step(t, tasks[1..], x[1..], o);
    } else {
      AttachTrace(id, node, tasks[1..], x[1..], o);
    }
  }

  lemma AttachTrace(id: string, node: string, tasks: seq<Task>, x: seq<Exchange>, o: Outcome)
    requires Traces(PublishRead(id, node), tasks, x, o)
    ensures AttachLog(id, node, x, o)
  {
    Step(PublishRead(id, node), tasks, x, o);
    var t := Resume(PublishRead(id, node), x[0].reply);
    Step(t, tasks[1..], x[1..], o);
    if x[1..] != [] {
      var t' := Resume(t, x[1].reply);
      Step(t', tasks[1..][1..], x[1..][1..], o);
      if x[1..][1..] != [] {
        Step(Resume(t', x[2].reply), tasks[1..][1..][1..], x[1..][1..][1..], o);
      }
    }
  }

  // ---- ControllerUnpublishVolume ----

  lemma UnpublishTrace(id: string, node: string, tasks: seq<Task>, x: seq<Exchange>, o: Outcome)
    requires id != "" && Traces(UnpublishRead(id, node), tasks, x, o)
    ensures UnpublishLog(id, node, x, o)
  {
    Step(UnpublishRead(id, node), tasks, x, o);
    var t := Resume(UnpublishRead(id, node), x[0].reply);
    Step(t, tasks[1..], x[1..], o);
    if x[1..] != [] {
      var t' := Resume(t, x[1].reply);
      Step(t', tasks[1..][1..], x[1..][1..], o);
      if x[1..][1..] != [] {
        Step(Resume(t', x[2].reply), tasks[1..][1..][1..], x[1..][1..][1..], o);
      }
    }
  }

  // ---- ControllerExpandVolume ----

  lemma ExpandTrace(id: string, range: Option<CapacityRange>, tasks: seq<Task>, x: seq<Exchange>, o: Outcome)
    requires id != "" && Traces(ExpandRead(id, range), tasks, x, o)
    ensures ExpandLog(id, range, x, o)
  {
    Step(ExpandRead(id, range), tasks, x, o);
    var t := Resume(ExpandRead(id, range), x[0].reply);
    if t.Finished? {
      Step(t, tasks[1..], x[1..], o);
    } else {
      ResizeTrace(id, t.sizeGB, tasks[1..], x[1..], o);
    }
  }

  lemma ResizeTrace(id: string, size: int, tasks: seq<Task>, x: seq<Exchange>, o: Outcome)
    requires Traces(ExpandResize(id, size), tasks, x, o)
    ensures x != [] && x[0].call == ResizeVolume(id, size)
    ensures if x[0].reply.Accepted? then ResizedLog(id, x[1..], o) else |x| == 1 && o == Error(Internal)
  {
    Step(ExpandResize(id, size), tasks, x, o);
    var t := Resume(ExpandResize(id, size), x[0].reply);
    if t.Finished? {
      Step(t, tasks[1..], x[1..], o);
    } else {
      ResizedTrace(id, size, tasks[1..], x[1..], o);
    }
  }

  lemma ResizedTrace(id: string, size: int, tasks: seq<Task>, x: seq<Exchange>, o: Outcome)
    requires Traces(Poll(id, 0, 2 * RETRIES, ThenExpanded(size)), tasks, x, o)
    ensures ResizedLog(id, x, o)
  {
    var next := ThenExpanded(size);
    var n, err := PollTrace(id, 0, 2 * RETRIES, next, tasks, x, o);
    var t := if err.None? then PollSucceeded(id, next) else PollFailed(next, err.value);
    var tasks', x' := tasks[n..], x[n..];
    Step(t, tasks', x', o);
    if err.None? {
      Step(Resume(t, x'[0].reply), tasks'[1..], x'[1..], o);
      assert |x| == n + 1 && x[..|x| - 1] == x[..n] && Last(x) == x'[0];
    } else {
      assert x[..n] == x;
    }
  }

  // ---- DeleteVolume ----

  lemma DeleteTrace(id: string, tasks: seq<Task>, x: seq<Exchange>, o: Outcome)
    requires id != "" && Traces(DeleteCall(id), tasks, x, o)
    ensures DeleteLog(id, x, o)
  {
    Step(DeleteCall(id), tasks, x, o);
    Step(Resume(DeleteCall(id), x[0].reply), tasks[1..], x[1..], o);
  }

  // ---- Requests as they start ----

  /** A valid request begins in the code as it begins in the runs of the system; an invalid one ends at once. */
  lemma StartsAsFirstTask(id: string, node: string, hasCapability: bool, range: Option<CapacityRange>)
    ensures PublishStart(id, node, hasCapability)
            == if hasCapability && id != "" && node != "" then Interleaving.FirstTask(Interleaving.Publish(id, node))
               else Finished(Error(InvalidArgument))
    ensures UnpublishStart(id, node)
            == if id != "" then Interleaving.FirstTask(Interleaving.Unpublish(id, node))
               else Finished(Error(InvalidArgument))
    ensures ExpandStart(id, range)
            == if id != "" then Interleaving.FirstTask(Interleaving.Expand(id, range))
               else Finished(Error(InvalidArgument))
    ensures DeleteStart(id)
            == if id != "" then Interleaving.FirstTask(Interleaving.Delete(id)) else Finished(Error(InvalidArgument))
  {
  }
}
