/**
 The calls that the matcher makes, and what each of them finds, as facts about the value of the engine.
 */
module Attempts {

  import opened Boruta
  import opened Calls
  import opened Expiry
  import opened Invariants
  import opened Matching
  import opened Preservation
  import opened RequestQueue
  import opened Scheduling
  import opened Timers
  import P = ProtocolInvariant
  import S = System
  import T = ProtocolTheorems
  import W = WorkerProtocol

  lemma PassStep(s: S.System, id: ReqID, rest: seq<ReqID>, tunnel: ReqID -> bool)
    requires Core(s)
    ensures S.Pass(s, [id] + rest, tunnel) ==
            if !S.Ready(s, id) then S.Pass(s, rest, tunnel)
            else
              var (s1, matched) := S.MatchWorkers(s, s.requests[id], tunnel(id));
              if matched then (s1, true) else S.Pass(s1, rest, tunnel)
  {
    hide S.MatchWorkers, Core;
    assert ([id] + rest)[1..] == rest;
    if S.Ready(s, id) {
      SelfNumbered(s, id);
      MatchKeeps(s, s.requests[id], tunnel(id));
      NotCrashed(S.MatchWorkers(s, s.requests[id], tunnel(id)).0);
    }
  }

  lemma PassEnd(s: S.System, tunnel: ReqID -> bool)
    ensures S.Pass(s, [], tunnel) == (s, false)
  {
  }

  lemma ReadyIsListed(s: S.System, id: ReqID)
    requires Core(s) && S.Ready(s, id)
    ensures id in s.requests && s.requests[id].id == id
  {
  }

  /** A pass that matches shortens the queue, so the repetition of the system goes on exactly as that of the matcher. */
  lemma MatchAllStep(s: S.System, turns: nat -> S.Turn, n: nat)
    requires Core(s)
    ensures var (s1, matched) := S.OnePass(s, turns(n));
            && S.MatchAll(s, turns, n) == (if matched then S.MatchAll(s1, turns, n + 1) else s1)
            && (matched ==> Lengths(s1.lists, 1) < Lengths(s.lists, 1))
  {
    hide S.OnePass, Core, Keeps, OnlyStarts, Awake, NoneStranded;
    TurnIs(s, turns(n));
  }

  /** Taking a worker changes the worker list only. */
  lemma Taken(s: S.System, u: WorkerUUID)
    requires Core(s) && T.Idle(s.list, u)
    ensures var s1 := S.WithWorkers(s, W.SetStateRaw(s.list, u, RUN));
            && s1 == s.(list := s1.list)
            && u in s1.list.workers && P.Linked(s1.list, u) && s1.list.workers[u].key == s.list.workers[u].key
            && s1.list.workers.Keys == s.list.workers.Keys
  {
    hide Timers.Insert, QueueOk, JobsOk, AllTimed, RunsAreJobs;
    TakeAndReturn(s.list, u);
    LinkedFromInv(W.SetStateRaw(s.list, u, RUN).list, u);
  }

  lemma CreateTouchesJobs(s: S.System, id: ReqID, u: WorkerUUID, tunnel: bool)
    requires u in s.list.workers && s.list.workers[u].key.Some? && u !in s.jobs
    ensures var r := S.CreateJob(s, id, u, tunnel);
            if r.error == NoError then r.sys == s.(jobs := r.sys.jobs) else r.sys == s
  {
  }

  lemma StartNeverFails(s: S.System, r: ReqInfo, u: WorkerUUID)
    requires r.id in s.requests && s.requests[r.id] == r && r.state == WAIT
    ensures S.Run(s, r.id, u).error == NoError
  {
    hide Timers.Insert, RemoveFirst;
  }

  /** The calls that an attempt to match consists of, and what each of them finds. */
  lemma AttemptIs(s: S.System, r: ReqInfo, tunnel: bool)
    requires Core(s) && S.Ready(s, r.id) && s.requests[r.id] == r
    ensures Core(S.MatchWorkers(s, r, tunnel).0)
    ensures match S.Best(s.list, r.groups, r.caps)
            case None => S.MatchWorkers(s, r, tunnel) == (s, false)
            case Some(u) =>
              var taken := S.WithWorkers(s, W.SetStateRaw(s.list, u, RUN));
              var created := S.CreateJob(taken, r.id, u, tunnel);
              var ran := S.Run(created.sys, r.id, u);
              && taken == s.(list := taken.list) && JobsOk(taken.requests, taken.jobs)
              && u in taken.list.workers && taken.list.workers[u].key.Some? && u !in taken.jobs
              && P.Linked(taken.list, u)
              && if created.error == NoError
                 then
                   && created.sys == taken.(jobs := created.sys.jobs)
                   && ran.error == NoError && S.MatchWorkers(s, r, tunnel) == (ran.sys, true)
                 else
                   && created.sys == taken
                   && S.MatchWorkers(s, r, tunnel) ==
                      (S.WithWorkers(taken, W.PrepareWorker(taken.list, u, false)), false)
  {
    hide Timers.Insert, Core, P.Inv, P.Linked, JobsOk, S.Best, S.WithWorkers, W.SetStateRaw, W.PrepareWorker,
      S.CreateJob, S.Run, Started, Declined, Keeps;
    MatchKeeps(s, r, tunnel);
    CoreParts(s);
    var best := S.Best(s.list, r.groups, r.caps);
    if best.Some? {
      var u := best.value;
      BestIsFree(s, r, u);
      Taken(s, u);
      var taken := S.WithWorkers(s, W.SetStateRaw(s.list, u, RUN));
      CreateTouchesJobs(taken, r.id, u, tunnel);
      StartNeverFails(S.CreateJob(taken, r.id, u, tunnel).sys, r, u);
    }
  }

  lemma BestIsFree(s: S.System, r: ReqInfo, u: WorkerUUID)
    requires Core(s) && S.Ready(s, r.id) && s.requests[r.id] == r && S.Best(s.list, r.groups, r.caps) == Some(u)
    ensures T.Idle(s.list, u) && s.list.workers[u].key.Some? && u !in s.jobs
  {
    hide Core, S.Best, S.MatchWorkers, Started, Declined;
    MatchIs(s, r, true);
  }

  lemma MatchKeeps(s: S.System, r: ReqInfo, tunnel: bool)
    requires Core(s) && S.Ready(s, r.id) && s.requests[r.id] == r
    ensures Core(S.MatchWorkers(s, r, tunnel).0)
  {
    hide Timers.Insert, Core, P.Inv, S.Best, S.MatchWorkers, Started, Declined, Keeps;
    MatchIs(s, r, tunnel);
    var best := S.Best(s.list, r.groups, r.caps);
    if best.Some? {
      if tunnel {
        StartedKeeps(s, r, best.value);
        KeptCore(s, Started(s, r, best.value));
      } else {
        DeclinedKeeps(s, best.value);
        KeptCore(s, Declined(s, best.value));
      }
    }
  }

  lemma InvIsCore(s: S.System)
    requires Inv(s)
    ensures Core(s)
  {
  }
}
