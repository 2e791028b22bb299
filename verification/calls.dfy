/**
 What the components of the engine rely on when they call one another, as facts about its value.
 */
module Calls {

  import opened Boruta
  import opened Expiry
  import opened Invariants
  import opened Preservation
  import opened RequestQueue
  import opened Timers
  import P = ProtocolInvariant
  import S = System
  import W = WorkerProtocol

  lemma TellNothing(s: S.System)
    ensures S.Tell(s, W.Quiet) == s
  {
  }

  /** The listener is told after the message has been sent and before the state is stored. */
  lemma TellBetween(s: S.System, u: WorkerUUID, state: WorkerState)
    requires u in s.list.workers && P.Linked(s.list, u)
    ensures s.list.workers[u].chan < |s.list.regs|
    ensures var w := s.list.workers[u];
            var r := s.list.regs[w.chan];
            var sent := s.list.(regs := s.list.regs[w.chan := r.(msgs := r.msgs + [state])]);
            var stored := sent.(workers := sent.workers[u := w.(info := w.info.(state := state))]);
            && W.SetStateRaw(s.list, u, state).error == NoError
            && S.WithWorkers(s, W.SetStateRaw(s.list, u, state)) ==
               S.Tell(s.(list := sent), W.NoteOf(w.info.state, state, u)).(list := stored)
  {
    hide Timers.Insert;
  }

  lemma TellUnknown(s: S.System, u: WorkerUUID, state: WorkerState)
    requires u !in s.list.workers
    ensures W.SetStateRaw(s.list, u, state).error == NotFound
    ensures S.WithWorkers(s, W.SetStateRaw(s.list, u, state)) == s
  {
  }

  lemma CoreParts(s: S.System)
    requires Core(s)
    ensures P.Inv(s.list) && JobsOk(s.requests, s.jobs)
  {
  }

  lemma OpenIsLinked(l: W.WorkerList, c: nat)
    requires P.Inv(l) && c < |l.regs| && l.regs[c].open
    ensures l.regs[c].uuid in l.workers && P.Linked(l, l.regs[c].uuid) && l.workers[l.regs[c].uuid].chan == c
  {
    assert P.RegOk(l, c);
    assert P.WorkerOk(l, l.regs[c].uuid);
  }

  lemma WaitingIsQueued(s: S.System, id: ReqID)
    requires Core(s) && id in s.requests && s.requests[id].state == WAIT
    ensures s.requests[id].id == id
    ensures HI_PRIO <= s.requests[id].priority <= LO_PRIO && id in s.lists[s.requests[id].priority]
  {
    QueuedFromOk(s.requests, s.lists, id);
  }

  /** What is needed to end a request in the engine. */
  lemma EndParts(s: S.System, r: ReqInfo, t: Timer)
    requires Core(s.(timeout := t)) && r.id in s.requests && s.requests[r.id] == r && r.state == INPROGRESS
    ensures Core(S.EndRequest(s, r).(timeout := t))
    ensures r.job.Some?
    ensures var u := r.job.value.worker;
            && S.EndRequest(s, r) == S.FinishJob(S.SetRequest(s, r.(state := DONE)), u, true)
            && u in s.list.workers && P.Linked(s.list, u)
            && JobsOk(s.requests[r.id := r.(state := DONE)], s.jobs - {u})
  {
    hide P.Inv, P.Linked, AllTimed, QueueOk, S.FinishJob, Keeps, S.EndRequest;
    var s1 := s.(timeout := t);
    assert Served(s.requests, s.jobs, r.id);
    EndIs(s1, r);
    LinkedFromInv(s.list, r.job.value.worker);
    EndKeeps(s1, r);
    KeptCore(s1, S.EndRequest(s1, r));
    EndIgnoresHeap(s, r, t);
    EndKeepsJobs(s.requests, s.jobs, r.(state := DONE), r.job.value.worker);
    EndIsFinish(s, r);
  }

  lemma EndIsFinish(s: S.System, r: ReqInfo)
    requires r.job.Some?
    ensures S.EndRequest(s, r) == S.FinishJob(S.SetRequest(s, r.(state := DONE)), r.job.value.worker, true)
  {
    hide S.FinishJob;
  }

  lemma UpdateErrorKeeps(s: S.System, src: S.Update)
    ensures S.UpdateRequest(s, src).error != NoError ==> S.UpdateRequest(s, src).sys == s
  {
    hide Timers.Insert, RemoveFirst;
  }
}
