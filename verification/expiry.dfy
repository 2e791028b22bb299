/**
 Fires of the timers: what is past is ended, completely and never early.
 */
module Expiry {

  import opened Boruta
  import opened RequestQueue
  import opened Timers
  import opened System
  import opened Invariants
  import opened Preservation
  import opened Scheduling
  import P = ProtocolInvariant
  import T = ProtocolTheorems
  import W = WorkerProtocol

  // ---------- Deadlines ----------

  /** The request after its timing out has been tried. */
  function TimedOut(r: ReqInfo, now: Time): ReqInfo
  {
    if r.state == WAIT && r.deadline <= now then r.(state := TIMEOUT) else r
  }

  /** Exactly the requests named, waiting and past their deadlines change. */
  lemma {:induction false} TimeoutAllIs(s: System, ids: seq<ReqID>)
    requires Core(s)
    ensures var s' := TimeoutAll(s, ids);
            && Keeps(s, s')
            && s' == s.(requests := s'.requests, lists := s'.lists)
            && s'.requests.Keys == s.requests.Keys
            && Thinner(s.lists, s'.lists)
            && forall id :: id in s.requests ==>
                              s'.requests[id] == if id in ids then TimedOut(s.requests[id], s.now) else s.requests[id]
    decreases |ids|
  {
    hide P.Inv, Core, QueueOk, TimerOk, Thinner;
    if ids == [] {
      ThinnerIsReflexive(s.lists);
    } else {
      var s1 := Timeout(s, ids[0]).sys;
      TimeoutIs(s, ids[0]);
      TimeoutAllIs(s1, ids[1..]);
      ThinnerIsTransitive(s.lists, s1.lists, TimeoutAll(s, ids).lists);
    }
  }

  lemma TimeoutIs(s: System, id: ReqID)
    requires Core(s)
    ensures var s1 := Timeout(s, id).sys;
            && Keeps(s, s1)
            && s1 == s.(requests := s1.requests, lists := s1.lists)
            && Thinner(s.lists, s1.lists)
            && s1.requests == if id in s.requests then s.requests[id := TimedOut(s.requests[id], s.now)] else s.requests
  {
    hide P.Inv, JobsOk, AllTimed, TimerOk;
    TimeoutKeeps(s, id);
    if id in s.requests {
      QueuedFromOk(s.requests, s.lists, id);
      if s.requests[id].priority < LISTS {
        RemoveFirstAscends(s.lists[s.requests[id].priority], id);
      }
    }
  }

  lemma ThinnerIsReflexive(q: Lists)
    ensures Thinner(q, q)
  {
  }

  lemma {:induction false} TimeoutAllIgnoresHeap(s: System, ids: seq<ReqID>, r: Timer)
    ensures TimeoutAll(s.(deadline := r), ids) == TimeoutAll(s, ids).(deadline := r)
    decreases |ids|
  {
    if ids != [] {
      assert Timeout(s.(deadline := r), ids[0]).sys == Timeout(s, ids[0]).sys.(deadline := r);
      TimeoutAllIgnoresHeap(Timeout(s, ids[0]).sys, ids[1..], r);
    }
  }

  /** The entry was popped by a fire that carries time `t`. */
  ghost predicate Popped(m: multiset<RequestTime>, t: Time, id: ReqID)
  {
    exists e :: e in m && e.time < t && e.req == id
  }

  lemma PoppedIds(m: multiset<RequestTime>, t: Time, id: ReqID)
    ensures id in Ids(Drain(m, t)) <==> Popped(m, t, id)
  {
    hide MinEntry, Drain, Less;
    var d := Drain(m, t);
    DrainIsExact(m, t);
    if id in Ids(d) {
      var i :| 0 <= i < |Ids(d)| && Ids(d)[i] == id;
      assert d[i] in multiset(d);
    }
    if Popped(m, t, id) {
      var e :| e in m && e.time < t && e.req == id;
      assert e in multiset(d);
      var i :| 0 <= i < |d| && d[i] == e;
      assert Ids(d)[i] == id;
    }
  }

  lemma StaysInHeap(m: multiset<RequestTime>, t: Time, e: RequestTime)
    requires e in m && e.time >= t
    ensures e in m - multiset(Drain(m, t))
  {
    DrainIsExact(m, t);
  }

  lemma RearmIsOk(r: Timer, now: Time)
    requires r.pending.None?
    ensures TimerOk(Rearm(r), now) && Rearm(r).times == r.times && Rearm(r).pending == None
  {
  }

  /**
   Expiry of deadlines: a request is timed out if and only if it waits, its deadline has passed and an
   entry of it was popped; afterwards no request waits with a deadline before the time of the fire.
   */
  lemma FireDeadlineIs(s: System)
    requires Inv(s) && s.deadline.pending.Some?
    ensures Inv(FireDeadline(s))
    ensures var s' := FireDeadline(s);
            var t := s.deadline.pending.value;
            && s' == s.(requests := s'.requests, lists := s'.lists, deadline := s'.deadline)
            && s'.requests.Keys == s.requests.Keys
            && Thinner(s.lists, s'.lists)
            && (forall id :: id in s.requests ==>
                  s'.requests[id] ==
                    if Popped(s.deadline.times, t, id) then TimedOut(s.requests[id], s.now) else s.requests[id])
            && forall id :: id in s'.requests && s'.requests[id].state == WAIT ==> s'.requests[id].deadline >= t
  {
    hide P.Inv, QueueOk, JobsOk, RunsAreJobs, Numbered, Thinner, TimeoutAll, Drain, Rearm, Ids, Armed;
    var t := s.deadline.pending.value;
    var r := Drained(s.deadline, t);
    var ids := Ids(Drain(s.deadline.times, t));
    TimeoutAllIs(s, ids);
    TimeoutAllIgnoresHeap(s, ids, r);
    RearmIsOk(r, s.now);
    var s' := FireDeadline(s);
    assert s' == TimeoutAll(s, ids).(deadline := Rearm(r));
    forall id | id in s.requests
      ensures s'.requests[id] ==
              if Popped(s.deadline.times, t, id) then TimedOut(s.requests[id], s.now) else s.requests[id]
      ensures s'.requests[id].state == WAIT ==> s'.requests[id].deadline >= t
      ensures Timed(s'.requests[id], s'.valid.times, s'.deadline.times, s'.timeout.times, s'.now)
    {
      PoppedIds(s.deadline.times, t, id);
      var e := RequestTime(s.requests[id].deadline, s.requests[id].id);
      assert Timed(s.requests[id], s.valid.times, s.deadline.times, s.timeout.times, s.now);
      SelfNumbered(s, id);
      if s.requests[id].state == WAIT && e.time >= t {
        StaysInHeap(s.deadline.times, t, e);
      }
    }
  }

  lemma SelfNumbered(s: System, id: ReqID)
    requires Core(s) && id in s.requests
    ensures s.requests[id].id == id
  {
  }

  // ---------- Timeouts of jobs ----------

  /** The request after its closing on timeout has been tried. */
  function Finished(r: ReqInfo, now: Time): ReqInfo
  {
    if r.state == INPROGRESS && r.job.Some? && r.job.value.timeout <= now then r.(state := DONE) else r
  }

  /** No worker has become idle, and the idle ones are as they were. */
  ghost predicate NoNewIdle(l: W.WorkerList, l': W.WorkerList)
  {
    forall u :: T.Idle(l', u) ==> T.Idle(l, u) && l'.workers[u].info == l.workers[u].info
  }

  lemma PrepareIsNotIdle(l: W.WorkerList, u: WorkerUUID)
    ensures NoNewIdle(l, W.SetStateRaw(l, u, PREPARE).list)
  {
  }

  lemma CloseIs(s: System, id: ReqID)
    requires Core(s)
    ensures var s1 := Close(s, id).sys;
            && Keeps(s, s1)
            && s1 == s.(requests := s1.requests, jobs := s1.jobs, list := s1.list)
            && NoNewIdle(s.list, s1.list)
            && s1.requests == if id in s.requests then s.requests[id := Finished(s.requests[id], s.now)] else s.requests
  {
    hide P.Inv, QueueOk, AllTimed, TimerOk, EndRequest, W.SetStateRaw;
    CloseKeeps(s, id);
    if id in s.requests && s.requests[id].state == INPROGRESS {
      SelfNumbered(s, id);
      assert Served(s.requests, s.jobs, id);
      EndIs(s, s.requests[id]);
      PrepareIsNotIdle(s.list, s.requests[id].job.value.worker);
    }
  }

  lemma {:induction false} CloseAllIs(s: System, ids: seq<ReqID>)
    requires Core(s)
    ensures var s' := CloseAll(s, ids);
            && Keeps(s, s')
            && s' == s.(requests := s'.requests, jobs := s'.jobs, list := s'.list)
            && NoNewIdle(s.list, s'.list)
            && s'.requests.Keys == s.requests.Keys
            && forall id :: id in s.requests ==>
                              s'.requests[id] == if id in ids then Finished(s.requests[id], s.now) else s.requests[id]
    decreases |ids|
  {
    hide P.Inv, Core, QueueOk, TimerOk, Close;
    if ids != [] {
      var s1 := Close(s, ids[0]).sys;
      CloseIs(s, ids[0]);
      CloseAllIs(s1, ids[1..]);
    }
  }

  lemma CloseIgnoresHeap(s: System, id: ReqID, r: Timer)
    ensures Close(s.(timeout := r), id).sys == Close(s, id).sys.(timeout := r)
  {
    hide EndRequest;
    if id in s.requests {
      EndIgnoresHeap(s, s.requests[id], r);
    }
  }

  lemma EndIgnoresHeap(s: System, q: ReqInfo, r: Timer)
    ensures EndRequest(s.(timeout := r), q) == EndRequest(s, q).(timeout := r)
  {
    hide W.PrepareWorker, Insert, FinishJob;
    if q.job.Some? {
      FinishIgnoresHeap(SetRequest(s, q.(state := DONE)), q.job.value.worker, r);
    }
  }

  lemma FinishIgnoresHeap(s: System, u: WorkerUUID, r: Timer)
    ensures FinishJob(s.(timeout := r), u, true) == FinishJob(s, u, true).(timeout := r)
  {
    hide W.PrepareWorker, Insert, OnWorkerFail;
    FailIgnoresHeap(s.(jobs := s.jobs - {u}, list := W.PrepareWorker(s.list, u, true).list),
                    W.PrepareWorker(s.list, u, true).note, r);
  }

  lemma FailIgnoresHeap(s: System, note: W.Note, r: Timer)
    ensures Tell(s.(timeout := r), note) == Tell(s, note).(timeout := r)
  {
    hide Insert;
  }

  lemma {:induction false} CloseAllIgnoresHeap(s: System, ids: seq<ReqID>, r: Timer)
    ensures CloseAll(s.(timeout := r), ids) == CloseAll(s, ids).(timeout := r)
    decreases |ids|
  {
    hide Close;
    if ids != [] {
      CloseIgnoresHeap(s, ids[0], r);
      CloseAllIgnoresHeap(Close(s, ids[0]).sys, ids[1..], r);
    }
  }

  /** Expiry of jobs, likewise: ended if and only if past its timeout and popped; none is forgotten. */
  lemma FireTimeoutIs(s: System)
    requires Inv(s) && s.timeout.pending.Some?
    ensures Inv(FireTimeout(s))
    ensures KeysAgree(s.list, s.jobs) ==> KeysAgree(FireTimeout(s).list, FireTimeout(s).jobs)
    ensures var s' := FireTimeout(s);
            var t := s.timeout.pending.value;
            && s' == s.(requests := s'.requests, jobs := s'.jobs, list := s'.list, timeout := s'.timeout)
            && NoNewIdle(s.list, s'.list)
            && s'.requests.Keys == s.requests.Keys
            && (forall id :: id in s.requests ==>
                  s'.requests[id] ==
                    if Popped(s.timeout.times, t, id) then Finished(s.requests[id], s.now) else s.requests[id])
            && forall id :: id in s'.requests && s'.requests[id].state == INPROGRESS ==>
                              s'.requests[id].job.Some? && s'.requests[id].job.value.timeout >= t
  {
    hide P.Inv, QueueOk, RunsAreJobs, KeysFit, KeysAgree, Numbered, CloseAll, Drain, Rearm, Ids, Armed;
    var t := s.timeout.pending.value;
    var r := Drained(s.timeout, t);
    var ids := Ids(Drain(s.timeout.times, t));
    CloseAllIs(s, ids);
    CloseAllIgnoresHeap(s, ids, r);
    RearmIsOk(r, s.now);
    var s' := FireTimeout(s);
    assert s' == CloseAll(s, ids).(timeout := Rearm(r));
    forall id | id in s.requests
      ensures s'.requests[id] ==
              if Popped(s.timeout.times, t, id) then Finished(s.requests[id], s.now) else s.requests[id]
      ensures s'.requests[id].state == INPROGRESS ==>
                s'.requests[id].job.Some? && s'.requests[id].job.value.timeout >= t
      ensures Timed(s'.requests[id], s'.valid.times, s'.deadline.times, s'.timeout.times, s'.now)
    {
      PoppedIds(s.timeout.times, t, id);
      assert Served(s.requests, s.jobs, id);
      assert Timed(s.requests[id], s.valid.times, s.deadline.times, s.timeout.times, s.now);
      SelfNumbered(s, id);
      if s.requests[id].state == INPROGRESS {
        var e := RequestTime(s.requests[id].job.value.timeout, id);
        if e.time >= t {
          StaysInHeap(s.timeout.times, t, e);
        }
      }
    }
  }

  // ---------- Validity ----------

  lemma DrainedValidKeeps(s: System)
    requires Inv(s) && s.valid.pending.Some?
    ensures Core(s.(valid := Drained(s.valid, s.valid.pending.value)))
  {
    hide P.Inv, QueueOk, JobsOk, RunsAreJobs, Numbered, Drain, Armed;
    var t := s.valid.pending.value;
    var s0 := s.(valid := Drained(s.valid, t));
    forall id | id in s0.requests
      ensures Timed(s0.requests[id], s0.valid.times, s0.deadline.times, s0.timeout.times, s0.now)
    {
      assert Timed(s.requests[id], s.valid.times, s.deadline.times, s.timeout.times, s.now);
      var e := RequestTime(s.requests[id].validAfter, s.requests[id].id);
      if e in s.valid.times && e.time >= t {
        StaysInHeap(s.valid.times, t, e);
      }
    }
  }

  /** After a fire of the timer of validity nothing is stranded without another fire to come. */
  lemma FireValidIs(s: System, turns: nat -> Turn)
    requires Inv(s) && s.valid.pending.Some?
    ensures Inv(FireValid(s, turns)) && Awake(FireValid(s, turns))
    ensures (forall i, id :: turns(i).tunnel(id)) ==> NoneStranded(FireValid(s, turns))
    ensures OnlyStarts(s, FireValid(s, turns))
    ensures KeysAgree(s.list, s.jobs) ==> KeysAgree(FireValid(s, turns).list, FireValid(s, turns).jobs)
  {
    hide KeysAgree, OnlyStarts, P.Inv, QueueOk, JobsOk, RunsAreJobs, Numbered, MatchAll, Drain, Rearm, Armed, Due,
      Stranded;
    var t := s.valid.pending.value;
    var s0 := s.(valid := Drained(s.valid, t));
    DrainedValidKeeps(s);
    MatchAllIsMaximal(s0, turns, 0);
    var s1 := MatchAll(s0, turns, 0);
    RearmIsOk(s1.valid, s1.now);
    var s' := FireValid(s, turns);
    assert s' == s1.(valid := Rearm(s1.valid));
    RearmKeepsAwake(s1);
    SameRequestsOnlyStart(s, s0, s1);
    RearmOnlyStarts(s, s1);
  }

  lemma RearmOnlyStarts(s: System, s1: System)
    requires OnlyStarts(s, s1)
    ensures OnlyStarts(s, s1.(valid := Rearm(s1.valid)))
  {
  }

  lemma RearmKeepsAwake(s: System)
    ensures var s' := s.(valid := Rearm(s.valid));
            (Awake(s) ==> Awake(s')) && (NoneStranded(s) ==> NoneStranded(s'))
  {
    hide Rearm, W.Candidate;
    var s' := s.(valid := Rearm(s.valid));
    assert Rearm(s.valid).times == s.valid.times by {
      RearmTimes(s.valid);
    }
    assert forall id, u :: id in s.requests && u in s.list.workers ==> Stranded(s', id, u) == Stranded(s, id, u);
  }

  lemma RearmTimes(r: Timer)
    ensures Rearm(r).times == r.times
  {
  }
}
