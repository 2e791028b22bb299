/**
 The invariants that tie requests, queue, workers, jobs and timers together.
 */
module Invariants {

  import opened Boruta
  import opened RequestQueue
  import opened Timers
  import opened System
  import P = ProtocolInvariant
  import T = ProtocolTheorems
  import W = WorkerProtocol

  type Requests = map<ReqID, ReqInfo>
  type Jobs = map<WorkerUUID, Job>

  // ---------- Requests and their queue ----------

  /** Request IDs are 1, 2, ... without a gap. */
  ghost predicate Numbered(requests: Requests)
  {
    && (forall id :: id in requests <==> 1 <= id <= |requests|)
    && (forall id :: id in requests ==> requests[id].id == id)
  }

  /** A list holds waiting requests of its priority only, each once. */
  ghost predicate ListOk(requests: Requests, lists: Lists, p: nat)
    requires p < LISTS
  {
    && Distinct(lists[p])
    && forall id :: id in lists[p] ==>
                      id in requests && requests[id].state == WAIT && requests[id].priority == p
  }

  /** A waiting request is in the list of its priority, which exists. */
  predicate Queued(requests: Requests, lists: Lists, id: ReqID)
    requires id in requests
  {
    requests[id].state == WAIT ==>
      HI_PRIO <= requests[id].priority <= LO_PRIO && id in lists[requests[id].priority]
  }

  ghost predicate QueueOk(requests: Requests, lists: Lists)
  {
    && (forall p :: 0 <= p < LISTS ==> ListOk(requests, lists, p))
    && (forall id :: id in requests ==> Queued(requests, lists, id))
  }

  // ---------- Workers, jobs and requests ----------

  /** The job of a worker serves a request that is in progress and names this worker. */
  predicate JobOk(requests: Requests, jobs: Jobs, u: WorkerUUID)
    requires u in jobs
  {
    && jobs[u].req in requests
    && var r := requests[jobs[u].req];
       r.state == INPROGRESS && r.job.Some? && r.job.value.worker == u
  }

  /** A request in progress names a worker, whose job serves this request. */
  predicate Served(requests: Requests, jobs: Jobs, id: ReqID)
    requires id in requests
  {
    requests[id].state == INPROGRESS ==>
      requests[id].job.Some? && requests[id].job.value.worker in jobs && jobs[requests[id].job.value.worker].req == id
  }

  ghost predicate JobsOk(requests: Requests, jobs: Jobs)
  {
    && (forall u :: u in jobs ==> JobOk(requests, jobs, u))
    && (forall id :: id in requests ==> Served(requests, jobs, id))
  }

  /** Exactly the running workers have jobs. */
  ghost predicate RunsAreJobs(list: W.WorkerList, jobs: Jobs)
  {
    forall u :: T.Running(list, u) <==> u in jobs
  }

  /** The key handed out with a job is the one on the Dryad, unless the worker was once deregistered. */
  ghost predicate KeysFit(list: W.WorkerList, jobs: Jobs)
  {
    forall u :: u in jobs && u in list.workers && list.workers[u].chan < |list.regs|
                && P.Sole(list, list.workers[u].chan) ==>
                  W.Installed(list, u) == Some(jobs[u].key)
  }

  /** Stored keys and those of the Dryads agree for every worker, and the keys handed out with jobs with them. */
  ghost predicate KeysAgree(list: W.WorkerList, jobs: Jobs)
  {
    && (forall u :: u in list.workers && list.workers[u].chan < |list.regs| ==> P.KeysMatch(list, u))
    && (forall u :: u in jobs ==> W.Installed(list, u) == Some(jobs[u].key))
  }

  // ---------- Timers ----------

  /** What a request still waits for is in the heap concerned. */
  ghost predicate Timed(r: ReqInfo, valid: multiset<RequestTime>, deadline: multiset<RequestTime>,
                        timeout: multiset<RequestTime>, now: Time)
  {
    && (r.state == WAIT ==>
          && RequestTime(r.deadline, r.id) in deadline
          && (r.validAfter < now || RequestTime(r.validAfter, r.id) in valid))
    && (r.state == INPROGRESS && r.job.Some? ==> RequestTime(r.job.value.timeout, r.id) in timeout)
  }

  ghost predicate AllTimed(s: System)
  {
    forall id :: id in s.requests ==> Timed(s.requests[id], s.valid.times, s.deadline.times, s.timeout.times, s.now)
  }

  ghost predicate TimerOk(r: Timer, now: Time)
  {
    Armed(r) && (r.pending.Some? ==> r.pending.value <= now)
  }

  ghost predicate TimersOk(s: System)
  {
    TimerOk(s.valid, s.now) && TimerOk(s.deadline, s.now) && TimerOk(s.timeout, s.now)
  }

  /** All but the timers' being set, which does not hold while a fire is processed. */
  ghost predicate Core(s: System)
  {
    && !s.crashed
    && P.Inv(s.list)
    && Numbered(s.requests)
    && QueueOk(s.requests, s.lists)
    && JobsOk(s.requests, s.jobs)
    && RunsAreJobs(s.list, s.jobs)
    && KeysFit(s.list, s.jobs)
    && AllTimed(s)
  }

  ghost predicate Inv(s: System)
  {
    Core(s) && TimersOk(s)
  }

  // ---------- Changing one request ----------

  lemma SetKeepsNumbered(requests: Requests, r: ReqInfo)
    requires Numbered(requests) && r.id in requests
    ensures Numbered(requests[r.id := r])
    ensures |requests[r.id := r]| == |requests|
  {
    assert requests[r.id := r].Keys == requests.Keys;
    assert |requests[r.id := r].Keys| == |requests[r.id := r]|;
    assert |requests.Keys| == |requests|;
  }

  lemma AddedSize(requests: Requests, r: ReqInfo)
    requires r.id !in requests
    ensures |requests[r.id := r]| == |requests| + 1
  {
    assert requests[r.id := r].Keys == requests.Keys + {r.id};
    assert |requests[r.id := r].Keys| == |requests[r.id := r]|;
    assert |requests.Keys| == |requests|;
  }

  lemma AddKeepsNumbered(requests: Requests, r: ReqInfo)
    requires Numbered(requests) && r.id == |requests| + 1
    ensures Numbered(requests[r.id := r])
    ensures |requests[r.id := r]| == |requests| + 1
  {
    AddedSize(requests, r);
  }

  /** A request that stops waiting leaves its list. */
  lemma LeaveKeepsQueue(requests: Requests, lists: Lists, r: ReqInfo)
    requires QueueOk(requests, lists) && r.id in requests
    requires requests[r.id].state == WAIT && r.state != WAIT && r.priority == requests[r.id].priority
    ensures r.priority < LISTS && r.id in lists[r.priority]
    ensures QueueOk(requests[r.id := r], lists[r.priority := RemoveFirst(lists[r.priority], r.id)])
  {
    var p := r.priority;
    assert Queued(requests, lists, r.id);
    assert ListOk(requests, lists, p);
    RemoveFirstIsExact(lists[p], r.id);
    var requests' := requests[r.id := r];
    var lists': Lists := lists[p := RemoveFirst(lists[p], r.id)];
    forall q: nat | q < LISTS
      ensures ListOk(requests', lists', q)
    {
      assert ListOk(requests, lists, q);
    }
    forall id | id in requests'
      ensures Queued(requests', lists', id)
    {
      assert id != r.id ==> Queued(requests, lists, id);
    }
  }

  /** A change that keeps state and priority, or concerns a request that is not waiting, leaves the queue alone. */
  lemma ChangeKeepsQueue(requests: Requests, lists: Lists, r: ReqInfo)
    requires QueueOk(requests, lists) && r.id in requests
    requires (r.state == WAIT) == (requests[r.id].state == WAIT)
    requires r.state == WAIT ==> r.priority == requests[r.id].priority
    ensures QueueOk(requests[r.id := r], lists)
  {
    var requests' := requests[r.id := r];
    forall q: nat | q < LISTS
      ensures ListOk(requests', lists, q)
    {
      assert ListOk(requests, lists, q);
    }
    forall id | id in requests'
      ensures Queued(requests', lists, id)
    {
      assert Queued(requests, lists, id);
    }
  }

  /** A request enters the list of its priority at the end. */
  lemma EnterKeepsQueue(requests: Requests, lists: Lists, r: ReqInfo)
    requires QueueOk(requests, lists)
    requires r.id in requests ==> requests[r.id].state != WAIT
    requires r.state == WAIT && HI_PRIO <= r.priority <= LO_PRIO
    ensures QueueOk(requests[r.id := r], lists[r.priority := lists[r.priority] + [r.id]])
  {
    var p := r.priority;
    var requests' := requests[r.id := r];
    var lists': Lists := lists[p := lists[p] + [r.id]];
    forall q: nat | q < LISTS
      ensures ListOk(requests', lists', q)
    {
      assert ListOk(requests, lists, q);
    }
    forall id | id in requests'
      ensures Queued(requests', lists', id)
    {
      assert id != r.id ==> Queued(requests, lists, id);
    }
  }

  // ---------- Jobs ----------

  lemma ChangeKeepsJobs(requests: Requests, jobs: Jobs, r: ReqInfo)
    requires JobsOk(requests, jobs)
    requires r.id in requests ==>
               && (r.state == INPROGRESS <==> requests[r.id].state == INPROGRESS)
               && (r.state == INPROGRESS ==>
                     && r.job.Some? && requests[r.id].job.Some?
                     && r.job.value.worker == requests[r.id].job.value.worker)
    requires r.id !in requests ==> r.state != INPROGRESS
    ensures JobsOk(requests[r.id := r], jobs)
  {
    var requests' := requests[r.id := r];
    forall u | u in jobs
      ensures JobOk(requests', jobs, u)
    {
      assert JobOk(requests, jobs, u);
    }
    forall id | id in requests'
      ensures Served(requests', jobs, id)
    {
      assert id in requests ==> Served(requests, jobs, id);
    }
  }

  lemma EndKeepsJobs(requests: Requests, jobs: Jobs, r: ReqInfo, u: WorkerUUID)
    requires JobsOk(requests, jobs) && u in jobs && jobs[u].req == r.id && r.state != INPROGRESS
    ensures JobsOk(requests[r.id := r], jobs - {u})
  {
    var requests' := requests[r.id := r];
    var jobs' := jobs - {u};
    assert JobOk(requests, jobs, u);
    forall v | v in jobs'
      ensures JobOk(requests', jobs', v)
    {
      assert JobOk(requests, jobs, v);
    }
    forall id | id in requests'
      ensures Served(requests', jobs', id)
    {
      assert Served(requests, jobs, id);
    }
  }

  lemma StartKeepsJobs(requests: Requests, jobs: Jobs, r: ReqInfo, u: WorkerUUID, job: Job)
    requires JobsOk(requests, jobs) && u !in jobs && r.id in requests && requests[r.id].state != INPROGRESS
    requires r.state == INPROGRESS && r.job.Some? && r.job.value.worker == u && job.req == r.id
    ensures JobsOk(requests[r.id := r], jobs[u := job])
  {
    var requests' := requests[r.id := r];
    var jobs' := jobs[u := job];
    forall v | v in jobs'
      ensures JobOk(requests', jobs', v)
    {
      assert v != u ==> JobOk(requests, jobs, v);
    }
    forall id | id in requests'
      ensures Served(requests', jobs', id)
    {
      assert Served(requests, jobs, id);
    }
  }

  /** Jobs that stay, with their workers running, keep the right keys. */
  lemma StayingKeysFit(l: W.WorkerList, jobs: Jobs, l': W.WorkerList, jobs': Jobs)
    requires P.Inv(l) && KeysFit(l, jobs) && RunsAreJobs(l, jobs) && T.RunsStay(l, l')
    requires forall u :: u in jobs' ==> u in jobs && jobs'[u] == jobs[u] && T.Running(l', u)
    ensures KeysFit(l', jobs')
  {
    hide P.Inv, KeysFit;
    forall u | u in jobs' && u in l'.workers && l'.workers[u].chan < |l'.regs| && P.Sole(l', l'.workers[u].chan)
      ensures W.Installed(l', u) == Some(jobs'[u].key)
    {
      assert T.Running(l, u);
      P.ListedIsLinked(l, u);
      P.SoleBefore(l, l', l.workers[u].chan);
      KeyOfJob(l, jobs, u);
    }
    AllKeysFit(l', jobs');
  }

  lemma StayingKeysAgree(l: W.WorkerList, jobs: Jobs, l': W.WorkerList, jobs': Jobs)
    requires P.Inv(l) && P.Inv(l') && KeysAgree(l, jobs) && RunsAreJobs(l, jobs)
    requires T.RunsStay(l, l') && T.KeysKept(l, l')
    requires forall u :: u in jobs' ==> u in jobs && jobs'[u] == jobs[u] && T.Running(l', u)
    ensures KeysAgree(l', jobs')
  {
    hide P.Inv;
    forall u | u in l.workers
      ensures P.Linked(l, u)
    {
      P.ListedIsLinked(l, u);
    }
    forall u | u in l'.workers
      ensures P.Linked(l', u)
    {
      P.ListedIsLinked(l', u);
    }
    forall u | u in jobs'
      ensures T.Running(l, u) && T.Running(l', u)
    {
    }
  }

  lemma KeyOfJob(l: W.WorkerList, jobs: Jobs, u: WorkerUUID)
    requires KeysFit(l, jobs) && u in jobs && u in l.workers && l.workers[u].chan < |l.regs|
    requires P.Sole(l, l.workers[u].chan)
    ensures W.Installed(l, u) == Some(jobs[u].key)
  {
  }

  lemma AllKeysFit(l: W.WorkerList, jobs: Jobs)
    requires forall u :: u in jobs && u in l.workers && l.workers[u].chan < |l.regs|
                         && P.Sole(l, l.workers[u].chan) ==>
                           W.Installed(l, u) == Some(jobs[u].key)
    ensures KeysFit(l, jobs)
  {
  }

  // ---------- Timers ----------

  /** Heaps may grow, the clock may advance and one request may change, if the new values are timed. */
  lemma ChangeKeepsTimed(s: System, s': System, r: ReqInfo)
    requires AllTimed(s) && s.now <= s'.now
    requires s.valid.times <= s'.valid.times
    requires s.deadline.times <= s'.deadline.times
    requires s.timeout.times <= s'.timeout.times
    requires s'.requests == s.requests[r.id := r]
    requires Timed(r, s'.valid.times, s'.deadline.times, s'.timeout.times, s'.now)
    ensures AllTimed(s')
  {
    forall id | id in s'.requests
      ensures Timed(s'.requests[id], s'.valid.times, s'.deadline.times, s'.timeout.times, s'.now)
    {
      assert id in s.requests ==> Timed(s.requests[id], s.valid.times, s.deadline.times, s.timeout.times, s.now);
    }
  }

  lemma InsertKeepsTimer(r: Timer, e: RequestTime, now: Time)
    ensures TimerOk(r, now) ==> TimerOk(Insert(r, e), now)
    ensures r.times <= Insert(r, e).times && e in Insert(r, e).times
    ensures Insert(r, e).pending == r.pending
  {
    if Armed(r) {
      InsertKeepsArmed(r, e);
    }
  }
}
