/**
 What each operation of the engine answers and does, case by case and with every state, bound and value written out.
 */
module Outcomes {

  import opened Boruta
  import opened Lexicographic
  import opened RequestQueue
  import opened Timers
  import opened System
  import opened Invariants
  import opened Matching
  import opened Preservation
  import opened WorkerOutcomes
  import F = Filter
  import P = ProtocolInvariant
  import T = ProtocolTheorems
  import W = WorkerProtocol

  // ---------- The choice of a worker ----------

  /** The worker has what is asked for: one of the groups, if any are given, and each capability with its value. */
  ghost predicate Satisfies(w: WorkerInfo, groups: seq<Group>, caps: Capabilities)
  {
    && (|groups| == 0 || exists i, j :: 0 <= i < |groups| && 0 <= j < |w.groups| && groups[i] == w.groups[j])
    && (forall k :: k in caps ==> k in w.caps && w.caps[k] == caps[k])
  }

  /** The worker is idle, and satisfies what is asked for or has no name. */
  ghost predicate IsEligible(w: WorkerInfo, groups: seq<Group>, caps: Capabilities)
  {
    w.state == IDLE && (w.uuid == "" || Satisfies(w, groups, caps))
  }

  lemma MatchingIsSatisfying(w: WorkerInfo, groups: seq<Group>, caps: Capabilities)
    ensures F.Matches(w, groups, caps) <==> Satisfies(w, groups, caps)
  {
    if exists g :: g in groups && g in w.groups {
      var g :| g in groups && g in w.groups;
      var i :| 0 <= i < |groups| && groups[i] == g;
      var j :| 0 <= j < |w.groups| && w.groups[j] == g;
    } else {
      forall i, j | 0 <= i < |groups| && 0 <= j < |w.groups|
        ensures groups[i] != w.groups[j]
      {
        assert groups[i] in groups && w.groups[j] in w.groups;
      }
    }
  }

  lemma CandidateIsEligible(l: W.WorkerList, groups: seq<Group>, caps: Capabilities, u: WorkerUUID)
    requires u in l.workers
    ensures var w := l.workers[u].info;
            W.Candidate(l, groups, caps, u) <==> IsEligible(w, groups, caps) && |w.caps| + |w.groups| < 0x7FFF_FFFF
  {
    hide F.Matches, Satisfies;
    MatchingIsSatisfying(l.workers[u].info, groups, caps);
  }

  /**
   The worker that is taken has the fewest capabilities and groups, counted together, of the eligible ones, and of
   those with as few the first name.
   */
  lemma ChosenIsLeast(l: W.WorkerList, groups: seq<Group>, caps: Capabilities, u: WorkerUUID)
    requires Best(l, groups, caps) == Some(u)
    ensures u in l.workers && IsEligible(l.workers[u].info, groups, caps)
    ensures |l.workers[u].info.caps| + |l.workers[u].info.groups| < 0x7FFF_FFFF
    ensures forall v :: v in l.workers && v != u && IsEligible(l.workers[v].info, groups, caps) ==>
                          var a, b := l.workers[u].info, l.workers[v].info;
                          || |a.caps| + |a.groups| < |b.caps| + |b.groups|
                          || (|a.caps| + |a.groups| == |b.caps| + |b.groups| && StringLess(u, v))
  {
    hide W.Candidate, IsEligible;
    CandidateIsEligible(l, groups, caps, u);
    forall v | v in l.workers && v != u && IsEligible(l.workers[v].info, groups, caps)
      ensures var a, b := l.workers[u].info, l.workers[v].info;
              || |a.caps| + |a.groups| < |b.caps| + |b.groups|
              || (|a.caps| + |a.groups| == |b.caps| + |b.groups| && StringLess(u, v))
    {
      CandidateIsEligible(l, groups, caps, v);
      if W.Candidate(l, groups, caps, v) {
        assert Preferred(l, u, v);
      }
    }
  }

  /** None is taken if and only if every eligible one has more capabilities and groups than can be counted. */
  lemma NoneIsChosen(l: W.WorkerList, groups: seq<Group>, caps: Capabilities)
    ensures Best(l, groups, caps) == None <==>
            forall v :: v in l.workers && IsEligible(l.workers[v].info, groups, caps) ==>
                          |l.workers[v].info.caps| + |l.workers[v].info.groups| >= 0x7FFF_FFFF
  {
    hide W.Candidate, IsEligible, Best;
    BestIsFound(l, groups, caps);
    forall v | v in l.workers
      ensures W.Candidate(l, groups, caps, v) <==>
              && IsEligible(l.workers[v].info, groups, caps)
              && |l.workers[v].info.caps| + |l.workers[v].info.groups| < 0x7FFF_FFFF
    {
      CandidateIsEligible(l, groups, caps, v);
    }
  }

  // ---------- Requests that are filed ----------

  /** The answer to a new request: which of the refusals applies, and that it is the first that does. */
  lemma NewRequestAnswer(s: System, caps: Capabilities, priority: Priority, groups: seq<Group>,
                         validAfter: Time, deadline: Time, monthLater: Time)
    ensures var reply := NewRequest(s, caps, priority, groups, validAfter, deadline, monthLater);
            && (reply.error == NoError <==>
                && 1 <= priority <= 16
                && (deadline == 0 || (s.now <= deadline && validAfter <= deadline)))
            && (reply.error == DeadlineInThePast <==> deadline != 0 && deadline < s.now)
            && (reply.error == InvalidTimeRange <==> deadline != 0 && s.now <= deadline < validAfter)
            && reply.error in {NoError, DeadlineInThePast, InvalidTimeRange, PriorityOutOfBounds}
            && (reply.error != NoError ==> reply.sys == s)
  {
    hide Insert;
  }

  /** An accepted request waits under the next number, with what was given and the defaults, last in its list. */
  lemma NewRequestOutcome(s: System, caps: Capabilities, priority: Priority, groups: seq<Group>,
                          validAfter: Time, deadline: Time, monthLater: Time)
    requires Core(s)
    requires NewRequest(s, caps, priority, groups, validAfter, deadline, monthLater).error == NoError
    ensures var s' := NewRequest(s, caps, priority, groups, validAfter, deadline, monthLater).sys;
            var id := |s.requests| + 1;
            && id !in s.requests && s'.requests.Keys == s.requests.Keys + {id}
            && (forall i :: i in s.requests ==> s'.requests[i] == s.requests[i])
            && var r := s'.requests[id];
               && r.id == id && r.priority == priority && r.groups == groups && r.caps == caps
               && r.state == WAIT && r.job == None
               && r.validAfter == (if validAfter == 0 then s.now else validAfter)
               && r.deadline == (if deadline == 0 then monthLater else deadline)
               && s' == s.(requests := s'.requests,
                           lists := s.lists[priority := s.lists[priority] + [id]],
                           valid := s'.valid, deadline := s'.deadline)
               && s'.valid.times == s.valid.times + multiset{RequestTime(r.validAfter, id)}
               && s'.deadline.times == s.deadline.times + multiset{RequestTime(r.deadline, id)}
  {
    hide P.Inv, QueueOk, JobsOk, RunsAreJobs, KeysFit, AllTimed, MinEntry;
  }

  // ---------- Requests that end ----------

  /** The request gets another state, and nothing else of any request changes. */
  ghost predicate Becomes(s: System, s': System, id: ReqID, state: ReqState)
    requires id in s.requests
  {
    s'.requests == s.requests[id := s.requests[id].(state := state)]
  }

  /** The request stands in the list of its priority, and is taken out of it. */
  ghost predicate TakenOut(s: System, s': System, id: ReqID)
    requires id in s.requests
  {
    var p := s.requests[id].priority;
    && 1 <= p <= 16
    && (forall q :: 0 <= q < LISTS && q != p ==> s'.lists[q] == s.lists[q])
    && exists i :: && 0 <= i < |s.lists[p]| && s.lists[p][i] == id
                   && s'.lists[p] == s.lists[p][..i] + s.lists[p][i + 1..]
  }

  /** The worker of a running request loses its job and is sent to be prepared; no other worker or job changes. */
  ghost predicate Released(s: System, s': System, id: ReqID)
    requires id in s.requests
  {
    && s.requests[id].job.Some?
    && var u := s.requests[id].job.value.worker;
       && u in s.jobs && s.jobs[u].req == id && u in s.list.workers && s.list.workers[u].info.state == RUN
       && u !in s'.jobs && s'.jobs == s.jobs - {u}
       && IsSent(s.list, s'.list, u, PREPARE)
  }

  lemma RemovalIs(s: System, r: ReqInfo, state: ReqState)
    requires Core(s) && r.id in s.requests && s.requests[r.id] == r && r.state == WAIT
    ensures var s' := Remove(SetRequest(s, r.(state := state)), r.id, r.priority);
            Becomes(s, s', r.id, state) && TakenOut(s, s', r.id) && s' == s.(requests := s'.requests, lists := s'.lists)
  {
    hide P.Inv, QueueOk, JobsOk, RunsAreJobs, KeysFit, AllTimed, RemoveFirst;
    QueuedFromOk(s.requests, s.lists, r.id);
    RemoveFirstSplits(s.lists[r.priority], r.id);
  }

  lemma ReleaseIs(s: System, r: ReqInfo)
    requires Core(s) && r.id in s.requests && s.requests[r.id] == r && r.state == INPROGRESS
    ensures var s' := EndRequest(s, r);
            && Becomes(s, s', r.id, DONE) && Released(s, s', r.id)
            && s' == s.(requests := s'.requests, jobs := s'.jobs, list := s'.list)
  {
    hide P.Inv, EndRequest, QueueOk, Numbered, KeysFit, AllTimed, W.SetStateRaw;
    assert Served(s.requests, s.jobs, r.id);
    EndIs(s, r);
    var u := r.job.value.worker;
    P.ListedIsLinked(s.list, u);
    assert IsSent(s.list, W.SetStateRaw(s.list, u, PREPARE).list, u, PREPARE) by {
      SentIs(s.list, u, PREPARE);
    }
  }

  lemma SentIs(l: W.WorkerList, u: WorkerUUID, state: WorkerState)
    requires u in l.workers && P.Linked(l, u)
    ensures IsSent(l, W.SetStateRaw(l, u, state).list, u, state)
  {
  }

  /** Closing cancels a waiting request and ends a running one, whose worker is released; others are refused. */
  lemma CloseRequestOutcome(s: System, id: ReqID)
    requires Core(s)
    ensures var reply := CloseRequest(s, id);
            var s' := reply.sys;
            if id !in s.requests then reply == Reply(s, NotFound)
            else
              match s.requests[id].state
              case WAIT =>
                && reply.error == NoError && Becomes(s, s', id, CANCEL) && TakenOut(s, s', id)
                && s' == s.(requests := s'.requests, lists := s'.lists)
              case INPROGRESS =>
                && reply.error == NoError && Becomes(s, s', id, DONE) && Released(s, s', id)
                && s' == s.(requests := s'.requests, jobs := s'.jobs, list := s'.list)
              case _ => reply == Reply(s, ModificationForbidden)
  {
    hide P.Inv, EndRequest, Remove, QueueOk, JobsOk, RunsAreJobs, KeysFit, AllTimed, Becomes, TakenOut, Released;
    if id in s.requests {
      var r := s.requests[id];
      if r.state == WAIT {
        RemovalIs(s, r, CANCEL);
      } else if r.state == INPROGRESS {
        ReleaseIs(s, r);
      }
    }
  }

  /** A deadline that has come times a waiting request out; anything else is refused. */
  lemma TimeoutOutcome(s: System, id: ReqID)
    requires Core(s)
    ensures var reply := Timeout(s, id);
            var s' := reply.sys;
            if id !in s.requests then reply == Reply(s, NotFound)
            else if s.requests[id].state == WAIT && s.requests[id].deadline <= s.now then
              && reply.error == NoError && Becomes(s, s', id, TIMEOUT) && TakenOut(s, s', id)
              && s' == s.(requests := s'.requests, lists := s'.lists)
            else reply == Reply(s, ModificationForbidden)
  {
    hide P.Inv, Remove, QueueOk, JobsOk, RunsAreJobs, KeysFit, AllTimed, Becomes, TakenOut;
    if id in s.requests && s.requests[id].state == WAIT {
      RemovalIs(s, s.requests[id], TIMEOUT);
    }
  }

  /** A job whose time is over is ended; anything else is refused. */
  lemma CloseOutcome(s: System, id: ReqID)
    requires Core(s)
    ensures var reply := Close(s, id);
            var s' := reply.sys;
            if id !in s.requests then reply == Reply(s, NotFound)
            else if s.requests[id].state == INPROGRESS
                    && s.requests[id].job.Some? && s.requests[id].job.value.timeout <= s.now then
              && reply.error == NoError && Becomes(s, s', id, DONE) && Released(s, s', id)
              && s' == s.(requests := s'.requests, jobs := s'.jobs, list := s'.list)
            else reply == Reply(s, ModificationForbidden)
  {
    hide P.Inv, EndRequest, QueueOk, RunsAreJobs, KeysFit, AllTimed, Becomes, Released;
    if id in s.requests && s.requests[id].state == INPROGRESS {
      assert Served(s.requests, s.jobs, id);
      ReleaseIs(s, s.requests[id]);
    }
  }

  /** A worker that breaks takes its job with it, and the request of the job fails; nothing else changes. */
  lemma FailureOutcome(s: System, u: WorkerUUID)
    requires JobsOk(s.requests, s.jobs)
    ensures var s' := OnWorkerFail(s, u);
            if u !in s.jobs then s' == s
            else
              && s.jobs[u].req in s.requests && s.requests[s.jobs[u].req].state == INPROGRESS
              && Becomes(s, s', s.jobs[u].req, FAILED)
              && s' == s.(jobs := s.jobs - {u}, requests := s'.requests)
  {
    assert u in s.jobs ==> JobOk(s.requests, s.jobs, u);
  }

  // ---------- Requests that change ----------

  /** The answer to an update: one of nothing is always accepted; otherwise the first refusal that applies is given. */
  lemma UpdateAnswer(s: System, src: Update)
    ensures var reply := UpdateRequest(s, src);
            var nothing := src.priority == 0 && src.validAfter == 0 && src.deadline == 0;
            && (nothing ==> reply == Reply(s, NoError))
            && (reply.error == NotFound <==> !nothing && src.id !in s.requests)
            && (src.id in s.requests && !nothing ==>
                  var r := s.requests[src.id];
                  var same :=
                    src.priority == r.priority && src.validAfter == r.validAfter && src.deadline == r.deadline;
                  var end := if src.deadline != 0 then src.deadline else r.deadline;
                  && (reply.error == ModificationForbidden <==> r.state != WAIT)
                  && (r.state == WAIT ==>
                        && (same ==> reply == Reply(s, NoError))
                        && (reply.error == NoError <==>
                            || same
                            || (&& src.priority <= 16
                                && (src.deadline == 0 || s.now <= src.deadline)
                                && (src.validAfter == 0 || end == 0 || src.validAfter <= end)))
                        && (reply.error == PriorityOutOfBounds <==> !same && src.priority > 16)
                        && (reply.error == DeadlineInThePast <==>
                            !same && src.priority <= 16 && src.deadline != 0 && src.deadline < s.now)))
            && (reply.error !in {NoError, NotFound, ModificationForbidden, PriorityOutOfBounds, DeadlineInThePast} ==>
                  reply.error == InvalidTimeRange)
            && (reply.error != NoError ==> reply.sys == s)
  {
    hide Insert, RemoveFirst;
  }

  /** What is given replaces what there was; a given priority moves the request to the end of the list of it. */
  lemma UpdateOutcome(s: System, src: Update)
    requires Core(s) && src.id in s.requests && UpdateRequest(s, src).sys != s
    ensures var s' := UpdateRequest(s, src).sys;
            var old', r := s.requests[src.id], s'.requests[src.id];
            && old'.state == WAIT && s'.requests == s.requests[src.id := r]
            && r == old'.(priority := r.priority, validAfter := r.validAfter, deadline := r.deadline)
            && r.priority == (if src.priority == 0 then old'.priority else src.priority)
            && r.validAfter == (if src.validAfter == 0 then old'.validAfter else src.validAfter)
            && r.deadline == (if src.deadline == 0 then old'.deadline else src.deadline)
            && s' == s.(requests := s'.requests, lists := s'.lists, valid := s'.valid, deadline := s'.deadline)
            && s'.valid.times == s.valid.times + (if src.validAfter == 0 then multiset{}
                                                  else multiset{RequestTime(src.validAfter, src.id)})
            && s'.deadline.times == s.deadline.times + (if r.deadline == old'.deadline then multiset{}
                                                        else multiset{RequestTime(r.deadline, src.id)})
            && (src.priority == 0 ==> s'.lists == s.lists)
            && (src.priority != 0 ==>
                  && 1 <= src.priority <= 16
                  && exists between: Lists ::
                       && TakenOut(s, s.(lists := between), src.id)
                       && s'.lists == between[src.priority := between[src.priority] + [src.id]])
  {
    hide P.Inv, QueueOk, JobsOk, RunsAreJobs, KeysFit, AllTimed, MinEntry, RemoveFirst, UpdateRequest;
    QueuedFromOk(s.requests, s.lists, src.id);
    UpdateIs(s, src);
    if src.priority != 0 {
      var p := s.requests[src.id].priority;
      RemoveFirstSplits(s.lists[p], src.id);
      assert TakenOut(s, s.(lists := s.lists[p := RemoveFirst(s.lists[p], src.id)]), src.id);
    }
  }

  // ---------- Jobs and access ----------

  /** Access to a running request is prolonged to one hour from now; anything else is refused. */
  lemma ProlongOutcome(s: System, id: ReqID)
    requires Core(s)
    ensures var reply := ProlongAccess(s, id);
            var s' := reply.sys;
            if id !in s.requests then reply == Reply(s, NotFound)
            else if s.requests[id].state != INPROGRESS then reply == Reply(s, WorkerNotAssigned)
            else
              && reply.error == NoError && s.requests[id].job.Some?
              && var until := s.now + 3_600_000_000_000;
                 var job := JobInfo(s.requests[id].job.value.worker, until);
                 && s' == s.(requests := s.requests[id := s.requests[id].(job := Some(job))], timeout := s'.timeout)
                 && s'.timeout.times == s.timeout.times + multiset{RequestTime(until, id)}
  {
    hide P.Inv, QueueOk, RunsAreJobs, KeysFit, AllTimed, MinEntry;
    if id in s.requests {
      assert Served(s.requests, s.jobs, id);
    }
  }

  /** Access data are given for a running request only: those of the job that serves it, on the worker it names. */
  lemma AcquireOutcome(s: System, id: ReqID)
    requires Core(s)
    ensures var access := AcquireWorker(s, id);
            && (access.Some? <==> id in s.requests && s.requests[id].state == INPROGRESS)
            && (access.Some? ==>
                  && access.value.req == id && s.requests[id].job.Some?
                  && s.requests[id].job.value.worker in s.jobs
                  && access.value == s.jobs[s.requests[id].job.value.worker])
  {
    hide P.Inv, QueueOk, RunsAreJobs, KeysFit, AllTimed;
    if id in s.requests {
      assert Served(s.requests, s.jobs, id);
    }
  }

  /** The request is started on the worker: with its SSH address and stored key, for one hour from now. */
  ghost predicate IsStarted(s: System, s': System, id: ReqID, u: WorkerUUID)
    requires id in s.requests && u in s.list.workers
  {
    var r, w := s.requests[id], s.list.workers[u];
    var until := s.now + 3_600_000_000_000;
    && u !in s.jobs && u in s'.jobs && w.key.Some?
    && s'.jobs == s.jobs[u := Job(id, w.sshd, w.key.value)]
    && s'.requests == s.requests[id := r.(state := INPROGRESS, job := Some(JobInfo(u, until)))]
    && IsSent(s.list, s'.list, u, RUN)
    && TakenOut(s, s', id)
    && s'.timeout.times == s.timeout.times + multiset{RequestTime(until, id)}
    && s' == s.(list := s'.list, jobs := s'.jobs, requests := s'.requests, lists := s'.lists, timeout := s'.timeout)
  }

  /**
   An attempt to serve a ready request: without an eligible worker nothing happens; with one the request is started
   on it, or, without a tunnel, the worker is taken and given back and the matcher will be woken for it.
   */
  lemma AttemptOutcome(s: System, id: ReqID, tunnel: bool)
    requires Core(s) && id in s.requests && s.requests[id].state == WAIT
    requires s.requests[id].validAfter <= s.now < s.requests[id].deadline
    ensures var r := s.requests[id];
            var (s', matched) := MatchWorkers(s, r, tunnel);
            match Best(s.list, r.groups, r.caps)
            case None => !matched && s' == s
            case Some(u) =>
              && matched == tunnel && u in s.list.workers
              && (tunnel ==> IsStarted(s, s', id, u))
              && (!tunnel ==>
                    && s' == s.(list := s'.list, valid := s'.valid)
                    && s'.list.workers == s.list.workers
                    && s'.valid.times == s.valid.times + multiset{RequestTime(s.now, 0)})
  {
    hide P.Inv, MinEntry, QueueOk, JobsOk, RunsAreJobs, KeysFit, AllTimed, Best, W.SetStateRaw, RemoveFirst,
      MatchWorkers;
    var r := s.requests[id];
    MatchIs(s, r, tunnel);
    var best := Best(s.list, r.groups, r.caps);
    if best.Some? {
      var u := best.value;
      if tunnel {
        P.ListedIsLinked(s.list, u);
        SentIs(s.list, u, RUN);
        QueuedFromOk(s.requests, s.lists, id);
        RemoveFirstSplits(s.lists[r.priority], id);
        assert TakenOut(s, Started(s, r, u), id);
      } else {
        DeclinedKeeps(s, u);
      }
    }
  }

  /** A job is made of the request, the worker's SSH address and its stored key; the refusals come in this order. */
  lemma CreateOutcome(s: System, id: ReqID, u: WorkerUUID, tunnel: bool)
    requires u in s.list.workers ==> s.list.workers[u].key.Some?
    ensures var reply := CreateJob(s, id, u, tunnel);
            if u in s.jobs then reply == Reply(s, JobAlreadyExists)
            else if u !in s.list.workers then reply == Reply(s, NotFound)
            else if !tunnel then reply == Reply(s, TunnelFailed)
            else
              && reply.error == NoError && reply.sys.jobs.Keys == s.jobs.Keys + {u}
              && reply.sys == s.(jobs := reply.sys.jobs)
              && (forall v :: v in s.jobs ==> reply.sys.jobs[v] == s.jobs[v])
              && var job := reply.sys.jobs[u];
                 job.req == id && job.addr == s.list.workers[u].sshd && Some(job.key) == s.list.workers[u].key
  {
  }

  /** A finished job is gone; its worker is sent to be prepared if that is asked for, and otherwise left running. */
  lemma FinishOutcome(s: System, u: WorkerUUID, prepare: bool)
    requires P.Inv(s.list) && u in s.list.workers && s.list.workers[u].info.state == RUN
    ensures var s' := FinishJob(s, u, prepare);
            && s' == s.(jobs := s.jobs - {u}, list := s'.list)
            && if prepare then IsSent(s.list, s'.list, u, PREPARE) else s'.list == s.list
  {
    hide P.Inv, IsSent, W.PrepareWorker;
    PrepareWorkerOutcome(s.list, u, true);
  }

  /** A waiting request is started for one hour from now and leaves its list; others are refused. */
  lemma RunOutcome(s: System, id: ReqID, u: WorkerUUID)
    requires Numbered(s.requests) && QueueOk(s.requests, s.lists)
    ensures var reply := Run(s, id, u);
            var s' := reply.sys;
            if id !in s.requests then reply == Reply(s, NotFound)
            else if s.requests[id].state != WAIT then reply == Reply(s, ModificationForbidden)
            else
              var until := s.now + 3_600_000_000_000;
              && reply.error == NoError && TakenOut(s, s', id)
              && s'.requests == s.requests[id := s.requests[id].(state := INPROGRESS, job := Some(JobInfo(u, until)))]
              && s'.timeout.times == s.timeout.times + multiset{RequestTime(until, id)}
              && s' == s.(requests := s'.requests, lists := s'.lists, timeout := s'.timeout)
  {
    hide MinEntry, RemoveFirst, QueueOk;
    if id in s.requests && s.requests[id].state == WAIT {
      QueuedFromOk(s.requests, s.lists, id);
      RemoveFirstSplits(s.lists[s.requests[id].priority], id);
    }
  }

  /**
   What the listener does: for an idle worker it has the matcher woken at once; for a run that breaks it fails the
   request and takes the job away.
   */
  lemma ListenerOutcome(s: System, o: W.Outcome)
    requires JobsOk(s.requests, s.jobs)
    ensures var s' := WithWorkers(s, o);
            match o.note
            case Quiet => s' == s.(list := o.list)
            case BecameIdle(_) =>
              && s' == s.(list := o.list, valid := s'.valid)
              && s'.valid.times == s.valid.times + multiset{RequestTime(s.now, 0)}
            case BrokeRun(u) =>
              if u !in s.jobs then s' == s.(list := o.list)
              else
                && s.jobs[u].req in s.requests && Becomes(s, s', s.jobs[u].req, FAILED)
                && s' == s.(list := o.list, jobs := s.jobs - {u}, requests := s'.requests)
  {
    hide MinEntry;
    if o.note.BrokeRun? {
      FailureOutcome(s.(list := o.list), o.note.uuid);
    }
  }

  // ---------- What may not be left over ----------

  /** The request waits and is due. */
  ghost predicate IsDue(s: System, id: ReqID)
    requires id in s.requests
  {
    var r := s.requests[id];
    r.state == WAIT && r.validAfter <= s.now < r.deadline
  }

  /** The worker could serve it. */
  ghost predicate CouldServe(s: System, id: ReqID, u: WorkerUUID)
    requires id in s.requests && u in s.list.workers
  {
    var w, r := s.list.workers[u].info, s.requests[id];
    IsEligible(w, r.groups, r.caps) && |w.caps| + |w.groups| < 0x7FFF_FFFF
  }
}
