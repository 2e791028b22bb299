/**
 What holds in every state of every run: the theorems about the whole engine.
 */
module Runs {

  import opened Boruta
  import opened RequestQueue
  import opened Timers
  import opened System
  import opened Invariants
  import opened Preservation
  import opened Scheduling
  import opened Expiry
  import P = ProtocolInvariant
  import T = ProtocolTheorems
  import W = WorkerProtocol

  lemma InitIsOk()
    ensures Inv(Init()) && Awake(Init())
  {
    forall p: nat | p < LISTS
      ensures ListOk(Init().requests, Init().lists, p)
    {
    }
  }

  lemma ExpireKeeps(s: System)
    requires Inv(s)
    ensures Inv(s.(valid := Expire(s.valid, s.now)))
    ensures Inv(s.(deadline := Expire(s.deadline, s.now)))
    ensures Inv(s.(timeout := Expire(s.timeout, s.now)))
  {
    hide P.Inv, Numbered, QueueOk, JobsOk, RunsAreJobs, Timed;
    ExpireKeepsArmed(s.valid, s.now);
    ExpireKeepsArmed(s.deadline, s.now);
    ExpireKeepsArmed(s.timeout, s.now);
    assert forall id :: id in s.requests ==>
                          Timed(s.requests[id], s.valid.times, s.deadline.times, s.timeout.times, s.now);
  }

  lemma KeptInv(s: System, s': System)
    requires Inv(s) && Keeps(s, s')
    ensures Inv(s')
  {
  }

  lemma StateKeptInv(s: System, s': System)
    requires Inv(s) && KeepsState(s, s')
    ensures Inv(s')
  {
  }

  /** Every operation, event and step of a goroutine keeps the invariant. */
  lemma StepKeeps(s: System, step: Step)
    requires Inv(s)
    ensures Inv(Apply(s, step))
  {
    hide Inv, Core, Keeps, KeepsState, NewRequest, CloseRequest, UpdateRequest, ProlongAccess, WithWorkers, FireValid,
      FireDeadline, FireTimeout, Expire, Awake, NoneStranded, Timed, TimedOut, Finished, Popped;
    InvCore(s);
    var s' := Apply(s, step);
    match step {
      case Tick(delay) => TickKeeps(s, delay); KeptInv(s, s');
      case ValidExpires => ExpireKeeps(s);
      case DeadlineExpires => ExpireKeeps(s);
      case TimeoutExpires => ExpireKeeps(s);
      case ValidFires(turns) => if s.valid.pending.Some? { FireValidIs(s, turns); }
      case DeadlineFires => if s.deadline.pending.Some? { FireDeadlineIs(s); }
      case TimeoutFires => if s.timeout.pending.Some? { FireTimeoutIs(s); }
      case CallNewRequest(caps, priority, groups, validAfter, deadline, monthLater) =>
        NewRequestKeeps(s, caps, priority, groups, validAfter, deadline, monthLater); KeptInv(s, s');
      case CallCloseRequest(id) => CloseRequestKeeps(s, id); KeptInv(s, s');
      case CallUpdateRequest(src) => UpdateKeeps(s, src); KeptInv(s, s');
      case CallProlongAccess(id) => ProlongKeeps(s, id); KeptInv(s, s');
      case CallRegister(caps, dryad, sshd) => RegisterKeeps(s, caps, dryad, sshd); KeptInv(s, s');
      case CallSetFail(u) => SetFailKeeps(s, u); KeptInv(s, s');
      case CallSetState(u, state) => SetStateKeeps(s, u, state); KeptInv(s, s');
      case CallSetGroups(u, groups) => SetGroupsKeeps(s, u, groups); KeptInv(s, s');
      case CallDeregister(u) => DeregisterKeeps(s, u); KeptInv(s, s');
      case Goroutine(c, answer, drawn) =>
        if W.CanStep(s.list, c) {
          GoroutineKeeps(s, c, answer, drawn);
          StateKeptInv(s, s');
        }
    }
  }

  lemma InvCore(s: System)
    requires Inv(s)
    ensures Core(s)
  {
  }

  lemma {:induction false} RunKeeps(steps: seq<Step>)
    ensures Inv(Exec(steps))
    decreases |steps|
  {
    hide Inv, Apply;
    if steps == [] {
      InitIsOk();
    } else {
      RunKeeps(steps[..|steps| - 1]);
      StepKeeps(Exec(steps[..|steps| - 1]), steps[|steps| - 1]);
    }
  }

  // ---------- Allocation ----------

  /** A running worker has a job, for a request in progress that names the worker; and the reverse. */
  lemma NoDoubleAllocation(steps: seq<Step>)
    ensures var s := Exec(steps);
            && !s.crashed && !s.list.panicked
            && (forall u :: T.Running(s.list, u) <==> u in s.jobs)
            && (forall u :: u in s.jobs <==>
                  exists id :: id in s.requests && s.requests[id].state == INPROGRESS && s.requests[id].job.Some?
                               && s.requests[id].job.value.worker == u)
            && (forall id :: id in s.requests && s.requests[id].state == INPROGRESS ==>
                  && s.requests[id].job.Some? && s.requests[id].job.value.worker in s.jobs
                  && s.jobs[s.requests[id].job.value.worker].req == id)
            && (forall a, b :: a in s.requests && b in s.requests && a != b
                               && s.requests[a].state == INPROGRESS && s.requests[b].state == INPROGRESS ==>
                                 s.requests[a].job != s.requests[b].job
                                 && s.requests[a].job.value.worker != s.requests[b].job.value.worker)
            && (forall id :: id in s.requests ==> (AcquireWorker(s, id).Some? <==> s.requests[id].state == INPROGRESS))
  {
    hide Exec;
    RunKeeps(steps);
    var s := Exec(steps);
    forall id | id in s.requests
      ensures Served(s.requests, s.jobs, id)
    {
    }
    forall u | u in s.jobs
      ensures exists id :: id in s.requests && s.requests[id].state == INPROGRESS && s.requests[id].job.Some?
                           && s.requests[id].job.value.worker == u
    {
      assert JobOk(s.requests, s.jobs, u);
      assert s.requests[s.jobs[u].req].state == INPROGRESS;
    }
  }

  lemma QueuedExactly(requests: Requests, lists: Lists, id: ReqID)
    requires QueueOk(requests, lists)
    ensures forall p :: 0 <= p < LISTS ==>
              (id in lists[p] <==> id in requests && requests[id].state == WAIT && requests[id].priority == p)
    ensures id in Flat(lists, 1) <==> id in requests && requests[id].state == WAIT
  {
    forall p | 0 <= p < LISTS
      ensures id in lists[p] <==> id in requests && requests[id].state == WAIT && requests[id].priority == p
    {
      assert ListOk(requests, lists, p);
      assert id in requests ==> Queued(requests, lists, id);
    }
    InFlat(lists, 1, id);
    assert id in requests ==> Queued(requests, lists, id);
  }

  /** The queue holds exactly the waiting requests, each once, in the list of its priority; no ID is reused. */
  lemma QueueIsExact(steps: seq<Step>, id: ReqID)
    ensures var s := Exec(steps);
            && (id in s.requests <==> 1 <= id <= |s.requests|)
            && (id in s.requests ==> s.requests[id].id == id)
            && (id in Flat(s.lists, 1) <==> id in s.requests && s.requests[id].state == WAIT)
            && forall p :: 0 <= p < LISTS ==>
                 && Distinct(s.lists[p])
                 && (id in s.lists[p] <==>
                       id in s.requests && s.requests[id].state == WAIT && s.requests[id].priority == p)
  {
    hide Exec, P.Inv, JobsOk, AllTimed, TimersOk;
    RunKeeps(steps);
    var s := Exec(steps);
    QueuedExactly(s.requests, s.lists, id);
    forall p | 0 <= p < LISTS
      ensures Distinct(s.lists[p])
    {
      assert ListOk(s.requests, s.lists, p);
    }
  }

  /** A channel is open while its worker is listed; its last message, or the goroutine, is at the worker's state. */
  lemma LatestStateWins(steps: seq<Step>, u: WorkerUUID)
    requires u in Exec(steps).list.workers
    ensures var l := Exec(steps).list;
            var w := l.workers[u];
            && w.info.uuid == u && w.chan < |l.regs| && l.regs[w.chan].uuid == u && l.regs[w.chan].open
            && P.LatestWins(w, l.regs[w.chan])
            && (w.info.state in {PREPARE, BUSY} ==> W.CanStep(l, w.chan))
            && (w.info.state in {IDLE, RUN} ==> P.Usable(w, l.regs[w.chan]))
            && (w.info.state in {IDLE, RUN} && P.Sole(l, w.chan) ==> w.key == W.Installed(l, u))
  {
    hide Exec;
    RunKeeps(steps);
    var l := Exec(steps).list;
    assert P.WorkerOk(l, u);
    if !W.CanStep(l, l.workers[u].chan) {
      T.SettledWorkerIsDecided(l, u);
    }
  }

  /** A worker waiting in a heap always has its timer set for the earliest time, or a fire to be received. */
  lemma TimersAreArmed(steps: seq<Step>)
    ensures var s := Exec(steps);
            Armed(s.valid) && Armed(s.deadline) && Armed(s.timeout)
  {
    hide Exec;
    RunKeeps(steps);
  }

  /** What a request waits for next is in its heap, at its current time, and the timer is set no later than that. */
  lemma ExpiryIsScheduled(steps: seq<Step>, id: ReqID)
    requires id in Exec(steps).requests
    ensures var s := Exec(steps);
            var r := s.requests[id];
            && (r.state == WAIT ==> IsScheduled(s.deadline, RequestTime(r.deadline, id)))
            && (r.state == INPROGRESS ==> r.job.Some? && IsScheduled(s.timeout, RequestTime(r.job.value.timeout, id)))
  {
    hide Exec, P.Inv, QueueOk, IsScheduled;
    RunKeeps(steps);
    var s := Exec(steps);
    var r := s.requests[id];
    SelfNumbered(s, id);
    assert Timed(r, s.valid.times, s.deadline.times, s.timeout.times, s.now);
    assert Served(s.requests, s.jobs, id);
    if r.state == WAIT {
      ArmedIsScheduled(s.deadline, RequestTime(r.deadline, id));
    }
    if r.state == INPROGRESS {
      ArmedIsScheduled(s.timeout, RequestTime(r.job.value.timeout, id));
    }
  }

  /** The entry is in the heap, and a fire is to come no later than its time. */
  ghost predicate IsScheduled(r: Timer, e: RequestTime)
  {
    e in r.times && (r.pending.Some? || (r.armed.Some? && r.armed.value <= e.time))
  }

  lemma ArmedIsScheduled(r: Timer, e: RequestTime)
    requires Armed(r) && e in r.times
    ensures IsScheduled(r, e)
  {
    assert !Less(e, MinEntry(r.times));
  }

  // ---------- Keys ----------

  /** The step is one of a goroutine that stores or installs its key over that of another registration. */
  ghost predicate SpoilsKeys(s: System, step: Step)
  {
    step.Goroutine? && W.CanStep(s.list, step.reg) && T.SpoilsSome(s.list, step.reg, step.answer)
  }

  /** If all keys agree, they do so after a step if and only if it does not spoil one. */
  lemma StepKeepsKeys(s: System, step: Step)
    requires Inv(s) && KeysAgree(s.list, s.jobs)
    ensures KeysAgree(Apply(s, step).list, Apply(s, step).jobs) <==> !SpoilsKeys(s, step)
  {
    hide Inv, Core, KeysAgree, KeepsState, NewRequest, CloseRequest, UpdateRequest, ProlongAccess, WithWorkers,
      FireValid, FireDeadline, FireTimeout, Expire, Awake, NoneStranded, Timed, TimedOut, Finished, Popped,
      T.SpoilsSome;
    InvCore(s);
    match step {
      case Tick(delay) =>
      case ValidExpires =>
      case DeadlineExpires =>
      case TimeoutExpires =>
      case ValidFires(turns) => if s.valid.pending.Some? { FireValidIs(s, turns); }
      case DeadlineFires => if s.deadline.pending.Some? { FireDeadlineIs(s); }
      case TimeoutFires => if s.timeout.pending.Some? { FireTimeoutIs(s); }
      case CallNewRequest(caps, priority, groups, validAfter, deadline, monthLater) =>
        NewRequestKeeps(s, caps, priority, groups, validAfter, deadline, monthLater);
      case CallCloseRequest(id) => CloseRequestKeeps(s, id);
      case CallUpdateRequest(src) => UpdateKeeps(s, src);
      case CallProlongAccess(id) => ProlongKeeps(s, id);
      case CallRegister(caps, dryad, sshd) => RegisterKeeps(s, caps, dryad, sshd);
      case CallSetFail(u) => SetFailKeeps(s, u);
      case CallSetState(u, state) => SetStateKeeps(s, u, state);
      case CallSetGroups(u, groups) => SetGroupsKeeps(s, u, groups);
      case CallDeregister(u) => DeregisterKeeps(s, u);
      case Goroutine(c, answer, drawn) =>
        if W.CanStep(s.list, c) {
          GoroutineKeeps(s, c, answer, drawn);
          if T.SpoilsSome(s.list, c, answer) {
            SpoiledKeysDiffer(s, c, answer, drawn);
          }
        }
    }
  }

  lemma SpoiledKeysDiffer(s: System, c: nat, answer: W.Answer, drawn: Key)
    requires Core(s) && KeysAgree(s.list, s.jobs) && W.CanStep(s.list, c) && T.SpoilsSome(s.list, c, answer)
    ensures var s' := WithWorkers(s, W.StepRoutine(s.list, c, answer, drawn)); !KeysAgree(s'.list, s'.jobs)
  {
    hide P.Inv, P.KeysMatch, T.Spoils, WithWorkers;
    var u :| u in s.list.workers && s.list.workers[u].chan < |s.list.regs| && T.Spoils(s.list, c, answer, u);
    T.KeysAgreeUnlessSpoiled(s.list, c, answer, drawn, u);
    ListenersKeepList(s, W.StepRoutine(s.list, c, answer, drawn));
  }

  lemma ListenersKeepList(s: System, o: W.Outcome)
    ensures WithWorkers(s, o).list == o.list
  {
  }

  /** No step of the run spoils a key. */
  ghost predicate Unspoiled(steps: seq<Step>)
  {
    forall i :: 0 <= i < |steps| ==> !SpoilsKeys(Exec(steps[..i]), steps[i])
  }

  /** In a run that spoils no key, all keys agree. */
  lemma {:induction false} KeysAgreeInRuns(steps: seq<Step>)
    requires Unspoiled(steps)
    ensures KeysAgree(Exec(steps).list, Exec(steps).jobs)
    decreases |steps|
  {
    hide Inv, Apply, KeysAgree, SpoilsKeys, Exec;
    if steps == [] {
      ExecIs(steps);
      NoKeysAgree();
    } else {
      var before := steps[..|steps| - 1];
      forall i | 0 <= i < |before|
        ensures !SpoilsKeys(Exec(before[..i]), before[i])
      {
        assert before[..i] == steps[..i];
      }
      KeysAgreeInRuns(before);
      RunKeeps(before);
      assert !SpoilsKeys(Exec(steps[..|steps| - 1]), steps[|steps| - 1]);
      StepKeepsKeys(Exec(before), steps[|steps| - 1]);
      ExecIs(steps);
    }
  }

  lemma NoKeysAgree()
    ensures KeysAgree(Init().list, Init().jobs)
  {
  }

  /**
   The stored key of an idle or running worker is the one on its Dryad, if no step has spoiled a key,
   or if the worker was never deregistered.
   */
  lemma StoredKeyIsInstalled(steps: seq<Step>, u: WorkerUUID)
    requires u in Exec(steps).list.workers && Exec(steps).list.workers[u].info.state in {IDLE, RUN}
    ensures var l := Exec(steps).list;
            var c := l.workers[u].chan;
            c < |l.regs| && l.workers[u].key.Some?
            && (Unspoiled(steps) || P.Sole(l, c) ==> l.workers[u].key == W.Installed(l, u))
  {
    hide Exec, P.Sole, Unspoiled;
    RunKeeps(steps);
    LatestStateWins(steps, u);
    if Unspoiled(steps) {
      KeysAgreeInRuns(steps);
    }
  }

  /** The access data that an owner gets hold the key on the Dryad of the worker, under the same condition. */
  lemma AccessIsGranted(steps: seq<Step>, id: ReqID)
    requires id in Exec(steps).requests && AcquireWorker(Exec(steps), id).Some?
    ensures var s := Exec(steps);
            && s.requests[id].state == INPROGRESS && s.requests[id].job.Some?
            && var u := s.requests[id].job.value.worker;
               && T.Running(s.list, u) && s.list.workers[u].chan < |s.list.regs|
               && var c := s.list.workers[u].chan;
                  Unspoiled(steps) || P.Sole(s.list, c) ==>
                    W.Installed(s.list, u) == Some(AcquireWorker(s, id).value.key)
  {
    hide Exec, P.Inv, P.Sole, QueueOk, AllTimed, Unspoiled, KeysAgree;
    RunKeeps(steps);
    var s := Exec(steps);
    var u := s.requests[id].job.value.worker;
    assert T.Running(s.list, u);
    P.ListedIsLinked(s.list, u);
    if Unspoiled(steps) {
      KeysAgreeInRuns(steps);
      JobKeyAgrees(s.list, s.jobs, u);
    }
  }

  lemma JobKeyAgrees(l: W.WorkerList, jobs: Jobs, u: WorkerUUID)
    requires KeysAgree(l, jobs) && u in jobs && u in l.workers && l.workers[u].chan < |l.regs|
    ensures W.Installed(l, u) == Some(jobs[u].key)
  {
  }

  // ---------- Wake-ups ----------

  /**
   The update revives a request that waits but whose deadline has passed: it moves the deadline into the
   future, gives no new time of validity, and the old one has passed as well.
   */
  predicate Revives(r: ReqInfo, now: Time, src: Update)
  {
    && r.state == WAIT
    && r.deadline <= now < src.deadline
    && src.deadline != ZERO_TIME
    && r.validAfter < now
    && src.validAfter == ZERO_TIME
    && (src.priority == 0 || HI_PRIO <= src.priority <= LO_PRIO)
  }

  predicate Benign(s: System, step: Step)
  {
    step.CallUpdateRequest? && step.src.id in s.requests ==> !Revives(s.requests[step.src.id], s.now, step.src)
  }

  /** Sufficient for staying awake: what can be served now could be served before, or there is an entry due. */
  lemma AwakeFrom(s: System, s': System)
    requires Awake(s) && s.valid.times <= s'.valid.times && s.now == s'.now
    requires forall id, u :: id in s'.requests && u in s'.list.workers && Stranded(s', id, u) ==>
                               Due(s'.valid, s'.now) || (id in s.requests && u in s.list.workers && Stranded(s, id, u))
    ensures Awake(s')
  {
    hide Stranded;
    if Due(s.valid, s.now) {
      var e :| e in s.valid.times && e.time <= s.now;
      assert e in s'.valid.times;
    }
  }

  /** Fewer requests wait, the others are as before, and no worker becomes a candidate. */
  lemma FewerStayAwake(s: System, s': System)
    requires Awake(s) && s.valid.times <= s'.valid.times && s.now == s'.now
    requires forall id :: id in s'.requests && s'.requests[id].state == WAIT ==>
                            id in s.requests && s'.requests[id].state == s.requests[id].state
                            && s'.requests[id].groups == s.requests[id].groups
                            && s'.requests[id].caps == s.requests[id].caps
                            && s'.requests[id].deadline == s.requests[id].deadline
                            && s'.requests[id].validAfter == s.requests[id].validAfter
    requires forall u :: T.Idle(s'.list, u) ==> T.Idle(s.list, u) && s'.list.workers[u].info == s.list.workers[u].info
    ensures Awake(s')
  {
    hide Awake;
    AwakeFrom(s, s');
  }

  lemma TickStaysAwake(s: System, delay: nat)
    requires Core(s) && Awake(s)
    ensures Awake(s.(now := s.now + delay))
  {
    hide P.Inv, QueueOk, JobsOk, RunsAreJobs, W.Candidate;
    var s' := s.(now := s.now + delay);
    forall id, u | id in s'.requests && u in s'.list.workers && Stranded(s', id, u)
      ensures Due(s'.valid, s'.now)
    {
      var r := s.requests[id];
      assert Timed(r, s.valid.times, s.deadline.times, s.timeout.times, s.now);
      if Stranded(s, id, u) {
        var e :| e in s.valid.times && e.time <= s.now;
        assert e in s'.valid.times && e.time <= s'.now;
      } else {
        assert RequestTime(r.validAfter, r.id) in s'.valid.times;
      }
    }
  }

  lemma WorkersStayAwake(s: System, o: W.Outcome)
    requires Core(s) && Awake(s) && T.Announced(s.list, o) && P.Inv(o.list)
    ensures Awake(WithWorkers(s, o))
  {
    hide P.Inv, QueueOk, Numbered, AllTimed, Awake, Insert;
    var s' := WithWorkers(s, o);
    match o.note
    case Quiet => FewerStayAwake(s, s');
    case BecameIdle(_) =>
      InsertKeepsTimer(s.valid, RequestTime(s.now, 0), s.now);
      assert RequestTime(s.now, 0) in s'.valid.times;
      AwakeIfDue(s');
    case BrokeRun(u) =>
      FewerStayAwake(s, s');
  }

  lemma AwakeIfDue(s: System)
    requires Due(s.valid, s.now)
    ensures Awake(s)
  {
  }

  lemma EndStaysAwake(s: System, r: ReqInfo)
    requires Core(s) && Awake(s) && r.id in s.requests && s.requests[r.id] == r && r.state == INPROGRESS
    ensures Awake(EndRequest(s, r))
  {
    hide P.Inv, QueueOk, Numbered, AllTimed, Awake, EndRequest;
    assert Served(s.requests, s.jobs, r.id);
    EndIs(s, r);
    FewerStayAwake(s, EndRequest(s, r));
  }

  lemma CloseRequestStaysAwake(s: System, id: ReqID)
    requires Core(s) && Awake(s)
    ensures Awake(CloseRequest(s, id).sys)
  {
    hide P.Inv, QueueOk, AllTimed, JobsOk, RunsAreJobs, Awake, EndRequest, RemoveFirst;
    if id in s.requests && s.requests[id].state == INPROGRESS {
      EndStaysAwake(s, s.requests[id]);
    } else {
      FewerStayAwake(s, CloseRequest(s, id).sys);
    }
  }

  lemma NewRequestStaysAwake(s: System, caps: Capabilities, priority: Priority, groups: seq<Group>,
                             validAfter: Time, deadline: Time, monthLater: Time)
    requires Core(s) && Awake(s)
    ensures Awake(NewRequest(s, caps, priority, groups, validAfter, deadline, monthLater).sys)
  {
    hide P.Inv, QueueOk, AllTimed, Awake, Insert, W.Candidate;
    var s' := NewRequest(s, caps, priority, groups, validAfter, deadline, monthLater).sys;
    if s' != s {
      var id := |s.requests| + 1;
      var e := RequestTime(s'.requests[id].validAfter, id);
      InsertKeepsTimer(s.valid, e, s.now);
      assert e in s'.valid.times;
      AwakeFrom(s, s');
    }
  }

  lemma TimedFromAll(s: System, id: ReqID)
    requires AllTimed(s) && id in s.requests
    ensures Timed(s.requests[id], s.valid.times, s.deadline.times, s.timeout.times, s.now)
  {
  }

  lemma UpdateStaysAwake(s: System, src: Update)
    requires Core(s) && Awake(s) && (src.id in s.requests ==> !Revives(s.requests[src.id], s.now, src))
    ensures Awake(UpdateRequest(s, src).sys)
  {
    hide P.Inv, QueueOk, AllTimed, Awake, Insert, W.Candidate, UpdateRequest, RemoveFirst;
    var s' := UpdateRequest(s, src).sys;
    if src.id !in s.requests || s' == s {
      UpdateOfUnknown(s, src);
    } else {
      QueuedFromOk(s.requests, s.lists, src.id);
      UpdateIs(s, src);
      var e := RequestTime(s'.requests[src.id].validAfter, src.id);
      InsertKeepsTimer(s.valid, e, s.now);
      assert Timed(s.requests[src.id], s.valid.times, s.deadline.times, s.timeout.times, s.now) by {
        TimedFromAll(s, src.id);
      }
      AwakeFrom(s, s');
    }
  }

  lemma ProlongStaysAwake(s: System, id: ReqID)
    requires Core(s) && Awake(s)
    ensures Awake(ProlongAccess(s, id).sys)
  {
    hide P.Inv, QueueOk, AllTimed, Awake, Insert;
    FewerStayAwake(s, ProlongAccess(s, id).sys);
  }

  lemma FiresStayAwake(s: System)
    requires Inv(s) && Awake(s)
    ensures s.deadline.pending.Some? ==> Awake(FireDeadline(s))
    ensures s.timeout.pending.Some? ==> Awake(FireTimeout(s))
  {
    hide Inv, Awake, FireDeadline, FireTimeout, Popped, P.Inv;
    if s.deadline.pending.Some? {
      FireDeadlineIs(s);
      FewerStayAwake(s, FireDeadline(s));
    }
    if s.timeout.pending.Some? {
      FireTimeoutIs(s);
      FewerStayAwake(s, FireTimeout(s));
    }
  }

  lemma StepStaysAwake(s: System, step: Step)
    requires Inv(s) && Awake(s) && Benign(s, step)
    ensures Awake(Apply(s, step))
  {
    hide Inv, Core, NewRequest, CloseRequest, UpdateRequest, ProlongAccess, WithWorkers, FireValid, FireDeadline,
      FireTimeout, Expire, Awake, NoneStranded, Revives;
    InvCore(s);
    match step {
      case Tick(delay) => TickStaysAwake(s, delay);
      case ValidExpires => ExpireStaysAwake(s);
      case DeadlineExpires => ExpireStaysAwake(s);
      case TimeoutExpires => ExpireStaysAwake(s);
      case ValidFires(turns) => if s.valid.pending.Some? { FireValidIs(s, turns); }
      case DeadlineFires => FiresStayAwake(s);
      case TimeoutFires => FiresStayAwake(s);
      case CallNewRequest(caps, priority, groups, validAfter, deadline, monthLater) =>
        NewRequestStaysAwake(s, caps, priority, groups, validAfter, deadline, monthLater);
      case CallCloseRequest(id) => CloseRequestStaysAwake(s, id);
      case CallUpdateRequest(src) => UpdateStaysAwake(s, src);
      case CallProlongAccess(id) => ProlongStaysAwake(s, id);
      case _ => WorkerStepsStayAwake(s, step);
    }
  }

  lemma ExpireStaysAwake(s: System)
    requires Awake(s)
    ensures Awake(s.(valid := Expire(s.valid, s.now)))
    ensures Awake(s.(deadline := Expire(s.deadline, s.now)))
    ensures Awake(s.(timeout := Expire(s.timeout, s.now)))
  {
    hide Awake;
    FewerStayAwake(s, s.(valid := Expire(s.valid, s.now)));
    FewerStayAwake(s, s.(deadline := Expire(s.deadline, s.now)));
    FewerStayAwake(s, s.(timeout := Expire(s.timeout, s.now)));
  }

  predicate WorkerStep(step: Step)
  {
    step.CallRegister? || step.CallSetFail? || step.CallSetState? || step.CallSetGroups? || step.CallDeregister?
    || step.Goroutine?
  }

  lemma WorkerStepsStayAwake(s: System, step: Step)
    requires Core(s) && Awake(s) && WorkerStep(step)
    ensures Awake(Apply(s, step))
  {
    hide Awake, WithWorkers, P.Inv, T.Announced, W.Register, W.SetFail, W.SetState, W.SetGroups, W.Deregister,
      W.StepRoutine;
    match step {
      case CallRegister(caps, dryad, sshd) =>
        P.RegisterKeeps(s.list, caps, dryad, sshd);
        T.RegisterIsAnnounced(s.list, caps, dryad, sshd);
        WorkersStayAwake(s, W.Register(s.list, caps, dryad, sshd));
      case CallSetFail(u) =>
        P.CallsKeep(s.list, u, IDLE, [], false);
        T.SetFailIsAnnounced(s.list, u);
        WorkersStayAwake(s, W.SetFail(s.list, u));
      case CallSetState(u, state) =>
        P.CallsKeep(s.list, u, state, [], false);
        T.SetStateCallIsAnnounced(s.list, u, state);
        WorkersStayAwake(s, W.SetState(s.list, u, state));
      case CallSetGroups(u, groups) =>
        P.CallsKeep(s.list, u, IDLE, groups, false);
        T.SetGroupsIsAnnounced(s.list, u, groups);
        WorkersStayAwake(s, W.SetGroups(s.list, u, groups));
      case CallDeregister(u) =>
        P.DeregisterKeeps(s.list, u);
        T.DeregisterIsAnnounced(s.list, u);
        WorkersStayAwake(s, W.Deregister(s.list, u));
      case Goroutine(c, answer, drawn) =>
        if W.CanStep(s.list, c) {
          P.RoutineKeeps(s.list, c, answer, drawn);
          T.RoutinesAreAnnounced(s.list, c, answer, drawn);
          WorkersStayAwake(s, W.StepRoutine(s.list, c, answer, drawn));
        }
    }
  }

  /** No update of the run revives a request. */
  ghost predicate BenignRun(steps: seq<Step>)
  {
    forall i :: 0 <= i < |steps| ==> Benign(Exec(steps[..i]), steps[i])
  }

  /**
   No wake-up is lost: whenever a ready request and an idle worker could be matched, the heap of validity
   holds an entry that is not in the future, and its timer is set for the earliest entry or has fired.
   */
  lemma {:induction false} NoLostWakeUp(steps: seq<Step>)
    requires BenignRun(steps)
    ensures var s := Exec(steps);
            && Awake(s)
            && Armed(s.valid)
            && forall id, u :: id in s.requests && u in s.list.workers && Stranded(s, id, u) ==>
                 s.valid.pending.Some? || (s.valid.armed.Some? && s.valid.armed.value <= s.now)
    decreases |steps|
  {
    hide Inv, Apply, Awake, Benign, Stranded, Exec, Armed;
    if steps == [] {
      InitIsOk();
      assert Exec(steps) == Init() by { ExecIs(steps); }
    } else {
      var before := steps[..|steps| - 1];
      forall i | 0 <= i < |before|
        ensures Benign(Exec(before[..i]), before[i])
      {
        assert before[..i] == steps[..i];
      }
      NoLostWakeUp(before);
      RunKeeps(before);
      assert Benign(Exec(steps[..|steps| - 1]), steps[|steps| - 1]);
      StepStaysAwake(Exec(before), steps[|steps| - 1]);
      ExecIs(steps);
    }
    RunKeeps(steps);
    AwakeTimer(Exec(steps));
  }

  lemma ExecIs(steps: seq<Step>)
    ensures Exec(steps) == if steps == [] then Init() else Apply(Exec(steps[..|steps| - 1]), steps[|steps| - 1])
  {
    hide Apply;
  }

  lemma AwakeTimer(s: System)
    requires Inv(s) && Awake(s)
    ensures Armed(s.valid)
    ensures forall id, u :: id in s.requests && u in s.list.workers && Stranded(s, id, u) ==>
              s.valid.pending.Some? || (s.valid.armed.Some? && s.valid.armed.value <= s.now)
  {
    hide Core, Stranded;
    if Due(s.valid, s.now) && s.valid.pending.None? {
      var e :| e in s.valid.times && e.time <= s.now;
      assert !Less(e, MinEntry(s.valid.times));
    }
  }
}
