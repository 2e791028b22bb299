/**
 Every operation and every event keeps the invariants.
 */
module Preservation {

  import opened Boruta
  import opened RequestQueue
  import opened Timers
  import opened System
  import opened Invariants
  import P = ProtocolInvariant
  import T = ProtocolTheorems
  import W = WorkerProtocol

  /** All that is below, and keys that agree still do. */
  ghost predicate Keeps(s: System, s': System)
  {
    KeepsState(s, s') && (KeysAgree(s.list, s.jobs) ==> KeysAgree(s'.list, s'.jobs))
  }

  /** The core still holds, and so does what held of each timer; no fire is received or raised. */
  ghost predicate KeepsState(s: System, s': System)
  {
    && Core(s')
    && s.now <= s'.now
    && (TimerOk(s.valid, s.now) ==> TimerOk(s'.valid, s'.now))
    && (TimerOk(s.deadline, s.now) ==> TimerOk(s'.deadline, s'.now))
    && (TimerOk(s.timeout, s.now) ==> TimerOk(s'.timeout, s'.now))
    && s'.valid.pending == s.valid.pending
    && s'.deadline.pending == s.deadline.pending
    && s'.timeout.pending == s.timeout.pending
  }

  lemma KeepsTransitive(a: System, b: System, c: System)
    requires Keeps(a, b) && Keeps(b, c)
    ensures Keeps(a, c)
  {
  }

  lemma KeptCore(s: System, s': System)
    requires Keeps(s, s')
    ensures Core(s')
  {
  }

  lemma StateKept(s: System, s': System)
    requires KeepsState(s, s')
    ensures Core(s')
  {
  }

  // ---------- Steps of the worker list ----------

  lemma IdleKeeps(s: System)
    requires Core(s)
    ensures Keeps(s, OnWorkerIdle(s))
  {
    var e := RequestTime(s.now, 0);
    InsertKeepsTimer(s.valid, e, s.now);
    forall id | id in s.requests
      ensures Timed(s.requests[id], Insert(s.valid, e).times, s.deadline.times, s.timeout.times, s.now)
    {
      assert Timed(s.requests[id], s.valid.times, s.deadline.times, s.timeout.times, s.now);
    }
  }

  /** A running worker that breaks takes its request with it; nothing else changes. */
  lemma FailKeeps(s: System, list: W.WorkerList, u: WorkerUUID)
    requires Core(s) && P.Inv(list) && T.Running(s.list, u) && T.RunsStay(s.list, list)
    requires forall v :: T.Running(list, v) <==> T.Running(s.list, v) && v != u
    ensures KeepsState(s, OnWorkerFail(s.(list := list), u))
    ensures T.KeysKept(s.list, list) ==> Keeps(s, OnWorkerFail(s.(list := list), u))
    ensures u in s.jobs && s.jobs[u].req in s.requests && s.requests[s.jobs[u].req].state == INPROGRESS
    ensures OnWorkerFail(s.(list := list), u).requests ==
            s.requests[s.jobs[u].req := s.requests[s.jobs[u].req].(state := FAILED)]
  {
    hide P.Inv, KeysFit, KeysAgree, T.RunsStay, T.KeysKept;
    StayingKeysFit(s.list, s.jobs, list, s.jobs - {u});
    if T.KeysKept(s.list, list) && KeysAgree(s.list, s.jobs) {
      StayingKeysAgree(s.list, s.jobs, list, s.jobs - {u});
    }
    assert u in s.jobs;
    assert JobOk(s.requests, s.jobs, u);
    var id := s.jobs[u].req;
    var r := s.requests[id].(state := FAILED);
    SetKeepsNumbered(s.requests, r);
    ChangeKeepsQueue(s.requests, s.lists, r);
    EndKeepsJobs(s.requests, s.jobs, r, u);
    ChangeKeepsTimed(s, OnWorkerFail(s.(list := list), u), r);
  }

  lemma AnnouncedKeeps(s: System, o: W.Outcome)
    requires Core(s) && P.Inv(o.list) && T.Announced(s.list, o)
    ensures KeepsState(s, WithWorkers(s, o))
    ensures T.KeysKept(s.list, o.list) ==> Keeps(s, WithWorkers(s, o))
  {
    hide P.Inv, KeysFit, KeysAgree, T.RunsStay, T.KeysKept;
    if !o.note.BrokeRun? {
      StayingKeysFit(s.list, s.jobs, o.list, s.jobs);
      if T.KeysKept(s.list, o.list) && KeysAgree(s.list, s.jobs) {
        StayingKeysAgree(s.list, s.jobs, o.list, s.jobs);
      }
    }
    match o.note
    case Quiet =>
    case BecameIdle(_) =>
      assert Core(s.(list := o.list));
      IdleKeeps(s.(list := o.list));
    case BrokeRun(u) => FailKeeps(s, o.list, u);
  }

  lemma RegisterKeeps(s: System, caps: Capabilities, dryad: Addr, sshd: Addr)
    requires Core(s)
    ensures Keeps(s, WithWorkers(s, W.Register(s.list, caps, dryad, sshd)))
  {
    P.RegisterKeeps(s.list, caps, dryad, sshd);
    T.RegisterIsAnnounced(s.list, caps, dryad, sshd);
    T.RegisterKeepsKeys(s.list, caps, dryad, sshd);
    AnnouncedKeeps(s, W.Register(s.list, caps, dryad, sshd));
  }

  lemma SetFailKeeps(s: System, u: WorkerUUID)
    requires Core(s)
    ensures Keeps(s, WithWorkers(s, W.SetFail(s.list, u)))
  {
    P.CallsKeep(s.list, u, IDLE, [], false);
    T.SetFailIsAnnounced(s.list, u);
    T.CallsKeepKeys(s.list, u, IDLE, [], false);
    AnnouncedKeeps(s, W.SetFail(s.list, u));
  }

  lemma SetStateKeeps(s: System, u: WorkerUUID, state: WorkerState)
    requires Core(s)
    ensures Keeps(s, WithWorkers(s, W.SetState(s.list, u, state)))
  {
    P.CallsKeep(s.list, u, state, [], false);
    T.SetStateCallIsAnnounced(s.list, u, state);
    T.CallsKeepKeys(s.list, u, state, [], false);
    AnnouncedKeeps(s, W.SetState(s.list, u, state));
  }

  lemma SetGroupsKeeps(s: System, u: WorkerUUID, groups: seq<Group>)
    requires Core(s)
    ensures Keeps(s, WithWorkers(s, W.SetGroups(s.list, u, groups)))
  {
    P.CallsKeep(s.list, u, IDLE, groups, false);
    T.SetGroupsIsAnnounced(s.list, u, groups);
    T.CallsKeepKeys(s.list, u, IDLE, groups, false);
    AnnouncedKeeps(s, W.SetGroups(s.list, u, groups));
  }

  lemma DeregisterKeeps(s: System, u: WorkerUUID)
    requires Core(s)
    ensures Keeps(s, WithWorkers(s, W.Deregister(s.list, u)))
  {
    P.DeregisterKeeps(s.list, u);
    T.DeregisterIsAnnounced(s.list, u);
    T.DeregisterKeepsKeys(s.list, u);
    AnnouncedKeeps(s, W.Deregister(s.list, u));
  }

  lemma GoroutineKeeps(s: System, c: nat, answer: W.Answer, drawn: Key)
    requires Core(s) && W.CanStep(s.list, c)
    ensures KeepsState(s, WithWorkers(s, W.StepRoutine(s.list, c, answer, drawn)))
    ensures !T.SpoilsSome(s.list, c, answer) ==> Keeps(s, WithWorkers(s, W.StepRoutine(s.list, c, answer, drawn)))
  {
    if !T.SpoilsSome(s.list, c, answer) {
      T.UnspoiledKeepsKeys(s.list, c, answer, drawn);
    }
    P.RoutineKeeps(s.list, c, answer, drawn);
    T.RoutinesAreAnnounced(s.list, c, answer, drawn);
    AnnouncedKeeps(s, W.StepRoutine(s.list, c, answer, drawn));
  }

  // ---------- Requests ----------

  lemma NewRequestKeeps(s: System, caps: Capabilities, priority: Priority, groups: seq<Group>,
                        validAfter: Time, deadline: Time, monthLater: Time)
    requires Core(s)
    ensures Keeps(s, NewRequest(s, caps, priority, groups, validAfter, deadline, monthLater).sys)
  {
    var s' := NewRequest(s, caps, priority, groups, validAfter, deadline, monthLater).sys;
    if s' != s {
      var id := |s.requests| + 1;
      var r := s'.requests[id];
      AddKeepsNumbered(s.requests, r);
      EnterKeepsQueue(s.requests, s.lists, r);
      ChangeKeepsJobs(s.requests, s.jobs, r);
      InsertKeepsTimer(s.valid, RequestTime(r.validAfter, id), s.now);
      InsertKeepsTimer(s.deadline, RequestTime(r.deadline, id), s.now);
      ChangeKeepsTimed(s, s', r);
    }
  }

  /** A waiting request that is cancelled, or times out. */
  lemma WithdrawKeeps(s: System, r: ReqInfo, state: ReqState)
    requires Core(s) && r.id in s.requests && s.requests[r.id] == r
    requires r.state == WAIT && state != WAIT && state != INPROGRESS
    ensures Keeps(s, Remove(SetRequest(s, r.(state := state)), r.id, r.priority))
  {
    var r' := r.(state := state);
    SetKeepsNumbered(s.requests, r');
    LeaveKeepsQueue(s.requests, s.lists, r');
    ChangeKeepsJobs(s.requests, s.jobs, r');
    ChangeKeepsTimed(s, Remove(SetRequest(s, r'), r.id, r.priority), r');
  }

  /** Ending a request gives its worker back, to be prepared for the next one. */
  lemma EndIs(s: System, r: ReqInfo)
    requires r.id in s.requests && s.requests[r.id] == r && r.state == INPROGRESS
    requires P.Inv(s.list) && RunsAreJobs(s.list, s.jobs) && Served(s.requests, s.jobs, r.id)
    ensures r.job.Some?
    ensures var u := r.job.value.worker;
            && T.Running(s.list, u) && u in s.jobs && s.jobs[u].req == r.id
            && EndRequest(s, r) == s.(requests := s.requests[r.id := r.(state := DONE)],
                                      jobs := s.jobs - {u},
                                      list := W.SetStateRaw(s.list, u, PREPARE).list)
            && P.Inv(W.SetStateRaw(s.list, u, PREPARE).list)
            && T.RunsStay(s.list, W.SetStateRaw(s.list, u, PREPARE).list)
            && T.KeysKept(s.list, W.SetStateRaw(s.list, u, PREPARE).list)
            && forall v :: T.Running(W.SetStateRaw(s.list, u, PREPARE).list, v) <==> T.Running(s.list, v) && v != u
  {
    hide P.Sound, P.LatestWins, P.Usable, P.SameKey, P.RegOk, P.Sole, T.RunsStay,
      T.KeysKept;
    var u := r.job.value.worker;
    assert T.Running(s.list, u);
    assert P.WorkerOk(s.list, u) && P.Linked(s.list, u) by {
      LinkedFromInv(s.list, u);
    }
    P.CallsKeep(s.list, u, IDLE, [], true);
    T.RunsOutlastSetState(s.list, u, PREPARE);
    T.SetStateKeepsKeys(s.list, u, PREPARE);
  }

  lemma LinkedFromInv(l: W.WorkerList, u: WorkerUUID)
    requires P.Inv(l) && u in l.workers
    ensures P.WorkerOk(l, u) && P.Linked(l, u)
  {
    assert P.WorkerOk(l, u);
  }

  lemma EndKeeps(s: System, r: ReqInfo)
    requires Core(s) && r.id in s.requests && s.requests[r.id] == r && r.state == INPROGRESS
    ensures Keeps(s, EndRequest(s, r))
  {
    hide P.Inv, EndRequest, W.SetStateRaw, KeysFit, KeysAgree, T.RunsStay, T.KeysKept;
    assert Served(s.requests, s.jobs, r.id);
    EndIs(s, r);
    StayingKeysFit(s.list, s.jobs, EndRequest(s, r).list, EndRequest(s, r).jobs);
    if KeysAgree(s.list, s.jobs) {
      StayingKeysAgree(s.list, s.jobs, EndRequest(s, r).list, EndRequest(s, r).jobs);
    }
    var r' := r.(state := DONE);
    SetKeepsNumbered(s.requests, r');
    ChangeKeepsQueue(s.requests, s.lists, r');
    EndKeepsJobs(s.requests, s.jobs, r', r.job.value.worker);
    ChangeKeepsTimed(s, EndRequest(s, r), r');
  }

  lemma CloseRequestKeeps(s: System, id: ReqID)
    requires Core(s)
    ensures Keeps(s, CloseRequest(s, id).sys)
  {
    if id in s.requests {
      var r := s.requests[id];
      if r.state == WAIT {
        WithdrawKeeps(s, r, CANCEL);
      } else if r.state == INPROGRESS {
        EndKeeps(s, r);
      }
    }
  }

  lemma TimeoutKeeps(s: System, id: ReqID)
    requires Core(s)
    ensures Keeps(s, Timeout(s, id).sys)
  {
    if id in s.requests && s.requests[id].state == WAIT && s.requests[id].deadline <= s.now {
      WithdrawKeeps(s, s.requests[id], TIMEOUT);
    }
  }

  lemma CloseKeeps(s: System, id: ReqID)
    requires Core(s)
    ensures Keeps(s, Close(s, id).sys)
  {
    if id in s.requests && s.requests[id].state == INPROGRESS {
      EndKeeps(s, s.requests[id]);
    }
  }

  /** The heaps may grow. */
  ghost predicate Grown(r: Timer, r': Timer, now: Time)
  {
    r.times <= r'.times && r'.pending == r.pending && (TimerOk(r, now) ==> TimerOk(r', now))
  }

  /** One request is revised, without a change to its worker. */
  lemma ReviseKeeps(s: System, s': System, r: ReqInfo)
    requires Core(s) && r.id in s.requests
    requires (r.state == INPROGRESS) == (s.requests[r.id].state == INPROGRESS)
    requires r.state == INPROGRESS ==>
               && r.job.Some? && s.requests[r.id].job.Some?
               && r.job.value.worker == s.requests[r.id].job.value.worker
    requires s'.requests == s.requests[r.id := r] && QueueOk(s'.requests, s'.lists)
    requires s'.list == s.list && s'.jobs == s.jobs && s'.now == s.now && !s'.crashed
    requires Grown(s.valid, s'.valid, s.now) && Grown(s.deadline, s'.deadline, s.now)
    requires Grown(s.timeout, s'.timeout, s.now)
    requires Timed(r, s'.valid.times, s'.deadline.times, s'.timeout.times, s.now)
    ensures Keeps(s, s')
  {
    hide P.Inv, TimerOk;
    SetKeepsNumbered(s.requests, r);
    ChangeKeepsJobs(s.requests, s.jobs, r);
    ChangeKeepsTimed(s, s', r);
  }

  lemma ProlongKeeps(s: System, id: ReqID)
    requires Core(s)
    ensures Keeps(s, ProlongAccess(s, id).sys)
  {
    hide P.Inv, Insert, TimerOk, QueueOk;
    if id in s.requests && s.requests[id].state == INPROGRESS && s.requests[id].job.Some? {
      var s' := ProlongAccess(s, id).sys;
      var r := s'.requests[id];
      ChangeKeepsQueue(s.requests, s.lists, r);
      InsertKeepsTimer(s.timeout, RequestTime(s.now + HOUR, id), s.now);
      ReviseKeeps(s, s', r);
    }
  }

  /** A waiting request moves to the end of the list of its new priority. */
  lemma MoveKeepsQueue(requests: Requests, lists: Lists, r: ReqInfo)
    requires QueueOk(requests, lists) && r.id in requests && requests[r.id].id == r.id
    requires requests[r.id].state == WAIT && r.state == WAIT && HI_PRIO <= r.priority <= LO_PRIO
    ensures var p := requests[r.id].priority;
            && p < LISTS && r.id in lists[p]
            && var removed: Lists := lists[p := RemoveFirst(lists[p], r.id)];
               QueueOk(requests[r.id := r], removed[r.priority := removed[r.priority] + [r.id]])
  {
    var gone := requests[r.id].(state := CANCEL);
    LeaveKeepsQueue(requests, lists, gone);
    var p := gone.priority;
    EnterKeepsQueue(requests[r.id := gone], lists[p := RemoveFirst(lists[p], r.id)], r);
    assert requests[r.id := gone][r.id := r] == requests[r.id := r];
  }

  /** What an update that changes something does. */
  lemma UpdateIs(s: System, src: Update)
    requires src.id in s.requests && s.requests[src.id].id == src.id && UpdateRequest(s, src).sys != s
    requires !s.crashed && Queued(s.requests, s.lists, src.id)
    ensures var s' := UpdateRequest(s, src).sys;
            var dst := s.requests[src.id];
            && dst.state == WAIT && (src.priority == 0 || HI_PRIO <= src.priority <= LO_PRIO)
            && (src.deadline == ZERO_TIME || src.deadline >= s.now)
            && var r := dst.(priority := if src.priority != 0 then src.priority else dst.priority,
                             validAfter := if src.validAfter != ZERO_TIME then src.validAfter else dst.validAfter,
                             deadline := if src.deadline != ZERO_TIME then src.deadline else dst.deadline);
               var p := dst.priority;
               var removed: Lists := s.lists[p := RemoveFirst(s.lists[p], src.id)];
               s' == s.(
                 requests := s.requests[src.id := r],
                 lists := if src.priority != 0 then removed[r.priority := removed[r.priority] + [src.id]] else s.lists,
                 valid := if src.validAfter != ZERO_TIME then Insert(s.valid, RequestTime(r.validAfter, src.id))
                          else s.valid,
                 deadline := if r.deadline != dst.deadline then Insert(s.deadline, RequestTime(r.deadline, src.id))
                             else s.deadline)
  {
    hide Insert, RemoveFirst;
  }

  lemma UpdateKeeps(s: System, src: Update)
    requires Core(s)
    ensures Keeps(s, UpdateRequest(s, src).sys)
  {
    hide P.Inv, Insert, TimerOk, QueueOk, ListOk, UpdateRequest, RemoveFirst;
    var s' := UpdateRequest(s, src).sys;
    if src.id !in s.requests || s' == s {
      UpdateOfUnknown(s, src);
    } else {
      assert Queued(s.requests, s.lists, src.id) by {
        QueuedFromOk(s.requests, s.lists, src.id);
      }
      UpdateIs(s, src);
      var r := s'.requests[src.id];
      if src.priority != 0 {
        MoveKeepsQueue(s.requests, s.lists, r);
      } else {
        ChangeKeepsQueue(s.requests, s.lists, r);
      }
      InsertKeepsTimer(s.valid, RequestTime(r.validAfter, src.id), s.now);
      InsertKeepsTimer(s.deadline, RequestTime(r.deadline, src.id), s.now);
      assert Timed(s.requests[src.id], s.valid.times, s.deadline.times, s.timeout.times, s.now);
      ReviseKeeps(s, s', r);
    }
  }

  /**
   A new request is valid before its deadline if and only if the deadline was given, or the default one is late
   enough: that is never compared.
   */
  lemma NewRequestTimeRange(s: System, caps: Capabilities, priority: Priority, groups: seq<Group>,
                            validAfter: Time, deadline: Time, monthLater: Time)
    requires NewRequest(s, caps, priority, groups, validAfter, deadline, monthLater).error == NoError
    ensures var s' := NewRequest(s, caps, priority, groups, validAfter, deadline, monthLater).sys;
            var id := |s.requests| + 1;
            && id in s'.requests
            && (s'.requests[id].validAfter <= s'.requests[id].deadline <==>
                deadline != ZERO_TIME || (if validAfter == ZERO_TIME then s.now else validAfter) <= monthLater)
  {
    hide Insert;
  }

  /** A time of validity later than the default deadline is accepted. */
  lemma NewRequestMayNeverBeValid(s: System, monthLater: Time)
    requires monthLater >= 0
    ensures var reply := NewRequest(s, map[], HI_PRIO, [], monthLater + 1, ZERO_TIME, monthLater);
            var id := |s.requests| + 1;
            && reply.error == NoError && id in reply.sys.requests
            && reply.sys.requests[id].validAfter > reply.sys.requests[id].deadline
  {
    hide Insert;
  }

  /**
   After an accepted update a request is valid before its deadline if and only if the update changed something and
   gave a time of validity, which is compared, or the one there was is not after the deadline there is then.
   Whether that held before the update makes no difference.
   */
  lemma UpdateTimeRange(s: System, src: Update)
    requires Core(s) && src.id in s.requests && UpdateRequest(s, src).error == NoError
    requires s.requests[src.id].deadline != ZERO_TIME
    ensures src.id in UpdateRequest(s, src).sys.requests
    ensures var dst := s.requests[src.id];
            var r := UpdateRequest(s, src).sys.requests[src.id];
            var same :=
              src.priority == dst.priority && src.validAfter == dst.validAfter && src.deadline == dst.deadline;
            r.validAfter <= r.deadline <==>
            || (src.validAfter != ZERO_TIME && !same)
            || dst.validAfter <= (if src.deadline != ZERO_TIME then src.deadline else dst.deadline)
  {
    hide P.Inv, Insert, QueueOk, JobsOk, AllTimed, RemoveFirst;
  }

  lemma UpdateOfUnknown(s: System, src: Update)
    ensures src.id !in s.requests ==> UpdateRequest(s, src).sys == s
  {
  }

  lemma QueuedFromOk(requests: Requests, lists: Lists, id: ReqID)
    requires QueueOk(requests, lists) && id in requests
    ensures Queued(requests, lists, id)
  {
  }
}
