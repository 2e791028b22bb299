/**
 The allocation engine as a value: requests, their queue and timers, workers and jobs, with every
 operation and event as a function from one state to the next.

 A step is an operation between two points at which no mutex is held, with the calls of the change
 listener it makes. The clock does not move within a step, except between two passes of the matcher.
 */
module System {

  import opened Boruta
  import opened Lexicographic
  import opened RequestQueue
  import opened Timers
  import W = WorkerProtocol

  /** `crashed` records a panic or the dereference of a missing key. */
  datatype System = System(
    list: W.WorkerList,
    jobs: map<WorkerUUID, Job>,
    requests: map<ReqID, ReqInfo>,
    lists: Lists,
    valid: Timer,
    deadline: Timer,
    timeout: Timer,
    now: Time,
    crashed: bool)

  datatype Reply = Reply(sys: System, error: Error)

  function Init(): System
  {
    System(W.EMPTY, map[], map[], EmptyLists(), FRESH_TIMER, FRESH_TIMER, FRESH_TIMER, 1, false)
  }

  // ---------- The queue ----------

  function Push(s: System, id: ReqID, p: Priority): System
  {
    if HI_PRIO <= p <= LO_PRIO then s.(lists := s.lists[p := s.lists[p] + [id]]) else s.(crashed := true)
  }

  function Remove(s: System, id: ReqID, p: Priority): System
  {
    if HI_PRIO <= p <= LO_PRIO && id in s.lists[p] then s.(lists := s.lists[p := RemoveFirst(s.lists[p], id)])
    else s.(crashed := true)
  }

  function SetRequest(s: System, r: ReqInfo): System
  {
    s.(requests := s.requests[r.id := r])
  }

  // ---------- The change listener ----------

  ghost function OnWorkerIdle(s: System): System
  {
    s.(valid := Insert(s.valid, RequestTime(s.now, 0)))
  }

  function OnWorkerFail(s: System, u: WorkerUUID): System
  {
    if u !in s.jobs then s
    else
      var id := s.jobs[u].req;
      if id !in s.requests then s.(crashed := true)
      else s.(jobs := s.jobs - {u}, requests := s.requests[id := s.requests[id].(state := FAILED)])
  }

  ghost function Tell(s: System, note: W.Note): System
  {
    match note
    case Quiet => s
    case BecameIdle(_) => OnWorkerIdle(s)
    case BrokeRun(u) => OnWorkerFail(s, u)
  }

  /** The state after a step of the worker list, of which the listener has been told. */
  ghost function WithWorkers(s: System, o: W.Outcome): System
  {
    Tell(s.(list := o.list), o.note)
  }

  // ---------- Jobs ----------

  function CreateJob(s: System, id: ReqID, u: WorkerUUID, tunnel: bool): Reply
  {
    if u in s.jobs then Reply(s, JobAlreadyExists)
    else if u !in s.list.workers then Reply(s, NotFound)
    else if s.list.workers[u].key.None? then Reply(s.(crashed := true), InternalLogicError)
    else if !tunnel then Reply(s, TunnelFailed)
    else
      var w := s.list.workers[u];
      Reply(s.(jobs := s.jobs[u := Job(id, w.sshd, w.key.value)]), NoError)
  }

  ghost function FinishJob(s: System, u: WorkerUUID, prepare: bool): System
  {
    var s1 := s.(jobs := s.jobs - {u});
    if prepare then WithWorkers(s1, W.PrepareWorker(s1.list, u, true)) else s1
  }

  // ---------- Requests ----------

  ghost function NewRequest(s: System, caps: Capabilities, priority: Priority, groups: seq<Group>,
                            validAfter: Time, deadline: Time, monthLater: Time): Reply
  {
    if deadline != ZERO_TIME && deadline < s.now then Reply(s, DeadlineInThePast)
    else if validAfter > deadline && deadline != ZERO_TIME then Reply(s, InvalidTimeRange)
    else if priority < HI_PRIO || priority > LO_PRIO then Reply(s, PriorityOutOfBounds)
    else
      var after := if validAfter == ZERO_TIME then s.now else validAfter;
      var end := if deadline == ZERO_TIME then monthLater else deadline;
      var id := |s.requests| + 1;
      var r := ReqInfo(id, priority, groups, end, after, WAIT, None, caps);
      var s1 := SetRequest(Push(s, id, priority), r);
      Reply(
        s1.(valid := Insert(s1.valid, RequestTime(after, id)),
            deadline := Insert(s1.deadline, RequestTime(end, id))),
        NoError)
  }

  /** Ends a running request, of which the caller has made sure that it may be ended. */
  ghost function EndRequest(s: System, r: ReqInfo): System
  {
    var s1 := SetRequest(s, r.(state := DONE));
    if r.job.None? then s1 else FinishJob(s1, r.job.value.worker, true)
  }

  ghost function CloseRequest(s: System, id: ReqID): Reply
  {
    if id !in s.requests then Reply(s, NotFound)
    else
      var r := s.requests[id];
      match r.state
      case WAIT => Reply(Remove(SetRequest(s, r.(state := CANCEL)), r.id, r.priority), NoError)
      case INPROGRESS => Reply(EndRequest(s, r), NoError)
      case _ => Reply(s, ModificationForbidden)
  }

  /** New values for a waiting request; a zero value leaves the field as it is. */
  datatype Update = Update(id: ReqID, priority: Priority, validAfter: Time, deadline: Time)

  ghost function UpdateRequest(s: System, src: Update): Reply
  {
    if src.priority == 0 && src.validAfter == ZERO_TIME && src.deadline == ZERO_TIME then Reply(s, NoError)
    else if src.id !in s.requests then Reply(s, NotFound)
    else
      var dst := s.requests[src.id];
      if dst.state != WAIT then Reply(s, ModificationForbidden)
      else if src.priority == dst.priority && src.validAfter == dst.validAfter && src.deadline == dst.deadline then
        Reply(s, NoError)
      else if src.priority != 0 && (src.priority < HI_PRIO || src.priority > LO_PRIO) then
        Reply(s, PriorityOutOfBounds)
      else if src.deadline != ZERO_TIME && src.deadline < s.now then Reply(s, DeadlineInThePast)
      else
        var deadline := if src.deadline != ZERO_TIME then src.deadline else dst.deadline;
        if src.validAfter != ZERO_TIME && deadline != ZERO_TIME && src.validAfter > deadline then
          Reply(s, InvalidTimeRange)
        else
          var s1 :=
            if src.priority != 0 then Push(Remove(s, dst.id, dst.priority), dst.id, src.priority) else s;
          var after := if src.validAfter != ZERO_TIME then src.validAfter else dst.validAfter;
          var s2 := SetRequest(s1, dst.(
            priority := if src.priority != 0 then src.priority else dst.priority,
            validAfter := after,
            deadline := deadline));
          var s3 :=
            if src.validAfter != ZERO_TIME then s2.(valid := Insert(s2.valid, RequestTime(after, src.id))) else s2;
          Reply(
            if deadline != dst.deadline
            then s3.(deadline := Insert(s3.deadline, RequestTime(deadline, src.id))) else s3,
            NoError)
  }

  ghost function ProlongAccess(s: System, id: ReqID): Reply
  {
    if id !in s.requests then Reply(s, NotFound)
    else
      var r := s.requests[id];
      if r.state != INPROGRESS || r.job.None? then Reply(s, WorkerNotAssigned)
      else
        var until := s.now + HOUR;
        var s1 := SetRequest(s, r.(job := Some(r.job.value.(timeout := until))));
        Reply(s1.(timeout := Insert(s1.timeout, RequestTime(until, id))), NoError)
  }

  /** The access data of a running request: the job of its worker. */
  function AcquireWorker(s: System, id: ReqID): Option<Job>
  {
    if id in s.requests && s.requests[id].state == INPROGRESS && s.requests[id].job.Some? then
      var u := s.requests[id].job.value.worker;
      if u in s.jobs then Some(s.jobs[u]) else None
    else None
  }

  function Timeout(s: System, id: ReqID): Reply
  {
    if id !in s.requests then Reply(s, NotFound)
    else
      var r := s.requests[id];
      if r.state != WAIT || r.deadline > s.now then Reply(s, ModificationForbidden)
      else Reply(Remove(SetRequest(s, r.(state := TIMEOUT)), r.id, r.priority), NoError)
  }

  ghost function Close(s: System, id: ReqID): Reply
  {
    if id !in s.requests then Reply(s, NotFound)
    else
      var r := s.requests[id];
      if r.state != INPROGRESS then Reply(s, ModificationForbidden)
      else if r.job.None? then Reply(s, InternalLogicError)
      else if r.job.value.timeout > s.now then Reply(s, ModificationForbidden)
      else Reply(EndRequest(s, r), NoError)
  }

  ghost function Run(s: System, id: ReqID, u: WorkerUUID): Reply
  {
    if id !in s.requests then Reply(s, NotFound)
    else
      var r := s.requests[id];
      if r.state != WAIT then Reply(s, ModificationForbidden)
      else
        var until := s.now + HOUR;
        var s1 := SetRequest(s, r.(state := INPROGRESS, job := Some(JobInfo(u, until))));
        var s2 := Remove(s1, r.id, r.priority);
        Reply(s2.(timeout := Insert(s2.timeout, RequestTime(until, id))), NoError)
  }

  // ---------- The matcher ----------

  /** A worker is preferred to another if it is less capable, or as capable and first by UUID. */
  predicate Preferred(l: W.WorkerList, u: WorkerUUID, v: WorkerUUID)
    requires u in l.workers && v in l.workers
  {
    var su, sv := W.Score(l.workers[u].info), W.Score(l.workers[v].info);
    su < sv || (su == sv && StringLess(u, v))
  }

  ghost predicate IsBest(l: W.WorkerList, groups: seq<Group>, caps: Capabilities, u: WorkerUUID)
  {
    && W.Candidate(l, groups, caps, u)
    && forall v :: v in l.workers && v != u && W.Candidate(l, groups, caps, v) ==> Preferred(l, u, v)
  }

  ghost function Best(l: W.WorkerList, groups: seq<Group>, caps: Capabilities): Option<WorkerUUID>
  {
    if exists u :: u in l.workers && IsBest(l, groups, caps, u) then
      var u :| u in l.workers && IsBest(l, groups, caps, u);
      Some(u)
    else None
  }

  predicate Ready(s: System, id: ReqID)
  {
    && id in s.requests
    && s.requests[id].state == WAIT
    && s.requests[id].deadline > s.now
    && s.requests[id].validAfter <= s.now
  }

  /** Tries to start a ready request on the best worker; `tunnel` tells whether a tunnel can be opened. */
  ghost function MatchWorkers(s: System, r: ReqInfo, tunnel: bool): (System, bool)
  {
    match Best(s.list, r.groups, r.caps)
    case None => (s, false)
    case Some(u) =>
      var s1 := WithWorkers(s, W.SetStateRaw(s.list, u, RUN));
      var created := CreateJob(s1, r.id, u, tunnel);
      var ran := if created.error == NoError then Run(created.sys, r.id, u) else created;
      if ran.error == NoError then (ran.sys, true)
      else (WithWorkers(ran.sys, W.PrepareWorker(ran.sys.list, u, false)), false)
  }

  /** One pass over the requests still to be visited; a match, or a panic, ends it. */
  ghost function Pass(s: System, order: seq<ReqID>, tunnel: ReqID -> bool): (System, bool)
    decreases |order|
  {
    hide MatchWorkers;
    if order == [] then (s, false)
    else if !Ready(s, order[0]) then Pass(s, order[1..], tunnel)
    else
      var (s1, matched) := MatchWorkers(s, s.requests[order[0]], tunnel(order[0]));
      if s1.crashed then (s1, false) else if matched then (s1, true) else Pass(s1, order[1..], tunnel)
  }

  /** What one pass meets: how long after the last it starts, and for which requests a tunnel can be opened. */
  datatype Turn = Turn(delay: nat, tunnel: ReqID -> bool)

  ghost function OnePass(s: System, turn: Turn): (System, bool)
  {
    Pass(s.(now := s.now + turn.delay), Flat(s.lists, 1), turn.tunnel)
  }

  /**
   Passes are repeated while they match. A pass that matches shortens the queue, so the comparison below
   never ends the repetition; it is what makes this function total.
   */
  ghost function MatchAll(s: System, turns: nat -> Turn, n: nat): System
    decreases Lengths(s.lists, 1)
  {
    hide OnePass;
    var (s1, matched) := OnePass(s, turns(n));
    if matched && Lengths(s1.lists, 1) < Lengths(s.lists, 1) then MatchAll(s1, turns, n + 1) else s1
  }

  // ---------- Fires ----------

  function TimeoutAll(s: System, ids: seq<ReqID>): System
    decreases |ids|
  {
    if ids == [] then s else TimeoutAll(Timeout(s, ids[0]).sys, ids[1..])
  }

  ghost function CloseAll(s: System, ids: seq<ReqID>): System
    decreases |ids|
  {
    hide Close;
    if ids == [] then s else CloseAll(Close(s, ids[0]).sys, ids[1..])
  }

  /** A fire of the timer of validity: the popped requests are ignored, the whole queue is matched. */
  ghost function FireValid(s: System, turns: nat -> Turn): System
    requires s.valid.pending.Some?
  {
    hide MatchAll;
    var s1 := MatchAll(s.(valid := Drained(s.valid, s.valid.pending.value)), turns, 0);
    s1.(valid := Rearm(s1.valid))
  }

  ghost function FireDeadline(s: System): System
    requires s.deadline.pending.Some?
  {
    var t := s.deadline.pending.value;
    var s1 := TimeoutAll(s.(deadline := Drained(s.deadline, t)), Ids(Drain(s.deadline.times, t)));
    s1.(deadline := Rearm(s1.deadline))
  }

  ghost function FireTimeout(s: System): System
    requires s.timeout.pending.Some?
  {
    hide CloseAll;
    var t := s.timeout.pending.value;
    var s1 := CloseAll(s.(timeout := Drained(s.timeout, t)), Ids(Drain(s.timeout.times, t)));
    s1.(timeout := Rearm(s1.timeout))
  }

  // ---------- Runs ----------

  datatype Step =
    | Tick(delay: nat)
    | ValidExpires
    | DeadlineExpires
    | TimeoutExpires
    | ValidFires(turns: nat -> Turn)
    | DeadlineFires
    | TimeoutFires
    | CallNewRequest(caps: Capabilities, priority: Priority, groups: seq<Group>,
                     validAfter: Time, deadline: Time, monthLater: Time)
    | CallCloseRequest(id: ReqID)
    | CallUpdateRequest(src: Update)
    | CallProlongAccess(id: ReqID)
    | CallRegister(caps: Capabilities, dryad: Addr, sshd: Addr)
    | CallSetFail(uuid: WorkerUUID)
    | CallSetState(uuid: WorkerUUID, state: WorkerState)
    | CallSetGroups(uuid: WorkerUUID, groups: seq<Group>)
    | CallDeregister(uuid: WorkerUUID)
    | Goroutine(reg: nat, answer: W.Answer, drawn: Key)

  /** A step that is not enabled changes nothing. */
  ghost function Apply(s: System, step: Step): System
  {
    match step
    case Tick(delay) => s.(now := s.now + delay)
    case ValidExpires => s.(valid := Expire(s.valid, s.now))
    case DeadlineExpires => s.(deadline := Expire(s.deadline, s.now))
    case TimeoutExpires => s.(timeout := Expire(s.timeout, s.now))
    case ValidFires(turns) => if s.valid.pending.Some? then FireValid(s, turns) else s
    case DeadlineFires => if s.deadline.pending.Some? then FireDeadline(s) else s
    case TimeoutFires => if s.timeout.pending.Some? then FireTimeout(s) else s
    case CallNewRequest(caps, priority, groups, validAfter, deadline, monthLater) =>
      NewRequest(s, caps, priority, groups, validAfter, deadline, monthLater).sys
    case CallCloseRequest(id) => CloseRequest(s, id).sys
    case CallUpdateRequest(src) => UpdateRequest(s, src).sys
    case CallProlongAccess(id) => ProlongAccess(s, id).sys
    case CallRegister(caps, dryad, sshd) => WithWorkers(s, W.Register(s.list, caps, dryad, sshd))
    case CallSetFail(u) => WithWorkers(s, W.SetFail(s.list, u))
    case CallSetState(u, state) => WithWorkers(s, W.SetState(s.list, u, state))
    case CallSetGroups(u, groups) => WithWorkers(s, W.SetGroups(s.list, u, groups))
    case CallDeregister(u) => WithWorkers(s, W.Deregister(s.list, u))
    case Goroutine(c, answer, drawn) =>
      if W.CanStep(s.list, c) then WithWorkers(s, W.StepRoutine(s.list, c, answer, drawn)) else s
  }

  /** The state after a run from the empty system. */
  ghost function Exec(steps: seq<Step>): System
  {
    hide Apply;
    if steps == [] then Init() else Apply(Exec(steps[..|steps| - 1]), steps[|steps| - 1])
  }
}
