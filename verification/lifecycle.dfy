/**
 The life of a request over whole runs, and the order in which requests of a priority are served.
 */
module Lifecycle {

  import opened Boruta
  import opened RequestQueue
  import opened Timers
  import opened System
  import opened Invariants
  import opened Preservation
  import opened Scheduling
  import opened Expiry
  import opened Runs
  import P = ProtocolInvariant
  import T = ProtocolTheorems
  import W = WorkerProtocol

  predicate Allowed(a: ReqState, b: ReqState)
  {
    || a == b
    || (a == WAIT && b in {CANCEL, TIMEOUT, INPROGRESS})
    || (a == INPROGRESS && b in {DONE, FAILED})
  }

  /** What one step may do to a request. */
  predicate Evolves(r: ReqInfo, r': ReqInfo)
  {
    && r'.id == r.id && r'.groups == r.groups && r'.caps == r.caps
    && Allowed(r.state, r'.state)
    && (r.state !in {WAIT, INPROGRESS} ==> r' == r)
    && (r.state == INPROGRESS ==>
          && r'.priority == r.priority && r'.deadline == r.deadline && r'.validAfter == r.validAfter
          && r'.job.Some? == r.job.Some? && (r.job.Some? ==> r'.job.value.worker == r.job.value.worker))
  }

  /** Requests are never lost, and change as they may. */
  ghost predicate AllEvolve(s: System, s': System)
  {
    forall id :: id in s.requests ==> id in s'.requests && Evolves(s.requests[id], s'.requests[id])
  }

  lemma SetEvolves(s: System, s': System, r: ReqInfo)
    requires s'.requests == s.requests[r.id := r]
    requires r.id in s.requests ==> Evolves(s.requests[r.id], r)
    ensures AllEvolve(s, s')
  {
  }

  lemma SameEvolves(s: System, s': System)
    requires s'.requests == s.requests
    ensures AllEvolve(s, s')
  {
  }

  /** The request which a step moves to another place of the queue. */
  ghost function MovedBy(s: System, step: Step): set<ReqID>
  {
    if step.CallUpdateRequest? && UpdateRequest(s, step.src).sys.lists != s.lists then {step.src.id} else {}
  }

  /** The update is accepted and changes something. */
  predicate TakesEffect(s: System, src: Update)
  {
    && src.id in s.requests
    && var dst := s.requests[src.id];
       var deadline := if src.deadline != ZERO_TIME then src.deadline else dst.deadline;
       && dst.state == WAIT
       && (src.priority == 0 || HI_PRIO <= src.priority <= LO_PRIO)
       && (src.deadline == ZERO_TIME || src.deadline >= s.now)
       && (src.validAfter == ZERO_TIME || deadline == ZERO_TIME || src.validAfter <= deadline)
       && !(src.priority == dst.priority && src.validAfter == dst.validAfter && src.deadline == dst.deadline)
  }

  /**
   An update moves its request if and only if it takes effect, gives a priority, and the request is not already the
   last one of that priority. That the priority is the one it has makes no difference.
   */
  lemma UpdateMoves(s: System, src: Update)
    requires Core(s)
    ensures UpdateRequest(s, src).sys.lists != s.lists <==>
            && TakesEffect(s, src) && src.priority != 0
            && var p := s.requests[src.id].priority;
               !(src.priority == p && p < LISTS && s.lists[p] != [] && s.lists[p][|s.lists[p]| - 1] == src.id)
  {
    hide P.Inv, JobsOk, AllTimed, Insert, QueueOk, UpdateRequest, RemoveFirst;
    var s' := UpdateRequest(s, src).sys;
    if src.id in s.requests {
      QueuedFromOk(s.requests, s.lists, src.id);
    }
    EffectOfUpdate(s, src);
    if TakesEffect(s, src) && src.priority != 0 {
      ListOkFrom(s.requests, s.lists, s.requests[src.id].priority);
      MovedToEnd(s.lists, s.requests[src.id].priority, src.priority, src.id);
    }
  }

  lemma ListOkFrom(requests: Requests, lists: Lists, p: nat)
    requires QueueOk(requests, lists) && p < LISTS
    ensures Distinct(lists[p])
  {
    assert ListOk(requests, lists, p);
  }

  lemma EffectOfUpdate(s: System, src: Update)
    requires src.id in s.requests ==> s.requests[src.id].state == WAIT ==> Queued(s.requests, s.lists, src.id)
    requires Core(s)
    ensures UpdateRequest(s, src).sys.lists ==
            if TakesEffect(s, src) && src.priority != 0 then
              var p := s.requests[src.id].priority;
              var removed: Lists := s.lists[p := RemoveFirst(s.lists[p], src.id)];
              removed[src.priority := removed[src.priority] + [src.id]]
            else s.lists
  {
    hide Insert, RemoveFirst, P.Inv, QueueOk, JobsOk, AllTimed;
  }

  lemma MovedToEnd(q: Lists, p: nat, p': nat, id: ReqID)
    requires p < LISTS && p' < LISTS && id in q[p] && Distinct(q[p])
    ensures var removed: Lists := q[p := RemoveFirst(q[p], id)];
            removed[p' := removed[p'] + [id]] == q <==> p == p' && q[p][|q[p]| - 1] == id
  {
    var removed: Lists := q[p := RemoveFirst(q[p], id)];
    var q': Lists := removed[p' := removed[p'] + [id]];
    RemoveFirstIsExact(q[p], id);
    RemoveFirstSplits(q[p], id);
    var i :| 0 <= i < |q[p]| && q[p][i] == id && RemoveFirst(q[p], id) == q[p][..i] + q[p][i + 1..];
    if p == p' {
      assert q'[p] == q[p][..i] + q[p][i + 1..] + [id];
      if i < |q[p]| - 1 {
        assert q'[p][|q[p]| - 1] == id;
        assert q' != q;
      } else {
        assert q'[p] == q[p];
        assert q' == q;
      }
    } else {
      assert id !in q'[p];
    }
  }

  /** Two requests of a priority, of which the first is updated with that priority and a deadline. */
  lemma SamePriorityMayMove()
    ensures var one := CallNewRequest(map[], HI_PRIO, [], ZERO_TIME, 5, 0);
            var update := Update(1, HI_PRIO, ZERO_TIME, 7);
            var s := Exec([one, one]);
            && s.lists[HI_PRIO] == [1, 2] && 1 in s.requests && s.requests[1].priority == HI_PRIO
            && Exec([one, one, CallUpdateRequest(update)]).lists[HI_PRIO] == [2, 1]
  {
    hide Insert, Apply, Exec;
    var one := CallNewRequest(map[], HI_PRIO, [], ZERO_TIME, 5, 0);
    var update := CallUpdateRequest(Update(1, HI_PRIO, ZERO_TIME, 7));
    ExecIs([]);
    ExecIs([one]);
    ExecIs([one, one]);
    ExecIs([one, one, update]);
    assert [one, one, update][..2] == [one, one] && [one, one][..1] == [one] && [one][..0] == [];
    CreateAt(Init(), one);
    CreateAt(Exec([one]), one);
    assert [1] + [2] == [1, 2];
    UpdateAt(Exec([one, one]), update);
  }

  lemma CreateAt(s: System, one: Step)
    requires one == CallNewRequest(map[], HI_PRIO, [], ZERO_TIME, 5, 0) && s.now == 1 && |s.requests| + 1 !in s.requests
    ensures var s' := Apply(s, one);
            var id := |s.requests| + 1;
            && s'.lists[HI_PRIO] == s.lists[HI_PRIO] + [id] && s'.now == 1 && |s'.requests| == id
            && s'.requests == s.requests[id := ReqInfo(id, HI_PRIO, [], 5, 1, WAIT, None, map[])]
  {
    hide Insert;
    AddedSize(s.requests, ReqInfo(|s.requests| + 1, HI_PRIO, [], 5, 1, WAIT, None, map[]));
  }

  lemma UpdateAt(s: System, update: Step)
    requires update == CallUpdateRequest(Update(1, HI_PRIO, ZERO_TIME, 7)) && s.now == 1
    requires 1 in s.requests && s.requests[1] == ReqInfo(1, HI_PRIO, [], 5, 1, WAIT, None, map[])
    requires s.lists[HI_PRIO] == [1, 2]
    ensures Apply(s, update).lists[HI_PRIO] == [2, 1]
  {
    hide Insert;
    assert [1, 2][1..] == [2] && [2] + [1] == [2, 1];
  }

  ghost predicate AllAscending(q: Lists, moved: set<ReqID>)
  {
    forall p :: 0 <= p < LISTS ==> Ascending(q[p], moved)
  }

  lemma ThinnerAscends(q: Lists, q': Lists, moved: set<ReqID>)
    requires Thinner(q, q') && AllAscending(q, moved)
    ensures AllAscending(q', moved)
  {
  }

  lemma MoreMovedAscends(q: Lists, moved: set<ReqID>, more: set<ReqID>)
    requires AllAscending(q, moved) && moved <= more
    ensures AllAscending(q, more)
  {
    forall p | 0 <= p < LISTS
      ensures Ascending(q[p], more)
    {
      assert Ascending(q[p], moved);
    }
  }

  // ---------- Step by step ----------

  lemma NewRequestEvolves(s: System, caps: Capabilities, priority: Priority, groups: seq<Group>,
                          validAfter: Time, deadline: Time, monthLater: Time, moved: set<ReqID>)
    requires Inv(s) && AllAscending(s.lists, moved)
    ensures var s' := NewRequest(s, caps, priority, groups, validAfter, deadline, monthLater).sys;
            AllEvolve(s, s') && AllAscending(s'.lists, moved)
  {
    hide P.Inv, JobsOk, AllTimed, TimersOk, Insert;
    var s' := NewRequest(s, caps, priority, groups, validAfter, deadline, monthLater).sys;
    if s' != s {
      var id := |s.requests| + 1;
      SetEvolves(s, s', s'.requests[id]);
      forall p: nat | p < LISTS
        ensures Ascending(s'.lists[p], moved)
      {
        assert Ascending(s.lists[p], moved);
        assert ListOk(s.requests, s.lists, p);
        forall i | 0 <= i < |s.lists[p]|
          ensures s.lists[p][i] < id
        {
          assert s.lists[p][i] in s.lists[p];
        }
      }
    }
  }

  lemma CloseRequestEvolves(s: System, id: ReqID, moved: set<ReqID>)
    requires Inv(s) && AllAscending(s.lists, moved)
    ensures AllEvolve(s, CloseRequest(s, id).sys) && AllAscending(CloseRequest(s, id).sys.lists, moved)
  {
    hide P.Inv, AllTimed, TimersOk, EndRequest, QueueOk;
    if id in s.requests {
      var r := s.requests[id];
      if r.state == INPROGRESS {
        assert Served(s.requests, s.jobs, id);
        EndIs(s, r);
        SetEvolves(s, CloseRequest(s, id).sys, r.(state := DONE));
      } else if r.state == WAIT {
        SetEvolves(s, CloseRequest(s, id).sys, r.(state := CANCEL));
        if r.priority < LISTS {
          RemoveFirstAscends(s.lists[r.priority], r.id);
        }
      }
    }
  }

  lemma UpdateEvolves(s: System, src: Update, moved: set<ReqID>)
    requires Inv(s) && AllAscending(s.lists, moved)
    ensures var s' := UpdateRequest(s, src).sys;
            && AllEvolve(s, s')
            && AllAscending(s'.lists, moved + MovedBy(s, CallUpdateRequest(src)))
  {
    hide P.Inv, AllTimed, TimersOk, JobsOk, QueueOk, Insert, UpdateRequest, Ascending, RemoveFirst;
    var s' := UpdateRequest(s, src).sys;
    var more := moved + MovedBy(s, CallUpdateRequest(src));
    MoreMovedAscends(s.lists, moved, more);
    if src.id !in s.requests || s' == s {
      UpdateOfUnknown(s, src);
      SameEvolves(s, s');
    } else {
      QueuedFromOk(s.requests, s.lists, src.id);
      UpdateIs(s, src);
      SetEvolves(s, s', s'.requests[src.id]);
      if s'.lists != s.lists {
        MoveAscends(s.lists, s.requests[src.id].priority, src.priority, src.id, more);
      }
    }
  }

  lemma MoveAscends(q: Lists, p: nat, p': nat, id: ReqID, moved: set<ReqID>)
    requires p < LISTS && p' < LISTS && AllAscending(q, moved) && id in moved
    ensures var removed: Lists := q[p := RemoveFirst(q[p], id)];
            AllAscending(removed[p' := removed[p'] + [id]], moved)
  {
    RemoveFirstAscends(q[p], id);
  }

  lemma WorkersEvolve(s: System, o: W.Outcome)
    requires Inv(s) && T.Announced(s.list, o) && P.Inv(o.list)
    ensures AllEvolve(s, WithWorkers(s, o)) && WithWorkers(s, o).lists == s.lists
  {
    hide P.Inv, AllTimed, TimersOk, JobsOk, QueueOk, Insert;
    match o.note
    case Quiet => SameEvolves(s, WithWorkers(s, o));
    case BecameIdle(_) => SameEvolves(s, WithWorkers(s, o));
    case BrokeRun(u) =>
      FailKeeps(s, o.list, u);
      var r := s.requests[s.jobs[u].req];
      SelfNumbered(s, s.jobs[u].req);
      SetEvolves(s, WithWorkers(s, o), r.(state := FAILED));
  }

  lemma WorkerStepsEvolve(s: System, step: Step)
    requires Inv(s) && WorkerStep(step)
    ensures AllEvolve(s, Apply(s, step)) && Apply(s, step).lists == s.lists
  {
    hide Inv, WithWorkers, P.Inv, T.Announced, W.Register, W.SetFail, W.SetState, W.SetGroups, W.Deregister,
      W.StepRoutine, AllEvolve;
    InvProtocol(s);
    match step {
      case CallRegister(caps, dryad, sshd) =>
        P.RegisterKeeps(s.list, caps, dryad, sshd);
        T.RegisterIsAnnounced(s.list, caps, dryad, sshd);
        WorkersEvolve(s, W.Register(s.list, caps, dryad, sshd));
      case CallSetFail(u) =>
        P.CallsKeep(s.list, u, IDLE, [], false);
        T.SetFailIsAnnounced(s.list, u);
        WorkersEvolve(s, W.SetFail(s.list, u));
      case CallSetState(u, state) =>
        P.CallsKeep(s.list, u, state, [], false);
        T.SetStateCallIsAnnounced(s.list, u, state);
        WorkersEvolve(s, W.SetState(s.list, u, state));
      case CallSetGroups(u, groups) =>
        P.CallsKeep(s.list, u, IDLE, groups, false);
        T.SetGroupsIsAnnounced(s.list, u, groups);
        WorkersEvolve(s, W.SetGroups(s.list, u, groups));
      case CallDeregister(u) =>
        P.DeregisterKeeps(s.list, u);
        T.DeregisterIsAnnounced(s.list, u);
        WorkersEvolve(s, W.Deregister(s.list, u));
      case Goroutine(c, answer, drawn) =>
        SameEvolves(s, s);
        if W.CanStep(s.list, c) {
          P.RoutineKeeps(s.list, c, answer, drawn);
          T.RoutinesAreAnnounced(s.list, c, answer, drawn);
          WorkersEvolve(s, W.StepRoutine(s.list, c, answer, drawn));
        }
    }
  }

  lemma InvProtocol(s: System)
    requires Inv(s)
    ensures P.Inv(s.list)
  {
  }

  lemma FireValidEvolves(s: System, turns: nat -> Turn)
    requires Inv(s) && s.valid.pending.Some?
    ensures AllEvolve(s, FireValid(s, turns)) && Thinner(s.lists, FireValid(s, turns).lists)
  {
    hide Inv, FireValid, Thinner, Awake, NoneStranded, KeysAgree;
    FireValidIs(s, turns);
  }

  lemma FireDeadlineEvolves(s: System)
    requires Inv(s) && s.deadline.pending.Some?
    ensures AllEvolve(s, FireDeadline(s)) && Thinner(s.lists, FireDeadline(s).lists)
  {
    hide Inv, FireDeadline, Thinner, Popped;
    FireDeadlineIs(s);
  }

  lemma FireTimeoutEvolves(s: System)
    requires Inv(s) && s.timeout.pending.Some?
    ensures AllEvolve(s, FireTimeout(s)) && FireTimeout(s).lists == s.lists
  {
    hide Inv, FireTimeout, Popped, KeysAgree, NoNewIdle;
    FireTimeoutIs(s);
  }

  lemma ProlongEvolves(s: System, id: ReqID)
    requires Inv(s)
    ensures AllEvolve(s, ProlongAccess(s, id).sys) && ProlongAccess(s, id).sys.lists == s.lists
  {
    hide P.Inv, AllTimed, TimersOk, JobsOk, QueueOk, Insert;
    var s' := ProlongAccess(s, id).sys;
    if s' != s {
      SetEvolves(s, s', s'.requests[id]);
    }
  }

  /** Every step lets requests only advance, and keeps the order of those that are not moved. */
  lemma StepEvolves(s: System, step: Step, moved: set<ReqID>)
    requires Inv(s) && AllAscending(s.lists, moved)
    ensures AllEvolve(s, Apply(s, step))
    ensures AllAscending(Apply(s, step).lists, moved + MovedBy(s, step))
  {
    hide Inv, NewRequest, CloseRequest, UpdateRequest, ProlongAccess, WithWorkers, FireValid, FireDeadline,
      FireTimeout, Expire, AllEvolve, AllAscending, Thinner, W.Register, W.SetFail, W.SetState, W.SetGroups,
      W.Deregister, W.StepRoutine;
    var s' := Apply(s, step);
    MoreMovedAscends(s.lists, moved, moved + MovedBy(s, step));
    match step {
      case Tick(delay) => SameEvolves(s, s');
      case ValidExpires => SameEvolves(s, s');
      case DeadlineExpires => SameEvolves(s, s');
      case TimeoutExpires => SameEvolves(s, s');
      case ValidFires(turns) =>
        SameEvolves(s, s);
        if s.valid.pending.Some? {
          FireValidEvolves(s, turns);
          ThinnerAscends(s.lists, s'.lists, moved + MovedBy(s, step));
        }
      case DeadlineFires =>
        SameEvolves(s, s);
        if s.deadline.pending.Some? {
          FireDeadlineEvolves(s);
          ThinnerAscends(s.lists, s'.lists, moved + MovedBy(s, step));
        }
      case TimeoutFires =>
        SameEvolves(s, s);
        if s.timeout.pending.Some? {
          FireTimeoutEvolves(s);
        }
      case CallNewRequest(caps, priority, groups, validAfter, deadline, monthLater) =>
        NewRequestEvolves(s, caps, priority, groups, validAfter, deadline, monthLater, moved + MovedBy(s, step));
      case CallCloseRequest(id) => CloseRequestEvolves(s, id, moved + MovedBy(s, step));
      case CallUpdateRequest(src) => UpdateEvolves(s, src, moved);
      case CallProlongAccess(id) => ProlongEvolves(s, id);
      case _ => WorkerStepsEvolve(s, step);
    }
  }

  // ---------- Whole runs ----------

  /** The requests moved to another place of the queue in a run. */
  ghost function Moved(steps: seq<Step>): set<ReqID>
  {
    hide MovedBy, Exec;
    if steps == [] then {}
    else Moved(steps[..|steps| - 1]) + MovedBy(Exec(steps[..|steps| - 1]), steps[|steps| - 1])
  }

  /** In every run a request changes from step to step only as it may. */
  lemma LifeOfRequests(steps: seq<Step>, n: nat)
    requires n < |steps|
    ensures AllEvolve(Exec(steps[..n]), Exec(steps[..n + 1]))
  {
    hide Inv, Apply, AllEvolve, AllAscending;
    RunKeeps(steps[..n]);
    FirstInFirstOut(steps[..n]);
    StepEvolves(Exec(steps[..n]), steps[n], Moved(steps[..n]));
    assert steps[..n + 1][..n] == steps[..n];
    ExecIs(steps[..n + 1]);
  }

  /** Within a priority, requests that were never moved stand in the order of their creation. */
  lemma {:induction false} FirstInFirstOut(steps: seq<Step>)
    ensures AllAscending(Exec(steps).lists, Moved(steps))
    decreases |steps|
  {
    hide Inv, Apply, AllEvolve;
    if steps != [] {
      var before := steps[..|steps| - 1];
      FirstInFirstOut(before);
      RunKeeps(before);
      StepEvolves(Exec(before), steps[|steps| - 1], Moved(before));
    }
  }
}
