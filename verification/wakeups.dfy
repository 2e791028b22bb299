/**
 When an update loses a wake-up: the runs that lead there, and that no other update does.
 */
module WakeUps {

  import opened Boruta
  import opened Histories
  import opened Invariants
  import opened Preservation
  import opened RequestQueue
  import opened Scheduling
  import opened System
  import opened Timers
  import F = Filter
  import R = Runs
  import W = WorkerProtocol

  // ---------- A worker for a request ----------

  /** The request asks for no more than a worker may have. */
  predicate Modest(r: ReqInfo)
  {
    |r.caps| + |r.groups| + 1 < W.MAX_INT32
  }

  /**
   The capabilities of a worker with just what the request asks for and a name. (Were that too much for the score of
   a worker, one without a name would do, since it is listed for every request.)
   */
  function FittingCaps(r: ReqInfo): (caps: Capabilities)
    ensures UUID_CAP in caps
  {
    if !Modest(r) then map[UUID_CAP := ""] else if UUID_CAP in r.caps then r.caps else r.caps[UUID_CAP := "w"]
  }

  function FittingGroups(r: ReqInfo): seq<Group>
  {
    if Modest(r) then r.groups else []
  }

  /** The list with this worker, idle. */
  function IdleList(r: ReqInfo): W.WorkerList
  {
    var u := FittingCaps(r)[UUID_CAP];
    W.WorkerList(
      map[u := Member(FittingCaps(r), FittingGroups(r), IDLE, Some(0), 0)],
      [W.Registration(u, [IDLE], true, W.Waiting)],
      map[u := 0],
      false)
  }

  lemma AddedKey(caps: Capabilities, k: string, v: string)
    ensures |caps[k := v]| <= |caps| + 1
  {
    assert caps[k := v].Keys == caps.Keys + {k};
    assert |caps[k := v]| == |caps[k := v].Keys| && |caps| == |caps.Keys|;
  }

  lemma IdleWorkerIsCandidate(r: ReqInfo)
    ensures W.Candidate(IdleList(r), r.groups, r.caps, FittingCaps(r)[UUID_CAP])
  {
    F.SortedStringsIsSorting(FittingGroups(r));
    var sorted := F.SortedStrings(FittingGroups(r));
    assert |sorted| == |multiset(sorted)| == |multiset(FittingGroups(r))| == |FittingGroups(r)|;
    AddedKey(r.caps, UUID_CAP, "w");
    if Modest(r) && r.groups != [] {
      assert r.groups[0] in multiset(r.groups);
      assert r.groups[0] in multiset(sorted);
      assert r.groups[0] in sorted;
    }
  }

  // ---------- The run ----------

  /** At the first instant: the worker is idle, `n` requests have been cancelled, and no fire was sent. */
  ghost predicate Prepared(s: System, r: ReqInfo, n: nat)
  {
    && Reached(s) && s.list == IdleList(r) && s.now == 1
    && |s.requests| == n && (forall id :: id in s.requests ==> s.requests[id].state == CANCEL)
    && s.valid.times != multiset{} && s.valid.pending == None
    && forall e :: e in s.valid.times ==> e.time == 1
  }

  lemma WorkerIsPrepared(r: ReqInfo) returns (s: System)
    ensures Prepared(s, r, 0)
  {
    hide Reached, FittingCaps, FittingGroups, MinEntry;
    var caps := FittingCaps(r);
    var u := caps[UUID_CAP];
    InitIsReached();
    WorkerIsEnlisted(Init(), caps, FittingGroups(r));
    var w := Member(caps, FittingGroups(r), PREPARE, None, 0);
    var l := W.WorkerList(map[u := w], [W.Registration(u, [PREPARE], true, W.Waiting)], map[], false);
    assert l.workers == W.EMPTY.workers[u := w] && l.regs == W.EMPTY.regs + l.regs;
    PreparationAdvances(Init().(list := l), 0, 0);
    KeyIsInstalled(Init().(list := l), 0, 0);
    PreparationEnds(Init().(list := WithDryad(l, u, 0)), 0, 0, u);
    var ended := WithDryad(l, u, 0).(workers := l.workers[u := w.(info := w.info.(state := IDLE), key := Some(0))],
                    regs := l.regs[0 := W.Registration(u, [IDLE], true, W.Waiting)]);
    assert ended.workers == IdleList(r).workers && ended.regs == IdleList(r).regs;
    assert ended.dryads == IdleList(r).dryads;
    s := OnWorkerIdle(Init().(list := IdleList(r)));
    assert s.valid.times == multiset{RequestTime(1, 0)};
  }

  const ANY_REQUEST: Step := CallNewRequest(map[], HI_PRIO, [], ZERO_TIME, 5, 0)

  lemma AnyIsCreated(s: System)
    requires s.now == 1
    ensures var id := |s.requests| + 1;
            var s' := Apply(s, ANY_REQUEST);
            && s' == s.(requests := s'.requests, lists := s'.lists, valid := Insert(s.valid, RequestTime(1, id)),
                        deadline := s'.deadline)
            && s'.requests == s.requests[id := ReqInfo(id, HI_PRIO, [], 5, 1, WAIT, None, map[])]
  {
    hide Insert;
  }

  lemma WaitingIsCancelled(s: System, id: ReqID)
    requires id in s.requests && s.requests[id].state == WAIT && s.requests[id].id == id
    requires Queued(s.requests, s.lists, id)
    ensures var s' := Apply(s, CallCloseRequest(id));
            && s' == s.(requests := s'.requests, lists := s'.lists)
            && s'.requests == s.requests[id := s.requests[id].(state := CANCEL)]
  {
    hide RemoveFirst;
  }

  lemma OneMoreIsCancelled(s: System, r: ReqInfo, n: nat) returns (s': System)
    requires Prepared(s, r, n)
    ensures Prepared(s', r, n + 1)
  {
    hide Reached, Insert, IdleList, Core, Inv, Awake, Armed, Apply;
    var id := n + 1;
    InvOfReached(s);
    StepIsReached(s, ANY_REQUEST);
    AnyIsCreated(s);
    var s1 := Apply(s, ANY_REQUEST);
    AddKeepsNumbered(s.requests, s1.requests[id]);
    InvOfReached(s1);
    WaitsInList(s1, id);
    StepIsReached(s1, CallCloseRequest(id));
    WaitingIsCancelled(s1, id);
    s' := Apply(s1, CallCloseRequest(id));
    SetKeepsNumbered(s1.requests, s'.requests[id]);
    InsertedTimes(s.valid, RequestTime(1, id));
  }

  lemma InsertedTimes(r: Timer, e: RequestTime)
    ensures Insert(r, e).times == r.times + multiset{e} && Insert(r, e).pending == r.pending
  {
    hide MinEntry;
  }

  lemma InvOfReached(s: System)
    requires Reached(s)
    ensures Inv(s) && Core(s) && Numbered(s.requests) && Awake(s) && Armed(s.valid) && !s.crashed
  {
    hide Exec;
    var steps :| R.BenignRun(steps) && Exec(steps) == s;
    R.RunKeeps(steps);
    R.NoLostWakeUp(steps);
  }

  lemma WaitsInList(s: System, id: ReqID)
    requires Core(s) && id in s.requests && s.requests[id].state == WAIT
    ensures Queued(s.requests, s.lists, id) && s.requests[id].id == id
  {
    QueuedFromOk(s.requests, s.lists, id);
  }

  lemma {:induction false} ManyAreCancelled(r: ReqInfo, n: nat) returns (s: System)
    ensures Prepared(s, r, n)
  {
    if n == 0 {
      s := WorkerIsPrepared(r);
    } else {
      var s0 := ManyAreCancelled(r, n - 1);
      s := OneMoreIsCancelled(s0, r, n - 1);
    }
  }

  /** The request is the only one that waits, beside the idle worker, and no fire was sent. */
  ghost predicate Filed(s: System, r: ReqInfo)
  {
    && Reached(s) && s.list == IdleList(r) && s.now == 1
    && r.id in s.requests && s.requests[r.id] == r
    && (forall id :: id in s.requests && id != r.id ==> s.requests[id].state == CANCEL)
    && s.valid.times != multiset{} && s.valid.pending == None
    && forall e :: e in s.valid.times ==> e.time == 1 || e.time == r.validAfter
  }

  /** A request as it may be filed at the first instant, if need be with a later deadline that is then moved. */
  predicate MayBeFiled(r: ReqInfo)
  {
    && r.id >= 1 && r.state == WAIT && r.job.None? && HI_PRIO <= r.priority <= LO_PRIO
    && r.validAfter != ZERO_TIME && r.deadline >= 1
  }

  lemma RequestIsFiled(r: ReqInfo) returns (s: System)
    requires MayBeFiled(r)
    ensures Filed(s, r)
  {
    hide Reached, Insert, IdleList, Core, Inv, Awake, Armed;
    var s0 := ManyAreCancelled(r, r.id - 1);
    InvOfReached(s0);
    var first := if r.validAfter <= r.deadline then r.deadline else r.validAfter;
    var create := CallNewRequest(r.caps, r.priority, r.groups, r.validAfter, first, 0);
    StepIsReached(s0, create);
    s := Apply(s0, create);
    assert s.requests == s0.requests[r.id := r.(deadline := first)];
    InsertedTimes(s0.valid, RequestTime(r.validAfter, r.id));
    DeadlineIsIrrelevant(r, first);
    if first != r.deadline {
      s := DeadlineIsMoved(s, r, first);
    }
  }

  lemma DeadlineIsIrrelevant(r: ReqInfo, deadline: Time)
    ensures IdleList(r.(deadline := deadline)) == IdleList(r)
  {
  }

  lemma DeadlineIsMoved(s: System, r: ReqInfo, first: Time) returns (s': System)
    requires MayBeFiled(r) && Filed(s, r.(deadline := first)) && first > r.deadline
    ensures Filed(s', r)
  {
    hide Reached, Insert, IdleList, Core, Inv, Awake, Armed;
    DeadlineIsIrrelevant(r, first);
    InvOfReached(s);
    WaitsInList(s, r.id);
    var update := Update(r.id, 0, ZERO_TIME, r.deadline);
    StepIsReached(s, CallUpdateRequest(update));
    s' := Apply(s, CallUpdateRequest(update));
    assert s.requests[r.id].(deadline := r.deadline) == r;
    assert s' == s.(requests := s.requests[r.id := r], deadline := s'.deadline);
  }

  // ---------- The last fire ----------

  /** When nothing is ready, a pass changes nothing. */
  lemma {:induction false} NothingReady(s: System, order: seq<ReqID>, tunnel: ReqID -> bool)
    requires forall id :: !Ready(s, id)
    ensures Pass(s, order, tunnel) == (s, false)
    decreases |order|
  {
    hide Ready, MatchWorkers;
    if order != [] {
      NothingReady(s, order[1..], tunnel);
    }
  }

  const AT_ONCE: nat -> Turn := (n: nat) => Turn(0, (id: ReqID) => true)

  lemma FireFindsNothing(s: System)
    requires s.valid.pending.Some? && forall id :: !Ready(s, id)
    requires forall e :: e in s.valid.times ==> e.time < s.valid.pending.value
    ensures FireValid(s, AT_ONCE) == s.(valid := Timer(multiset{}, s.valid.armed, None))
  {
    hide Pass, Ready, MinEntry, Drain;
    var t := s.valid.pending.value;
    DrainIsExact(s.valid.times, t);
    assert s.valid.times - multiset(Drain(s.valid.times, t)) == multiset{};
    var s0 := s.(valid := Timer(multiset{}, s.valid.armed, None));
    assert s0.(now := s0.now + 0) == s0;
    forall id
      ensures !Ready(s0, id)
    {
      assert Ready(s0, id) == Ready(s, id) by {
        ReadyIgnoresTimer(s, s0.valid, id);
      }
    }
    NothingReady(s0, Flat(s0.lists, 1), AT_ONCE(0).tunnel);
  }

  lemma ReadyIgnoresTimer(s: System, r: Timer, id: ReqID)
    ensures Ready(s.(valid := r), id) == Ready(s, id)
  {
  }

  /** The request's deadline has passed, and the heap of validity is empty. */
  ghost predicate Overslept(s: System, r: ReqInfo, now: Time)
  {
    && Reached(s) && s.list == IdleList(r) && s.now == now
    && r.id in s.requests && s.requests[r.id] == r
    && s.valid.times == multiset{}
  }

  lemma DeadlinePasses(s: System, r: ReqInfo, now: Time) returns (s': System)
    requires Filed(s, r) && now > 1 && r.deadline <= now && r.validAfter < now
    ensures Overslept(s', r, now)
  {
    hide Reached, IdleList, Core, Inv, Awake, FireValid;
    InvOfReached(s);
    StepIsReached(s, Tick(now - 1));
    var s1 := Apply(s, Tick(now - 1));
    StepIsReached(s1, ValidExpires);
    var s2 := Apply(s1, ValidExpires);
    assert s2.valid == Timer(s.valid.times, None, Some(now)) by {
      assert MinEntry(s.valid.times) in s.valid.times;
    }
    StepIsReached(s2, ValidFires(AT_ONCE));
    s' := Apply(s2, ValidFires(AT_ONCE));
    FireFindsNothing(s2);
  }

  lemma RevivedIsStranded(s: System, r: ReqInfo, src: Update)
    requires Overslept(s, r, s.now) && src.id == r.id && R.Revives(r, s.now, src)
    ensures !Awake(Apply(s, CallUpdateRequest(src)))
  {
    hide Reached, IdleList, Core, Inv, Armed;
    InvOfReached(s);
    WaitsInList(s, r.id);
    var s' := UpdateRequest(s, src).sys;
    IdleWorkerIsCandidate(r);
    var u := FittingCaps(r)[UUID_CAP];
    CandidateIsListed(IdleList(r), r.groups, r.caps, u);
    assert s'.list == s.list && s'.valid == s.valid && s'.now == s.now;
    assert Stranded(s', r.id, u);
  }

  lemma CandidateIsListed(l: W.WorkerList, groups: seq<Group>, caps: Capabilities, u: WorkerUUID)
    requires W.Candidate(l, groups, caps, u)
    ensures u in l.workers
  {
  }

  // ---------- The theorem ----------

  /** After this run, in which no update revived a request, the request is as given at that time. */
  ghost predicate Leads(steps: seq<Step>, r: ReqInfo, now: Time)
  {
    R.BenignRun(steps) && Exec(steps).now == now && r.id in Exec(steps).requests && Exec(steps).requests[r.id] == r
  }

  /**
   An update loses no wake-up, whatever run has led to it, if and only if it does not revive its request. The request
   is any that may be filed at the first instant.
   */
  lemma UpdateIsSafeUnlessReviving(r: ReqInfo, now: Time, src: Update)
    requires MayBeFiled(r) && now > 1 && src.id == r.id
    ensures (forall steps :: Leads(steps, r, now) ==> Awake(Apply(Exec(steps), CallUpdateRequest(src))))
            <==> !R.Revives(r, now, src)
  {
    hide Awake, Exec, Apply, Reached, Inv, Core, Armed;
    if R.Revives(r, now, src) {
      var s := RequestIsFiled(r);
      var s' := DeadlinePasses(s, r, now);
      RevivedIsStranded(s', r, src);
      var steps := RunTo(s');
      assert Leads(steps, r, now);
    } else {
      forall steps | Leads(steps, r, now)
        ensures Awake(Apply(Exec(steps), CallUpdateRequest(src)))
      {
        R.RunKeeps(steps);
        R.NoLostWakeUp(steps);
        R.StepStaysAwake(Exec(steps), CallUpdateRequest(src));
      }
    }
  }

  lemma RunTo(s: System) returns (steps: seq<Step>)
    requires Reached(s)
    ensures R.BenignRun(steps) && Exec(steps) == s
  {
    hide Exec;
    steps :| R.BenignRun(steps) && Exec(steps) == s;
  }

  /** A run that loses a wake-up, by its last step. */
  lemma AWakeUpIsLost() returns (steps: seq<Step>)
    ensures steps != [] && R.BenignRun(steps[..|steps| - 1]) && !Awake(Exec(steps))
  {
    hide Awake, Exec, Apply, Reached, R.BenignRun;
    var r := ReqInfo(1, HI_PRIO, [], 2, 1, WAIT, None, map[]);
    var src := Update(1, 0, ZERO_TIME, 10);
    var s := RequestIsFiled(r);
    var s' := DeadlinePasses(s, r, 3);
    RevivedIsStranded(s', r, src);
    var before := RunTo(s');
    steps := before + [CallUpdateRequest(src)];
    assert steps[..|steps| - 1] == before;
    R.ExecIs(steps);
  }
}
