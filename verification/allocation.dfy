/**
 Where jobs and addresses come from: over whole runs, every job was given by the matcher to a worker that was idle and
 fit for it, for a request that was due, and the address handed out with it was registered by that worker.
 */
module Allocation {

  import opened Boruta
  import opened RequestQueue
  import opened Timers
  import opened System
  import opened Invariants
  import opened Preservation
  import opened Matching
  import opened Scheduling
  import opened Expiry
  import O = Outcomes
  import WO = WorkerOutcomes
  import P = ProtocolInvariant
  import R = Runs
  import T = ProtocolTheorems
  import W = WorkerProtocol

  // ---------- What a step leaves alone ----------

  /** Jobs are at most taken away. */
  ghost predicate NoNewJob(jobs: Jobs, jobs': Jobs)
  {
    forall u :: u in jobs' ==> u in jobs && jobs'[u] == jobs[u]
  }

  /** No worker is added, and none has other capabilities or addresses. */
  ghost predicate SameAddresses(l: W.WorkerList, l': W.WorkerList)
  {
    forall u :: u in l'.workers ==>
                  && u in l.workers
                  && l'.workers[u].info.caps == l.workers[u].info.caps
                  && l'.workers[u].dryad == l.workers[u].dryad && l'.workers[u].sshd == l.workers[u].sshd
  }

  /** The goroutine is where it was; a new one waits. */
  ghost predicate GoroutineStays(l: W.WorkerList, l': W.WorkerList, c: nat)
  {
    && (c < |l.regs| ==> c < |l'.regs| && l'.regs[c].uuid == l.regs[c].uuid && l'.regs[c].phase == l.regs[c].phase)
    && (|l.regs| <= c < |l'.regs| ==> l'.regs[c].phase == W.Waiting)
  }

  lemma SetStateStays(l: W.WorkerList, u: WorkerUUID, state: WorkerState, c: nat)
    ensures SameAddresses(l, W.SetStateRaw(l, u, state).list) && GoroutineStays(l, W.SetStateRaw(l, u, state).list, c)
  {
  }

  lemma EditsStay(l: W.WorkerList, u: WorkerUUID, groups: seq<Group>, c: nat)
    ensures SameAddresses(l, l) && GoroutineStays(l, l, c)
    ensures SameAddresses(l, W.SetGroups(l, u, groups).list) && GoroutineStays(l, W.SetGroups(l, u, groups).list, c)
    ensures SameAddresses(l, W.Deregister(l, u).list) && GoroutineStays(l, W.Deregister(l, u).list, c)
  {
  }

  lemma CallsStay(l: W.WorkerList, u: WorkerUUID, state: WorkerState, generate: bool, c: nat)
    ensures SameAddresses(l, W.SetFail(l, u).list) && GoroutineStays(l, W.SetFail(l, u).list, c)
    ensures SameAddresses(l, W.SetState(l, u, state).list) && GoroutineStays(l, W.SetState(l, u, state).list, c)
    ensures SameAddresses(l, W.PrepareWorker(l, u, generate).list)
    ensures GoroutineStays(l, W.PrepareWorker(l, u, generate).list, c)
  {
    hide W.SetStateRaw, SameAddresses, GoroutineStays;
    EditsStay(l, u, [], c);
    SetStateStays(l, u, FAIL, c);
    SetStateStays(l, u, PREPARE, c);
    SetStateStays(l, u, BUSY, c);
    SetStateStays(l, u, IDLE, c);
  }

  lemma RegisterStays(l: W.WorkerList, caps: Capabilities, dryad: Addr, sshd: Addr, c: nat)
    ensures GoroutineStays(l, W.Register(l, caps, dryad, sshd).list, c)
  {
  }

  lemma ActKeepsAddresses(l: W.WorkerList, d: nat, answer: W.Answer, drawn: Key)
    requires W.CanStep(l, d) && l.regs[d].phase.Acting?
    ensures SameAddresses(l, W.Act(l, d, answer, drawn))
  {
    hide W.AfterInstall;
  }

  lemma ActStays(l: W.WorkerList, d: nat, answer: W.Answer, drawn: Key, c: nat)
    requires W.CanStep(l, d) && l.regs[d].phase.Acting? && c != d
    ensures GoroutineStays(l, W.Act(l, d, answer, drawn), c)
  {
    hide W.AfterInstall;
  }

  lemma CommitStays(l: W.WorkerList, d: nat, c: nat)
    requires W.CanStep(l, d) && l.regs[d].phase.Committing?
    ensures SameAddresses(l, W.Commit(l, d).list)
    ensures c != d ==> GoroutineStays(l, W.Commit(l, d).list, c)
  {
  }

  lemma RoutineStays(l: W.WorkerList, d: nat, answer: W.Answer, drawn: Key, c: nat)
    requires W.CanStep(l, d)
    ensures SameAddresses(l, W.StepRoutine(l, d, answer, drawn).list)
    ensures c != d ==> GoroutineStays(l, W.StepRoutine(l, d, answer, drawn).list, c)
  {
    hide W.Act, W.Commit, W.Receive, W.Check;
    match l.regs[d].phase
    case Waiting =>
    case Checking(_, _, _, _) =>
    case Acting(_, _, _) =>
      ActKeepsAddresses(l, d, answer, drawn);
      if c != d {
        ActStays(l, d, answer, drawn, c);
      }
    case Committing(_, _, _) => CommitStays(l, d, c);
  }

  lemma ListenerTakesJobs(s: System, o: W.Outcome)
    ensures NoNewJob(s.jobs, WithWorkers(s, o).jobs) && WithWorkers(s, o).list == o.list
  {
    hide Insert;
  }

  lemma StayingIsTransitive(a: W.WorkerList, b: W.WorkerList, d: W.WorkerList, c: nat)
    ensures SameAddresses(a, b) && SameAddresses(b, d) ==> SameAddresses(a, d)
    ensures GoroutineStays(a, b, c) && GoroutineStays(b, d, c) ==> GoroutineStays(a, d, c)
  {
  }

  /** No job is new, no address has changed, and the goroutine is where it was. */
  ghost predicate Calm(s: System, s': System, c: nat)
  {
    NoNewJob(s.jobs, s'.jobs) && SameAddresses(s.list, s'.list) && GoroutineStays(s.list, s'.list, c)
  }

  lemma EndIsCalm(s: System, r: ReqInfo, c: nat)
    ensures Calm(s, EndRequest(s, r), c)
  {
    hide W.PrepareWorker, WithWorkers;
    var s1 := SetRequest(s, r.(state := DONE));
    if r.job.Some? {
      var u := r.job.value.worker;
      var s2 := s1.(jobs := s1.jobs - {u});
      CallsStay(s.list, u, IDLE, true, c);
      ListenerTakesJobs(s2, W.PrepareWorker(s2.list, u, true));
    }
  }

  lemma {:induction false} CloseAllIsCalm(s: System, ids: seq<ReqID>, c: nat)
    ensures Calm(s, CloseAll(s, ids), c)
    decreases |ids|
  {
    hide EndRequest;
    if ids != [] {
      var s1 := Close(s, ids[0]).sys;
      if ids[0] in s.requests {
        EndIsCalm(s, s.requests[ids[0]], c);
      }
      CloseAllIsCalm(s1, ids[1..], c);
      StayingIsTransitive(s.list, s1.list, CloseAll(s1, ids[1..]).list, c);
    }
  }

  lemma {:induction false} TimeoutAllIsCalm(s: System, ids: seq<ReqID>)
    ensures TimeoutAll(s, ids).jobs == s.jobs && TimeoutAll(s, ids).list == s.list
    decreases |ids|
  {
    if ids != [] {
      TimeoutAllIsCalm(Timeout(s, ids[0]).sys, ids[1..]);
    }
  }

  lemma SameIsCalm(s: System, s': System, c: nat)
    requires s'.jobs == s.jobs && s'.list == s.list
    ensures Calm(s, s', c)
  {
  }

  lemma UpdateIsCalm(s: System, src: Update, c: nat)
    ensures Calm(s, UpdateRequest(s, src).sys, c)
  {
    hide Insert, RemoveFirst, Calm;
    SameIsCalm(s, UpdateRequest(s, src).sys, c);
  }

  lemma CallsAreCalm(s: System, step: Step, c: nat)
    requires step.CallNewRequest? || step.CallCloseRequest? || step.CallUpdateRequest? || step.CallProlongAccess?
    ensures Calm(s, Apply(s, step), c)
  {
    hide Insert, EndRequest, RemoveFirst, Calm, UpdateRequest;
    var s' := Apply(s, step);
    match step
    case CallNewRequest(_, _, _, _, _, _) => SameIsCalm(s, s', c);
    case CallCloseRequest(id) =>
      if id in s.requests && s.requests[id].state == INPROGRESS {
        EndIsCalm(s, s.requests[id], c);
      } else {
        SameIsCalm(s, s', c);
      }
    case CallUpdateRequest(src) => UpdateIsCalm(s, src, c);
    case CallProlongAccess(_) => SameIsCalm(s, s', c);
  }

  // ---------- What the matcher does ----------

  /**
   In this state the worker is idle and fit for the request, and holds what the job hands out; the request waits, and
   there is a moment up to the given one at which it is valid and its deadline has not come.
   */
  ghost predicate Fits(s: System, u: WorkerUUID, job: Job, until: Time)
  {
    && u in s.list.workers && s.list.workers[u].info.state == IDLE
    && s.list.workers[u].sshd == job.addr && s.list.workers[u].key == Some(job.key)
    && job.req in s.requests
    && var r := s.requests[job.req];
       && r.state == WAIT && O.IsEligible(s.list.workers[u].info, r.groups, r.caps)
       && s.now <= until && r.validAfter <= until && s.now < r.deadline && r.validAfter < r.deadline
  }

  /** Of the workers only states have changed, and only from IDLE to RUN. */
  ghost predicate OnlyTaken(l: W.WorkerList, l': W.WorkerList)
  {
    && l'.workers.Keys == l.workers.Keys
    && forall u :: u in l.workers ==>
                     || l'.workers[u] == l.workers[u]
                     || (&& l.workers[u].info.state == IDLE
                         && l'.workers[u] == l.workers[u].(info := l.workers[u].info.(state := RUN)))
  }

  /** Waiting requests have been given to idle workers; no goroutine has moved and no job has ended. */
  ghost predicate Allocates(s: System, s': System)
  {
    && s.now <= s'.now
    && OnlyTaken(s.list, s'.list) && (forall c :: GoroutineStays(s.list, s'.list, c))
    && (forall id :: id in s'.requests && s'.requests[id].state == WAIT ==>
                       id in s.requests && s'.requests[id] == s.requests[id])
    && (forall u :: u in s.jobs ==> u in s'.jobs && s'.jobs[u] == s.jobs[u])
    && (forall u :: u in s'.jobs ==> u in s.jobs || Fits(s, u, s'.jobs[u], s'.now))
  }

  lemma FitsBefore(a: System, b: System, u: WorkerUUID, job: Job, until: Time)
    requires Allocates(a, b) && Fits(b, u, job, until)
    ensures Fits(a, u, job, until)
  {
    hide O.IsEligible;
    assert b.list.workers[u] == a.list.workers[u];
  }

  lemma FitsLonger(s: System, u: WorkerUUID, job: Job, until: Time, later: Time)
    requires Fits(s, u, job, until) && until <= later
    ensures Fits(s, u, job, later)
  {
  }

  lemma OnlyTakenIsTransitive(a: W.WorkerList, b: W.WorkerList, c: W.WorkerList)
    requires OnlyTaken(a, b) && OnlyTaken(b, c)
    ensures OnlyTaken(a, c)
  {
  }

  lemma AllocatesIsTransitive(a: System, b: System, c: System)
    requires Allocates(a, b) && Allocates(b, c)
    ensures Allocates(a, c)
  {
    hide OnlyTaken, Fits;
    OnlyTakenIsTransitive(a.list, b.list, c.list);
    forall d: nat
      ensures GoroutineStays(a.list, c.list, d)
    {
      StayingIsTransitive(a.list, b.list, c.list, d);
    }
    forall u | u in c.jobs && u !in a.jobs
      ensures Fits(a, u, c.jobs[u], c.now)
    {
      if u in b.jobs {
        FitsLonger(a, u, c.jobs[u], b.now, c.now);
      } else {
        FitsBefore(a, b, u, c.jobs[u], c.now);
      }
    }
  }

  lemma StartAllocates(s: System, id: ReqID, u: WorkerUUID, s': System)
    requires Ready(s, id) && u in s.list.workers && O.IsStarted(s, s', id, u)
    requires s.list.workers[u].info.state == IDLE
    requires O.IsEligible(s.list.workers[u].info, s.requests[id].groups, s.requests[id].caps)
    ensures Allocates(s, s')
  {
    hide O.IsEligible, O.TakenOut;
    assert Fits(s, u, s'.jobs[u], s.now);
  }

  lemma DeclineAllocates(s: System, u: WorkerUUID)
    requires Core(s) && T.Idle(s.list, u)
    ensures Allocates(s, Declined(s, u))
  {
    hide P.Inv, Core, Declined, W.SetStateRaw;
    DeclinedKeeps(s, u);
    forall c: nat
      ensures GoroutineStays(s.list, Declined(s, u).list, c)
    {
      DeclineStays(s, u, c);
    }
  }

  lemma DeclineStays(s: System, u: WorkerUUID, c: nat)
    ensures GoroutineStays(s.list, Declined(s, u).list, c)
  {
    hide Insert, W.SetStateRaw;
    SetStateStays(s.list, u, RUN, c);
    SetStateStays(W.SetStateRaw(s.list, u, RUN).list, u, IDLE, c);
  }

  lemma AttemptAllocates(s: System, id: ReqID, tunnel: bool)
    requires Core(s) && Ready(s, id)
    ensures var s' := MatchWorkers(s, s.requests[id], tunnel).0;
            Keeps(s, s') && Allocates(s, s')
  {
    hide P.Inv, Core, Keeps, Allocates, Best, MatchWorkers, Started, Declined, O.IsStarted, O.IsEligible;
    var r := s.requests[id];
    ReadyIsNumbered(s, id);
    MatchIs(s, r, tunnel);
    var best := Best(s.list, r.groups, r.caps);
    if best.None? {
      SameAllocates(s);
    } else {
      var u := best.value;
      BestIsIdle(s.list, r.groups, r.caps, u);
      if tunnel {
        StartedKeeps(s, r, u);
        O.AttemptOutcome(s, id, true);
        O.ChosenIsLeast(s.list, r.groups, r.caps, u);
        StartAllocates(s, id, u, Started(s, r, u));
      } else {
        DeclinedKeeps(s, u);
        DeclineAllocates(s, u);
      }
    }
  }

  lemma SameAllocates(s: System)
    requires Core(s)
    ensures Keeps(s, s) && Allocates(s, s)
  {
    hide P.Inv, QueueOk, JobsOk, RunsAreJobs, KeysFit, AllTimed, TimerOk, Numbered;
  }

  lemma {:induction false} PassAllocates(s: System, order: seq<ReqID>, tunnel: ReqID -> bool)
    requires Core(s)
    ensures Keeps(s, Pass(s, order, tunnel).0) && Allocates(s, Pass(s, order, tunnel).0)
    decreases |order|
  {
    hide Core, Keeps, Allocates, MatchWorkers, Ready;
    if order == [] {
      SameAllocates(s);
    } else if !Ready(s, order[0]) {
      PassAllocates(s, order[1..], tunnel);
    } else {
      ReadyIsListed(s, order[0]);
      var (s1, matched) := MatchWorkers(s, s.requests[order[0]], tunnel(order[0]));
      AttemptAllocates(s, order[0], tunnel(order[0]));
      KeptCore(s, s1);
      if !s1.crashed && !matched {
        PassAllocates(s1, order[1..], tunnel);
        KeepsTransitive(s, s1, Pass(s1, order[1..], tunnel).0);
        AllocatesIsTransitive(s, s1, Pass(s1, order[1..], tunnel).0);
      }
    }
  }

  lemma ReadyIsListed(s: System, id: ReqID)
    requires Ready(s, id)
    ensures id in s.requests
  {
  }

  lemma LaterAllocates(s: System, delay: nat)
    requires Core(s)
    ensures Allocates(s, s.(now := s.now + delay))
  {
    hide Core;
  }

  lemma {:induction false} MatchAllAllocates(s: System, turns: nat -> Turn, n: nat)
    requires Core(s)
    ensures Allocates(s, MatchAll(s, turns, n))
    decreases Lengths(s.lists, 1)
  {
    hide Core, Keeps, Allocates, Pass, OnePass, Awake, NoneStranded, OnlyStarts;
    var (s1, matched) := OnePass(s, turns(n));
    TurnIs(s, turns(n));
    TurnAllocates(s, turns(n));
    KeptCore(s, s1);
    if matched && Lengths(s1.lists, 1) < Lengths(s.lists, 1) {
      MatchAllAllocates(s1, turns, n + 1);
      AllocatesIsTransitive(s, s1, MatchAll(s1, turns, n + 1));
    }
  }

  lemma TurnAllocates(s: System, turn: Turn)
    requires Core(s)
    ensures Allocates(s, OnePass(s, turn).0)
  {
    hide Core, Keeps, Allocates, Pass;
    var s0 := s.(now := s.now + turn.delay);
    TickKeeps(s, turn.delay);
    KeptCore(s, s0);
    LaterAllocates(s, turn.delay);
    PassAllocates(s0, Flat(s.lists, 1), turn.tunnel);
    AllocatesIsTransitive(s, s0, OnePass(s, turn).0);
  }

  /** A fire of the timer of validity gives waiting requests that are due to idle workers that are fit for them. */
  lemma FireAllocates(s: System, turns: nat -> Turn)
    requires Inv(s) && s.valid.pending.Some?
    ensures Allocates(s, FireValid(s, turns))
  {
    hide Inv, Core, MatchAll, Drained, Rearm;
    var s0 := s.(valid := Drained(s.valid, s.valid.pending.value));
    DrainedValidKeeps(s);
    MatchAllAllocates(s0, turns, 0);
  }

  // ---------- Whole runs ----------

  lemma WorkerStepIsCalm(s: System, step: Step, c: nat)
    requires R.WorkerStep(step)
    ensures NoNewJob(s.jobs, Apply(s, step).jobs)
    ensures !step.CallRegister? ==> SameAddresses(s.list, Apply(s, step).list)
    ensures !(step.Goroutine? && step.reg == c) ==> GoroutineStays(s.list, Apply(s, step).list, c)
  {
    hide WithWorkers, W.Register, W.SetFail, W.SetState, W.SetGroups, W.Deregister, W.StepRoutine, SameAddresses,
      GoroutineStays, W.CanStep;
    match step {
      case CallRegister(caps, dryad, sshd) =>
        ListenerTakesJobs(s, W.Register(s.list, caps, dryad, sshd));
        RegisterStays(s.list, caps, dryad, sshd, c);
      case CallSetFail(u) =>
        ListenerTakesJobs(s, W.SetFail(s.list, u));
        CallsStay(s.list, u, IDLE, false, c);
      case CallSetState(u, state) =>
        ListenerTakesJobs(s, W.SetState(s.list, u, state));
        CallsStay(s.list, u, state, false, c);
      case CallSetGroups(u, groups) =>
        ListenerTakesJobs(s, W.SetGroups(s.list, u, groups));
        EditsStay(s.list, u, groups, c);
      case CallDeregister(u) =>
        ListenerTakesJobs(s, W.Deregister(s.list, u));
        EditsStay(s.list, u, [], c);
      case Goroutine(d, answer, drawn) =>
        if W.CanStep(s.list, d) {
          ListenerTakesJobs(s, W.StepRoutine(s.list, d, answer, drawn));
          RoutineStays(s.list, d, answer, drawn, c);
        } else {
          EditsStay(s.list, "", [], c);
        }
    }
  }

  /** Every step leaves alone what the other kinds of step change. */
  lemma StepLeaves(s: System, step: Step, c: nat)
    requires Inv(s)
    ensures var s' := Apply(s, step);
            && (step.ValidFires? && s.valid.pending.Some? ==> Allocates(s, s'))
            && (!step.ValidFires? ==> NoNewJob(s.jobs, s'.jobs))
            && (!step.CallRegister? ==> SameAddresses(s.list, s'.list))
            && (!(step.Goroutine? && step.reg == c) ==> GoroutineStays(s.list, s'.list, c))
  {
    hide Inv, NewRequest, CloseRequest, UpdateRequest, ProlongAccess, WithWorkers, FireValid, CloseAll, TimeoutAll,
      Expire, Drained, Rearm, SameAddresses, GoroutineStays, W.CanStep, W.StepRoutine, Fits;
    var s' := Apply(s, step);
    if R.WorkerStep(step) {
      WorkerStepIsCalm(s, step, c);
    } else {
      EditsStay(s.list, "", [], c);
      match step {
        case Tick(_) =>
        case ValidExpires =>
        case DeadlineExpires =>
        case TimeoutExpires =>
        case ValidFires(turns) =>
          if s.valid.pending.Some? {
            FireAllocates(s, turns);
            TakenAreSame(s.list, s'.list);
          }
        case DeadlineFires =>
          if s.deadline.pending.Some? {
            var t := s.deadline.pending.value;
            TimeoutAllIsCalm(s.(deadline := Drained(s.deadline, t)), Ids(Drain(s.deadline.times, t)));
          }
        case TimeoutFires =>
          if s.timeout.pending.Some? {
            var t := s.timeout.pending.value;
            CloseAllIsCalm(s.(timeout := Drained(s.timeout, t)), Ids(Drain(s.timeout.times, t)), c);
          }
        case _ => CallsAreCalm(s, step, c);
      }
    }
  }

  lemma TakenAreSame(l: W.WorkerList, l': W.WorkerList)
    requires OnlyTaken(l, l')
    ensures SameAddresses(l, l')
  {
  }

  /** Step number `i` of the run is the last registration under this UUID. */
  ghost predicate Registers(steps: seq<Step>, i: nat, u: WorkerUUID)
    requires i < |steps|
  {
    && steps[i].CallRegister? && "UUID" in steps[i].caps && steps[i].caps["UUID"] == u
    && forall j :: i < j < |steps| && steps[j].CallRegister? && "UUID" in steps[j].caps ==>
                     steps[j].caps["UUID"] != u
  }

  /** Every listed worker has the capabilities and the two addresses of its last registration. */
  lemma {:induction false} WorkersAreAsRegistered(steps: seq<Step>, u: WorkerUUID) returns (i: nat)
    requires u in Exec(steps).list.workers
    ensures i < |steps| && Registers(steps, i, u)
    ensures var w := Exec(steps).list.workers[u];
            w.info.caps == steps[i].caps && w.dryad == steps[i].dryad && w.sshd == steps[i].sshd
    decreases |steps|
  {
    hide Apply, Exec, Inv;
    R.ExecIs(steps);
    assert steps != [] by {
      if steps == [] {
        NothingAtFirst();
      }
    }
    var n := |steps| - 1;
    var before, step := steps[..n], steps[n];
    var s := Exec(before);
    R.RunKeeps(before);
    if step.CallRegister? && "UUID" in step.caps && step.caps["UUID"] == u {
      i := n;
      RegisterStepIs(s, step.caps, step.dryad, step.sshd);
      RegisteredIs(s.list, step.caps, step.dryad, step.sshd);
    } else {
      if step.CallRegister? {
        RegisterStepIs(s, step.caps, step.dryad, step.sshd);
        OtherRegistered(s.list, step.caps, step.dryad, step.sshd, u);
      } else {
        StepLeaves(s, step, 0);
      }
      i := WorkersAreAsRegistered(before, u);
      assert steps[i] == before[i] && forall j :: i < j < n ==> steps[j] == before[j];
    }
  }

  lemma NothingAtFirst()
    ensures Init().list.workers == map[] && Init().jobs == map[] && Init().list.regs == []
  {
  }

  lemma RegisterStepIs(s: System, caps: Capabilities, dryad: Addr, sshd: Addr)
    requires Inv(s)
    ensures P.Inv(s.list)
    ensures Apply(s, CallRegister(caps, dryad, sshd)).list == W.Register(s.list, caps, dryad, sshd).list
  {
    hide P.Inv, W.Register, WithWorkers;
    ListenerTakesJobs(s, W.Register(s.list, caps, dryad, sshd));
  }

  lemma RegisteredIs(l: W.WorkerList, caps: Capabilities, dryad: Addr, sshd: Addr)
    requires P.Inv(l) && "UUID" in caps
    ensures var l' := W.Register(l, caps, dryad, sshd).list;
            && caps["UUID"] in l'.workers
            && var w := l'.workers[caps["UUID"]];
               w.info.caps == caps && w.dryad == dryad && w.sshd == sshd
  {
    hide P.Inv, W.Register;
    if caps["UUID"] in l.workers {
      WO.RepeatedRegistration(l, caps, dryad, sshd);
    } else {
      WO.FirstRegistration(l, caps, dryad, sshd);
    }
  }

  lemma OtherRegistered(l: W.WorkerList, caps: Capabilities, dryad: Addr, sshd: Addr, u: WorkerUUID)
    requires P.Inv(l) && ("UUID" in caps ==> caps["UUID"] != u)
    ensures var l' := W.Register(l, caps, dryad, sshd).list;
            u in l'.workers ==> u in l.workers && l'.workers[u] == l.workers[u]
  {
    hide P.Inv, W.Register;
    if "UUID" !in caps {
      WO.RegistrationWithoutUuid(l, caps, dryad, sshd);
    } else if caps["UUID"] in l.workers {
      WO.RepeatedRegistration(l, caps, dryad, sshd);
    } else {
      WO.FirstRegistration(l, caps, dryad, sshd);
    }
  }

  /**
   Every job was given by the matcher in one fire of the timer of validity, to a worker that was idle then and fit for
   the request, which waited and was due; and the worker had the address and the key that are handed out.
   */
  lemma {:induction false} JobsAreAllocated(steps: seq<Step>, u: WorkerUUID) returns (i: nat)
    requires u in Exec(steps).jobs
    ensures i < |steps| && steps[i].ValidFires? && u !in Exec(steps[..i]).jobs
    ensures Fits(Exec(steps[..i]), u, Exec(steps).jobs[u], Exec(steps[..i + 1]).now)
    decreases |steps|
  {
    hide Apply, Exec, Inv, Fits;
    R.ExecIs(steps);
    assert steps != [] by {
      if steps == [] {
        NothingAtFirst();
      }
    }
    var n := |steps| - 1;
    var before, step := steps[..n], steps[n];
    var s := Exec(before);
    R.RunKeeps(before);
    StepLeaves(s, step, 0);
    if u in s.jobs && s.jobs[u] == Exec(steps).jobs[u] {
      i := JobsAreAllocated(before, u);
      assert before[..i] == steps[..i] && before[..i + 1] == steps[..i + 1];
    } else {
      i := n;
      FireIsReceived(s, step);
      assert steps[..n + 1] == steps;
    }
  }

  lemma FireIsReceived(s: System, step: Step)
    requires step.ValidFires? && Apply(s, step) != s
    ensures s.valid.pending.Some?
  {
    hide FireValid;
  }

  /** The address in the access data is an SSH address that the worker of the request has registered. */
  lemma AccessIsAsRegistered(steps: seq<Step>, id: ReqID) returns (i: nat)
    requires AcquireWorker(Exec(steps), id).Some?
    ensures id in Exec(steps).requests && Exec(steps).requests[id].job.Some?
    ensures i < |steps| && steps[i].CallRegister? && "UUID" in steps[i].caps
    ensures steps[i].caps["UUID"] == Exec(steps).requests[id].job.value.worker
    ensures AcquireWorker(Exec(steps), id).value.addr == steps[i].sshd
  {
    hide Exec, Inv, Fits;
    var s := Exec(steps);
    var u := s.requests[id].job.value.worker;
    var k := JobsAreAllocated(steps, u);
    FittingHas(Exec(steps[..k]), u, s.jobs[u], Exec(steps[..k + 1]).now);
    i := WorkersAreAsRegistered(steps[..k], u);
    assert steps[..k][i] == steps[i];
  }

  lemma FittingHas(s: System, u: WorkerUUID, job: Job, until: Time)
    requires Fits(s, u, job, until)
    ensures u in s.list.workers && s.list.workers[u].sshd == job.addr
  {
  }

  // ---------- Nothing is forgotten ----------

  /** A due request and an idle worker that could serve it. */
  ghost predicate CouldMeet(s: System, id: ReqID, u: WorkerUUID)
  {
    id in s.requests && u in s.list.workers && O.IsDue(s, id) && O.CouldServe(s, id, u)
  }

  lemma MeetingIsStranding(s: System, id: ReqID, u: WorkerUUID)
    requires CouldMeet(s, id, u)
    ensures Stranded(s, id, u)
  {
    hide O.IsEligible, W.Candidate;
    O.CandidateIsEligible(s.list, s.requests[id].groups, s.requests[id].caps, u);
  }

  /** With tunnels at hand, after a fire no due request and idle worker that could serve it are left to each other. */
  lemma FireServesAll(s: System, turns: nat -> Turn)
    requires Inv(s) && s.valid.pending.Some? && forall i, id :: turns(i).tunnel(id)
    ensures forall id, u :: !CouldMeet(FireValid(s, turns), id, u)
  {
    hide Inv, FireValid, CouldMeet, Stranded, Awake;
    FireValidIs(s, turns);
    var s' := FireValid(s, turns);
    forall id, u
      ensures !CouldMeet(s', id, u)
    {
      if CouldMeet(s', id, u) {
        MeetingIsStranding(s', id, u);
        MeetingIsListed(s', id, u);
        assert false;
      }
    }
  }

  lemma MeetingIsListed(s: System, id: ReqID, u: WorkerUUID)
    requires CouldMeet(s, id, u)
    ensures id in s.requests && u in s.list.workers
  {
  }

  /**
   In every run without a reviving update: whenever a due request and an idle worker could meet, the next expiry of the
   timer of validity finds it due, and leaves a fire to be received.
   */
  lemma MeetingIsFired(steps: seq<Step>, id: ReqID, u: WorkerUUID)
    requires R.BenignRun(steps) && CouldMeet(Exec(steps), id, u)
    ensures Exec(steps + [ValidExpires]).valid.pending.Some?
  {
    hide Exec, CouldMeet, Stranded, R.BenignRun;
    var s := Exec(steps);
    var more := steps + [ValidExpires];
    MeetingIsStranding(s, id, u);
    MeetingIsListed(s, id, u);
    R.NoLostWakeUp(steps);
    R.ExecIs(more);
    assert more[..|steps|] == steps;
  }

  /** The same for an entry of any timer that is due. */
  lemma DueEntryIsFired(r: Timer, now: Time, e: RequestTime)
    requires Armed(r) && e in r.times && e.time <= now
    ensures Expire(r, now).pending.Some?
  {
    hide MinEntry;
    MinIsEarliest(r.times);
  }
}
