/**
 The matcher: which worker it takes, which request it serves, and what is left when it stops.
 */
module Matching {

  import opened Boruta
  import opened Lexicographic
  import opened RequestQueue
  import opened Timers
  import opened System
  import opened Invariants
  import opened Preservation
  import F = Filter
  import P = ProtocolInvariant
  import T = ProtocolTheorems
  import W = WorkerProtocol

  // ---------- The best worker ----------

  lemma {:induction false} SomeIsPreferred(l: W.WorkerList, us: set<WorkerUUID>) returns (u: WorkerUUID)
    requires us != {} && us <= l.workers.Keys
    ensures u in us && forall v :: v in us && v != u ==> Preferred(l, u, v)
    decreases |us|
  {
    var x :| x in us;
    var rest := us - {x};
    assert us == rest + {x};
    if rest == {} {
      u := x;
    } else {
      var y := SomeIsPreferred(l, rest);
      StringTrichotomy(x, y);
      u := if Preferred(l, x, y) then x else y;
      forall v | v in us && v != u
        ensures Preferred(l, u, v)
      {
        if v != x && v != y {
          assert Preferred(l, y, v);
          if u == x && StringLess(x, y) && StringLess(y, v) {
            StringTransitive(x, y, v);
          }
        }
      }
    }
  }

  /** A worker is found if and only if there is a candidate, and it is the only best one. */
  lemma BestIsFound(l: W.WorkerList, groups: seq<Group>, caps: Capabilities)
    ensures Best(l, groups, caps) == None <==> forall u :: u in l.workers ==> !W.Candidate(l, groups, caps, u)
    ensures forall u :: u in l.workers ==> (Best(l, groups, caps) == Some(u) <==> IsBest(l, groups, caps, u))
  {
    var us := set u | u in l.workers && W.Candidate(l, groups, caps, u);
    if us != {} {
      var u := SomeIsPreferred(l, us);
      assert IsBest(l, groups, caps, u);
      forall v | v in l.workers && IsBest(l, groups, caps, v)
        ensures v == u
      {
        StringTrichotomy(u, v);
      }
    } else {
      forall u | u in l.workers
        ensures !W.Candidate(l, groups, caps, u)
      {
        assert u !in us;
      }
    }
  }

  /** A worker with a proper UUID is taken only if it matches the requirements. */
  lemma BestSatisfiesRequirements(l: W.WorkerList, groups: seq<Group>, caps: Capabilities, u: WorkerUUID)
    requires P.Inv(l) && Best(l, groups, caps) == Some(u) && u != ""
    ensures u in l.workers && l.workers[u].info.state == IDLE && F.Matches(l.workers[u].info, groups, caps)
  {
    assert P.WorkerOk(l, u);
  }

  lemma {:induction false} LongestOf(s: seq<string>) returns (n: nat)
    ensures forall x :: x in s ==> |x| < n
  {
    if s == [] {
      n := 0;
    } else {
      var m := LongestOf(s[1..]);
      n := if |s[0]| < m then m else |s[0]| + 1;
      assert forall x :: x in s ==> x == s[0] || x in s[1..];
    }
  }

  /** There is always a group to which no worker belongs. */
  lemma {:induction false} UnknownGroup(l: W.WorkerList, us: set<WorkerUUID>) returns (n: nat)
    requires us <= l.workers.Keys
    ensures forall u, g :: u in us && g in l.workers[u].info.groups ==> |g| < n
    decreases |us|
  {
    if us == {} {
      n := 0;
    } else {
      var u :| u in us;
      var m := UnknownGroup(l, us - {u});
      var k := LongestOf(l.workers[u].info.groups);
      n := if k < m then m else k;
    }
  }

  /**
   Whatever is asked for, the worker that is taken satisfies it, if and only if there is no idle worker with an
   empty UUID: such a worker is listed for every request.
   */
  lemma NamelessWorkersEvadeRequirements(l: W.WorkerList)
    requires P.Inv(l)
    ensures (forall groups, caps, u :: u in l.workers && Best(l, groups, caps) == Some(u) ==>
                                         F.Matches(l.workers[u].info, groups, caps))
            <==> !(T.Idle(l, "") && W.Score(l.workers[""].info) < W.MAX_INT32)
  {
    hide P.Inv, Best;
    if T.Idle(l, "") && W.Score(l.workers[""].info) < W.MAX_INT32 {
      var n := UnknownGroup(l, l.workers.Keys);
      var g := seq(n, _ => 'g');
      forall u | u in l.workers
        ensures g !in l.workers[u].info.groups
      {
        assert |g| == n;
      }
      NamelessIsTaken(l, [g]);
    } else {
      forall groups, caps, u | u in l.workers && Best(l, groups, caps) == Some(u)
        ensures F.Matches(l.workers[u].info, groups, caps)
      {
        BestIsFound(l, groups, caps);
        if u != "" {
          BestSatisfiesRequirements(l, groups, caps, u);
        }
      }
    }
  }

  lemma NamelessIsTaken(l: W.WorkerList, groups: seq<Group>)
    requires P.Inv(l) && T.Idle(l, "") && W.Score(l.workers[""].info) < W.MAX_INT32
    requires groups != [] && forall u, g :: u in l.workers && g in groups ==> g !in l.workers[u].info.groups
    ensures Best(l, groups, map[]) == Some("") && !F.Matches(l.workers[""].info, groups, map[])
  {
    hide Best;
    forall v | v in l.workers && v != ""
      ensures !W.Candidate(l, groups, map[], v)
    {
      assert P.WorkerOk(l, v);
    }
    assert P.WorkerOk(l, "");
    BestIsFound(l, groups, map[]);
    assert IsBest(l, groups, map[], "");
  }

  // ---------- One attempt ----------

  /** The state after a request has been started on a worker. */
  ghost function Started(s: System, r: ReqInfo, u: WorkerUUID): System
    requires u in s.list.workers && s.list.workers[u].key.Some? && r.priority < LISTS
  {
    var w := s.list.workers[u];
    s.(list := W.SetStateRaw(s.list, u, RUN).list,
       jobs := s.jobs[u := Job(r.id, w.sshd, w.key.value)],
       requests := s.requests[r.id := r.(state := INPROGRESS, job := Some(JobInfo(u, s.now + HOUR)))],
       lists := s.lists[r.priority := RemoveFirst(s.lists[r.priority], r.id)],
       timeout := Insert(s.timeout, RequestTime(s.now + HOUR, r.id)))
  }

  /** The state after a worker has been taken and, for want of a tunnel, given back. */
  ghost function Declined(s: System, u: WorkerUUID): System
  {
    OnWorkerIdle(s.(list := W.SetStateRaw(W.SetStateRaw(s.list, u, RUN).list, u, IDLE).list))
  }

  lemma TakingKeepsKeys(l: W.WorkerList, u: WorkerUUID)
    requires P.Inv(l) && T.Idle(l, u) && P.Inv(W.SetStateRaw(l, u, RUN).list)
    ensures T.KeysKept(l, W.SetStateRaw(l, u, RUN).list)
    ensures T.KeysKept(l, W.SetStateRaw(W.SetStateRaw(l, u, RUN).list, u, IDLE).list)
  {
    hide P.Inv, T.KeysKept;
    var l1 := W.SetStateRaw(l, u, RUN).list;
    T.SetStateKeepsKeys(l, u, RUN);
    P.ListedIsLinked(l, u);
    T.SetStateKeepsKeys(l1, u, IDLE);
    T.KeysKeptTransitive(l, l1, W.SetStateRaw(l1, u, IDLE).list);
  }

  /** Taking an idle worker and giving it back. */
  lemma TakeAndReturn(l: W.WorkerList, u: WorkerUUID)
    requires P.Inv(l) && T.Idle(l, u)
    ensures l.workers[u].key.Some?
    ensures W.SetStateRaw(l, u, RUN).note == W.Quiet
    ensures P.Inv(W.SetStateRaw(l, u, RUN).list)
    ensures var l1 := W.SetStateRaw(l, u, RUN).list;
            var w := l.workers[u];
            var o := W.PrepareWorker(l1, u, false);
            && l1.workers == l.workers[u := w.(info := w.info.(state := RUN))]
            && T.RunsStay(l, l1) && T.RunsStay(l, o.list)
            && T.KeysKept(l, l1) && T.KeysKept(l, o.list)
            && o == W.SetStateRaw(l1, u, IDLE) && o.note == W.BecameIdle(u)
            && P.Inv(o.list) && o.list.workers == l.workers
  {
    hide P.Inv, P.Sound, P.LatestWins, P.Usable, T.KeysKept;
    P.ListedIsLinked(l, u);
    P.CallsKeep(l, u, IDLE, [], false);
    var l1 := W.SetStateRaw(l, u, RUN).list;
    P.ListedIsLinked(l1, u);
    P.CallsKeep(l1, u, IDLE, [], false);
    assert W.SetStateRaw(l1, u, IDLE).list.workers == l.workers;
    TakingKeepsKeys(l, u);
  }

  /** A job is created and its request started; neither can fail once there is a tunnel. */
  lemma StartIs(s: System, r: ReqInfo, u: WorkerUUID, tunnel: bool)
    requires Ready(s, r.id) && s.requests[r.id] == r
    requires HI_PRIO <= r.priority <= LO_PRIO && r.id in s.lists[r.priority]
    requires u in s.list.workers && s.list.workers[u].key.Some? && u !in s.jobs
    ensures var created := CreateJob(s, r.id, u, tunnel);
            if tunnel then
              && created.error == NoError
              && var w := s.list.workers[u];
                 Run(created.sys, r.id, u) == Reply(
                   s.(jobs := s.jobs[u := Job(r.id, w.sshd, w.key.value)],
                      requests := s.requests[r.id := r.(state := INPROGRESS, job := Some(JobInfo(u, s.now + HOUR)))],
                      lists := s.lists[r.priority := RemoveFirst(s.lists[r.priority], r.id)],
                      timeout := Insert(s.timeout, RequestTime(s.now + HOUR, r.id))),
                   NoError)
            else created == Reply(s, TunnelFailed)
    requires r.id == s.requests[r.id].id
  {
    hide Insert, RemoveFirst;
  }

  /** An attempt fails for want of a candidate or of a tunnel only; `Run` after `Create` always succeeds. */
  lemma MatchIs(s: System, r: ReqInfo, tunnel: bool)
    requires Core(s) && Ready(s, r.id) && s.requests[r.id] == r
    ensures r.priority < LISTS
    ensures match Best(s.list, r.groups, r.caps)
            case None => MatchWorkers(s, r, tunnel) == (s, false)
            case Some(u) =>
              && T.Idle(s.list, u) && s.list.workers[u].key.Some? && u !in s.jobs
              && MatchWorkers(s, r, tunnel) == if tunnel then (Started(s, r, u), true) else (Declined(s, u), false)
  {
    hide P.Inv, Insert, QueueOk, JobsOk, AllTimed, Best, W.SetStateRaw, W.PrepareWorker, RemoveFirst, CreateJob, Run;
    QueuedFromOk(s.requests, s.lists, r.id);
    var best := Best(s.list, r.groups, r.caps);
    if best.Some? {
      var u := best.value;
      BestIsIdle(s.list, r.groups, r.caps, u);
      TakeAndReturn(s.list, u);
      assert !T.Running(s.list, u);
      StartIs(WithWorkers(s, W.SetStateRaw(s.list, u, RUN)), r, u, tunnel);
    }
  }

  lemma BestIsIdle(l: W.WorkerList, groups: seq<Group>, caps: Capabilities, u: WorkerUUID)
    requires Best(l, groups, caps) == Some(u)
    ensures T.Idle(l, u) && W.Candidate(l, groups, caps, u)
  {
  }

  /** The key handed out with a new job is the stored one; that is on the Dryad, if there was one registration only. */
  lemma StartedKeysFit(l: W.WorkerList, jobs: Jobs, u: WorkerUUID, job: Job)
    requires P.Inv(l) && KeysFit(l, jobs) && RunsAreJobs(l, jobs) && T.Idle(l, u) && u !in jobs
    requires l.workers[u].key == Some(job.key)
    ensures KeysFit(W.SetStateRaw(l, u, RUN).list, jobs[u := job])
  {
    hide P.Inv, W.SetStateRaw, KeysFit;
    TakeAndReturn(l, u);
    var l' := W.SetStateRaw(l, u, RUN).list;
    forall v | v in jobs[u := job] && v in l'.workers && l'.workers[v].chan < |l'.regs|
               && P.Sole(l', l'.workers[v].chan)
      ensures W.Installed(l', v) == Some(jobs[u := job][v].key)
    {
      P.ListedIsLinked(l, v);
      P.SoleBefore(l, l', l.workers[v].chan);
      if v == u {
        TakenKey(l, u);
      } else {
        assert T.Running(l, v) && T.Running(l', v);
        KeyOfJob(l, jobs, v);
      }
    }
    AllKeysFit(l', jobs[u := job]);
  }

  /** If all keys agree, so does that of a new job. */
  lemma StartedKeysAgree(l: W.WorkerList, jobs: Jobs, u: WorkerUUID, job: Job)
    requires P.Inv(l) && KeysAgree(l, jobs) && RunsAreJobs(l, jobs) && T.Idle(l, u) && u !in jobs
    requires l.workers[u].key == Some(job.key)
    ensures KeysAgree(W.SetStateRaw(l, u, RUN).list, jobs[u := job])
  {
    hide P.Inv, W.SetStateRaw, KeysAgree, T.RunsStay, T.KeysKept;
    TakeAndReturn(l, u);
    var l' := W.SetStateRaw(l, u, RUN).list;
    StayingKeysAgree(l, jobs, l', jobs);
    TakenKey(l, u);
    IdleKeyAgrees(l, jobs, u);
    OneMoreAgrees(l', jobs, u, job);
  }

  lemma IdleKeyAgrees(l: W.WorkerList, jobs: Jobs, u: WorkerUUID)
    requires KeysAgree(l, jobs) && T.Idle(l, u) && l.workers[u].chan < |l.regs|
    ensures W.Installed(l, u) == l.workers[u].key
  {
  }

  lemma OneMoreAgrees(l: W.WorkerList, jobs: Jobs, u: WorkerUUID, job: Job)
    requires KeysAgree(l, jobs) && u in l.workers && l.workers[u].chan < |l.regs|
    requires W.Installed(l, u) == Some(job.key)
    ensures KeysAgree(l, jobs[u := job])
  {
    hide P.KeysMatch;
  }

  lemma TakenKey(l: W.WorkerList, u: WorkerUUID)
    requires P.Inv(l) && T.Idle(l, u)
    ensures var l' := W.SetStateRaw(l, u, RUN).list;
            var c := l.workers[u].chan;
            && c < |l.regs| && u in l'.workers && l'.workers[u].chan == c < |l'.regs|
            && W.Installed(l', u) == W.Installed(l, u)
            && (P.Sole(l, c) ==> W.Installed(l, u) == l.workers[u].key)
  {
    hide P.Inv;
    P.ListedIsLinked(l, u);
  }

  lemma StartedKeeps(s: System, r: ReqInfo, u: WorkerUUID)
    requires Core(s) && Ready(s, r.id) && s.requests[r.id] == r
    requires T.Idle(s.list, u) && s.list.workers[u].key.Some? && u !in s.jobs && r.priority < LISTS
    ensures Keeps(s, Started(s, r, u))
  {
    hide P.Inv, Insert, TimerOk, QueueOk, W.SetStateRaw, RemoveFirst, KeysFit, KeysAgree, T.RunsStay, T.KeysKept;
    TakeAndReturn(s.list, u);
    var job := Job(r.id, s.list.workers[u].sshd, s.list.workers[u].key.value);
    StartedKeysFit(s.list, s.jobs, u, job);
    if KeysAgree(s.list, s.jobs) {
      StartedKeysAgree(s.list, s.jobs, u, job);
    }
    var s' := Started(s, r, u);
    var r' := s'.requests[r.id];
    SetKeepsNumbered(s.requests, r');
    LeaveKeepsQueue(s.requests, s.lists, r');
    StartKeepsJobs(s.requests, s.jobs, r', u, s'.jobs[u]);
    InsertKeepsTimer(s.timeout, RequestTime(s.now + HOUR, r.id), s.now);
    ChangeKeepsTimed(s, s', r');
  }

  lemma DeclinedKeeps(s: System, u: WorkerUUID)
    requires Core(s) && T.Idle(s.list, u)
    ensures Keeps(s, Declined(s, u))
    ensures Declined(s, u) == s.(list := Declined(s, u).list, valid := Insert(s.valid, RequestTime(s.now, 0)))
    ensures Declined(s, u).list.workers == s.list.workers
  {
    hide P.Inv, Insert, TimerOk, QueueOk, JobsOk, W.SetStateRaw, KeysFit, KeysAgree, T.RunsStay, T.KeysKept;
    TakeAndReturn(s.list, u);
    var l2 := W.SetStateRaw(W.SetStateRaw(s.list, u, RUN).list, u, IDLE).list;
    StayingKeysFit(s.list, s.jobs, l2, s.jobs);
    if KeysAgree(s.list, s.jobs) {
      StayingKeysAgree(s.list, s.jobs, l2, s.jobs);
    }
    IdleKeeps(s.(list := W.SetStateRaw(W.SetStateRaw(s.list, u, RUN).list, u, IDLE).list));
  }
}
