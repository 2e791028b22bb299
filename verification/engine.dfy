/**
 The engine as it is built: the collection of requests, the worker list and the jobs manager, which call
 one another. Every method is proved to take the state to the one which the corresponding function of the
 system gives; `now` is what the clock shows during the call.
 */
module Engine {

  import opened Boruta
  import opened Calls
  import opened Expiry
  import opened Invariants
  import opened Listings
  import opened Preservation
  import opened PrioQueues
  import opened RequestQueue
  import opened RequestTimes
  import opened Sorters
  import opened Sorting
  import opened Timers
  import F = Filter
  import P = ProtocolInvariant
  import S = System
  import W = WorkerProtocol

  // ---------- Workers ----------

  class WorkerList {
    var workers: map<WorkerUUID, W.MapWorker>
    var regs: seq<W.Registration>
    /** The world outside: the key that the Dryad of each worker accepts. */
    ghost var dryads: map<WorkerUUID, Key>
    var changeListener: ReqsCollection?

    ghost function Value(): W.WorkerList
      reads this
    {
      W.WorkerList(workers, regs, dryads, false)
    }

    /** The listener is installed and knows this list. */
    ghost predicate Listened()
      reads this, if changeListener == null then {} else changeListener.Repr()
    {
      changeListener != null && changeListener.workers == this && changeListener.Valid()
    }

    constructor ()
      ensures Value() == W.EMPTY && changeListener == null
    {
      workers, regs, dryads, changeListener := map[], [], map[], null;
    }

    /** Tells the listener of a change of state. */
    method Inform(uuid: WorkerUUID, before: WorkerState, state: WorkerState, now: Time)
      requires Listened() && JobsOk(changeListener.requests, changeListener.jobs.jobs)
      modifies changeListener`requests, changeListener.jobs`jobs,
               changeListener.validAfterTimes, changeListener.validAfterTimes.times
      ensures Listened()
      ensures changeListener.Value(now) == S.Tell(old(changeListener.Value(now)), W.NoteOf(before, state, uuid))
      decreases if state in {IDLE, PREPARE} then 0 else 3
    {
      hide Timers.Insert, S.OnWorkerIdle, S.OnWorkerFail, JobsOk, RequestTimes.Valid, PrioQueue.Valid;
      if state == IDLE {
        changeListener.OnWorkerIdle(now);
      }
      if before == RUN && state != IDLE && state != PREPARE {
        changeListener.OnWorkerFail(uuid, now);
      }
    }

    method SetStateRaw(uuid: WorkerUUID, state: WorkerState, now: Time) returns (err: Error)
      requires Listened() && (uuid in workers ==> P.Linked(Value(), uuid))
      requires JobsOk(changeListener.requests, changeListener.jobs.jobs)
      modifies this`workers, this`regs, changeListener`requests, changeListener.jobs`jobs,
               changeListener.validAfterTimes, changeListener.validAfterTimes.times
      ensures Listened()
      ensures changeListener.Value(now) ==
              S.WithWorkers(old(changeListener.Value(now)), W.SetStateRaw(old(Value()), uuid, state))
      ensures err == W.SetStateRaw(old(Value()), uuid, state).error
      decreases if state in {IDLE, PREPARE} then 1 else 4
    {
      hide Timers.Insert, JobsOk, S.Tell, S.WithWorkers, RequestTimes.Valid, PrioQueue.Valid, Lengths, W.SetStateRaw,
        P.Linked, W.NoteOf, RequestTimes.Value, Timers.Armed;
      if uuid !in workers {
        TellUnknown(changeListener.Value(now), uuid, state);
        return NotFound;
      }
      TellBetween(changeListener.Value(now), uuid, state);
      var w := workers[uuid];
      var r := regs[w.chan];
      regs := regs[w.chan := r.(msgs := r.msgs + [state])];
      Inform(uuid, w.info.state, state, now);
      workers := workers[uuid := w.(info := w.info.(state := state))];
      err := NoError;
    }

    method PrepareWorker(uuid: WorkerUUID, withKeyGeneration: bool, now: Time) returns (err: Error)
      requires Listened() && (uuid in workers ==> P.Linked(Value(), uuid))
      requires JobsOk(changeListener.requests, changeListener.jobs.jobs)
      modifies this`workers, this`regs, changeListener`requests, changeListener.jobs`jobs,
               changeListener.validAfterTimes, changeListener.validAfterTimes.times
      ensures Listened()
      ensures changeListener.Value(now) ==
              S.WithWorkers(old(changeListener.Value(now)), W.PrepareWorker(old(Value()), uuid, withKeyGeneration))
      ensures err == W.PrepareWorker(old(Value()), uuid, withKeyGeneration).error
      decreases 2
    {
      hide P.Inv, Timers.Insert, W.SetStateRaw, RequestTimes.Valid, PrioQueue.Valid;
      if uuid !in workers {
        return NotFound;
      }
      if workers[uuid].info.state != RUN {
        return ForbiddenStateChange;
      }
      err := SetStateRaw(uuid, if withKeyGeneration then PREPARE else IDLE, now);
    }

    // ---------- The API ----------

    method Register(caps: Capabilities, dryad: Addr, sshd: Addr, now: Time) returns (err: Error)
      requires Listened() && changeListener.Ok(now)
      modifies this, changeListener, changeListener.jobs, changeListener.validAfterTimes,
               changeListener.validAfterTimes.times
      ensures Listened() && changeListener == old(changeListener) && changeListener.Ok(now)
      ensures changeListener.Value(now) ==
              S.WithWorkers(old(changeListener.Value(now)), W.Register(old(Value()), caps, dryad, sshd))
      ensures err == W.Register(old(Value()), caps, dryad, sshd).error
    {
      hide Timers.Insert, Lengths, Core, W.SetStateRaw, S.Tell, P.Inv, JobsOk, Keeps, RequestTimes.Valid,
        PrioQueue.Valid;
      ghost var s := changeListener.Value(now);
      RegisterKeeps(s, caps, dryad, sshd);
      KeptCore(s, S.WithWorkers(s, W.Register(s.list, caps, dryad, sshd)));
      CoreParts(s);
      TellNothing(s);
      TellNothing(s.(list := W.Register(s.list, caps, dryad, sshd).list));
      if UUID_CAP !in caps {
        return MissingUUID;
      }
      var uuid := caps[UUID_CAP];
      if uuid in workers {
        var worker := workers[uuid];
        var newState := worker.info.state;
        if newState == FAIL {
          newState := PREPARE;
        }
        if worker.sshd.port != sshd.port || worker.dryad.port != dryad.port || worker.info.caps != caps {
          newState := BUSY;
        }
        LinkedFromInv(Value(), uuid);
        workers := workers[uuid := worker.(info := worker.info.(caps := caps), dryad := dryad, sshd := sshd)];
        if newState != worker.info.state {
          var _ := SetStateRaw(uuid, newState, now);
        }
      } else {
        workers := workers[uuid := W.MapWorker(WorkerInfo(uuid, MAINTENANCE, [], caps), dryad, sshd, None, |regs|)];
        regs := regs + [W.Registration(uuid, [], true, W.Waiting)];
      }
      err := NoError;
    }

    method SetFail(uuid: WorkerUUID, now: Time) returns (err: Error)
      requires Listened() && changeListener.Ok(now)
      modifies this, changeListener, changeListener.jobs, changeListener.validAfterTimes,
               changeListener.validAfterTimes.times
      ensures Listened() && changeListener == old(changeListener) && changeListener.Ok(now)
      ensures changeListener.Value(now) == S.WithWorkers(old(changeListener.Value(now)), W.SetFail(old(Value()), uuid))
      ensures err == W.SetFail(old(Value()), uuid).error
    {
      hide Timers.Insert, Lengths, Core, W.SetStateRaw, S.Tell, Keeps, RequestTimes.Valid, PrioQueue.Valid;
      ghost var s := changeListener.Value(now);
      SetFailKeeps(s, uuid);
      KeptCore(s, S.WithWorkers(s, W.SetFail(s.list, uuid)));
      CoreParts(s);
      TellNothing(s);
      if uuid !in workers {
        return NotFound;
      }
      if workers[uuid].info.state == MAINTENANCE || workers[uuid].info.state == BUSY {
        return InMaintenance;
      }
      LinkedFromInv(Value(), uuid);
      err := SetStateRaw(uuid, FAIL, now);
    }

    method SetState(uuid: WorkerUUID, state: WorkerState, now: Time) returns (err: Error)
      requires Listened() && changeListener.Ok(now)
      modifies this, changeListener, changeListener.jobs, changeListener.validAfterTimes,
               changeListener.validAfterTimes.times
      ensures Listened() && changeListener == old(changeListener) && changeListener.Ok(now)
      ensures changeListener.Value(now) ==
              S.WithWorkers(old(changeListener.Value(now)), W.SetState(old(Value()), uuid, state))
      ensures err == W.SetState(old(Value()), uuid, state).error
    {
      hide Timers.Insert, Lengths, Core, S.Tell, Keeps, RequestTimes.Valid, PrioQueue.Valid;
      ghost var s := changeListener.Value(now);
      SetStateKeeps(s, uuid, state);
      KeptCore(s, S.WithWorkers(s, W.SetState(s.list, uuid, state)));
      CoreParts(s);
      TellNothing(s);
      if state != MAINTENANCE && state != IDLE {
        return WrongStateArgument;
      }
      if uuid !in workers {
        return NotFound;
      }
      var worker := workers[uuid];
      if state == MAINTENANCE && worker.info.state == BUSY {
        return NoError;
      }
      if state == IDLE && worker.info.state == PREPARE {
        return NoError;
      }
      if state == IDLE && worker.info.state != MAINTENANCE {
        return ForbiddenStateChange;
      }
      LinkedFromInv(Value(), uuid);
      match state {
        case IDLE => var _ := SetStateRaw(uuid, PREPARE, now);
        case MAINTENANCE => var _ := SetStateRaw(uuid, BUSY, now);
      }
      err := NoError;
    }

    method SetGroups(uuid: WorkerUUID, groups: seq<Group>, now: Time) returns (err: Error)
      requires Listened() && changeListener.Ok(now)
      modifies this, changeListener.validAfterTimes, changeListener.validAfterTimes.times
      ensures Listened() && changeListener == old(changeListener) && changeListener.Ok(now)
      ensures changeListener.Value(now) ==
              S.WithWorkers(old(changeListener.Value(now)), W.SetGroups(old(Value()), uuid, groups))
      ensures err == W.SetGroups(old(Value()), uuid, groups).error
    {
      hide Timers.Insert, Lengths, Core, Keeps, RequestTimes.Valid, PrioQueue.Valid;
      ghost var s := changeListener.Value(now);
      SetGroupsKeeps(s, uuid, groups);
      KeptCore(s, S.WithWorkers(s, W.SetGroups(s.list, uuid, groups)));
      if uuid !in workers {
        return NotFound;
      }
      var worker := workers[uuid];
      workers := workers[uuid := worker.(info := worker.info.(groups := F.SortedStrings(groups)))];
      if worker.info.state == IDLE {
        changeListener.OnWorkerIdle(now);
      }
      err := NoError;
    }

    method Deregister(uuid: WorkerUUID, ghost now: Time) returns (err: Error)
      requires Listened() && changeListener.Ok(now)
      modifies this
      ensures Listened() && changeListener == old(changeListener) && changeListener.Ok(now)
      ensures changeListener.Value(now) ==
              S.WithWorkers(old(changeListener.Value(now)), W.Deregister(old(Value()), uuid))
      ensures err == W.Deregister(old(Value()), uuid).error
    {
      hide Timers.Insert, Lengths, Core, P.Inv, JobsOk, S.Tell, Keeps, RequestTimes.Valid, PrioQueue.Valid;
      ghost var s := changeListener.Value(now);
      TellNothing(s);
      TellNothing(s.(list := W.Deregister(s.list, uuid).list));
      DeregisterKeeps(s, uuid);
      KeptCore(s, S.WithWorkers(s, W.Deregister(s.list, uuid)));
      CoreParts(s);
      if uuid !in workers {
        return NotFound;
      }
      var worker := workers[uuid];
      if worker.info.state != MAINTENANCE && worker.info.state != FAIL {
        return NotInFailOrMaintenance;
      }
      LinkedFromInv(Value(), uuid);
      regs := regs[worker.chan := regs[worker.chan].(open := false)];
      workers := workers - {uuid};
      err := NoError;
    }

    // ---------- Listing and choosing ----------

    /** The sorted list of workers that match the filter, with the one named in addition. */
    method ListMatching(filter: Option<F.WorkerFilter>, sorter: WorkerSorter, pid: WorkerUUID, onlyIdle: bool)
      returns (matching: seq<WorkerInfo>)
      requires P.Inv(Value())
      ensures DistinctUuids(Wanted(Value(), filter, pid, onlyIdle))
      ensures Orders(WorkerOrder(sorter), Wanted(Value(), filter, pid, onlyIdle))
      ensures matching == Listing(WorkerOrder(sorter), Wanted(Value(), filter, pid, onlyIdle))
    {
      hide P.Inv, Listing, Orders, NoRepetition, F.Matches;
      var res: seq<WorkerInfo> := [];
      NothingRepeats<WorkerInfo>();
      var left := workers.Keys;
      while left != {}
        invariant left <= workers.Keys
        invariant forall w :: w in res <==> w.uuid in workers && w.uuid !in left && workers[w.uuid].info == w
                                            && IsWanted(w, filter, pid, onlyIdle)
        invariant NoRepetition(res)
        decreases |left|
      {
        var u :| u in left;
        var w := workers[u].info;
        InfoIsUnique(Value(), u);
        left := left - {u};
        var matches := filter.None?;
        if !matches {
          matches := F.MatchWorker(w, filter.value.groups, filter.value.caps);
        }
        if (matches || w.uuid == pid) && (!onlyIdle || w.state == IDLE) {
          Appended(res, w);
          res := res + [w];
        }
      }
      WantedIs(Value(), filter, pid, onlyIdle, Elements(res));
      WantedAreDistinct(Value(), filter, pid, onlyIdle);
      WorkersAreOrdered(sorter, Elements(res));
      matching := Sort(WorkerOrder(sorter), res);
    }

    /** One page of the workers that match the filter; the cursor is a worker, the empty UUID means none. */
    method ListWorkers(filter: Option<F.WorkerFilter>, info: Option<SortInfo>, id: WorkerUUID, forward: bool,
                       limit: nat)
      returns (page: Option<Page<WorkerInfo>>, err: Error)
      requires P.Inv(Value())
      ensures err == if id != "" && id !in workers then NotFound
                     else if NewWorkerSorter(info).None? then WrongSortItem else NoError
      ensures page.Some? <==> err == NoError
      ensures err == NoError ==>
                page.value ==
                WorkerPage(Value(), filter, NewWorkerSorter(info).value, id, forward, EffectiveLimit(limit))
    {
      hide P.Inv, Listing, Orders, CutPage, Recognises;
      if id != "" && id !in workers {
        return None, NotFound;
      }
      var sorter := NewWorkerSorter(info);
      if sorter.None? {
        return None, WrongSortItem;
      }
      var res := ListMatching(filter, sorter.value, id, false);
      var matches := true;
      if id != "" && filter.Some? {
        matches := F.MatchWorker(workers[id].info, filter.value.groups, filter.value.caps);
      }
      ghost var shown := Shown(Value(), filter, id);
      ShownAndCursor(Value(), filter, id);
      ShownIsOrdered(Value(), filter, id, sorter.value);
      var cursor := if id == "" then None else Some(workers[id].info);
      CursorIsRecognised(Value(), filter, id, res);
      var p := Cut(WorkerOrder(sorter.value), shown, res, cursor, HasUuid(id), forward, EffectiveLimit(limit), matches);
      return Some(p), NoError;
    }

    /** Takes the least capable idle worker that is listed for the requirements, and sets it running. */
    method TakeBestMatchingWorker(groups: seq<Group>, caps: Capabilities, now: Time)
      returns (worker: WorkerUUID, err: Error)
      requires Listened() && Core(changeListener.Value(now))
      modifies this`workers, this`regs, changeListener`requests, changeListener.jobs`jobs,
               changeListener.validAfterTimes, changeListener.validAfterTimes.times
      ensures Listened()
      ensures match S.Best(old(Value()), groups, caps)
              case None => err == NoMatchingWorker && changeListener.Value(now) == old(changeListener.Value(now))
              case Some(u) =>
                && err == NoError && worker == u
                && changeListener.Value(now) ==
                   S.WithWorkers(old(changeListener.Value(now)), W.SetStateRaw(old(Value()), u, RUN))
    {
      hide Timers.Insert, Core, P.Inv, Listing, Orders, S.Best, S.IsBest, S.WithWorkers, W.SetStateRaw, JobsOk,
        Wanted, Sorted, FirstLeast, P.Linked, Lengths, RequestTimes.Valid, PrioQueue.Valid;
      CoreParts(changeListener.Value(now));
      var sorter := WorkerSorter(ByUuid, false);
      var matching := ListMatching(Some(F.WorkerFilter(groups, caps)), sorter, "", true);
      var bestScore;
      ghost var at;
      bestScore, worker, at := LeastScore(matching);
      if bestScore == W.MAX_INT32 {
        NoneIsBest(Value(), groups, caps, matching);
        return worker, NoMatchingWorker;
      }
      FirstLeastIsBest(Value(), groups, caps, matching, at);
      err := SetStateRaw(worker, RUN, now);
    }

    // ---------- The background goroutine ----------

    /** Empties the channel without blocking; reports the last message, and whether the channel is closed. */
    method CheckPendingOperation(c: nat) returns (got: bool, open: bool, state: WorkerState)
      requires c < |regs|
      modifies this`regs
      ensures regs == old(regs)[c := old(regs)[c].(msgs := [])]
      ensures got <==> W.Pending(old(regs)[c])
      ensures got ==> open == old(regs)[c].open
      ensures got && open ==> old(regs)[c].msgs != [] && state == old(regs)[c].msgs[|old(regs)[c].msgs| - 1]
    {
      got, open, state := false, false, MAINTENANCE;
      ghost var all := regs[c].msgs;
      ghost var n := 0;
      while regs[c].msgs != []
        invariant n <= |all| && regs == old(regs)[c := old(regs)[c].(msgs := all[n..])]
        invariant got <==> n > 0
        invariant got ==> open && state == all[n - 1]
        decreases |all| - n
      {
        got, open, state := true, true, regs[c].msgs[0];
        regs := regs[c := regs[c].(msgs := regs[c].msgs[1..])];
        n := n + 1;
      }
      if !regs[c].open {
        got, open := true, false;
      }
    }

    /** The goroutine's part of a look at the channel that precedes or follows an action. */
    method Check(c: nat)
      requires c < |regs| && regs[c].phase.Checking?
      modifies this`regs
      ensures regs == old(regs)[c := W.Check(old(regs)[c])]
    {
      var phase := regs[c].phase;
      var got, open, state := CheckPendingOperation(c);
      var next :=
        if got then (if open then W.Dispatch(state) else W.Ended)
        else if phase.failed || phase.done >= |W.Actions(phase.op)| then W.Committing(phase.op, phase.failed, phase.key)
        else W.Acting(phase.op, phase.done, phase.key);
      regs := regs[c := regs[c].(phase := next)];
    }

    /** The blocking receive at the head of the loop. */
    method Receive(c: nat)
      requires c < |regs| && W.CanReceive(regs[c])
      modifies this`regs
      ensures regs == old(regs)[c := W.Receive(old(regs)[c])]
    {
      var r := regs[c];
      if r.msgs != [] {
        regs := regs[c := r.(msgs := r.msgs[1..], phase := W.Dispatch(r.msgs[0]))];
      } else {
        regs := regs[c := r.(phase := W.Ended)];
      }
    }

    method GetWorkerAddr(uuid: WorkerUUID) returns (addr: Option<Addr>)
      ensures addr == if uuid in workers then Some(workers[uuid].dryad) else None
    {
      addr := if uuid in workers then Some(workers[uuid].dryad) else None;
    }

    /** Stores the key under the UUID, whichever registration of the worker it was made for. */
    method SetWorkerKey(uuid: WorkerUUID, key: Key) returns (err: Error)
      modifies this`workers
      ensures err == if uuid in workers then NoError else NotFound
      ensures workers.Keys == old(workers).Keys
      ensures forall u :: u in workers ==>
                workers[u] == if u == uuid then old(workers)[u].(key := Some(key)) else old(workers)[u]
    {
      if uuid !in workers {
        return NotFound;
      }
      workers := workers[uuid := workers[uuid].(key := Some(key))];
      err := NoError;
    }

    /** One action of an operation; `drawn` is the key drawn by a generation. */
    method Act(c: nat, answer: W.Answer, drawn: Key)
      requires c < |regs| && regs[c].phase.Acting? && regs[c].phase.done < |W.Actions(regs[c].phase.op)|
      modifies this`workers, this`regs, this`dryads
      ensures Value() == W.Act(old(Value()), c, answer, drawn)
    {
      var r := regs[c];
      var phase := r.phase;
      var failed, key := answer != W.Success, phase.key;
      match W.Actions(phase.op)[phase.done] {
        case GetAddr =>
          var addr := GetWorkerAddr(r.uuid);
          failed := addr.None?;
        case Generate =>
          key := drawn;
        case Install =>
          dryads := W.AfterInstall(dryads, r.uuid, key, answer);
        case Store =>
          var err := SetWorkerKey(r.uuid, key);
          failed := err != NoError;
          assert workers == W.Act(old(Value()), c, answer, drawn).workers;
        case Dial =>
        case Encode =>
        case Order =>
      }
      regs := regs[c := r.(phase := W.Checking(phase.op, phase.done + 1, failed, key))];
    }

    /** The critical section that ends an operation: a last look, and the new state if nothing was found. */
    method Commit(c: nat, now: Time)
      requires Listened() && changeListener.Ok(now) && c < |regs| && regs[c].phase.Committing?
      modifies this, changeListener, changeListener.jobs, changeListener.validAfterTimes,
               changeListener.validAfterTimes.times
      ensures Listened() && changeListener == old(changeListener) && changeListener.Ok(now)
      ensures changeListener.Value(now) == S.WithWorkers(old(changeListener.Value(now)), W.Commit(old(Value()), c))
    {
      hide Timers.Insert, Lengths, Core, S.Tell, P.Inv, JobsOk, W.SetStateRaw, Keeps, RequestTimes.Valid,
        PrioQueue.Valid, KeepsState;
      ghost var s := changeListener.Value(now);
      GoroutineKeeps(s, c, W.Success, 0);
      StateKept(s, S.WithWorkers(s, W.StepRoutine(s.list, c, W.Success, 0)));
      CoreParts(s);
      assert W.StepRoutine(s.list, c, W.Success, 0) == W.Commit(s.list, c);
      var r := regs[c];
      var got, open, state := CheckPendingOperation(c);
      if got {
        TellNothing(s.(list := W.Commit(s.list, c).list));
        regs := regs[c := regs[c].(phase := if open then W.Dispatch(state) else W.Ended)];
        assert Value() == W.Commit(s.list, c).list;
        assert changeListener.Value(now) == S.WithWorkers(s, W.Commit(s.list, c));
        return;
      }
      OpenIsLinked(s.list, c);
      regs := regs[c := regs[c].(phase := W.Waiting)];
      ghost var s1 := changeListener.Value(now);
      assert s1 == s.(list := s.list.(regs := s.list.regs[c := r.(phase := W.Waiting)]));
      var _ := SetStateRaw(r.uuid, W.Target(r.phase.op, r.phase.failed), now);
    }

    /** One step of the loop of a goroutine, wherever it is. */
    method BackgroundStep(c: nat, answer: W.Answer, drawn: Key, now: Time)
      requires Listened() && changeListener.Ok(now) && W.CanStep(Value(), c)
      modifies this, changeListener, changeListener.jobs, changeListener.validAfterTimes,
               changeListener.validAfterTimes.times
      ensures Listened() && changeListener == old(changeListener) && changeListener.Ok(now)
      ensures changeListener.Value(now) ==
              S.WithWorkers(old(changeListener.Value(now)), W.StepRoutine(old(Value()), c, answer, drawn))
    {
      hide Timers.Insert, Lengths, Core, S.Tell, P.Inv, JobsOk, W.SetStateRaw, W.Act, W.Check, W.Receive, W.Commit,
        Keeps, RequestTimes.Valid, PrioQueue.Valid, KeepsState;
      ghost var s := changeListener.Value(now);
      GoroutineKeeps(s, c, answer, drawn);
      StateKept(s, S.WithWorkers(s, W.StepRoutine(s.list, c, answer, drawn)));
      TellNothing(s.(list := W.StepRoutine(s.list, c, answer, drawn).list));
      match regs[c].phase {
        case Waiting => Receive(c);
        case Checking(_, _, _, _) => Check(c);
        case Acting(_, _, _) => Act(c, answer, drawn);
        case Committing(_, _, _) => Commit(c, now);
      }
    }
  }

  // ---------- Jobs ----------

  class JobsManager {
    const workers: WorkerList
    var jobs: map<WorkerUUID, Job>

    constructor (w: WorkerList)
      ensures workers == w && jobs == map[]
    {
      workers, jobs := w, map[];
    }

    /** The source looks up address and key of the worker and opens a tunnel; a missing key would be dereferenced. */
    method Create(req: ReqID, worker: WorkerUUID, tunnel: bool, ghost now: Time) returns (err: Error)
      requires workers.Listened() && workers.changeListener.jobs == this
      requires worker !in jobs && worker in workers.workers ==> workers.workers[worker].key.Some?
      modifies this`jobs
      ensures workers.Listened()
      ensures S.Reply(workers.changeListener.Value(now), err) ==
              S.CreateJob(old(workers.changeListener.Value(now)), req, worker, tunnel)
    {
      if worker in jobs {
        return JobAlreadyExists;
      }
      if worker !in workers.workers {
        return NotFound;
      }
      var addr := workers.workers[worker].sshd;
      var key := workers.workers[worker].key.value;
      if !tunnel {
        return TunnelFailed;
      }
      jobs := jobs[worker := Job(req, addr, key)];
      err := NoError;
    }

    /** Ends a job; its worker is prepared for the next one, if this is asked for. */
    method Finish(worker: WorkerUUID, prepare: bool, now: Time) returns (err: Error)
      requires workers.Listened() && workers.changeListener.jobs == this
      requires prepare ==> worker in workers.workers ==> P.Linked(workers.Value(), worker)
      requires prepare ==> JobsOk(workers.changeListener.requests, jobs - {worker})
      modifies this`jobs
      modifies if prepare then {workers, workers.changeListener, workers.changeListener.validAfterTimes,
                                workers.changeListener.validAfterTimes.times} else {}
      ensures workers.Listened() && workers.changeListener == old(workers.changeListener)
      ensures workers.changeListener.Value(now) == S.FinishJob(old(workers.changeListener.Value(now)), worker, prepare)
      ensures workers.changeListener.iterating == old(workers.changeListener.iterating)
      ensures err == if worker in old(jobs) then NoError else NotFound
      decreases if prepare then 3 else 1
    {
      hide P.Inv, Timers.Insert, W.PrepareWorker, RequestTimes.Valid, PrioQueue.Valid;
      err := if worker in jobs then NoError else NotFound;
      jobs := jobs - {worker};
      if prepare {
        var _ := workers.PrepareWorker(worker, true, now);
      }
    }

    method Get(worker: WorkerUUID) returns (job: Option<Job>)
      ensures job == if worker in jobs then Some(jobs[worker]) else None
    {
      job := if worker in jobs then Some(jobs[worker]) else None;
    }
  }

  // ---------- Requests ----------

  class ReqsCollection {
    var requests: map<ReqID, ReqInfo>
    const queue: PrioQueue
    var iterating: bool
    const workers: WorkerList
    const jobs: JobsManager
    const validAfterTimes: RequestTimes
    const deadlineTimes: RequestTimes
    const timeoutTimes: RequestTimes

    ghost function Repr(): set<object>
    {
      {this, workers, jobs, queue, queue.queue, validAfterTimes, validAfterTimes.times,
       deadlineTimes, deadlineTimes.times, timeoutTimes, timeoutTimes.times}
    }

    ghost predicate Valid()
      reads Repr()
    {
      && jobs.workers == workers && workers.changeListener == this
      && queue.Valid() && validAfterTimes.Valid() && deadlineTimes.Valid() && timeoutTimes.Valid()
      && validAfterTimes != deadlineTimes && validAfterTimes != timeoutTimes && deadlineTimes != timeoutTimes
      && validAfterTimes.times != deadlineTimes.times && validAfterTimes.times != timeoutTimes.times
      && deadlineTimes.times != timeoutTimes.times
      && (iterating ==> queue.locked && queue.live)
      && (!iterating ==> !queue.locked)
    }

    /** The state of the whole engine. */
    ghost function Value(now: Time): S.System
      reads Repr(), queue, queue.queue
      requires queue.Valid()
    {
      S.System(workers.Value(), jobs.jobs, requests, queue.Value(),
               validAfterTimes.Value(), deadlineTimes.Value(), timeoutTimes.Value(), now, false)
    }

    /** Between operations the invariants hold and nobody iterates. */
    ghost predicate Ok(now: Time)
      reads Repr()
    {
      Valid() && !iterating && Core(Value(now))
    }

    constructor (w: WorkerList, j: JobsManager)
      requires w.Value() == W.EMPTY && j.workers == w && j.jobs == map[]
      modifies w`changeListener
      ensures workers == w && jobs == j && forall o :: o in Repr() ==> o == w || o == j || fresh(o)
      ensures w.changeListener == this
      ensures Valid() && !iterating && Value(1) == S.Init()
    {
      hide Lengths, RequestTimes.Valid, PrioQueue.Valid;
      requests := map[];
      iterating := false;
      workers, jobs := w, j;
      queue := new PrioQueue();
      var a := new RequestTimes();
      var b := new RequestTimes();
      var c := new RequestTimes();
      validAfterTimes, deadlineTimes, timeoutTimes := a, b, c;
      new;
      w.changeListener := this;
    }

    // ---------- The change listener ----------

    method OnWorkerIdle(now: Time)
      requires Valid()
      modifies validAfterTimes, validAfterTimes.times
      ensures Valid() && Value(now) == S.OnWorkerIdle(old(Value(now)))
    {
      hide Timers.Insert, RequestTimes.Valid, PrioQueue.Valid;
      validAfterTimes.Insert(RequestTime(now, 0));
    }

    method OnWorkerFail(worker: WorkerUUID, now: Time)
      requires Valid() && JobsOk(requests, jobs.jobs)
      modifies this`requests, jobs`jobs
      ensures Valid() && Value(now) == S.OnWorkerFail(old(Value(now)), worker)
      decreases 2
    {
      hide Timers.Insert, RequestTimes.Valid, PrioQueue.Valid;
      var job := jobs.Get(worker);
      if job.None? {
        return;
      }
      var id := job.value.req;
      assert JobOk(requests, jobs.jobs, worker);
      var req := requests[id];
      var _ := jobs.Finish(worker, false, now);
      requests := requests[id := req.(state := FAILED)];
    }

    // ---------- Operations on requests ----------

    method NewRequest(caps: Capabilities, priority: Priority, groups: seq<Group>, validAfter: Time, deadline: Time,
                      monthLater: Time, now: Time) returns (id: ReqID, err: Error)
      requires Ok(now)
      modifies this`requests, queue, queue.queue, validAfterTimes, validAfterTimes.times,
               deadlineTimes, deadlineTimes.times
      ensures Ok(now)
      ensures S.Reply(Value(now), err) ==
              S.NewRequest(old(Value(now)), caps, priority, groups, validAfter, deadline, monthLater)
      ensures id == if err == NoError then |old(requests)| + 1 else 0
    {
      hide Timers.Insert, Core, Lengths, Keeps, RequestTimes.Valid, PrioQueue.Valid;
      NewRequestKeeps(Value(now), caps, priority, groups, validAfter, deadline, monthLater);
      KeptCore(Value(now), S.NewRequest(Value(now), caps, priority, groups, validAfter, deadline, monthLater).sys);
      var req := ReqInfo(0, priority, groups, deadline, validAfter, WAIT, None, caps);
      if req.deadline != ZERO_TIME && req.deadline < now {
        return 0, DeadlineInThePast;
      }
      if req.validAfter > req.deadline && req.deadline != ZERO_TIME {
        return 0, InvalidTimeRange;
      }
      if req.validAfter == ZERO_TIME {
        req := req.(validAfter := now);
      }
      if req.deadline == ZERO_TIME {
        req := req.(deadline := monthLater);
      }
      if req.priority < HI_PRIO || req.priority > LO_PRIO {
        return 0, PriorityOutOfBounds;
      }
      req := req.(id := |requests| + 1);
      queue.Push(req.id, req.priority);
      requests := requests[req.id := req];
      validAfterTimes.Insert(RequestTime(req.validAfter, req.id));
      deadlineTimes.Insert(RequestTime(req.deadline, req.id));
      return req.id, NoError;
    }

    /**
     Ends a running request; the caller has made sure that it may be ended. While a fire is processed the
     invariants hold with the heap as it was before; this is what `t` stands for.
     */
    method EndRequest(req: ReqInfo, now: Time, ghost t: Timer)
      requires Valid() && !iterating && Core(Value(now).(timeout := t))
      requires req.id in requests && requests[req.id] == req && req.state == INPROGRESS
      modifies this, workers, jobs, validAfterTimes, validAfterTimes.times
      ensures Valid() && !iterating && Core(Value(now).(timeout := t))
      ensures Value(now) == S.EndRequest(old(Value(now)), req)
    {
      hide Timers.Insert, Lengths, Core, JobsOk, P.Linked, S.EndRequest, S.FinishJob, RequestTimes.Valid,
        PrioQueue.Valid;
      EndParts(Value(now), req, t);
      requests := requests[req.id := req.(state := DONE)];
      if req.job.None? {
        return;
      }
      var worker := req.job.value.worker;
      var _ := jobs.Finish(worker, true, now);
    }

    method CloseRequest(id: ReqID, now: Time) returns (err: Error)
      requires Ok(now)
      modifies Repr()
      ensures Ok(now) && S.Reply(Value(now), err) == S.CloseRequest(old(Value(now)), id)
    {
      hide Timers.Insert, Lengths, Core, S.EndRequest, RemoveFirst, Keeps, RequestTimes.Valid, PrioQueue.Valid;
      CloseRequestKeeps(Value(now), id);
      KeptCore(Value(now), S.CloseRequest(Value(now), id).sys);
      if id !in requests {
        return NotFound;
      }
      var req := requests[id];
      SelfNumbered(Value(now), id);
      match req.state {
        case WAIT =>
          requests := requests[id := req.(state := CANCEL)];
          WaitingIsQueued(old(Value(now)), id);
          queue.Remove(req.id, req.priority);
        case INPROGRESS =>
          EndRequest(req, now, timeoutTimes.Value());
        case _ =>
          return ModificationForbidden;
      }
      err := NoError;
    }

    /** The update returns the entries that the caller is to insert, as the source does. */
    method UpdateInPlace(src: S.Update, now: Time)
      returns (validAfterTime: Option<RequestTime>, deadlineTime: Option<RequestTime>, err: Error)
      requires Ok(now) && !(src.priority == 0 && src.validAfter == ZERO_TIME && src.deadline == ZERO_TIME)
      modifies this`requests, queue, queue.queue
      ensures Valid() && !iterating
      ensures err == S.UpdateRequest(old(Value(now)), src).error
      ensures var s := Value(now);
              var s1 :=
                if validAfterTime.Some? then s.(valid := Timers.Insert(s.valid, validAfterTime.value)) else s;
              var s2 :=
                if deadlineTime.Some? then s1.(deadline := Timers.Insert(s1.deadline, deadlineTime.value)) else s1;
              s2 == S.UpdateRequest(old(Value(now)), src).sys
    {
      hide Timers.Insert, Lengths, Core, RemoveFirst, RequestTimes.Valid, PrioQueue.Valid;
      validAfterTime, deadlineTime, err := None, None, NoError;
      if src.id !in requests {
        err := NotFound;
        return;
      }
      var dst := requests[src.id];
      SelfNumbered(Value(now), src.id);
      if dst.state != WAIT {
        err := ModificationForbidden;
        return;
      }
      if src.priority == dst.priority && src.validAfter == dst.validAfter && src.deadline == dst.deadline {
        return;
      }
      if src.priority != 0 && (src.priority < HI_PRIO || src.priority > LO_PRIO) {
        err := PriorityOutOfBounds;
        return;
      }
      var deadline := dst.deadline;
      if src.deadline != ZERO_TIME {
        if src.deadline < now {
          err := DeadlineInThePast;
          return;
        }
        deadline := src.deadline;
      }
      if src.validAfter != ZERO_TIME && deadline != ZERO_TIME && src.validAfter > deadline {
        err := InvalidTimeRange;
        return;
      }
      WaitingIsQueued(Value(now), src.id);
      if src.priority != 0 {
        queue.SetRequestPriority(dst.id, dst.priority, src.priority);
        dst := dst.(priority := src.priority);
      }
      if src.validAfter != ZERO_TIME {
        dst := dst.(validAfter := src.validAfter);
        validAfterTime := Some(RequestTime(src.validAfter, src.id));
      }
      if dst.deadline != deadline {
        dst := dst.(deadline := deadline);
        deadlineTime := Some(RequestTime(deadline, src.id));
      }
      requests := requests[src.id := dst];
    }

    method UpdateRequest(src: S.Update, now: Time) returns (err: Error)
      requires Ok(now)
      modifies this`requests, queue, queue.queue, validAfterTimes, validAfterTimes.times,
               deadlineTimes, deadlineTimes.times
      ensures Ok(now) && S.Reply(Value(now), err) == S.UpdateRequest(old(Value(now)), src)
    {
      hide Timers.Insert, Lengths, Core, RemoveFirst, Keeps, RequestTimes.Valid, PrioQueue.Valid;
      UpdateKeeps(Value(now), src);
      KeptCore(Value(now), S.UpdateRequest(Value(now), src).sys);
      if src.priority == 0 && src.validAfter == ZERO_TIME && src.deadline == ZERO_TIME {
        return NoError;
      }
      UpdateErrorKeeps(Value(now), src);
      var validAfterTime, deadlineTime;
      validAfterTime, deadlineTime, err := UpdateInPlace(src, now);
      hide S.UpdateRequest, Keeps, RequestTimes.Valid, PrioQueue.Valid;
      if err != NoError {
        return;
      }
      if validAfterTime.Some? {
        validAfterTimes.Insert(validAfterTime.value);
      }
      if deadlineTime.Some? {
        deadlineTimes.Insert(deadlineTime.value);
      }
    }

    method ProlongAccess(id: ReqID, now: Time) returns (err: Error)
      requires Ok(now)
      modifies this`requests, timeoutTimes, timeoutTimes.times
      ensures Ok(now) && S.Reply(Value(now), err) == S.ProlongAccess(old(Value(now)), id)
    {
      hide Timers.Insert, Lengths, Core, Keeps, RequestTimes.Valid, PrioQueue.Valid;
      ProlongKeeps(Value(now), id);
      KeptCore(Value(now), S.ProlongAccess(Value(now), id).sys);
      if id !in requests {
        return NotFound;
      }
      var req := requests[id];
      SelfNumbered(Value(now), id);
      if req.state != INPROGRESS || req.job.None? {
        return WorkerNotAssigned;
      }
      req := req.(job := Some(req.job.value.(timeout := now + HOUR)));
      requests := requests[id := req];
      timeoutTimes.Insert(RequestTime(req.job.value.timeout, id));
      err := NoError;
    }

    /** A request in progress always has a job, so the last of the source's errors is never met. */
    method AcquireWorker(id: ReqID, ghost now: Time) returns (job: Option<Job>, err: Error)
      requires Ok(now)
      ensures job == S.AcquireWorker(Value(now), id)
      ensures err == if id !in requests then NotFound
                     else if requests[id].state != INPROGRESS then WorkerNotAssigned else NoError
      ensures job.Some? <==> err == NoError
    {
      hide Lengths, P.Inv, QueueOk, AllTimed, RequestTimes.Valid, PrioQueue.Valid;
      if id !in requests {
        return None, NotFound;
      }
      assert Served(requests, jobs.jobs, id);
      if requests[id].state != INPROGRESS || requests[id].job.None? {
        return None, WorkerNotAssigned;
      }
      job := jobs.Get(requests[id].job.value.worker);
      if job.None? {
        return None, NotFound;
      }
      err := NoError;
    }

    /** As above, `d` is the heap of deadlines with which the invariants hold. */
    method Timeout(id: ReqID, now: Time, ghost d: Timer) returns (err: Error)
      requires Valid() && !iterating && Core(Value(now).(deadline := d))
      modifies this`requests, queue, queue.queue
      ensures Valid() && !iterating && Core(Value(now).(deadline := d))
      ensures S.Reply(Value(now), err) == S.Timeout(old(Value(now)), id)
    {
      hide Timers.Insert, Lengths, Core, RemoveFirst, Keeps, RequestTimes.Valid, PrioQueue.Valid;
      ghost var s := Value(now).(deadline := d);
      TimeoutKeeps(s, id);
      KeptCore(s, S.Timeout(s, id).sys);
      if id !in requests {
        return NotFound;
      }
      var req := requests[id];
      SelfNumbered(s, id);
      if req.state != WAIT || req.deadline > now {
        return ModificationForbidden;
      }
      requests := requests[id := req.(state := TIMEOUT)];
      WaitingIsQueued(s, id);
      queue.Remove(req.id, req.priority);
      err := NoError;
    }

    method Close(id: ReqID, now: Time, ghost t: Timer) returns (err: Error)
      requires Valid() && !iterating && Core(Value(now).(timeout := t))
      modifies this, workers, jobs, validAfterTimes, validAfterTimes.times
      ensures Valid() && !iterating && Core(Value(now).(timeout := t))
      ensures S.Reply(Value(now), err) == S.Close(old(Value(now)), id)
    {
      hide Timers.Insert, Lengths, Core, S.EndRequest, RequestTimes.Valid, PrioQueue.Valid;
      if id !in requests {
        return NotFound;
      }
      var req := requests[id];
      SelfNumbered(Value(now).(timeout := t), id);
      if req.state != INPROGRESS {
        return ModificationForbidden;
      }
      if req.job.None? {
        return InternalLogicError;
      }
      if req.job.value.timeout > now {
        return ModificationForbidden;
      }
      EndRequest(req, now, t);
      err := NoError;
    }

    // ---------- Listing ----------

    /** The requests that match the filter, and the one named, in no particular order. */
    method Select(filter: Option<F.RequestFilter>, id: ReqID) returns (res: seq<ReqInfo>)
      requires Numbered(requests) && (id != 0 ==> id in requests)
      ensures Elements(res) ==
              MatchedRequests(requests, filter) + if id == 0 then {} else {requests[id]}
      ensures NoRepetition(res)
      ensures DistinctIds(Elements(res))
    {
      hide F.RequestMatches, NoRepetition;
      ghost var all := MatchedRequests(requests, filter) + if id == 0 then {} else {requests[id]};
      res := [];
      NothingRepeats<ReqInfo>();
      var left := requests.Keys;
      while left != {}
        invariant left <= requests.Keys
        invariant forall r :: r in res <==> r.id in requests && r.id !in left && requests[r.id] == r && r in all
        invariant NoRepetition(res)
        decreases |left|
      {
        var k :| k in left;
        var r := requests[k];
        assert r !in res;
        left := left - {k};
        var matches := filter.None?;
        if !matches {
          matches := F.MatchRequest(filter.value, r);
        }
        if matches || r.id == id {
          Appended(res, r);
          res := res + [r];
        }
      }
    }

    /** One page of the requests that match the filter; the cursor is a request, the ID 0 means none. */
    method ListRequests(filter: Option<F.RequestFilter>, info: Option<SortInfo>, id: ReqID, forward: bool, limit: nat)
      returns (page: Option<Page<ReqInfo>>, err: Error)
      requires Numbered(requests)
      ensures err == if NewRequestSorter(info).None? then WrongSortItem
                     else if id != 0 && id !in requests then NotFound else NoError
      ensures page.Some? <==> err == NoError
      ensures err == NoError ==>
                page.value ==
                RequestPage(requests, filter, NewRequestSorter(info).value, id, forward, EffectiveLimit(limit))
    {
      hide Listing, Orders, PageOf, Numbered, DistinctIds, RequestTimes.Valid, PrioQueue.Valid;
      var sorter := NewRequestSorter(info);
      if sorter.None? {
        return None, WrongSortItem;
      }
      if id != 0 && id !in requests {
        return None, NotFound;
      }
      ghost var matched := MatchedRequests(requests, filter);
      ghost var all := if id == 0 then matched else matched + {requests[id]};
      var res := Select(filter, id);
      assert Elements(res) == all;
      RequestsAreOrdered(sorter.value, all);
      OrdersSubset(RequestOrder(sorter.value), matched, all);
      res := Sort(RequestOrder(sorter.value), res);
      var matches := true;
      if id != 0 && filter.Some? {
        matches := F.MatchRequest(filter.value, requests[id]);
      }
      assert id != 0 ==> (matches <==> requests[id] in matched) by {
        if id != 0 {
          MatchedIs(requests, filter, id);
        }
      }
      var cursor := if id == 0 then None else Some(requests[id]);
      IdIsRecognised(requests, filter, id, res);
      var p := Cut(RequestOrder(sorter.value), matched, res, cursor, HasId(id), forward, EffectiveLimit(limit),
                   matches);
      NoRequestIsZero(requests, filter, RequestOrder(sorter.value), cursor, id, forward, EffectiveLimit(limit));
      return Some(p), NoError;
    }

    // ---------- The requests as the matchers see them ----------

    method InitIteration() returns (err: Error)
      requires Valid()
      modifies this`iterating, queue
      ensures Valid() && queue.Value() == old(queue.Value())
      ensures old(iterating) ==> err == InternalLogicError && unchanged(this) && unchanged(queue)
      ensures !old(iterating) ==>
                err == NoError && iterating && queue.Remaining() == Flat(queue.Value(), 1) && queue.p == HI_PRIO
    {
      if iterating {
        return InternalLogicError;
      }
      queue.InitIterator();
      iterating := true;
      err := NoError;
    }

    method TerminateIteration()
      requires Valid()
      modifies this`iterating, queue
      ensures Valid() && !iterating && queue.Value() == old(queue.Value())
    {
      if iterating {
        queue.ReleaseIterator();
        iterating := false;
      }
    }

    /** The source panics when nobody iterates. */
    method Next() returns (id: ReqID, ok: bool)
      requires Valid() && iterating && queue.p < 255
      modifies queue`p, queue`e
      ensures Valid() && queue.Value() == old(queue.Value())
      ensures ok <==> old(queue.Remaining()) != []
      ensures ok ==> id == old(queue.Remaining())[0] && queue.Remaining() == old(queue.Remaining())[1..]
      ensures ok ==> queue.p <= LO_PRIO
      ensures !ok ==> queue.Remaining() == []
    {
      id, ok := queue.Next();
    }

    method VerifyIfReady(id: ReqID, now: Time) returns (ready: bool)
      requires Valid()
      ensures ready <==> S.Ready(Value(now), id)
    {
      ready := id in requests && requests[id].state == WAIT && requests[id].deadline > now
               && !(requests[id].validAfter > now);
    }

    /** Releases the iterator, which holds the mutex of the queue, before the request is removed. */
    method Run(id: ReqID, worker: WorkerUUID, now: Time) returns (err: Error)
      requires Valid() && (iterating ==> queue.locked)
      requires id in requests && requests[id].state == WAIT ==>
                 && requests[id].id == id && HI_PRIO <= requests[id].priority <= LO_PRIO
                 && id in queue.Value()[requests[id].priority]
      modifies this`requests, this`iterating, queue, queue.queue, timeoutTimes, timeoutTimes.times
      ensures Valid() && S.Reply(Value(now), err) == S.Run(old(Value(now)), id, worker)
      ensures err == NoError ==> !iterating
      ensures err != NoError ==> unchanged(this) && unchanged(queue) && unchanged(queue.queue)
    {
      hide Timers.Insert, RemoveFirst, Lengths, RequestTimes.Valid, PrioQueue.Valid;
      if id !in requests {
        return NotFound;
      }
      var req := requests[id];
      if req.state != WAIT {
        return ModificationForbidden;
      }
      req := req.(state := INPROGRESS, job := Some(JobInfo(worker, now + HOUR)));
      requests := requests[id := req];
      if iterating {
        queue.ReleaseIterator();
        iterating := false;
      }
      queue.Remove(req.id, req.priority);
      timeoutTimes.Insert(RequestTime(req.job.value.timeout, id));
      err := NoError;
    }
  }
}
