/**
 Runs by which certain states are reached: a worker that registers and is prepared, and what else it takes.
 */
module Histories {

  import opened Boruta
  import opened System
  import F = Filter
  import R = Runs
  import W = WorkerProtocol

  /** The state is that after a run in which no update revived a request. */
  ghost predicate Reached(s: System)
  {
    exists steps :: R.BenignRun(steps) && Exec(steps) == s
  }

  lemma InitIsReached()
    ensures Reached(Init())
  {
    hide Apply;
    assert R.BenignRun([]) && Exec([]) == Init();
  }

  lemma StepIsReached(s: System, step: Step)
    requires Reached(s) && R.Benign(s, step)
    ensures Reached(Apply(s, step))
  {
    hide Exec, Apply, R.Benign;
    var steps :| R.BenignRun(steps) && Exec(steps) == s;
    var more := steps + [step];
    assert more[..|steps|] == steps;
    forall i | 0 <= i < |more|
      ensures R.Benign(Exec(more[..i]), more[i])
    {
      assert i < |steps| ==> more[..i] == steps[..i];
    }
    R.ExecIs(more);
    assert R.BenignRun(more) && Exec(more) == Apply(s, step);
  }

  /** What a step of the worker list, or of a goroutine that can take one, does to the list. */
  function ListStep(l: W.WorkerList, step: Step): W.Outcome
    requires R.WorkerStep(step) && (step.Goroutine? ==> W.CanStep(l, step.reg))
  {
    match step
    case CallRegister(caps, dryad, sshd) => W.Register(l, caps, dryad, sshd)
    case CallSetFail(u) => W.SetFail(l, u)
    case CallSetState(u, state) => W.SetState(l, u, state)
    case CallSetGroups(u, groups) => W.SetGroups(l, u, groups)
    case CallDeregister(u) => W.Deregister(l, u)
    case Goroutine(c, answer, drawn) => W.StepRoutine(l, c, answer, drawn)
  }

  lemma ListStepIsReached(s: System, step: Step)
    requires Reached(s) && R.WorkerStep(step) && (step.Goroutine? ==> W.CanStep(s.list, step.reg))
    ensures Reached(WithWorkers(s, ListStep(s.list, step)))
  {
    hide WithWorkers, Reached, W.Register, W.SetFail, W.SetState, W.SetGroups, W.Deregister, W.StepRoutine, W.CanStep;
    StepIsReached(s, step);
  }

  /** A step of which the listener hears nothing changes the list only. */
  lemma QuietStepIsReached(s: System, step: Step)
    requires Reached(s) && R.WorkerStep(step) && (step.Goroutine? ==> W.CanStep(s.list, step.reg))
    requires ListStep(s.list, step).note == W.Quiet
    ensures Reached(s.(list := ListStep(s.list, step).list))
  {
    hide Reached, ListStep, W.CanStep;
    ListStepIsReached(s, step);
  }

  // ---------- A worker is prepared ----------

  /** The list with the goroutine of registration `c` in another phase. */
  function At(l: W.WorkerList, c: nat, phase: W.Phase): W.WorkerList
    requires c < |l.regs|
  {
    l.(regs := l.regs[c := W.Registration(l.regs[c].uuid, [], true, phase)])
  }

  /** An action before the installation succeeds. */
  lemma ActionSucceeds(s: System, c: nat, done: nat, key: Key, drawn: Key)
    requires c < |s.list.regs| && s.list.regs[c].uuid in s.list.workers && done < 4
    requires Reached(s.(list := At(s.list, c, W.Acting(W.Prepare, done, key))))
    ensures var key' := if done == 2 then drawn else key;
            Reached(s.(list := At(s.list, c, W.Acting(W.Prepare, done + 1, key'))))
  {
    hide Reached;
    var l := s.list;
    var key' := if done == 2 then drawn else key;
    var step := Goroutine(c, W.Success, drawn);
    var l0 := At(l, c, W.Acting(W.Prepare, done, key));
    var l1 := At(l, c, W.Checking(W.Prepare, done + 1, false, key'));
    assert ListStep(l0, step) == W.Outcome(l1, W.Quiet, NoError);
    QuietStepIsReached(s.(list := l0), step);
    assert ListStep(l1, step).list == At(l, c, W.Acting(W.Prepare, done + 1, key'));
    QuietStepIsReached(s.(list := l1), step);
  }

  /** A preparation that is not disturbed comes to the point where it installs its key. */
  lemma PreparationAdvances(s: System, c: nat, key: Key)
    requires Reached(s) && c < |s.list.regs| && s.list.regs[c].uuid in s.list.workers
    requires s.list.regs[c] == W.Registration(s.list.regs[c].uuid, [PREPARE], true, W.Waiting)
    ensures Reached(s.(list := At(s.list, c, W.Acting(W.Prepare, 4, key))))
  {
    hide Reached;
    var l := s.list;
    var step := Goroutine(c, W.Success, key);
    var l1 := At(l, c, W.Checking(W.Prepare, 0, false, 0));
    assert [PREPARE][1..] == [];
    assert ListStep(l, step) == W.Outcome(l1, W.Quiet, NoError);
    QuietStepIsReached(s, step);
    assert ListStep(l1, step).list == At(l, c, W.Acting(W.Prepare, 0, 0));
    QuietStepIsReached(s.(list := l1), step);
    ActionSucceeds(s, c, 0, 0, key);
    ActionSucceeds(s, c, 1, 0, key);
    ActionSucceeds(s, c, 2, 0, key);
    ActionSucceeds(s, c, 3, key, key);
  }

  /** The list after a key has been installed on the Dryad of a worker. */
  function WithDryad(l: W.WorkerList, u: WorkerUUID, key: Key): W.WorkerList
  {
    l.(dryads := l.dryads[u := key])
  }

  /** It installs it, and comes to the point where it stores it. */
  lemma KeyIsInstalled(s: System, c: nat, key: Key)
    requires c < |s.list.regs| && Reached(s.(list := At(s.list, c, W.Acting(W.Prepare, 4, key))))
    ensures Reached(s.(list := At(WithDryad(s.list, s.list.regs[c].uuid, key), c, W.Acting(W.Prepare, 5, key))))
  {
    hide Reached;
    var l := s.list;
    var l' := WithDryad(l, l.regs[c].uuid, key);
    var step := Goroutine(c, W.Success, 0);
    var l0 := At(l, c, W.Acting(W.Prepare, 4, key));
    var l1 := At(l', c, W.Checking(W.Prepare, 5, false, key));
    assert ListStep(l0, step) == W.Outcome(l1, W.Quiet, NoError);
    QuietStepIsReached(s.(list := l0), step);
    assert ListStep(l1, step).list == At(l', c, W.Acting(W.Prepare, 5, key));
    QuietStepIsReached(s.(list := l1), step);
  }

  /** From there it makes its worker idle. */
  lemma PreparationEnds(s: System, c: nat, key: Key, u: WorkerUUID)
    requires c < |s.list.regs| && s.list.regs[c].uuid == u && u in s.list.workers && !s.list.panicked
    requires s.list.workers[u].chan == c && s.list.workers[u].info.state == PREPARE
    requires Reached(s.(list := At(s.list, c, W.Acting(W.Prepare, 5, key))))
    ensures var w := s.list.workers[u];
            var idle := w.(info := w.info.(state := IDLE), key := Some(key));
            Reached(OnWorkerIdle(s.(list := s.list.(
              workers := s.list.workers[u := idle],
              regs := s.list.regs[c := W.Registration(u, [IDLE], true, W.Waiting)]))))
  {
    hide Reached, OnWorkerIdle;
    var l := s.list;
    var step := Goroutine(c, W.Success, 0);
    var w := l.workers[u];
    var stored := l.(workers := l.workers[u := w.(key := Some(key))]);
    var l0 := At(l, c, W.Acting(W.Prepare, 5, key));
    var l1 := At(stored, c, W.Checking(W.Prepare, 6, false, key));
    assert ListStep(l0, step) == W.Outcome(l1, W.Quiet, NoError);
    QuietStepIsReached(s.(list := l0), step);
    var l2 := At(stored, c, W.Committing(W.Prepare, false, key));
    assert ListStep(l1, step) == W.Outcome(l2, W.Quiet, NoError);
    QuietStepIsReached(s.(list := l1), step);
    ListStepIsReached(s.(list := l2), step);
    var idle := w.(info := w.info.(state := IDLE), key := Some(key));
    var l3 := l.(workers := l.workers[u := idle],
                 regs := l.regs[c := W.Registration(u, [IDLE], true, W.Waiting)]);
    assert [] + [IDLE] == [IDLE];
    assert ListStep(l2, step) == W.Outcome(l3, W.BecameIdle(u), NoError);
  }

  lemma ListenerKeepsList(s: System)
    ensures OnWorkerIdle(s).list == s.list
  {
  }

  const ADDR: Addr := Addr("", 1)

  /** A worker with these capabilities and groups. */
  function Member(caps: Capabilities, groups: seq<Group>, state: WorkerState, key: Option<Key>, c: nat): W.MapWorker
    requires UUID_CAP in caps
  {
    W.MapWorker(WorkerInfo(caps[UUID_CAP], state, F.SortedStrings(groups), caps), ADDR, ADDR, key, c)
  }

  /** A worker registers, is put into groups and is set to work. */
  lemma WorkerIsEnlisted(s: System, caps: Capabilities, groups: seq<Group>)
    requires Reached(s) && UUID_CAP in caps && caps[UUID_CAP] !in s.list.workers
    ensures var u, l := caps[UUID_CAP], s.list;
            Reached(s.(list := l.(
              workers := l.workers[u := Member(caps, groups, PREPARE, None, |l.regs|)],
              regs := l.regs + [W.Registration(u, [PREPARE], true, W.Waiting)])))
  {
    hide Reached, F.SortedStrings;
    var u, l, c := caps[UUID_CAP], s.list, |s.list.regs|;
    var r := W.Registration(u, [], true, W.Waiting);
    var w := W.MapWorker(WorkerInfo(u, MAINTENANCE, [], caps), ADDR, ADDR, None, c);
    var l1 := l.(workers := l.workers[u := w], regs := l.regs + [r]);
    assert ListStep(l, CallRegister(caps, ADDR, ADDR)) == W.Outcome(l1, W.Quiet, NoError);
    QuietStepIsReached(s, CallRegister(caps, ADDR, ADDR));
    var l2 := l1.(workers := l.workers[u := Member(caps, groups, MAINTENANCE, None, c)]);
    assert ListStep(l1, CallSetGroups(u, groups)) == W.Outcome(l2, W.Quiet, NoError);
    QuietStepIsReached(s.(list := l1), CallSetGroups(u, groups));
    var l3 := l.(workers := l.workers[u := Member(caps, groups, PREPARE, None, c)],
                 regs := l.regs + [r.(msgs := [PREPARE])]);
    assert (l.regs + [r])[c := r.(msgs := [PREPARE])] == l.regs + [r.(msgs := [PREPARE])];
    assert [] + [PREPARE] == [PREPARE];
    assert ListStep(l2, CallSetState(u, IDLE)) == W.Outcome(l3, W.Quiet, NoError);
    QuietStepIsReached(s.(list := l2), CallSetState(u, IDLE));
  }
}
