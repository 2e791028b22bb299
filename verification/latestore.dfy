/**
 Runs in which a worker that is registered anew ends up with a stored key which is not the one on its Dryad: the
 goroutine of the earlier registration stores its key last, or installs it last.
 */
module LateStores {

  import opened Boruta
  import opened Histories
  import opened System
  import R = Runs
  import T = ProtocolTheorems
  import W = WorkerProtocol

  const CAPS: Capabilities := map[UUID_CAP := "w"]

  /** Worker "w" is idle with a key that its Dryad does not accept. */
  ghost predicate IsStale(l: W.WorkerList)
  {
    T.Idle(l, "w") && l.workers["w"].key != W.Installed(l, "w")
  }

  /** The earlier registration of "w", whose goroutine has key 1 and has done so many actions. */
  function Former(done: nat): W.Registration
  {
    W.Registration("w", [FAIL], false, W.Acting(W.Prepare, done, 1))
  }

  /** Worker "w", in its second registration, is idle with key 2, and that is on its Dryad. */
  function Renewed(done: nat): W.WorkerList
  {
    W.WorkerList(
      map["w" := Member(CAPS, [], IDLE, Some(2), 1)],
      [Former(done), W.Registration("w", [IDLE], true, W.Waiting)],
      map["w" := 2],
      false)
  }

  /** The earlier goroutine, about to install its key, or to store it. */
  lemma FormerPrepares(done: nat) returns (l: W.WorkerList)
    requires done == 4 || done == 5
    ensures Reached(Init().(list := l))
    ensures l == W.WorkerList(map["w" := Member(CAPS, [], PREPARE, None, 0)],
                              [W.Registration("w", [], true, W.Acting(W.Prepare, done, 1))],
                              if done == 4 then map[] else map["w" := 1],
                              false)
  {
    hide Reached;
    var s := Init();
    InitIsReached();
    WorkerIsEnlisted(s, CAPS, []);
    var w := Member(CAPS, [], PREPARE, None, 0);
    var l1 := W.WorkerList(map["w" := w], [W.Registration("w", [PREPARE], true, W.Waiting)], map[], false);
    assert l1.workers == W.EMPTY.workers["w" := w] && l1.regs == W.EMPTY.regs + l1.regs;
    PreparationAdvances(s.(list := l1), 0, 1);
    l := At(l1, 0, W.Acting(W.Prepare, 4, 1));
    if done == 5 {
      KeyIsInstalled(s.(list := l1), 0, 1);
      l := At(WithDryad(l1, "w", 1), 0, W.Acting(W.Prepare, 5, 1));
    }
  }

  /** The worker fails, is deregistered and registers anew; its new goroutine prepares it. */
  lemma WorkerIsRenewed(done: nat) returns (s: System)
    requires done == 4 || done == 5
    ensures Reached(s) && s.list == Renewed(done)
  {
    hide Reached, OnWorkerIdle;
    var l2 := FormerPrepares(done);
    var s0 := Init();
    var w := Member(CAPS, [], PREPARE, None, 0);
    var failed := w.(info := w.info.(state := FAIL));
    var l3 := W.WorkerList(map["w" := failed], [Former(done).(open := true)], l2.dryads, false);
    assert [] + [FAIL] == [FAIL];
    assert ListStep(l2, CallSetFail("w")) == W.Outcome(l3, W.Quiet, NoError);
    QuietStepIsReached(s0.(list := l2), CallSetFail("w"));
    var l4 := W.WorkerList(map[], [Former(done)], l2.dryads, false);
    assert ListStep(l3, CallDeregister("w")) == W.Outcome(l4, W.Quiet, NoError);
    QuietStepIsReached(s0.(list := l3), CallDeregister("w"));
    WorkerIsEnlisted(s0.(list := l4), CAPS, []);
    var w' := w.(chan := 1);
    var l5 := W.WorkerList(map["w" := w'],
                           [Former(done), W.Registration("w", [PREPARE], true, W.Waiting)],
                           l2.dryads,
                           false);
    assert l5.workers == l4.workers["w" := w'] && l5.regs == l4.regs + [l5.regs[1]];
    PreparationAdvances(s0.(list := l5), 1, 2);
    KeyIsInstalled(s0.(list := l5), 1, 2);
    var l6 := WithDryad(l5, "w", 2);
    PreparationEnds(s0.(list := l6), 1, 2, "w");
    var l7 := Renewed(done);
    assert l7.workers == l6.workers["w" := l7.workers["w"]] && l7.regs == l6.regs[1 := l7.regs[1]];
    assert l7.dryads == l6.dryads;
    s := OnWorkerIdle(s0.(list := l7));
    ListenerKeepsList(s0.(list := l7));
  }

  lemma LastStepIsReached(s: System, step: Step) returns (steps: seq<Step>)
    requires Reached(s) && R.WorkerStep(step) && (step.Goroutine? ==> W.CanStep(s.list, step.reg))
    requires ListStep(s.list, step).note == W.Quiet
    ensures Exec(steps).list == ListStep(s.list, step).list
  {
    hide Exec, R.BenignRun, ListStep, W.CanStep;
    QuietStepIsReached(s, step);
    steps :| R.BenignRun(steps) && Exec(steps) == s.(list := ListStep(s.list, step).list);
  }

  /** The earlier goroutine stores its key last. */
  lemma StoredKeyMayBeStale()
    ensures exists steps :: IsStale(Exec(steps).list)
  {
    hide Reached, Exec;
    var s := WorkerIsRenewed(5);
    var step := Goroutine(0, W.Success, 0);
    var o := ListStep(s.list, step);
    assert o.note == W.Quiet && o.list.workers["w"].key == Some(1) && o.list.dryads == map["w" := 2];
    var steps := LastStepIsReached(s, step);
    assert IsStale(Exec(steps).list);
  }

  /** Or it installs its key last, with or without an answer, or only removes the other one. */
  lemma InstalledKeyMayBeReplaced(answer: W.Answer)
    requires answer != W.Failure
    ensures exists steps :: IsStale(Exec(steps).list)
  {
    hide Reached, Exec;
    var s := WorkerIsRenewed(4);
    var step := Goroutine(0, answer, 0);
    var o := ListStep(s.list, step);
    assert o.note == W.Quiet && o.list.workers["w"].key == Some(2) && o.list.workers["w"].info.state == IDLE;
    assert W.Installed(o.list, "w") == if answer == W.Halfway then None else Some(1);
    var steps := LastStepIsReached(s, step);
    assert IsStale(Exec(steps).list);
  }
}
