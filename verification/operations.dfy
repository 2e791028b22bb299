/**
 Background operations from their start to their end: which actions a goroutine has taken before it sets a state, in
 every run, and that an operation which nothing disturbs comes to its proper end.
 */
module Operations {

  import opened Boruta
  import opened System
  import opened Allocation
  import opened WorkerProtocol
  import I = Invariants
  import P = ProtocolInvariant
  import R = Runs
  import T = ProtocolTheorems
  import WO = WorkerOutcomes

  /** How many actions of the operation the goroutine has taken with success, and none without. */
  function Progress(p: Phase, op: Operation): nat
  {
    match p
    case Checking(o, done, false, _) => if o == op then done else 0
    case Acting(o, done, _) => if o == op then done else 0
    case Committing(o, false, _) => if o == op then |Actions(op)| else 0
    case _ => 0
  }

  /** That of goroutine `c`; a goroutine that is not there yet has taken none. */
  function ProgressOf(l: WorkerList, c: nat, op: Operation): nat
  {
    if c < |l.regs| then Progress(l.regs[c].phase, op) else 0
  }

  lemma ActProgresses(l: WorkerList, c: nat, answer: Answer, drawn: Key, op: Operation)
    requires CanStep(l, c) && l.regs[c].phase.Acting?
    ensures var p := ProgressOf(l, c, op);
            var p' := ProgressOf(StepRoutine(l, c, answer, drawn).list, c, op);
            p' > p ==> l.regs[c].phase.op == op && l.regs[c].phase.done == p && p' == p + 1
  {
    hide AfterInstall;
  }

  lemma CommitResets(l: WorkerList, c: nat, answer: Answer, drawn: Key, op: Operation)
    requires P.Inv(l) && CanStep(l, c) && l.regs[c].phase.Committing?
    ensures ProgressOf(StepRoutine(l, c, answer, drawn).list, c, op) == 0
  {
    hide P.Inv;
    WO.CommitOutcome(l, c, answer, drawn);
  }

  /** A goroutine gets further only by taking the next action, and one at a time. */
  lemma ProgressIsByActing(l: WorkerList, c: nat, answer: Answer, drawn: Key, op: Operation)
    requires P.Inv(l) && CanStep(l, c)
    ensures var p := ProgressOf(l, c, op);
            var p' := ProgressOf(StepRoutine(l, c, answer, drawn).list, c, op);
            p' > p ==>
              l.regs[c].phase.Acting? && l.regs[c].phase.op == op && l.regs[c].phase.done == p && p' == p + 1
  {
    hide P.Inv, Act, Commit, StepRoutine;
    P.OpenIsCurrent(l, c);
    match l.regs[c].phase
    case Waiting => WO.ReceiveOutcome(l, c, answer, drawn);
    case Checking(_, _, _, _) => WO.CheckOutcome(l, c, answer, drawn);
    case Acting(_, _, _) => ActProgresses(l, c, answer, drawn, op);
    case Committing(_, _, _) => CommitResets(l, c, answer, drawn, op);
  }

  /** In step number `i` of the run goroutine `c` has taken action `d` of the operation, with success. */
  ghost predicate Took(steps: seq<Step>, c: nat, op: Operation, d: nat, i: nat)
    requires i < |steps|
  {
    var l := Exec(steps[..i]).list;
    && steps[i].Goroutine? && steps[i].reg == c && CanStep(l, c)
    && l.regs[c].phase.Acting? && l.regs[c].phase.op == op && l.regs[c].phase.done == d
    && ProgressOf(StepRoutine(l, c, steps[i].answer, steps[i].drawn).list, c, op) == d + 1
  }

  lemma StayingMakesNoProgress(l: WorkerList, l': WorkerList, c: nat, op: Operation)
    requires GoroutineStays(l, l', c)
    ensures ProgressOf(l', c, op) == ProgressOf(l, c, op)
  {
  }

  lemma GoroutineStepIs(s: System, step: Step)
    requires I.Inv(s) && step.Goroutine?
    ensures P.Inv(s.list)
    ensures CanStep(s.list, step.reg) ==>
              Apply(s, step).list == StepRoutine(s.list, step.reg, step.answer, step.drawn).list
    ensures !CanStep(s.list, step.reg) ==> Apply(s, step) == s
  {
    hide P.Inv, CanStep, StepRoutine, WithWorkers;
    if CanStep(s.list, step.reg) {
      ListenerTakesJobs(s, StepRoutine(s.list, step.reg, step.answer, step.drawn));
    }
  }

  lemma ApplyProgress(s: System, step: Step, c: nat, op: Operation)
    requires I.Inv(s)
    requires ProgressOf(Apply(s, step).list, c, op) > ProgressOf(s.list, c, op)
    ensures step.Goroutine? && step.reg == c && CanStep(s.list, c)
    ensures Apply(s, step).list == StepRoutine(s.list, c, step.answer, step.drawn).list
    ensures var p, phase := ProgressOf(s.list, c, op), s.list.regs[c].phase;
            && phase.Acting? && phase.op == op && phase.done == p
            && ProgressOf(StepRoutine(s.list, c, step.answer, step.drawn).list, c, op) == p + 1
  {
    hide I.Inv, Apply, P.Inv, CanStep, StepRoutine, ProgressOf, GoroutineStays, Allocates, NoNewJob, SameAddresses;
    StepLeaves(s, step, c);
    if GoroutineStays(s.list, Apply(s, step).list, c) {
      StayingMakesNoProgress(s.list, Apply(s, step).list, c, op);
    } else {
      GoroutineStepIs(s, step);
      ProgressIsByActing(s.list, c, step.answer, step.drawn, op);
    }
  }

  lemma StepProgress(steps: seq<Step>, before: seq<Step>, n: nat, c: nat, op: Operation)
    requires |steps| == n + 1 && before == steps[..n]
    requires ProgressOf(Exec(steps).list, c, op) > ProgressOf(Exec(before).list, c, op)
    ensures Took(steps, c, op, ProgressOf(Exec(before).list, c, op), n)
    ensures ProgressOf(Exec(steps).list, c, op) == ProgressOf(Exec(before).list, c, op) + 1
  {
    hide I.Inv, Exec, Apply, P.Inv, CanStep, StepRoutine, ProgressOf;
    R.ExecIs(steps);
    R.RunKeeps(before);
    ApplyProgress(Exec(before), steps[n], c, op);
  }

  /**
   A goroutine that has got beyond action `d` of an operation has taken it with success, and since then has stayed
   beyond it: it was not interrupted, and the action belongs to this operation and no earlier one.
   */
  lemma {:induction false} ActionWasTaken(steps: seq<Step>, c: nat, op: Operation, d: nat) returns (i: nat)
    requires ProgressOf(Exec(steps).list, c, op) > d
    ensures i < |steps| && Took(steps, c, op, d, i)
    ensures forall j :: i < j <= |steps| ==> ProgressOf(Exec(steps[..j]).list, c, op) > d
    decreases |steps|
  {
    hide Exec, ProgressOf, Took;
    assert steps != [] by {
      NoneAtFirst(steps, c, op);
    }
    var n := |steps| - 1;
    var before := steps[..n];
    assert steps[..|steps|] == steps;
    if ProgressOf(Exec(before).list, c, op) > d {
      i := ActionWasTaken(before, c, op, d);
      TookLonger(steps, c, op, d, i);
      forall j | i < j <= |steps|
        ensures ProgressOf(Exec(steps[..j]).list, c, op) > d
      {
        if j <= n {
          assert steps[..j] == before[..j];
        }
      }
    } else {
      i := n;
      StepProgress(steps, before, n, c, op);
    }
  }

  lemma NoneAtFirst(steps: seq<Step>, c: nat, op: Operation)
    ensures steps == [] ==> ProgressOf(Exec(steps).list, c, op) == 0
  {
    hide Apply;
  }

  lemma TookLonger(steps: seq<Step>, c: nat, op: Operation, d: nat, i: nat)
    requires i < |steps| - 1 && Took(steps[..|steps| - 1], c, op, d, i)
    ensures Took(steps, c, op, d, i)
  {
    hide Exec, CanStep, StepRoutine, ProgressOf;
    assert steps[..|steps| - 1][..i] == steps[..i];
  }

  // ---------- What was done for a state ----------

  /** The worker gets another state by this step of a goroutine. */
  ghost predicate Brings(l: WorkerList, c: nat, answer: Answer, drawn: Key, u: WorkerUUID, state: WorkerState)
    requires CanStep(l, c)
  {
    var l' := StepRoutine(l, c, answer, drawn).list;
    u in l.workers && u in l'.workers && l.workers[u].info.state != state && l'.workers[u].info.state == state
  }

  /** Only the end of an operation of its current registration, without a failure, brings a worker to these states. */
  lemma BroughtByCommit(l: WorkerList, c: nat, answer: Answer, drawn: Key, u: WorkerUUID, state: WorkerState)
    requires P.Inv(l) && CanStep(l, c) && Brings(l, c, answer, drawn, u, state)
    ensures l.regs[c].uuid == u && l.workers[u].chan == c
    ensures state == MAINTENANCE ==> ProgressOf(l, c, Maintain) == |Actions(Maintain)|
    ensures state == IDLE ==> ProgressOf(l, c, Prepare) == |Actions(Prepare)|
  {
    hide P.Inv, Act, Commit, StepRoutine;
    P.OpenIsCurrent(l, c);
    match l.regs[c].phase
    case Waiting => WO.ReceiveOutcome(l, c, answer, drawn);
    case Checking(_, _, _, _) => WO.CheckOutcome(l, c, answer, drawn);
    case Acting(_, _, _) => ActKeepsStates(l, c, answer, drawn, u);
    case Committing(_, _, _) => WO.CommitOutcome(l, c, answer, drawn);
  }

  lemma ActKeepsStates(l: WorkerList, c: nat, answer: Answer, drawn: Key, u: WorkerUUID)
    requires CanStep(l, c) && l.regs[c].phase.Acting? && u in l.workers
    ensures var l' := StepRoutine(l, c, answer, drawn).list;
            u in l'.workers && l'.workers[u].info.state == l.workers[u].info.state
  {
    hide AfterInstall;
  }

  /**
   A worker that a goroutine brings to MAINTENANCE has had its Dryad ordered there: that goroutine has sent the order,
   has had it answered with success, and has not been interrupted since.
   */
  lemma MaintenanceWasOrdered(steps: seq<Step>, c: nat, answer: Answer, drawn: Key, u: WorkerUUID) returns (i: nat)
    requires CanStep(Exec(steps).list, c) && Brings(Exec(steps).list, c, answer, drawn, u, MAINTENANCE)
    ensures Exec(steps).list.regs[c].uuid == u && Exec(steps).list.workers[u].chan == c
    ensures i < |steps| && Took(steps, c, Maintain, 2, i) && Actions(Maintain)[2] == Order
    ensures steps[i].answer == Success
    ensures forall j :: i < j <= |steps| ==> ProgressOf(Exec(steps[..j]).list, c, Maintain) > 2
  {
    hide Exec, I.Inv, P.Inv, StepRoutine, CanStep, ProgressOf, Brings;
    R.RunKeeps(steps);
    InvProtocol(Exec(steps));
    BroughtByCommit(Exec(steps).list, c, answer, drawn, u, MAINTENANCE);
    i := ActionWasTaken(steps, c, Maintain, 2);
    TakenWithSuccess(Exec(steps[..i]).list, c, steps[i].answer, steps[i].drawn, Maintain, 2);
  }

  /** One that it brings to IDLE has had a key installed on its Dryad, which answered with success, in the same way. */
  lemma PreparationWasAnswered(steps: seq<Step>, c: nat, answer: Answer, drawn: Key, u: WorkerUUID) returns (i: nat)
    requires CanStep(Exec(steps).list, c) && Brings(Exec(steps).list, c, answer, drawn, u, IDLE)
    ensures Exec(steps).list.regs[c].uuid == u && Exec(steps).list.workers[u].chan == c
    ensures i < |steps| && Took(steps, c, Prepare, 4, i) && Actions(Prepare)[4] == Install
    ensures steps[i].answer == Success
    ensures forall j :: i < j <= |steps| ==> ProgressOf(Exec(steps[..j]).list, c, Prepare) > 4
  {
    hide Exec, I.Inv, P.Inv, StepRoutine, CanStep, ProgressOf, Brings;
    R.RunKeeps(steps);
    InvProtocol(Exec(steps));
    BroughtByCommit(Exec(steps).list, c, answer, drawn, u, IDLE);
    i := ActionWasTaken(steps, c, Prepare, 4);
    TakenWithSuccess(Exec(steps[..i]).list, c, steps[i].answer, steps[i].drawn, Prepare, 4);
  }

  lemma InvProtocol(s: System)
    requires I.Inv(s)
    ensures P.Inv(s.list)
  {
    hide P.Inv;
  }

  lemma TakenWithSuccess(l: WorkerList, c: nat, answer: Answer, drawn: Key, op: Operation, d: nat)
    requires CanStep(l, c) && l.regs[c].phase.Acting? && l.regs[c].phase.op == op && l.regs[c].phase.done == d
    requires ProgressOf(StepRoutine(l, c, answer, drawn).list, c, op) == d + 1
    requires Actions(op)[d] !in {GetAddr, Store}
    ensures answer == Success
  {
    hide AfterInstall;
  }

  // ---------- Undisturbed operations ----------

  /** The list after `n` steps of a goroutine in which nothing fails and between which nothing else happens. */
  function Undisturbed(l: WorkerList, c: nat, drawn: Key, n: nat): WorkerList
    decreases n
  {
    if n == 0 then l
    else
      var l' := if CanStep(l, c) then StepRoutine(l, c, Success, drawn).list else l;
      Undisturbed(l', c, drawn, n - 1)
  }

  /** The list with the goroutine in another phase and nothing on its channel. */
  function At(l: WorkerList, c: nat, phase: Phase): WorkerList
    requires c < |l.regs|
  {
    l.(regs := l.regs[c := Registration(l.regs[c].uuid, [], true, phase)])
  }

  /** A look at the channel and an action that concerns the goroutine only. */
  lemma RoundPasses(l: WorkerList, c: nat, drawn: Key, op: Operation, done: nat, key: Key, n: nat)
    requires c < |l.regs| && l.regs[c].uuid in l.workers && n >= 2
    requires done < |Actions(op)| && Actions(op)[done] !in {Install, Store}
    ensures var key' := if Actions(op)[done] == Generate then drawn else key;
            Undisturbed(At(l, c, Checking(op, done, false, key)), c, drawn, n) ==
            Undisturbed(At(l, c, Checking(op, done + 1, false, key')), c, drawn, n - 2)
  {
    hide AfterInstall;
    var l0 := At(l, c, Checking(op, done, false, key));
    var l1 := At(l, c, Acting(op, done, key));
    assert StepRoutine(l0, c, Success, drawn).list == l1;
    var key' := if Actions(op)[done] == Generate then drawn else key;
    assert StepRoutine(l1, c, Success, drawn).list == At(l, c, Checking(op, done + 1, false, key'));
  }

  /** The first step takes up the message there is. */
  lemma OperationStarts(l: WorkerList, c: nat, drawn: Key, op: Operation, n: nat)
    requires c < |l.regs| && n >= 1
    requires l.regs[c] == Registration(l.regs[c].uuid, [P.StateOf(op)], true, Waiting)
    ensures Undisturbed(l, c, drawn, n) == Undisturbed(At(l, c, Checking(op, 0, false, 0)), c, drawn, n - 1)
  {
    assert [P.StateOf(op)][1..] == [];
    assert StepRoutine(l, c, Success, drawn).list == At(l, c, Checking(op, 0, false, 0));
  }

  /** The list at the end: the worker is in the state, which has been sent on its channel. */
  function Settled(l: WorkerList, c: nat, u: WorkerUUID, state: WorkerState): WorkerList
    requires c < |l.regs| && u in l.workers
  {
    l.(workers := l.workers[u := l.workers[u].(info := l.workers[u].info.(state := state))],
       regs := l.regs[c := Registration(u, [state], true, Waiting)])
  }

  lemma OperationEnds(l: WorkerList, c: nat, drawn: Key, op: Operation, key: Key, u: WorkerUUID)
    requires c < |l.regs| && l.regs[c].uuid == u && u in l.workers && l.workers[u].chan == c
    ensures Undisturbed(At(l, c, Checking(op, |Actions(op)|, false, key)), c, drawn, 2) ==
            Settled(l, c, u, match op case Prepare => IDLE case Maintain => MAINTENANCE)
  {
    var l0 := At(l, c, Checking(op, |Actions(op)|, false, key));
    var l1 := At(l, c, Committing(op, false, key));
    assert StepRoutine(l0, c, Success, drawn).list == l1;
    var state := match op case Prepare => IDLE case Maintain => MAINTENANCE;
    assert [] + [state] == [state];
    var l2 := StepRoutine(l1, c, Success, drawn).list;
    assert l2.regs == l.regs[c := Registration(u, [state], true, Waiting)];
    assert Undisturbed(l1, c, drawn, 1) == Undisturbed(l2, c, drawn, 0) == l2;
  }

  /** A maintenance that nothing disturbs ends in MAINTENANCE after nine steps, and changes nothing else. */
  lemma UndisturbedMaintenance(l: WorkerList, u: WorkerUUID, drawn: Key)
    requires P.Inv(l) && u in l.workers && l.workers[u].info.state == BUSY && l.workers[u].chan < |l.regs|
    requires l.regs[l.workers[u].chan].phase == Waiting && l.regs[l.workers[u].chan].msgs == [BUSY]
    ensures var c := l.workers[u].chan;
            Undisturbed(l, c, drawn, 9) == Settled(l, c, u, MAINTENANCE)
  {
    hide P.Inv, Undisturbed, Settled, At;
    var c := l.workers[u].chan;
    P.ListedIsLinked(l, u);
    OperationStarts(l, c, drawn, Maintain, 9);
    RoundPasses(l, c, drawn, Maintain, 0, 0, 8);
    RoundPasses(l, c, drawn, Maintain, 1, 0, 6);
    RoundPasses(l, c, drawn, Maintain, 2, 0, 4);
    OperationEnds(l, c, drawn, Maintain, 0, u);
  }

  /** The list after the drawn key has been installed on the Dryad, or stored. */
  function WithKeys(l: WorkerList, u: WorkerUUID, drawn: Key, stored: bool): WorkerList
    requires u in l.workers
  {
    var l1 := l.(dryads := l.dryads[u := drawn]);
    if stored then l1.(workers := l.workers[u := l.workers[u].(key := Some(drawn))]) else l1
  }

  /** A look at the channel and the installation; another look and the storing. */
  lemma KeyIsPut(l: WorkerList, c: nat, drawn: Key, u: WorkerUUID, n: nat)
    requires c < |l.regs| && l.regs[c].uuid == u && u in l.workers && n >= 4
    ensures Undisturbed(At(l, c, Checking(Prepare, 4, false, drawn)), c, drawn, n) ==
            Undisturbed(At(WithKeys(l, u, drawn, true), c, Checking(Prepare, 6, false, drawn)), c, drawn, n - 4)
  {
    var l1, l2 := WithKeys(l, u, drawn, false), WithKeys(l, u, drawn, true);
    var a, b := At(l, c, Acting(Prepare, 4, drawn)), At(l1, c, Checking(Prepare, 5, false, drawn));
    var d, e := At(l1, c, Acting(Prepare, 5, drawn)), At(l2, c, Checking(Prepare, 6, false, drawn));
    assert StepRoutine(At(l, c, Checking(Prepare, 4, false, drawn)), c, Success, drawn).list == a;
    assert StepRoutine(a, c, Success, drawn).list == b;
    assert StepRoutine(b, c, Success, drawn).list == d;
    assert StepRoutine(d, c, Success, drawn).list == e;
    assert Undisturbed(b, c, drawn, n - 2) == Undisturbed(d, c, drawn, n - 3);
  }

  /** A preparation that nothing disturbs ends in IDLE after fifteen steps, with the drawn key installed and stored. */
  lemma UndisturbedPreparation(l: WorkerList, u: WorkerUUID, drawn: Key)
    requires P.Inv(l) && u in l.workers && l.workers[u].info.state == PREPARE && l.workers[u].chan < |l.regs|
    requires l.regs[l.workers[u].chan].phase == Waiting && l.regs[l.workers[u].chan].msgs == [PREPARE]
    ensures var c := l.workers[u].chan;
            Undisturbed(l, c, drawn, 15) == Settled(WithKeys(l, u, drawn, true), c, u, IDLE)
  {
    hide P.Inv, Undisturbed, Settled, At;
    var c := l.workers[u].chan;
    P.ListedIsLinked(l, u);
    OperationStarts(l, c, drawn, Prepare, 15);
    RoundPasses(l, c, drawn, Prepare, 0, 0, 14);
    RoundPasses(l, c, drawn, Prepare, 1, 0, 12);
    RoundPasses(l, c, drawn, Prepare, 2, 0, 10);
    RoundPasses(l, c, drawn, Prepare, 3, drawn, 8);
    KeyIsPut(l, c, drawn, u, 6);
    OperationEnds(WithKeys(l, u, drawn, true), c, drawn, Prepare, drawn, u);
  }
}
