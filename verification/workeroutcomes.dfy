/**
 What each call of the worker list and each step of a goroutine does, case by case and with every state, address,
 answer and refusal written out.
 */
module WorkerOutcomes {

  import opened Boruta
  import opened WorkerProtocol
  import F = Filter
  import P = ProtocolInvariant

  /** The worker is set to the state, which is sent to its goroutine; nothing else changes. */
  ghost predicate IsSent(l: WorkerList, l': WorkerList, u: WorkerUUID, state: WorkerState)
    requires u in l.workers
  {
    var w := l.workers[u];
    && w.chan < |l.regs|
    && l' == l.(workers := l.workers[u := w.(info := w.info.(state := state))],
                regs := l.regs[w.chan := l.regs[w.chan].(msgs := l.regs[w.chan].msgs + [state])])
  }

  /** No worker but this one has changed. */
  ghost predicate OthersStay(l: WorkerList, l': WorkerList, u: WorkerUUID)
  {
    forall v :: v != u ==>
                  && (v in l'.workers <==> v in l.workers)
                  && (v in l.workers ==> l'.workers[v] == l.workers[v])
  }

  // ---------- Registration ----------

  /** A first registration stores what it is given, and starts a goroutine of its own. */
  lemma FirstRegistration(l: WorkerList, caps: Capabilities, dryad: Addr, sshd: Addr)
    requires P.Inv(l) && UUID_CAP in caps && caps[UUID_CAP] !in l.workers
    ensures var o := Register(l, caps, dryad, sshd);
            var u := caps["UUID"];
            && o.error == NoError && o.note == Quiet
            && u in o.list.workers && OthersStay(l, o.list, u)
            && o.list.dryads == l.dryads && o.list.regs == l.regs + [Registration(u, [], true, Waiting)]
            && var w := o.list.workers[u];
               && w.dryad == dryad && w.sshd == sshd && w.key == None && w.chan == |l.regs|
               && w.info == WorkerInfo(u, MAINTENANCE, [], caps)
  {
    hide P.Inv;
  }

  /**
   A repeated one stores the new capabilities and addresses. If a port or the capabilities differ the worker goes
   to maintenance; a failed worker that comes back unchanged is prepared.
   */
  lemma RepeatedRegistration(l: WorkerList, caps: Capabilities, dryad: Addr, sshd: Addr)
    requires P.Inv(l) && UUID_CAP in caps && caps[UUID_CAP] in l.workers
    ensures var o := Register(l, caps, dryad, sshd);
            var u := caps["UUID"];
            var w := l.workers[u];
            var state :=
              if w.dryad.port != dryad.port || w.sshd.port != sshd.port || w.info.caps != caps then BUSY
              else if w.info.state == FAIL then PREPARE else w.info.state;
            && o.error == NoError
            && u in o.list.workers && OthersStay(l, o.list, u)
            && o.list.dryads == l.dryads && w.chan < |l.regs|
            && o.list.workers[u] == MapWorker(WorkerInfo(u, state, w.info.groups, caps), dryad, sshd, w.key, w.chan)
            && o.list.regs == (if state == w.info.state then l.regs
                               else l.regs[w.chan := l.regs[w.chan].(msgs := l.regs[w.chan].msgs + [state])])
            && o.note == if w.info.state == RUN && state == BUSY then BrokeRun(u) else Quiet
  {
    hide P.Inv;
    P.ListedIsLinked(l, caps[UUID_CAP]);
  }

  /** Capabilities without a UUID are refused. */
  lemma RegistrationWithoutUuid(l: WorkerList, caps: Capabilities, dryad: Addr, sshd: Addr)
    ensures "UUID" !in caps <==> Register(l, caps, dryad, sshd).error == MissingUUID
    ensures "UUID" !in caps ==> Register(l, caps, dryad, sshd) == Outcome(l, Quiet, MissingUUID)
  {
  }

  // ---------- The other calls ----------

  /** A Dryad reports a failure: refused during maintenance; a job that was running breaks. */
  lemma SetFailOutcome(l: WorkerList, u: WorkerUUID)
    requires P.Inv(l)
    ensures var o := SetFail(l, u);
            if u !in l.workers then o == Outcome(l, Quiet, NotFound)
            else
              match l.workers[u].info.state
              case MAINTENANCE => o == Outcome(l, Quiet, InMaintenance)
              case BUSY => o == Outcome(l, Quiet, InMaintenance)
              case RUN => IsSent(l, o.list, u, FAIL) && o.note == BrokeRun(u) && o.error == NoError
              case _ => IsSent(l, o.list, u, FAIL) && o.note == Quiet && o.error == NoError
  {
    hide P.Inv;
    if u in l.workers {
      P.ListedIsLinked(l, u);
    }
  }

  /**
   An administrator asks for maintenance, which every worker enters through BUSY, or for work, which only one in
   maintenance enters, through PREPARE. What is under way already is not started again.
   */
  lemma SetStateOutcome(l: WorkerList, u: WorkerUUID, state: WorkerState)
    requires P.Inv(l)
    ensures var o := SetState(l, u, state);
            match state
            case MAINTENANCE =>
              if u !in l.workers then o == Outcome(l, Quiet, NotFound)
              else if l.workers[u].info.state == BUSY then o == Outcome(l, Quiet, NoError)
              else
                && IsSent(l, o.list, u, BUSY) && o.error == NoError
                && o.note == if l.workers[u].info.state == RUN then BrokeRun(u) else Quiet
            case IDLE =>
              if u !in l.workers then o == Outcome(l, Quiet, NotFound)
              else
                match l.workers[u].info.state {
                  case PREPARE => o == Outcome(l, Quiet, NoError)
                  case MAINTENANCE => IsSent(l, o.list, u, PREPARE) && o.note == Quiet && o.error == NoError
                  case _ => o == Outcome(l, Quiet, ForbiddenStateChange)
                }
            case _ => o == Outcome(l, Quiet, WrongStateArgument)
  {
    hide P.Inv;
    if u in l.workers {
      P.ListedIsLinked(l, u);
    }
  }

  /** The worker belongs to exactly the given groups, stored in order; if it is idle the matcher hears of it. */
  lemma SetGroupsOutcome(l: WorkerList, u: WorkerUUID, groups: seq<Group>)
    ensures var o := SetGroups(l, u, groups);
            if u !in l.workers then o == Outcome(l, Quiet, NotFound)
            else
              && u in o.list.workers
              && var w, gs := l.workers[u], o.list.workers[u].info.groups;
                 && multiset(gs) == multiset(groups) && F.IsSorted(gs)
                 && o == Outcome(l.(workers := l.workers[u := w.(info := w.info.(groups := gs))]),
                                 if w.info.state == IDLE then BecameIdle(u) else Quiet,
                                 NoError)
  {
    F.SortedStringsIsSorting(groups);
  }

  /** Only a worker in maintenance or failure leaves; its channel is closed, with what is still in it. */
  lemma DeregisterOutcome(l: WorkerList, u: WorkerUUID)
    requires P.Inv(l)
    ensures var o := Deregister(l, u);
            if u !in l.workers then o == Outcome(l, Quiet, NotFound)
            else
              var w := l.workers[u];
              && w.chan < |l.regs|
              && if w.info.state == MAINTENANCE || w.info.state == FAIL then
                && OthersStay(l, o.list, u) && u !in o.list.workers
                && o.list.regs == l.regs[w.chan := l.regs[w.chan].(open := false)]
                && o.list.dryads == l.dryads && !o.list.panicked && o.note == Quiet && o.error == NoError
              else o == Outcome(l, Quiet, NotInFailOrMaintenance)
  {
    if u in l.workers {
      P.ListedIsLinked(l, u);
    }
  }

  /** A running worker is given back: to be prepared anew, or at once if it has not been used. */
  lemma PrepareWorkerOutcome(l: WorkerList, u: WorkerUUID, withKeyGeneration: bool)
    requires P.Inv(l)
    ensures var o := PrepareWorker(l, u, withKeyGeneration);
            if u !in l.workers then o == Outcome(l, Quiet, NotFound)
            else if l.workers[u].info.state != RUN then o == Outcome(l, Quiet, ForbiddenStateChange)
            else if withKeyGeneration then IsSent(l, o.list, u, PREPARE) && o.note == Quiet && o.error == NoError
            else IsSent(l, o.list, u, IDLE) && o.note == BecameIdle(u) && o.error == NoError
  {
    hide P.Inv;
    if u in l.workers {
      P.ListedIsLinked(l, u);
    }
  }

  // ---------- The goroutine ----------

  /** What a goroutine does on a state it receives: it prepares its worker, puts it into maintenance, or waits on. */
  ghost predicate TakesUp(phase: Phase, state: WorkerState)
  {
    match state
    case PREPARE => phase == Checking(Prepare, 0, false, 0)
    case BUSY => phase == Checking(Maintain, 0, false, 0)
    case IDLE => phase == Waiting
    case RUN => phase == Waiting
    case FAIL => phase == Waiting
    case MAINTENANCE => phase == Waiting
  }

  /** The goroutine of registration `c` has changed its own phase and channel, and nothing else has changed. */
  ghost predicate Moves(l: WorkerList, o: Outcome, c: nat, msgs: seq<WorkerState>)
    requires c < |l.regs|
  {
    && |o.list.regs| == |l.regs|
    && o.list == l.(regs := l.regs[c := l.regs[c].(msgs := msgs, phase := o.list.regs[c].phase)])
    && o.note == Quiet && o.error == NoError
  }

  /** The last of the messages that came during an operation is taken up; a closed channel ends the goroutine. */
  ghost predicate IsInterrupted(l: WorkerList, o: Outcome, c: nat)
    requires c < |l.regs|
  {
    && Moves(l, o, c, [])
    && (l.regs[c].open ==>
          l.regs[c].msgs != [] && TakesUp(o.list.regs[c].phase, l.regs[c].msgs[|l.regs[c].msgs| - 1]))
    && (!l.regs[c].open ==> o.list.regs[c].phase == Ended)
  }

  /** A waiting goroutine takes one message, the first; it ends once a closed channel is empty. */
  lemma ReceiveOutcome(l: WorkerList, c: nat, answer: Answer, drawn: Key)
    requires CanStep(l, c) && l.regs[c].phase.Waiting?
    ensures var o := StepRoutine(l, c, answer, drawn);
            var r := l.regs[c];
            if r.msgs == [] then !r.open && Moves(l, o, c, []) && o.list.regs[c].phase == Ended
            else Moves(l, o, c, r.msgs[1..]) && TakesUp(o.list.regs[c].phase, r.msgs[0])
  {
  }

  /**
   Between two actions it looks at its channel. With nothing new there it takes the next action, of six for a
   preparation and three for a maintenance, or goes to the end after the last or a failed one.
   */
  lemma CheckOutcome(l: WorkerList, c: nat, answer: Answer, drawn: Key)
    requires CanStep(l, c) && l.regs[c].phase.Checking?
    ensures var o := StepRoutine(l, c, answer, drawn);
            var r := l.regs[c];
            var p := r.phase;
            var last := match p.op case Prepare => 6 case Maintain => 3;
            if r.msgs != [] || !r.open then IsInterrupted(l, o, c)
            else
              && Moves(l, o, c, [])
              && o.list.regs[c].phase == if p.failed || p.done >= last then Committing(p.op, p.failed, p.key)
                                         else Acting(p.op, p.done, p.key)
  {
  }

  /** The goroutine has taken an action, and changed nothing but its phase. */
  ghost predicate Acted(l: WorkerList, l': WorkerList, c: nat, failed: bool, key: Key)
    requires c < |l.regs| && l.regs[c].phase.Acting?
  {
    var p := l.regs[c].phase;
    l' == l.(regs := l.regs[c := l.regs[c].(phase := Checking(p.op, p.done + 1, failed, key))])
  }

  /**
   A preparation looks up its worker, connects, generates and encodes a key, installs it on the Dryad and stores it.
   Looking up and storing fail if and only if the worker is not listed, the rest as the world outside decides.
   */
  lemma PreparationStep(l: WorkerList, c: nat, answer: Answer, drawn: Key)
    requires CanStep(l, c) && l.regs[c].phase.Acting? && l.regs[c].phase.op == Prepare
    ensures var o := StepRoutine(l, c, answer, drawn);
            var p, u := l.regs[c].phase, l.regs[c].uuid;
            && p.done < 6 && o.note == Quiet && o.error == NoError
            && (p.done == 0 ==> Acted(l, o.list, c, u !in l.workers, p.key))
            && (p.done in {1, 3} ==> Acted(l, o.list, c, answer != Success, p.key))
            && (p.done == 2 ==> Acted(l, o.list, c, answer != Success, drawn))
            && (p.done == 4 ==>
                  && Acted(l.(dryads := o.list.dryads), o.list, c, answer != Success, p.key)
                  && (forall v :: v != u ==> Installed(o.list, v) == Installed(l, v))
                  && Installed(o.list, u) == match answer
                                             case Success => Some(p.key)
                                             case Unanswered => Some(p.key)
                                             case Halfway => None
                                             case Failure => Installed(l, u))
            && (p.done == 5 ==>
                  && Acted(l.(workers := o.list.workers), o.list, c, u !in l.workers, p.key)
                  && OthersStay(l, o.list, u) && (u in o.list.workers <==> u in l.workers)
                  && (u in l.workers ==> o.list.workers[u] == l.workers[u].(key := Some(p.key))))
  {
  }

  /** A maintenance looks up its worker, connects, and orders its Dryad into maintenance. */
  lemma MaintenanceStep(l: WorkerList, c: nat, answer: Answer, drawn: Key)
    requires CanStep(l, c) && l.regs[c].phase.Acting? && l.regs[c].phase.op == Maintain
    ensures var o := StepRoutine(l, c, answer, drawn);
            var p := l.regs[c].phase;
            && p.done < 3 && o.note == Quiet && o.error == NoError
            && (p.done == 0 ==> Acted(l, o.list, c, l.regs[c].uuid !in l.workers, p.key))
            && (p.done in {1, 2} ==> Acted(l, o.list, c, answer != Success, p.key))
            && (p.done == 2 <==> Actions(Maintain)[p.done] == Order)
  {
  }

  /**
   The end of an operation with nothing new on the channel: the worker fails if the last action did; otherwise it is
   idle after a preparation and in maintenance after a maintenance.
   */
  lemma CommitOutcome(l: WorkerList, c: nat, answer: Answer, drawn: Key)
    requires P.Inv(l) && CanStep(l, c) && l.regs[c].phase.Committing?
    ensures var o := StepRoutine(l, c, answer, drawn);
            var r := l.regs[c];
            if r.msgs != [] || !r.open then IsInterrupted(l, o, c)
            else
              && r.uuid in l.workers && l.workers[r.uuid].chan == c
              && l.workers[r.uuid].info.state == (match r.phase.op case Prepare => PREPARE case Maintain => BUSY)
              && o.error == NoError
              && var at := l.(regs := l.regs[c := r.(phase := Waiting)]);
                 if r.phase.failed then IsSent(at, o.list, r.uuid, FAIL) && o.note == Quiet
                 else
                   match r.phase.op
                   case Prepare => IsSent(at, o.list, r.uuid, IDLE) && o.note == BecameIdle(r.uuid)
                   case Maintain => IsSent(at, o.list, r.uuid, MAINTENANCE) && o.note == Quiet
  {
    hide P.Inv;
    P.OpenIsCurrent(l, c);
  }
}
