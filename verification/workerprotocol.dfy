/**
 The worker list as a value, and the protocol between the calls of its API and the background
 goroutine that every registration of a worker starts.

 A registration is one channel with the goroutine reading it. The map of workers holds, for each
 worker, the number of its current registration; a goroutine of an earlier registration of the same
 worker may still be running. Sections guarded by the mutex of the list are single steps; between two
 such sections anything may happen. The channel is not bounded: a sender that finds 32 messages waits,
 so every run of the bounded channel is a run of this one.
 */
module WorkerProtocol {

  import opened Boruta
  import opened Filter

  datatype Operation = Prepare | Maintain

  /** What a background operation does between two looks at its channel. */
  datatype Action = GetAddr | Dial | Generate | Encode | Install | Store | Order

  function Actions(op: Operation): seq<Action>
  {
    match op
    case Prepare => [GetAddr, Dial, Generate, Encode, Install, Store]
    case Maintain => [GetAddr, Dial, Order]
  }

  /**
   Where the goroutine is. `Checking` is about to look at the channel after `done` actions, the last of
   which may have failed; `Acting` is about to take the next action; `Committing` is about to enter the
   critical section that ends an operation. `key` is the generated key, from the third action on.
   */
  datatype Phase =
    | Waiting
    | Checking(op: Operation, done: nat, failed: bool, key: Key)
    | Acting(op: Operation, done: nat, key: Key)
    | Committing(op: Operation, failed: bool, key: Key)
    | Ended

  datatype Registration = Registration(
    uuid: WorkerUUID,
    msgs: seq<WorkerState>,
    open: bool,
    phase: Phase)

  datatype MapWorker = MapWorker(info: WorkerInfo, dryad: Addr, sshd: Addr, key: Option<Key>, chan: nat)

  /**
   `dryads` is not known to the list: it is the world outside, the key that the Dryad of each worker accepts, if any.
   There is one Dryad for a UUID, whichever registration calls it. `panicked` records a send on a channel that is
   closed or was never made.
   */
  datatype WorkerList = WorkerList(
    workers: map<WorkerUUID, MapWorker>,
    regs: seq<Registration>,
    dryads: map<WorkerUUID, Key>,
    panicked: bool)

  /** The key installed on the Dryad of the worker. */
  function Installed(l: WorkerList, u: WorkerUUID): Option<Key>
  {
    if u in l.dryads then Some(l.dryads[u]) else None
  }

  /** What the change listener is told. */
  datatype Note = Quiet | BecameIdle(uuid: WorkerUUID) | BrokeRun(uuid: WorkerUUID)

  datatype Outcome = Outcome(list: WorkerList, note: Note, error: Error)

  const EMPTY := WorkerList(map[], [], map[], false)

  function NoteOf(before: WorkerState, state: WorkerState, uuid: WorkerUUID): Note
  {
    if state == IDLE then BecameIdle(uuid)
    else if before == RUN && state != PREPARE then BrokeRun(uuid)
    else Quiet
  }

  /** Sends the new state to the goroutine, tells the listener and stores the state. */
  function SetStateRaw(l: WorkerList, uuid: WorkerUUID, state: WorkerState): Outcome
  {
    if uuid !in l.workers then Outcome(l, Quiet, NotFound)
    else
      var w := l.workers[uuid];
      if w.chan >= |l.regs| || !l.regs[w.chan].open then Outcome(l.(panicked := true), Quiet, NoError)
      else
        var r := l.regs[w.chan];
        Outcome(
          l.(workers := l.workers[uuid := w.(info := w.info.(state := state))],
             regs := l.regs[w.chan := r.(msgs := r.msgs + [state])]),
          NoteOf(w.info.state, state, uuid),
          NoError)
  }

  // ---------- The API ----------

  function Register(l: WorkerList, caps: Capabilities, dryad: Addr, sshd: Addr): Outcome
  {
    if UUID_CAP !in caps then Outcome(l, Quiet, MissingUUID)
    else
      var uuid := caps[UUID_CAP];
      if uuid in l.workers then
        var w := l.workers[uuid];
        var newState :=
          if w.sshd.port != sshd.port || w.dryad.port != dryad.port || w.info.caps != caps then BUSY
          else if w.info.state == FAIL then PREPARE
          else w.info.state;
        var l1 := l.(workers := l.workers[uuid := w.(info := w.info.(caps := caps), dryad := dryad, sshd := sshd)]);
        if newState != w.info.state then SetStateRaw(l1, uuid, newState).(error := NoError)
        else Outcome(l1, Quiet, NoError)
      else
        var w := MapWorker(WorkerInfo(uuid, MAINTENANCE, [], caps), dryad, sshd, None, |l.regs|);
        Outcome(
          l.(workers := l.workers[uuid := w], regs := l.regs + [Registration(uuid, [], true, Waiting)]),
          Quiet,
          NoError)
  }

  function SetFail(l: WorkerList, uuid: WorkerUUID): Outcome
  {
    if uuid !in l.workers then Outcome(l, Quiet, NotFound)
    else if l.workers[uuid].info.state in {MAINTENANCE, BUSY} then Outcome(l, Quiet, InMaintenance)
    else SetStateRaw(l, uuid, FAIL)
  }

  function SetState(l: WorkerList, uuid: WorkerUUID, state: WorkerState): Outcome
  {
    if state != MAINTENANCE && state != IDLE then Outcome(l, Quiet, WrongStateArgument)
    else if uuid !in l.workers then Outcome(l, Quiet, NotFound)
    else
      var now := l.workers[uuid].info.state;
      if state == MAINTENANCE && now == BUSY then Outcome(l, Quiet, NoError)
      else if state == IDLE && now == PREPARE then Outcome(l, Quiet, NoError)
      else if state == IDLE && now != MAINTENANCE then Outcome(l, Quiet, ForbiddenStateChange)
      else SetStateRaw(l, uuid, if state == IDLE then PREPARE else BUSY)
  }

  function SetGroups(l: WorkerList, uuid: WorkerUUID, groups: seq<Group>): Outcome
  {
    if uuid !in l.workers then Outcome(l, Quiet, NotFound)
    else
      var w := l.workers[uuid];
      Outcome(
        l.(workers := l.workers[uuid := w.(info := w.info.(groups := SortedStrings(groups)))]),
        if w.info.state == IDLE then BecameIdle(uuid) else Quiet,
        NoError)
  }

  function Deregister(l: WorkerList, uuid: WorkerUUID): Outcome
  {
    if uuid !in l.workers then Outcome(l, Quiet, NotFound)
    else
      var w := l.workers[uuid];
      if w.info.state !in {MAINTENANCE, FAIL} then Outcome(l, Quiet, NotInFailOrMaintenance)
      else if w.chan >= |l.regs| || !l.regs[w.chan].open then Outcome(l.(panicked := true), Quiet, NoError)
      else
        Outcome(
          l.(workers := l.workers - {uuid}, regs := l.regs[w.chan := l.regs[w.chan].(open := false)]),
          Quiet,
          NoError)
  }

  function PrepareWorker(l: WorkerList, uuid: WorkerUUID, withKeyGeneration: bool): Outcome
  {
    if uuid !in l.workers then Outcome(l, Quiet, NotFound)
    else if l.workers[uuid].info.state != RUN then Outcome(l, Quiet, ForbiddenStateChange)
    else SetStateRaw(l, uuid, if withKeyGeneration then PREPARE else IDLE)
  }

  // ---------- The background goroutine ----------

  /** The phase in which the goroutine takes up a received state. */
  function Dispatch(state: WorkerState): Phase
  {
    match state
    case PREPARE => Checking(Prepare, 0, false, 0)
    case BUSY => Checking(Maintain, 0, false, 0)
    case _ => Waiting
  }

  /** Whether a look at the channel finds something: a message, or that it has been closed. */
  predicate Pending(r: Registration)
  {
    r.msgs != [] || !r.open
  }

  /** A look that finds something empties the channel; the goroutine takes up the last message, or ends. */
  function Interrupted(r: Registration): Registration
    requires Pending(r)
  {
    r.(msgs := [], phase := if !r.open then Ended else Dispatch(r.msgs[|r.msgs| - 1]))
  }

  /** The blocking receive at the head of the loop takes one message only. */
  predicate CanReceive(r: Registration)
  {
    r.phase == Waiting && Pending(r)
  }

  function Receive(r: Registration): Registration
    requires CanReceive(r)
  {
    if r.msgs == [] then r.(phase := Ended)
    else r.(msgs := r.msgs[1..], phase := Dispatch(r.msgs[0]))
  }

  function Check(r: Registration): Registration
    requires r.phase.Checking?
  {
    var p := r.phase;
    if Pending(r) then Interrupted(r)
    else if p.failed || p.done >= |Actions(p.op)| then r.(phase := Committing(p.op, p.failed, p.key))
    else r.(phase := Acting(p.op, p.done, p.key))
  }

  /**
   What becomes of an action: it succeeds, or fails without effect, or has its effect though no answer arrives, or
   fails halfway.
   */
  datatype Answer = Success | Failure | Unanswered | Halfway

  /** A Dryad removes its user, with the old key, before it adds the new one. */
  function AfterInstall(dryads: map<WorkerUUID, Key>, u: WorkerUUID, key: Key, answer: Answer): map<WorkerUUID, Key>
  {
    match answer
    case Failure => dryads
    case Halfway => dryads - {u}
    case _ => dryads[u := key]
  }

  /** Takes the next action; `drawn` is the key drawn by a generation. */
  function Act(l: WorkerList, c: nat, answer: Answer, drawn: Key): WorkerList
    requires c < |l.regs| && l.regs[c].phase.Acting? && l.regs[c].phase.done < |Actions(l.regs[c].phase.op)|
  {
    var r := l.regs[c];
    var p := r.phase;
    var known := r.uuid in l.workers;
    match Actions(p.op)[p.done]
    case GetAddr => l.(regs := l.regs[c := r.(phase := Checking(p.op, p.done + 1, !known, p.key))])
    case Generate => l.(regs := l.regs[c := r.(phase := Checking(p.op, p.done + 1, answer != Success, drawn))])
    case Install =>
      var r1 := r.(phase := Checking(p.op, p.done + 1, answer != Success, p.key));
      l.(regs := l.regs[c := r1], dryads := AfterInstall(l.dryads, r.uuid, p.key, answer))
    case Store =>
      var r1 := r.(phase := Checking(p.op, p.done + 1, !known, p.key));
      var workers := if known then l.workers[r.uuid := l.workers[r.uuid].(key := Some(p.key))] else l.workers;
      l.(workers := workers, regs := l.regs[c := r1])
    case _ => l.(regs := l.regs[c := r.(phase := Checking(p.op, p.done + 1, answer != Success, p.key))])
  }

  /** The state in which an operation leaves its worker. */
  function Target(op: Operation, failed: bool): WorkerState
  {
    if failed then FAIL else match op case Prepare => IDLE case Maintain => MAINTENANCE
  }

  function Commit(l: WorkerList, c: nat): Outcome
    requires c < |l.regs| && l.regs[c].phase.Committing?
  {
    var r := l.regs[c];
    if Pending(r) then Outcome(l.(regs := l.regs[c := Interrupted(r)]), Quiet, NoError)
    else SetStateRaw(l.(regs := l.regs[c := r.(phase := Waiting)]), r.uuid, Target(r.phase.op, r.phase.failed))
  }

  /** Whether the goroutine of registration `c` can take a step. */
  predicate CanStep(l: WorkerList, c: nat)
  {
    && c < |l.regs|
    && match l.regs[c].phase
       case Waiting => Pending(l.regs[c])
       case Checking(_, _, _, _) => true
       case Acting(op, done, _) => done < |Actions(op)|
       case Committing(_, _, _) => true
       case Ended => false
  }

  function StepRoutine(l: WorkerList, c: nat, answer: Answer, drawn: Key): Outcome
    requires CanStep(l, c)
  {
    match l.regs[c].phase
    case Waiting => Outcome(l.(regs := l.regs[c := Receive(l.regs[c])]), Quiet, NoError)
    case Checking(_, _, _, _) => Outcome(l.(regs := l.regs[c := Check(l.regs[c])]), Quiet, NoError)
    case Acting(_, _, _) => Outcome(Act(l, c, answer, drawn), Quiet, NoError)
    case Committing(_, _, _) => Commit(l, c)
  }

  // ---------- Choosing a worker ----------

  const MAX_INT32: nat := 0x7FFF_FFFF

  function Score(w: WorkerInfo): nat
  {
    |w.caps| + |w.groups|
  }

  /** The worker is listed for the requirements: it matches them, or its UUID is empty. */
  predicate Listed(w: WorkerInfo, groups: seq<Group>, caps: Capabilities)
  {
    Matches(w, groups, caps) || w.uuid == ""
  }

  /** The worker can be taken for a request with these requirements. */
  predicate Candidate(l: WorkerList, groups: seq<Group>, caps: Capabilities, u: WorkerUUID)
  {
    && u in l.workers
    && var w := l.workers[u].info;
       w.state == IDLE && Listed(w, groups, caps) && Score(w) < MAX_INT32
  }
}
