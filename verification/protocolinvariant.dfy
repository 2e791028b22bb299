/**
 What every interleaving of the worker list with its background goroutines keeps.
 */
module ProtocolInvariant {

  import opened Boruta
  import opened WorkerProtocol
  import Filter

  function StateOf(op: Operation): WorkerState
  {
    match op case Prepare => PREPARE case Maintain => BUSY
  }

  /** The last message on a non-empty channel is the worker's state; on an empty one the goroutine is at it. */
  predicate LatestWins(w: MapWorker, r: Registration)
  {
    if r.msgs != [] then r.msgs[|r.msgs| - 1] == w.info.state && !r.phase.Ended?
    else
      match r.phase
      case Waiting => w.info.state !in {PREPARE, BUSY}
      case Checking(op, _, _, _) => w.info.state == StateOf(op)
      case Acting(op, _, _) => w.info.state == StateOf(op)
      case Committing(op, _, _) => w.info.state == StateOf(op)
      case Ended => false
  }

  /** A worker that may be given a job has a key, and nothing that would change it is queued or running. */
  predicate Usable(w: MapWorker, r: Registration)
  {
    && w.key.Some?
    && r.phase == Waiting
    && forall m :: m in r.msgs ==> m in {IDLE, RUN}
  }

  /** How many actions of a preparation have succeeded, as far as the goroutine is concerned. */
  function Succeeded(p: Phase): nat
  {
    match p
    case Checking(Prepare, done, false, _) => done
    case Acting(Prepare, done, _) => done
    case Committing(Prepare, false, _) => |Actions(Prepare)|
    case _ => 0
  }

  /** The key a preparation works with. */
  function KeyOf(p: Phase): Key
  {
    match p
    case Checking(_, _, _, key) => key
    case Acting(_, _, key) => key
    case Committing(_, _, key) => key
    case _ => 0
  }

  /** The stored key and that of the Dryad agree, step by step; holds while one goroutine serves the worker. */
  predicate SameKey(w: MapWorker, r: Registration, installed: Option<Key>)
  {
    && (w.info.state in {IDLE, RUN} ==> w.key == installed)
    && (Succeeded(r.phase) >= 5 ==> installed == Some(KeyOf(r.phase)))
    && (Succeeded(r.phase) >= 6 ==> w.key == Some(KeyOf(r.phase)))
  }

  /** So it is for a worker of the list. */
  predicate KeysMatch(l: WorkerList, u: WorkerUUID)
    requires u in l.workers && l.workers[u].chan < |l.regs|
  {
    SameKey(l.workers[u], l.regs[l.workers[u].chan], Installed(l, u))
  }

  /** The worker of registration `c` has never been deregistered. */
  predicate Sole(l: WorkerList, c: nat)
    requires c < |l.regs|
  {
    forall d :: 0 <= d < |l.regs| && d != c ==> l.regs[d].uuid != l.regs[c].uuid
  }

  lemma SoleBefore(l: WorkerList, l': WorkerList, c: nat)
    requires c < |l.regs| <= |l'.regs|
    requires forall d :: 0 <= d < |l.regs| ==> l'.regs[d].uuid == l.regs[d].uuid
    ensures Sole(l', c) ==> Sole(l, c)
  {
    assert forall d :: 0 <= d < |l.regs| ==> l.regs[d].uuid == l'.regs[d].uuid;
  }

  predicate PhaseOk(p: Phase)
  {
    match p
    case Checking(op, done, _, _) => done <= |Actions(op)|
    case Acting(op, done, _) => done < |Actions(op)|
    case _ => true
  }

  /** The worker's current channel is open and is its own. */
  predicate Linked(l: WorkerList, u: WorkerUUID)
    requires u in l.workers
  {
    var w := l.workers[u];
    w.info.uuid == u && w.chan < |l.regs| && l.regs[w.chan].uuid == u && l.regs[w.chan].open
  }

  /** All that holds of a worker but `LatestWins`. */
  predicate Sound(l: WorkerList, u: WorkerUUID)
    requires u in l.workers
  {
    && Linked(l, u)
    && var w := l.workers[u];
       var r := l.regs[w.chan];
       && (w.info.state in {IDLE, RUN} ==> Usable(w, r))
       && (Succeeded(r.phase) >= 6 ==> w.key.Some?)
       && (Sole(l, w.chan) ==> SameKey(w, r, Installed(l, u)))
  }

  predicate WorkerOk(l: WorkerList, u: WorkerUUID)
    requires u in l.workers
  {
    Sound(l, u) && LatestWins(l.workers[u], l.regs[l.workers[u].chan])
  }

  /** An open channel belongs to the current registration of its worker. */
  predicate RegOk(l: WorkerList, c: nat)
    requires c < |l.regs|
  {
    && PhaseOk(l.regs[c].phase)
    && (l.regs[c].open ==> l.regs[c].uuid in l.workers && l.workers[l.regs[c].uuid].chan == c)
  }

  ghost predicate Inv(l: WorkerList)
  {
    && !l.panicked
    && (forall u :: u in l.workers ==> WorkerOk(l, u))
    && (forall c :: 0 <= c < |l.regs| ==> RegOk(l, c))
  }

  lemma ListedIsLinked(l: WorkerList, u: WorkerUUID)
    requires Inv(l) && u in l.workers
    ensures WorkerOk(l, u) && Linked(l, u)
    ensures l.workers[u].info.state in {IDLE, RUN} ==> l.workers[u].key.Some?
    ensures l.regs[l.workers[u].chan].phase != Ended
  {
    assert WorkerOk(l, u);
  }

  lemma OpenIsCurrent(l: WorkerList, c: nat)
    requires Inv(l) && c < |l.regs|
    ensures PhaseOk(l.regs[c].phase)
    ensures l.regs[c].open ==>
              var u := l.regs[c].uuid;
              u in l.workers && l.workers[u].chan == c && Linked(l, u) && LatestWins(l.workers[u], l.regs[c])
  {
    assert RegOk(l, c);
    if l.regs[c].open {
      assert WorkerOk(l, l.regs[c].uuid);
    }
  }

  // ---------- Every step keeps the invariant ----------

  /** What must hold of a worker before it may be set to a state without spoiling the invariant. */
  predicate MayEnter(l: WorkerList, u: WorkerUUID, state: WorkerState)
    requires u in l.workers && Linked(l, u)
  {
    var w := l.workers[u];
    var r := l.regs[w.chan];
    && (state == IDLE ==> Usable(w, r) && (Sole(l, w.chan) ==> w.key == Installed(l, u)))
    && (state == RUN ==> w.info.state == IDLE)
  }

  lemma SetStateKeeps(l: WorkerList, u: WorkerUUID, state: WorkerState)
    requires !l.panicked && u in l.workers
    requires forall v :: v in l.workers ==> Sound(l, v) && (v != u ==> WorkerOk(l, v))
    requires forall c :: 0 <= c < |l.regs| ==> RegOk(l, c)
    requires Linked(l, u) && l.regs[l.workers[u].chan].phase != Ended
    requires MayEnter(l, u, state)
    ensures Inv(SetStateRaw(l, u, state).list)
  {
    var c := l.workers[u].chan;
    var l' := SetStateRaw(l, u, state).list;
    forall v | v in l'.workers
      ensures WorkerOk(l', v)
    {
      assert Sound(l, v);
      if v != u {
        assert l.workers[v].chan != c;
        assert l'.regs[l'.workers[v].chan] == l.regs[l.workers[v].chan];
      }
      SoleBefore(l, l', l.workers[v].chan);
    }
    forall d: nat | d < |l'.regs|
      ensures RegOk(l', d)
    {
      assert RegOk(l, d);
    }
  }

  lemma EnterKeeps(l: WorkerList, u: WorkerUUID, state: WorkerState)
    requires Inv(l) && u in l.workers
    requires state == RUN ==> l.workers[u].info.state == IDLE
    requires state == IDLE ==> l.workers[u].info.state == RUN
    ensures Inv(SetStateRaw(l, u, state).list)
  {
    hide SetStateRaw;
    assert WorkerOk(l, u);
    SetStateKeeps(l, u, state);
  }

  /** Groups, capabilities and addresses play no part in the invariant. */
  lemma EditKeeps(l: WorkerList, u: WorkerUUID, w: MapWorker)
    requires Inv(l) && u in l.workers
    requires w.chan == l.workers[u].chan && w.key == l.workers[u].key
    requires w.info.state == l.workers[u].info.state && w.info.uuid == l.workers[u].info.uuid
    ensures Inv(l.(workers := l.workers[u := w]))
  {
    var l1 := l.(workers := l.workers[u := w]);
    forall v | v in l1.workers
      ensures WorkerOk(l1, v)
    {
      assert WorkerOk(l, v);
      SoleBefore(l, l1, l.workers[v].chan);
    }
    forall d: nat | d < |l1.regs|
      ensures RegOk(l1, d)
    {
      assert RegOk(l, d);
    }
  }

  lemma AddKeeps(l: WorkerList, w: MapWorker)
    requires Inv(l) && w.info.uuid !in l.workers && w.chan == |l.regs| && w.info.state == MAINTENANCE
    ensures Inv(l.(workers := l.workers[w.info.uuid := w],
                   regs := l.regs + [Registration(w.info.uuid, [], true, Waiting)]))
  {
    var u := w.info.uuid;
    var l' := l.(workers := l.workers[u := w], regs := l.regs + [Registration(u, [], true, Waiting)]);
    forall v | v in l'.workers
      ensures WorkerOk(l', v)
    {
      if v != u {
        assert WorkerOk(l, v);
        SoleBefore(l, l', l.workers[v].chan);
      }
    }
    forall d: nat | d < |l'.regs|
      ensures RegOk(l', d)
    {
      assert d < |l.regs| ==> RegOk(l, d);
    }
  }

  lemma RegisterKeeps(l: WorkerList, caps: Capabilities, dryad: Addr, sshd: Addr)
    requires Inv(l)
    ensures Inv(Register(l, caps, dryad, sshd).list)
  {
    hide Inv, SetStateRaw;
    if UUID_CAP in caps {
      var u := caps[UUID_CAP];
      if u in l.workers {
        var w := l.workers[u];
        var w' := w.(info := w.info.(caps := caps), dryad := dryad, sshd := sshd);
        EditKeeps(l, u, w');
        EnterKeeps(l.(workers := l.workers[u := w']), u, BUSY);
        EnterKeeps(l.(workers := l.workers[u := w']), u, PREPARE);
      } else {
        AddKeeps(l, MapWorker(WorkerInfo(u, MAINTENANCE, [], caps), dryad, sshd, None, |l.regs|));
      }
    }
  }

  lemma DeregisterKeeps(l: WorkerList, u: WorkerUUID)
    requires Inv(l)
    ensures Inv(Deregister(l, u).list)
  {
    var l' := Deregister(l, u).list;
    if u in l.workers && l' != l {
      assert WorkerOk(l, u);
      var c := l.workers[u].chan;
      forall v | v in l'.workers
        ensures WorkerOk(l', v)
      {
        assert WorkerOk(l, v);
        assert l'.regs[l'.workers[v].chan] == l.regs[l.workers[v].chan];
        SoleBefore(l, l', l.workers[v].chan);
      }
      forall d: nat | d < |l'.regs|
        ensures RegOk(l', d)
      {
        assert RegOk(l, d);
      }
    }
  }

  /** The other calls of the API and of the matcher. */
  lemma CallsKeep(l: WorkerList, u: WorkerUUID, state: WorkerState, groups: seq<Group>, generate: bool)
    requires Inv(l)
    ensures Inv(SetFail(l, u).list)
    ensures Inv(SetState(l, u, state).list)
    ensures Inv(SetGroups(l, u, groups).list)
    ensures Inv(PrepareWorker(l, u, generate).list)
    ensures u in l.workers && l.workers[u].info.state == IDLE ==> Inv(SetStateRaw(l, u, RUN).list)
  {
    hide Inv, SetStateRaw;
    if u in l.workers {
      var w := l.workers[u];
      EditKeeps(l, u, w.(info := w.info.(groups := Filter.SortedStrings(groups))));
      EnterKeeps(l, u, FAIL);
      EnterKeeps(l, u, PREPARE);
      EnterKeeps(l, u, BUSY);
      if w.info.state == RUN {
        EnterKeeps(l, u, IDLE);
      }
      if w.info.state == IDLE {
        EnterKeeps(l, u, RUN);
      }
    }
  }

  /** A goroutine changes only its own registration, if it takes no action and commits nothing. */
  lemma LocalStepKeeps(l: WorkerList, c: nat, r: Registration)
    requires Inv(l) && c < |l.regs|
    requires r.uuid == l.regs[c].uuid && r.open == l.regs[c].open && PhaseOk(r.phase)
    requires r.open ==>
               && r.uuid in l.workers
               && var w := l.workers[r.uuid];
               && LatestWins(w, r)
               && (w.info.state in {IDLE, RUN} ==> Usable(w, r))
               && (Succeeded(r.phase) >= 6 ==> w.key.Some?)
               && (Sole(l, c) ==> SameKey(w, r, Installed(l, r.uuid)))
    ensures Inv(l.(regs := l.regs[c := r]))
  {
    var l' := l.(regs := l.regs[c := r]);
    forall v | v in l'.workers
      ensures WorkerOk(l', v)
    {
      assert WorkerOk(l, v);
      assert RegOk(l, c);
      SoleBefore(l, l', l.workers[v].chan);
    }
    forall d: nat | d < |l'.regs|
      ensures RegOk(l', d)
    {
      assert RegOk(l, d);
    }
  }

  lemma StoreKeeps(l: WorkerList, c: nat, drawn: Key)
    requires Inv(l) && c < |l.regs|
    requires l.regs[c].phase.Acting? && l.regs[c].phase.op == Prepare && l.regs[c].phase.done == 5
    ensures Inv(Act(l, c, Success, drawn))
  {
    var l' := Act(l, c, Success, drawn);
    var u := l.regs[c].uuid;
    assert RegOk(l, c);
    forall v | v in l'.workers
      ensures WorkerOk(l', v)
    {
      assert WorkerOk(l, v);
      var d := l.workers[v].chan;
      SoleBefore(l, l', d);
      if v == u && d != c {
        assert !Sole(l', d);
      }
    }
    forall d: nat | d < |l'.regs|
      ensures RegOk(l', d)
    {
      assert RegOk(l, d);
    }
  }

  /** An installation concerns the Dryad of one worker, also if it is one of an earlier registration. */
  lemma InstallKeeps(l: WorkerList, c: nat, answer: Answer, drawn: Key)
    requires Inv(l) && c < |l.regs|
    requires l.regs[c].phase.Acting? && l.regs[c].phase.op == Prepare && l.regs[c].phase.done == 4
    ensures Inv(Act(l, c, answer, drawn))
  {
    var l' := Act(l, c, answer, drawn);
    var u := l.regs[c].uuid;
    assert RegOk(l, c);
    forall v | v in l'.workers
      ensures WorkerOk(l', v)
    {
      assert WorkerOk(l, v);
      var d := l.workers[v].chan;
      SoleBefore(l, l', d);
      if v == u && d != c {
        assert !Sole(l', d);
      }
    }
    forall d: nat | d < |l'.regs|
      ensures RegOk(l', d)
    {
      assert RegOk(l, d);
    }
  }

  /** The other actions bring the goroutine to its next look at the channel. */
  lemma OtherActIs(l: WorkerList, c: nat, answer: Answer, drawn: Key)
    requires c < |l.regs| && l.regs[c].phase.Acting? && l.regs[c].phase.done < |Actions(l.regs[c].phase.op)|
    requires Actions(l.regs[c].phase.op)[l.regs[c].phase.done] !in {Install, Store}
    ensures var l' := Act(l, c, answer, drawn);
            var p := l.regs[c].phase;
            && |l'.regs| == |l.regs| && l' == l.(regs := l.regs[c := l'.regs[c]])
            && l'.regs[c] == l.regs[c].(phase := l'.regs[c].phase)
            && l'.regs[c].phase.Checking? && l'.regs[c].phase.op == p.op && l'.regs[c].phase.done == p.done + 1
            && Succeeded(l'.regs[c].phase) < 5
  {
  }

  lemma ActKeeps(l: WorkerList, c: nat, answer: Answer, drawn: Key)
    requires Inv(l) && CanStep(l, c) && l.regs[c].phase.Acting?
    ensures Inv(Act(l, c, answer, drawn))
  {
    hide Act, Inv;
    var r := l.regs[c];
    OpenIsCurrent(l, c);
    if Actions(r.phase.op)[r.phase.done] == Store {
      StoreIgnoresAnswer(l, c, answer, drawn);
      StoreKeeps(l, c, drawn);
    } else if Actions(r.phase.op)[r.phase.done] == Install {
      InstallKeeps(l, c, answer, drawn);
    } else {
      OtherActIs(l, c, answer, drawn);
      if r.open {
        AtWorkIsNotUsable(l, r.uuid);
      }
      LocalStepKeeps(l, c, Act(l, c, answer, drawn).regs[c]);
    }
  }

  lemma StoreIgnoresAnswer(l: WorkerList, c: nat, answer: Answer, drawn: Key)
    requires c < |l.regs| && l.regs[c].phase.Acting? && l.regs[c].phase.done < |Actions(l.regs[c].phase.op)|
    requires Actions(l.regs[c].phase.op)[l.regs[c].phase.done] == Store
    ensures Act(l, c, answer, drawn) == Act(l, c, Success, drawn)
  {
  }

  lemma AtWorkIsNotUsable(l: WorkerList, u: WorkerUUID)
    requires Inv(l) && u in l.workers && l.workers[u].chan < |l.regs|
    ensures l.regs[l.workers[u].chan].phase != Waiting ==> l.workers[u].info.state !in {IDLE, RUN}
  {
    assert WorkerOk(l, u);
  }

  lemma CommitKeeps(l: WorkerList, c: nat)
    requires Inv(l) && c < |l.regs| && l.regs[c].phase.Committing?
    ensures Inv(Commit(l, c).list)
  {
    var r := l.regs[c];
    assert RegOk(l, c);
    if r.open {
      assert WorkerOk(l, r.uuid);
    }
    if Pending(r) {
      LocalStepKeeps(l, c, Interrupted(r));
    } else {
      var u := r.uuid;
      var l1 := l.(regs := l.regs[c := r.(phase := Waiting)]);
      forall v | v in l1.workers
        ensures Sound(l1, v) && (v != u ==> WorkerOk(l1, v))
      {
        assert WorkerOk(l, v);
        SoleBefore(l, l1, l.workers[v].chan);
      }
      forall d: nat | d < |l1.regs|
        ensures RegOk(l1, d)
      {
        assert RegOk(l, d);
      }
      SoleBefore(l, l1, c);
      SetStateKeeps(l1, u, Target(r.phase.op, r.phase.failed));
    }
  }

  lemma RoutineKeeps(l: WorkerList, c: nat, answer: Answer, drawn: Key)
    requires Inv(l) && CanStep(l, c)
    ensures Inv(StepRoutine(l, c, answer, drawn).list)
  {
    var r := l.regs[c];
    assert RegOk(l, c);
    if r.open {
      assert WorkerOk(l, r.uuid);
    }
    match r.phase
    case Waiting =>
      assert r.msgs != [] ==> r.msgs[0] in r.msgs && forall m :: m in r.msgs[1..] ==> m in r.msgs;
      LocalStepKeeps(l, c, Receive(r));
    case Checking(_, _, _, _) => LocalStepKeeps(l, c, Check(r));
    case Acting(_, _, _) => ActKeeps(l, c, answer, drawn);
    case Committing(_, _, _) => CommitKeeps(l, c);
  }
}
