/**
 What the protocol promises: a background operation never overwrites a later decision, never touches
 another registration, and always comes to an end.
 */
module ProtocolTheorems {

  import opened Boruta
  import opened WorkerProtocol
  import opened ProtocolInvariant
  import Filter

  /** A goroutine changes a worker's state only as the end of the operation that the state stands for. */
  predicate LegalCommit(before: WorkerState, after: WorkerState)
  {
    || (before == PREPARE && after in {IDLE, FAIL})
    || (before == BUSY && after in {MAINTENANCE, FAIL})
  }

  /** Whichever step a goroutine takes, the only state it may change is that of its own registration. */
  lemma NoStaleOverwrite(l: WorkerList, c: nat, answer: Answer, drawn: Key, u: WorkerUUID)
    requires Inv(l) && CanStep(l, c)
    ensures var l' := StepRoutine(l, c, answer, drawn).list;
            && l'.workers.Keys == l.workers.Keys
            && (u in l.workers && l'.workers[u].info != l.workers[u].info ==>
                  && l.workers[u].chan == c && l.regs[c].open && l.regs[c].msgs == []
                  && LegalCommit(l.workers[u].info.state, l'.workers[u].info.state)
                  && l'.workers[u].info == l.workers[u].info.(state := l'.workers[u].info.state))
  {
    hide Inv;
    OpenIsCurrent(l, c);
  }

  /** A goroutine whose worker was deregistered changes no worker's state, even if the worker came back. */
  lemma StaleGoroutineIsHarmless(l: WorkerList, c: nat, answer: Answer, drawn: Key, u: WorkerUUID)
    requires Inv(l) && CanStep(l, c) && !l.regs[c].open && u in l.workers
    ensures StepRoutine(l, c, answer, drawn).list.workers[u].info == l.workers[u].info
    ensures StepRoutine(l, c, answer, drawn).note == Quiet
  {
    NoStaleOverwrite(l, c, answer, drawn, u);
  }

  /** Worker `u` may be given a job. */
  predicate MayServe(l: WorkerList, u: WorkerUUID)
    requires u in l.workers
  {
    l.workers[u].info.state in {IDLE, RUN}
  }

  /** The step stores the key of an earlier registration over another one that is, or is about to be, in use. */
  predicate SpoilsStored(l: WorkerList, d: nat, u: WorkerUUID)
    requires d < |l.regs| && l.regs[d].phase.Acting? && u in l.workers && l.workers[u].chan < |l.regs|
  {
    var w := l.workers[u];
    && l.regs[d].phase.done == 5 && w.key != Some(l.regs[d].phase.key)
    && (MayServe(l, u) || Succeeded(l.regs[w.chan].phase) >= 6)
  }

  /** The step installs the key of an earlier registration over such a key, or only removes that. */
  predicate SpoilsInstalled(l: WorkerList, d: nat, answer: Answer, u: WorkerUUID)
    requires d < |l.regs| && l.regs[d].phase.Acting? && u in l.workers && l.workers[u].chan < |l.regs|
  {
    var w := l.workers[u];
    var working := l.regs[w.chan].phase;
    var left := if answer == Halfway then None else Some(l.regs[d].phase.key);
    && l.regs[d].phase.done == 4 && answer != Failure
    && ((MayServe(l, u) && w.key != left) || (Succeeded(working) >= 5 && left != Some(KeyOf(working))))
  }

  /** The step of goroutine `d`, of an earlier registration, spoils the keys of worker `u`. */
  predicate Spoils(l: WorkerList, d: nat, answer: Answer, u: WorkerUUID)
    requires d < |l.regs| && u in l.workers && l.workers[u].chan < |l.regs|
  {
    && d != l.workers[u].chan && l.regs[d].uuid == u
    && l.regs[d].phase.Acting? && l.regs[d].phase.op == Prepare
    && (SpoilsStored(l, d, u) || SpoilsInstalled(l, d, answer, u))
  }

  /** Seen from the step's own registration: a goroutine of the current one keeps the keys in agreement. */
  lemma OwnStepKeepsKeys(l: WorkerList, d: nat, answer: Answer, drawn: Key, u: WorkerUUID)
    requires Inv(l) && CanStep(l, d) && u in l.workers && l.workers[u].chan == d && KeysMatch(l, u)
    ensures var l' := StepRoutine(l, d, answer, drawn).list;
            u in l'.workers && l'.workers[u].chan == d < |l'.regs| && KeysMatch(l', u)
  {
    hide Inv, LatestWins;
    OpenIsCurrent(l, d);
    ListedIsLinked(l, u);
    assert LatestWins(l.workers[u], l.regs[d]);
    AtWorkIsNotUsable(l, u);
    match l.regs[d].phase
    case Waiting =>
    case Checking(_, _, _, _) =>
    case Acting(_, _, _) => OwnActKeepsKeys(l, d, answer, drawn, u);
    case Committing(_, _, _) =>
  }

  lemma OwnActKeepsKeys(l: WorkerList, d: nat, answer: Answer, drawn: Key, u: WorkerUUID)
    requires u in l.workers && l.workers[u].chan == d && Linked(l, u) && LatestWins(l.workers[u], l.regs[d])
    requires l.regs[d].phase.Acting? && l.regs[d].phase.done < |Actions(l.regs[d].phase.op)|
    requires !MayServe(l, u) && KeysMatch(l, u)
    ensures var l' := Act(l, d, answer, drawn);
            u in l'.workers && l'.workers[u].chan == d < |l'.regs| && KeysMatch(l', u)
  {
  }

  /** What an action changes, beside the phase of its goroutine. */
  lemma ActIs(l: WorkerList, c: nat, answer: Answer, drawn: Key)
    requires c < |l.regs| && l.regs[c].phase.Acting? && l.regs[c].phase.done < |Actions(l.regs[c].phase.op)|
    ensures var l' := Act(l, c, answer, drawn);
            var r := l.regs[c];
            && |l'.regs| == |l.regs| && l'.regs == l.regs[c := l'.regs[c]]
            && l'.regs[c].uuid == r.uuid && l'.panicked == l.panicked
            && l'.workers == (if r.phase.op == Prepare && r.phase.done == 5 && r.uuid in l.workers
                              then l.workers[r.uuid := l.workers[r.uuid].(key := Some(r.phase.key))] else l.workers)
            && l'.dryads == (if r.phase.op == Prepare && r.phase.done == 4
                             then AfterInstall(l.dryads, r.uuid, r.phase.key, answer) else l.dryads)
  {
  }

  /** What a goroutine of an earlier registration does to the keys of a worker. */
  lemma LateActSpoils(l: WorkerList, d: nat, answer: Answer, drawn: Key, u: WorkerUUID)
    requires u in l.workers && l.workers[u].chan < |l.regs| && l.workers[u].chan != d && KeysMatch(l, u)
    requires d < |l.regs| && l.regs[d].phase.Acting? && l.regs[d].phase.done < |Actions(l.regs[d].phase.op)|
    ensures var l' := Act(l, d, answer, drawn);
            && u in l'.workers && l'.workers[u].chan == l.workers[u].chan < |l'.regs|
            && (KeysMatch(l', u) <==> !Spoils(l, d, answer, u))
  {
    hide Act;
    ActIs(l, d, answer, drawn);
  }

  lemma OtherStepsTouchNoKeys(l: WorkerList, d: nat, answer: Answer, drawn: Key, u: WorkerUUID)
    requires Inv(l) && CanStep(l, d) && u in l.workers && l.workers[u].chan < |l.regs| && l.workers[u].chan != d
    requires !l.regs[d].phase.Acting?
    ensures var l' := StepRoutine(l, d, answer, drawn).list;
            && u in l'.workers && l'.workers[u] == l.workers[u] && l.workers[u].chan < |l'.regs|
            && (KeysMatch(l', u) <==> KeysMatch(l, u))
  {
    hide Inv, LatestWins;
    OpenIsCurrent(l, d);
  }

  /** A step of a goroutine makes the stored key of a worker and its Dryad's differ if and only if it spoils them. */
  lemma KeysAgreeUnlessSpoiled(l: WorkerList, d: nat, answer: Answer, drawn: Key, u: WorkerUUID)
    requires Inv(l) && CanStep(l, d) && u in l.workers && l.workers[u].chan < |l.regs| && KeysMatch(l, u)
    ensures var l' := StepRoutine(l, d, answer, drawn).list;
            && u in l'.workers && l'.workers[u].chan == l.workers[u].chan < |l'.regs|
            && (KeysMatch(l', u) <==> !Spoils(l, d, answer, u))
  {
    hide Inv, LatestWins, KeysMatch, Act, SpoilsStored, SpoilsInstalled;
    ListedIsLinked(l, u);
    if d == l.workers[u].chan {
      OwnStepKeepsKeys(l, d, answer, drawn, u);
    } else if l.regs[d].phase.Acting? {
      LateActSpoils(l, d, answer, drawn, u);
    } else {
      OtherStepsTouchNoKeys(l, d, answer, drawn, u);
    }
  }

  /** The keys agree for every worker for which they did before, and for every new one. */
  ghost predicate KeysKept(l: WorkerList, l': WorkerList)
  {
    forall u :: u in l'.workers && Linked(l', u) ==>
                  (u in l.workers ==> Linked(l, u) && KeysMatch(l, u)) ==> KeysMatch(l', u)
  }

  lemma KeysKeptTransitive(a: WorkerList, b: WorkerList, c: WorkerList)
    requires Inv(b) && KeysKept(a, b) && KeysKept(b, c)
    ensures KeysKept(a, c)
  {
    hide Inv, KeysMatch;
    forall v | v in b.workers
      ensures Linked(b, v)
    {
      ListedIsLinked(b, v);
    }
  }

  /** The step of this goroutine spoils the key of some worker. */
  ghost predicate SpoilsSome(l: WorkerList, d: nat, answer: Answer)
  {
    d < |l.regs| && exists u :: u in l.workers && l.workers[u].chan < |l.regs| && Spoils(l, d, answer, u)
  }

  lemma UnspoiledKeepsKeys(l: WorkerList, d: nat, answer: Answer, drawn: Key)
    requires Inv(l) && CanStep(l, d) && !SpoilsSome(l, d, answer)
    ensures KeysKept(l, StepRoutine(l, d, answer, drawn).list)
  {
    hide Inv, KeysMatch, StepRoutine, Spoils;
    var l' := StepRoutine(l, d, answer, drawn).list;
    StepKeepsWorkers(l, d, answer, drawn);
    forall u | u in l'.workers && Linked(l', u) && Linked(l, u) && KeysMatch(l, u)
      ensures KeysMatch(l', u)
    {
      KeysAgreeUnlessSpoiled(l, d, answer, drawn, u);
    }
  }

  lemma StepKeepsWorkers(l: WorkerList, d: nat, answer: Answer, drawn: Key)
    requires Inv(l) && CanStep(l, d)
    ensures StepRoutine(l, d, answer, drawn).list.workers.Keys == l.workers.Keys
  {
    hide Inv;
    NoStaleOverwrite(l, d, answer, drawn, "");
  }

  lemma SetStateKeepsKeys(l: WorkerList, u: WorkerUUID, state: WorkerState)
    requires Inv(l) && (u in l.workers && state in {IDLE, RUN} ==> l.workers[u].info.state in {IDLE, RUN})
    ensures KeysKept(l, SetStateRaw(l, u, state).list)
  {
    hide Inv;
    forall v | v in l.workers
      ensures Linked(l, v)
    {
      ListedIsLinked(l, v);
    }
  }

  lemma EditKeepsKeys(l: WorkerList, u: WorkerUUID, w: MapWorker, l': WorkerList)
    requires Inv(l) && u in l.workers && w.chan == l.workers[u].chan && w.key == l.workers[u].key
    requires w.info.state == l.workers[u].info.state && w.info.uuid == l.workers[u].info.uuid
    requires KeysKept(l.(workers := l.workers[u := w]), l')
    ensures KeysKept(l, l')
  {
    hide Inv;
    var l1 := l.(workers := l.workers[u := w]);
    forall v | v in l.workers
      ensures Linked(l, v) && Linked(l1, v)
    {
      ListedIsLinked(l, v);
    }
  }

  lemma NothingKeepsKeys(l: WorkerList)
    ensures KeysKept(l, l)
  {
  }

  /** No call of the API, and none of the matcher, makes them differ. */
  lemma CallsKeepKeys(l: WorkerList, u: WorkerUUID, state: WorkerState, groups: seq<Group>, generate: bool)
    requires Inv(l)
    ensures KeysKept(l, SetFail(l, u).list)
    ensures KeysKept(l, SetState(l, u, state).list)
    ensures KeysKept(l, SetGroups(l, u, groups).list)
    ensures KeysKept(l, PrepareWorker(l, u, generate).list)
    ensures u in l.workers && l.workers[u].info.state == IDLE ==> KeysKept(l, SetStateRaw(l, u, RUN).list)
  {
    hide Inv, KeysKept, SetStateRaw;
    NothingKeepsKeys(l);
    if u in l.workers {
      var w := l.workers[u];
      var w' := w.(info := w.info.(groups := Filter.SortedStrings(groups)));
      NothingKeepsKeys(l.(workers := l.workers[u := w']));
      EditKeepsKeys(l, u, w', l.(workers := l.workers[u := w']));
      SetStateKeepsKeys(l, u, FAIL);
      SetStateKeepsKeys(l, u, PREPARE);
      SetStateKeepsKeys(l, u, BUSY);
      if w.info.state in {IDLE, RUN} {
        SetStateKeepsKeys(l, u, IDLE);
        SetStateKeepsKeys(l, u, RUN);
      }
    }
  }

  /** A new registration starts without keys, a repeated one keeps what there is. */
  lemma RegisterKeepsKeys(l: WorkerList, caps: Capabilities, dryad: Addr, sshd: Addr)
    requires Inv(l)
    ensures KeysKept(l, Register(l, caps, dryad, sshd).list)
  {
    hide Inv, SetStateRaw;
    if UUID_CAP in caps && caps[UUID_CAP] in l.workers {
      hide KeysKept;
      var u := caps[UUID_CAP];
      var w := l.workers[u];
      var w' := w.(info := w.info.(caps := caps), dryad := dryad, sshd := sshd);
      var l1 := l.(workers := l.workers[u := w']);
      EditKeeps(l, u, w');
      NothingKeepsKeys(l1);
      SetStateKeepsKeys(l1, u, BUSY);
      SetStateKeepsKeys(l1, u, PREPARE);
      EditKeepsKeys(l, u, w', Register(l, caps, dryad, sshd).list);
    } else {
      forall v | v in l.workers
        ensures Linked(l, v)
      {
        ListedIsLinked(l, v);
      }
    }
  }

  lemma DeregisterKeepsKeys(l: WorkerList, u: WorkerUUID)
    requires Inv(l)
    ensures KeysKept(l, Deregister(l, u).list)
  {
    hide Inv;
    forall v | v in l.workers
      ensures Linked(l, v)
    {
      ListedIsLinked(l, v);
    }
  }

  // ---------- Operations end ----------

  function Weight(m: WorkerState): nat
  {
    if m in {PREPARE, BUSY} then 20 else 1
  }

  function Weights(ms: seq<WorkerState>): nat
  {
    if ms == [] then 0 else Weight(ms[0]) + Weights(ms[1..])
  }

  function Rank(p: Phase): nat
  {
    match p
    case Waiting => 1
    case Checking(op, done, _, _) => if done <= 6 then 3 + 2 * (6 - done) + 1 else 4
    case Acting(op, done, _) => if done <= 5 then 3 + 2 * (6 - done) else 3
    case Committing(_, _, _) => 3
    case Ended => 0
  }

  /** How much is left to do for a goroutine that is left alone. */
  function Effort(r: Registration): nat
  {
    Weights(r.msgs) + Rank(r.phase)
  }

  lemma {:induction false} WeightsCoverLast(ms: seq<WorkerState>)
    requires ms != []
    ensures Weights(ms) >= Weight(ms[|ms| - 1])
  {
    if |ms| > 1 {
      WeightsCoverLast(ms[1..]);
    }
  }

  lemma {:induction false} WeightsAppend(ms: seq<WorkerState>, m: WorkerState)
    ensures Weights(ms + [m]) == Weights(ms) + Weight(m)
  {
    if ms == [] {
      assert ms + [m] == [m];
    } else {
      WeightsAppend(ms[1..], m);
      assert (ms + [m])[1..] == ms[1..] + [m];
    }
  }

  lemma LookShortens(r: Registration)
    requires PhaseOk(r.phase)
    ensures CanReceive(r) ==> Effort(Receive(r)) < Effort(r)
    ensures Pending(r) && Rank(r.phase) >= 3 ==> Effort(Interrupted(r)) < Effort(r)
  {
    if r.msgs != [] {
      WeightsCoverLast(r.msgs);
    }
  }

  lemma ActShortens(l: WorkerList, c: nat, answer: Answer, drawn: Key)
    requires c < |l.regs| && l.regs[c].phase.Acting? && l.regs[c].phase.done < |Actions(l.regs[c].phase.op)|
    ensures var l' := Act(l, c, answer, drawn);
            && l'.regs == l.regs[c := l'.regs[c]]
            && Effort(l'.regs[c]) < Effort(l.regs[c])
  {
    hide Weights;
  }

  lemma CommitShortens(l: WorkerList, c: nat)
    requires Inv(l) && c < |l.regs| && l.regs[c].phase.Committing?
    ensures var l' := Commit(l, c).list;
            && l'.regs == l.regs[c := l'.regs[c]]
            && Effort(l'.regs[c]) < Effort(l.regs[c])
  {
    hide Inv, LatestWins;
    var r := l.regs[c];
    OpenIsCurrent(l, c);
    LookShortens(r);
    if !Pending(r) {
      WeightsAppend([], Target(r.phase.op, r.phase.failed));
    }
  }

  /** Every step of a goroutine shortens what is left, so between two calls it takes finitely many. */
  lemma GoroutineSettles(l: WorkerList, c: nat, answer: Answer, drawn: Key)
    requires Inv(l) && CanStep(l, c)
    ensures var l' := StepRoutine(l, c, answer, drawn).list;
            |l'.regs| == |l.regs| && Effort(l'.regs[c]) < Effort(l.regs[c])
    ensures forall d :: 0 <= d < |l.regs| && d != c ==>
              StepRoutine(l, c, answer, drawn).list.regs[d] == l.regs[d]
  {
    hide Inv, LatestWins;
    var r := l.regs[c];
    OpenIsCurrent(l, c);
    LookShortens(r);
    match r.phase
    case Waiting =>
    case Checking(_, _, _, _) =>
    case Acting(_, _, _) => ActShortens(l, c, answer, drawn);
    case Committing(_, _, _) => CommitShortens(l, c);
  }

  /** Once its goroutine has come to rest a worker is neither in preparation nor entering maintenance. */
  lemma SettledWorkerIsDecided(l: WorkerList, u: WorkerUUID)
    requires Inv(l) && u in l.workers && !CanStep(l, l.workers[u].chan)
    ensures l.workers[u].info.state !in {PREPARE, BUSY}
  {
    assert WorkerOk(l, u);
    assert RegOk(l, l.workers[u].chan);
  }

  // ---------- What the rest of the system sees of a step of the worker list ----------

  predicate Running(l: WorkerList, u: WorkerUUID)
  {
    u in l.workers && l.workers[u].info.state == RUN
  }

  predicate Idle(l: WorkerList, u: WorkerUUID)
  {
    u in l.workers && l.workers[u].info.state == IDLE
  }

  /**
   No registration changes hands; running workers keep theirs, and the key on the Dryad, if they never had another; no
   step changes both the stored key of one and that on its Dryad.
   */
  ghost predicate RunsStay(l: WorkerList, l': WorkerList)
  {
    && |l.regs| <= |l'.regs|
    && (forall c :: 0 <= c < |l.regs| ==> l'.regs[c].uuid == l.regs[c].uuid)
    && (forall u :: Running(l, u) && Running(l', u) && l.workers[u].chan < |l.regs| ==>
                      && l'.workers[u].chan == l.workers[u].chan
                      && (Sole(l', l.workers[u].chan) && l.regs[l.workers[u].chan].uuid == u ==>
                            Installed(l', u) == Installed(l, u))
                      && (l'.workers[u].key == l.workers[u].key || Installed(l', u) == Installed(l, u)))
  }

  /** Running workers stop only with the note that says so, and idle ones appear only with theirs. */
  ghost predicate Announced(l: WorkerList, o: Outcome)
  {
    && RunsStay(l, o.list)
    && (forall u :: Running(o.list, u) <==> Running(l, u) && o.note != BrokeRun(u))
    && (o.note.BrokeRun? ==> Running(l, o.note.uuid))
    && (forall u :: Idle(o.list, u) && !o.note.BecameIdle? ==>
                      Idle(l, u) && o.list.workers[u].info == l.workers[u].info)
  }

  lemma RunsOutlastSetState(l: WorkerList, u: WorkerUUID, state: WorkerState)
    ensures RunsStay(l, SetStateRaw(l, u, state).list)
  {
  }

  lemma QuietIsAnnounced(l: WorkerList, e: Error)
    ensures Announced(l, Outcome(l, Quiet, e))
  {
  }

  lemma SetStateIsAnnounced(l: WorkerList, u: WorkerUUID, state: WorkerState)
    requires Inv(l)
    requires state in {MAINTENANCE, FAIL, PREPARE, BUSY} && (Running(l, u) ==> state != PREPARE)
    ensures Announced(l, SetStateRaw(l, u, state))
  {
    hide Inv, RunsStay;
    RunsOutlastSetState(l, u, state);
    if u in l.workers {
      ListedIsLinked(l, u);
    }
  }

  lemma SetFailIsAnnounced(l: WorkerList, u: WorkerUUID)
    requires Inv(l)
    ensures Announced(l, SetFail(l, u))
  {
    hide Inv, SetStateRaw, Announced;
    QuietIsAnnounced(l, SetFail(l, u).error);
    SetStateIsAnnounced(l, u, FAIL);
  }

  lemma SetStateCallIsAnnounced(l: WorkerList, u: WorkerUUID, state: WorkerState)
    requires Inv(l)
    ensures Announced(l, SetState(l, u, state))
  {
    hide Inv, SetStateRaw, Announced;
    QuietIsAnnounced(l, SetState(l, u, state).error);
    SetStateIsAnnounced(l, u, BUSY);
    if !Running(l, u) {
      SetStateIsAnnounced(l, u, PREPARE);
    }
  }

  lemma SetGroupsIsAnnounced(l: WorkerList, u: WorkerUUID, groups: seq<Group>)
    requires Inv(l)
    ensures Announced(l, SetGroups(l, u, groups))
  {
  }

  lemma DeregisterIsAnnounced(l: WorkerList, u: WorkerUUID)
    requires Inv(l)
    ensures Announced(l, Deregister(l, u))
  {
  }

  /** An edit that leaves the states alone makes no difference, if the edited worker does not end up idle. */
  lemma EditIsAnnounced(l: WorkerList, u: WorkerUUID, w: MapWorker, o: Outcome)
    requires u in l.workers && w.info.state == l.workers[u].info.state
    requires w.chan == l.workers[u].chan && w.key == l.workers[u].key
    requires Announced(l.(workers := l.workers[u := w]), o) && (Idle(o.list, u) ==> w.info == l.workers[u].info)
    ensures Announced(l, o)
  {
    var l1 := l.(workers := l.workers[u := w]);
    assert forall v :: Running(l1, v) == Running(l, v) && Idle(l1, v) == Idle(l, v);
  }

  lemma RegisterIsAnnounced(l: WorkerList, caps: Capabilities, dryad: Addr, sshd: Addr)
    requires Inv(l)
    ensures Announced(l, Register(l, caps, dryad, sshd))
  {
    hide Inv, Announced, SetStateRaw;
    var o := Register(l, caps, dryad, sshd);
    if UUID_CAP in caps && caps[UUID_CAP] in l.workers {
      var u := caps[UUID_CAP];
      var w := l.workers[u];
      var w' := w.(info := w.info.(caps := caps), dryad := dryad, sshd := sshd);
      var l1 := l.(workers := l.workers[u := w']);
      EditKeeps(l, u, w');
      QuietIsAnnounced(l1, NoError);
      SetStateIsAnnounced(l1, u, BUSY);
      AfterSetState(l1, u, BUSY);
      if !Running(l1, u) {
        SetStateIsAnnounced(l1, u, PREPARE);
        AfterSetState(l1, u, PREPARE);
      }
      ErrorIsNoMatter(l1, SetStateRaw(l1, u, BUSY));
      ErrorIsNoMatter(l1, SetStateRaw(l1, u, PREPARE));
      EditIsAnnounced(l, u, w', o);
    } else {
      NewcomerIsAnnounced(l, o);
    }
  }

  lemma AfterSetState(l: WorkerList, u: WorkerUUID, state: WorkerState)
    requires Inv(l) && u in l.workers
    ensures var l' := SetStateRaw(l, u, state).list; u in l'.workers && l'.workers[u].info.state == state
  {
    hide Inv;
    ListedIsLinked(l, u);
  }

  lemma ErrorIsNoMatter(l: WorkerList, o: Outcome)
    ensures Announced(l, o) ==> Announced(l, o.(error := NoError))
  {
  }

  lemma NewcomerIsAnnounced(l: WorkerList, o: Outcome)
    requires o.note == Quiet && |l.regs| <= |o.list.regs| && o.list.dryads == l.dryads
    requires forall c :: 0 <= c < |l.regs| ==> o.list.regs[c] == l.regs[c]
    requires forall u :: u in l.workers ==> u in o.list.workers && o.list.workers[u] == l.workers[u]
    requires forall u :: u in o.list.workers && u !in l.workers ==> o.list.workers[u].info.state == MAINTENANCE
    ensures Announced(l, o)
  {
  }

  /** A step that leaves all states alone needs no note. */
  lemma SilenceIsAnnounced(l: WorkerList, o: Outcome)
    requires o.note == Quiet && o.list.workers.Keys == l.workers.Keys && RunsStay(l, o.list)
    requires forall u :: u in l.workers ==> o.list.workers[u].info == l.workers[u].info
    ensures Announced(l, o)
  {
  }

  lemma RoutinesAreAnnounced(l: WorkerList, c: nat, answer: Answer, drawn: Key)
    requires Inv(l) && CanStep(l, c)
    ensures Announced(l, StepRoutine(l, c, answer, drawn))
  {
    hide Inv, Announced, LatestWins;
    OpenIsCurrent(l, c);
    var r := l.regs[c];
    var o := StepRoutine(l, c, answer, drawn);
    if r.phase.Committing? && !Pending(r) {
      CommitIsAnnounced(l, c);
    } else {
      RunsOutlastRoutines(l, c, answer, drawn);
      SilenceIsAnnounced(l, o);
    }
  }

  /** The goroutine of a running worker waits, so only that of an earlier registration may touch its keys. */
  lemma RunsOutlastRoutines(l: WorkerList, c: nat, answer: Answer, drawn: Key)
    requires Inv(l) && CanStep(l, c) && !(l.regs[c].phase.Committing? && !Pending(l.regs[c]))
    ensures RunsStay(l, StepRoutine(l, c, answer, drawn).list)
  {
    hide Inv, LatestWins, StepRoutine, CanStep;
    StepIsLocal(l, c, answer, drawn);
    forall u | Running(l, u) && l.workers[u].chan < |l.regs|
      ensures l.regs[l.workers[u].chan].phase == Waiting
    {
      AtWorkIsNotUsable(l, u);
    }
  }

  lemma StepIsLocal(l: WorkerList, c: nat, answer: Answer, drawn: Key)
    requires CanStep(l, c) && !(l.regs[c].phase.Committing? && !Pending(l.regs[c]))
    ensures var l' := StepRoutine(l, c, answer, drawn).list;
            && c < |l.regs| && |l'.regs| == |l.regs|
            && (forall d :: 0 <= d < |l.regs| && d != c ==> l'.regs[d] == l.regs[d])
            && l'.regs[c].uuid == l.regs[c].uuid
            && (l.regs[c].phase == Waiting ==> l'.dryads == l.dryads)
            && (forall u :: u != l.regs[c].uuid ==> Installed(l', u) == Installed(l, u))
            && (l'.workers == l.workers || l'.dryads == l.dryads)
            && forall u :: u in l.workers ==>
                             u in l'.workers && l'.workers[u].chan == l.workers[u].chan
                             && l'.workers[u].info == l.workers[u].info
  {
    hide Act;
    if l.regs[c].phase.Acting? {
      ActIs(l, c, answer, drawn);
    }
  }

  lemma CommitIsAnnounced(l: WorkerList, c: nat)
    requires Inv(l) && c < |l.regs| && l.regs[c].phase.Committing? && !Pending(l.regs[c])
    ensures Announced(l, Commit(l, c))
  {
    hide Inv;
    OpenIsCurrent(l, c);
  }
}
