/**
 Passes of the matcher over the queue: which request each of them serves, that they come to an end, and
 that what they leave behind cannot be served.
 */
module Scheduling {

  import opened Boruta
  import opened RequestQueue
  import opened Timers
  import opened System
  import opened Invariants
  import opened Preservation
  import opened Matching
  import P = ProtocolInvariant
  import T = ProtocolTheorems
  import W = WorkerProtocol

  /** The best worker for a request, if any. */
  ghost function BestFor(s: System, r: ReqInfo): Option<WorkerUUID>
  {
    Best(s.list, r.groups, r.caps)
  }

  lemma SameWorkersSameBest(l: W.WorkerList, l': W.WorkerList, groups: seq<Group>, caps: Capabilities)
    requires l.workers == l'.workers
    ensures Best(l, groups, caps) == Best(l', groups, caps)
  {
    BestIsFound(l, groups, caps);
    BestIsFound(l', groups, caps);
    var b := Best(l, groups, caps);
    if b.Some? {
      assert IsBest(l', groups, caps, b.value);
    }
  }

  /** Attempts that failed for want of a tunnel leave traces in channels and in the heap of validity only. */
  ghost predicate Aside(s: System, s1: System)
  {
    && s1 == s.(list := s1.list, valid := s1.valid)
    && s1.list.workers == s.list.workers
    && s.valid.times <= s1.valid.times
  }

  /** There is an entry which is not in the future: the matcher will run again. */
  ghost predicate Due(r: Timer, now: Time)
  {
    exists e :: e in r.times && e.time <= now
  }

  /** No request of these is ready and has a candidate. */
  ghost predicate NothingLeft(s: System, order: seq<ReqID>)
  {
    forall i :: 0 <= i < |order| && Ready(s, order[i]) ==> BestFor(s, s.requests[order[i]]) == None
  }

  /** Request number `k` was served, because no earlier one could be. */
  ghost predicate Greedy(s: System, order: seq<ReqID>, tunnel: ReqID -> bool, s': System, k: nat, s1: System)
  {
    && k < |order| && Ready(s, order[k]) && tunnel(order[k])
    && (forall j :: 0 <= j < k && Ready(s, order[j]) ==>
                      BestFor(s, s.requests[order[j]]) == None || !tunnel(order[j]))
    && Aside(s, s1)
    && var r := s.requests[order[k]];
       && BestFor(s, r).Some?
       && var u := BestFor(s, r).value;
          && T.Idle(s.list, u) && s.list.workers[u].key.Some? && u !in s.jobs && r.priority < LISTS
          && s' == Started(s1, r, u)
  }

  lemma AsideIsTransitive(a: System, b: System, c: System)
    requires Aside(a, b) && Aside(b, c)
    ensures Aside(a, c)
  {
  }

  lemma DeclinedIsAside(s: System, u: WorkerUUID)
    requires Core(s) && T.Idle(s.list, u)
    ensures Keeps(s, Declined(s, u)) && Aside(s, Declined(s, u))
    ensures Due(Declined(s, u).valid, s.now)
  {
    hide P.Inv, Declined;
    DeclinedKeeps(s, u);
    InsertKeepsTimer(s.valid, RequestTime(s.now, 0), s.now);
    assert RequestTime(s.now, 0) in Declined(s, u).valid.times;
  }

  /** One pass: the first request that can be served is served; if none can, a failed attempt will be repeated. */
  lemma {:induction false} PassIsGreedy(s: System, order: seq<ReqID>, tunnel: ReqID -> bool)
    returns (k: nat, s1: System)
    requires Core(s)
    ensures var (s', matched) := Pass(s, order, tunnel);
            && Keeps(s, s')
            && (matched ==> Greedy(s, order, tunnel, s', k, s1))
            && (!matched ==> Aside(s, s') && (NothingLeft(s', order) || Due(s'.valid, s'.now)))
            && (!matched && (forall id :: tunnel(id)) ==> s' == s)
    decreases |order|
  {
    hide P.Inv, Best, MatchWorkers, Core, Started, Declined, TimerOk;
    k, s1 := 0, s;
    if order == [] {
    } else if !Ready(s, order[0]) {
      k, s1 := PassIsGreedy(s, order[1..], tunnel);
      k := k + 1;
      assert forall j :: 0 < j < |order| ==> order[j] == order[1..][j - 1];
    } else {
      var r := s.requests[order[0]];
      ReadyIsNumbered(s, order[0]);
      MatchIs(s, r, tunnel(order[0]));
      NotCrashed(s);
      var best := BestFor(s, r);
      assert forall j :: 0 < j < |order| ==> order[j] == order[1..][j - 1];
      if best.None? {
        k, s1 := PassIsGreedy(s, order[1..], tunnel);
        k := k + 1;
        var s' := Pass(s, order, tunnel).0;
        assert s' == Pass(s, order[1..], tunnel).0;
        if Aside(s, s') {
          SameWorkersSameBest(s.list, s'.list, r.groups, r.caps);
        }
      } else if tunnel(order[0]) {
        StartedKeeps(s, r, best.value);
        NotCrashed(Started(s, r, best.value));
      } else {
        var s0 := Declined(s, best.value);
        DeclinedIsAside(s, best.value);
        NotCrashed(s0);
        k, s1 := PassIsGreedy(s0, order[1..], tunnel);
        k := k + 1;
        var s' := Pass(s, order, tunnel).0;
        assert s' == Pass(s0, order[1..], tunnel).0;
        AfterDeclined(s, s0, order, tunnel, s', k, s1);
      }
    }
  }

  lemma ReadyIsNumbered(s: System, id: ReqID)
    requires Core(s) && Ready(s, id)
    ensures s.requests[id].id == id
  {
  }

  lemma NotCrashed(s: System)
    requires Core(s)
    ensures !s.crashed
  {
  }

  /** The rest of a pass after a failed attempt, seen from the start of the pass. */
  lemma AfterDeclined(s: System, s0: System, order: seq<ReqID>, tunnel: ReqID -> bool, s': System, k: nat, s1: System)
    requires order != [] && Aside(s, s0) && Due(s0.valid, s0.now) && 0 < k
    requires Ready(s, order[0]) ==> !tunnel(order[0])
    ensures Greedy(s0, order[1..], tunnel, s', k - 1, s1) ==> Greedy(s, order, tunnel, s', k, s1)
    ensures Aside(s0, s') ==> Aside(s, s') && Due(s'.valid, s'.now)
  {
    hide Best, Started;
    if Greedy(s0, order[1..], tunnel, s', k - 1, s1) {
      AsideIsTransitive(s, s0, s1);
      forall j | 0 <= j < |order| && Ready(s, order[j])
        ensures BestFor(s, s.requests[order[j]]) == BestFor(s0, s.requests[order[j]])
      {
        SameWorkersSameBest(s.list, s0.list, s.requests[order[j]].groups, s.requests[order[j]].caps);
      }
      assert forall j :: 0 < j < |order| ==> order[j] == order[1..][j - 1];
    }
  }

  // ---------- All passes ----------

  lemma TickKeeps(s: System, delay: nat)
    requires Core(s)
    ensures Keeps(s, s.(now := s.now + delay))
  {
    var s' := s.(now := s.now + delay);
    forall id | id in s'.requests
      ensures Timed(s'.requests[id], s'.valid.times, s'.deadline.times, s'.timeout.times, s'.now)
    {
      assert Timed(s.requests[id], s.valid.times, s.deadline.times, s.timeout.times, s.now);
    }
  }

  /** A pass that matches shortens the queue by the request it serves. */
  lemma ServedIsRemoved(s: System, order: seq<ReqID>, tunnel: ReqID -> bool, s': System, k: nat, s1: System)
    requires Core(s) && Greedy(s, order, tunnel, s', k, s1)
    ensures Lengths(s'.lists, 1) == Lengths(s.lists, 1) - 1
  {
    hide P.Inv, Best;
    var r := s.requests[order[k]];
    QueuedFromOk(s.requests, s.lists, order[k]);
    assert ListOk(s.requests, s.lists, r.priority);
    RemoveFirstIsExact(s.lists[r.priority], r.id);
    LengthsUpdate(s.lists, 1, r.priority, RemoveFirst(s.lists[r.priority], r.id));
  }

  /** Every ready request is visited by a pass over the whole queue. */
  lemma ReadyIsVisited(s: System, id: ReqID)
    requires Core(s) && Ready(s, id)
    ensures id in Flat(s.lists, 1)
  {
    hide P.Inv;
    QueuedFromOk(s.requests, s.lists, id);
    InFlat(s.lists, 1, id);
  }

  /** Whatever is ready and has a candidate will be looked at again. */
  ghost predicate Awake(s: System)
  {
    forall id, u :: id in s.requests && u in s.list.workers && Stranded(s, id, u) ==> Due(s.valid, s.now)
  }

  /** The request could be served by the worker now. */
  predicate Stranded(s: System, id: ReqID, u: WorkerUUID)
    requires id in s.requests && u in s.list.workers
  {
    Ready(s, id) && W.Candidate(s.list, s.requests[id].groups, s.requests[id].caps, u)
  }

  lemma NothingLeftIsAwake(s: System, order: seq<ReqID>)
    requires Core(s) && (NothingLeft(s, order) || Due(s.valid, s.now)) && order == Flat(s.lists, 1)
    ensures Awake(s)
    ensures NothingLeft(s, order) ==> NoneStranded(s)
  {
    hide P.Inv, Core;
    if NothingLeft(s, order) {
      forall id, u | id in s.requests && u in s.list.workers
        ensures !Stranded(s, id, u)
      {
        if Ready(s, id) {
          ReadyIsVisited(s, id);
          var i :| 0 <= i < |order| && order[i] == id;
          BestIsFound(s.list, s.requests[id].groups, s.requests[id].caps);
          assert BestFor(s, s.requests[order[i]]) == None;
        }
      }
    }
  }

  /** With tunnels at hand a pass without a match has seen that nothing can be served. */
  lemma {:induction false} OnePassLeavesNothing(s: System, order: seq<ReqID>, tunnel: ReqID -> bool)
    requires Core(s) && !Pass(s, order, tunnel).1 && forall id :: tunnel(id)
    ensures Pass(s, order, tunnel).0 == s && NothingLeft(s, order)
    decreases |order|
  {
    hide P.Inv, Best, MatchWorkers, Core, Started, TimerOk;
    if order != [] {
      assert forall j :: 0 < j < |order| ==> order[j] == order[1..][j - 1];
      if Ready(s, order[0]) {
        var r := s.requests[order[0]];
        ReadyIsNumbered(s, order[0]);
        MatchIs(s, r, true);
        NotCrashed(s);
        var best := BestFor(s, r);
        if best.Some? {
          StartedKeeps(s, r, best.value);
          NotCrashed(Started(s, r, best.value));
        }
      }
      OnePassLeavesNothing(s, order[1..], tunnel);
    }
  }

  /** Nothing that could be served is left. */
  ghost predicate NoneStranded(s: System)
  {
    forall id, u :: id in s.requests && u in s.list.workers ==> !Stranded(s, id, u)
  }

  lemma AsideKeepsLists(s: System, s1: System)
    requires Aside(s, s1)
    ensures s1.lists == s.lists && OnlyStarts(s, s1)
  {
  }

  lemma SameRequestsOnlyStart(s: System, s0: System, s1: System)
    requires s0.requests == s.requests && s0.lists == s.lists && OnlyStarts(s0, s1)
    ensures OnlyStarts(s, s1)
  {
  }

  lemma OnlyStartsIsTransitive(a: System, b: System, c: System)
    requires OnlyStarts(a, b) && OnlyStarts(b, c)
    ensures OnlyStarts(a, c)
  {
    hide Thinner;
    ThinnerIsTransitive(a.lists, b.lists, c.lists);
  }

  /** Requests may have been started, and nothing else has happened to them; their lists have only lost elements. */
  ghost predicate OnlyStarts(s: System, s': System)
  {
    && s'.requests.Keys == s.requests.Keys
    && Thinner(s.lists, s'.lists)
    && forall id :: id in s.requests && s'.requests[id] != s.requests[id] ==>
                      && s.requests[id].state == WAIT
                      && s'.requests[id] == s.requests[id].(state := INPROGRESS, job := s'.requests[id].job)
  }

  lemma StartedOnlyStarts(s: System, order: seq<ReqID>, tunnel: ReqID -> bool, s': System, k: nat, s1: System)
    requires Core(s) && Greedy(s, order, tunnel, s', k, s1)
    ensures OnlyStarts(s, s')
  {
    hide P.Inv, Best;
    var r := s.requests[order[k]];
    RemoveFirstAscends(s.lists[r.priority], r.id);
  }

  lemma TurnIs(s: System, turn: Turn)
    requires Core(s)
    ensures var (s1, matched) := OnePass(s, turn);
            && Keeps(s, s1)
            && OnlyStarts(s, s1)
            && (matched ==> Lengths(s1.lists, 1) < Lengths(s.lists, 1))
            && (!matched ==> Awake(s1))
            && (!matched && (forall id :: turn.tunnel(id)) ==> NoneStranded(s1))
  {
    hide Keeps, Core, Pass, NothingLeft, NoneStranded, Awake, Greedy, Aside, Due, Lengths, OnlyStarts;
    var s0 := s.(now := s.now + turn.delay);
    TickKeeps(s, turn.delay);
    KeptCore(s, s0);
    var order := Flat(s.lists, 1);
    var (s1, matched) := OnePass(s, turn);
    var k, before := PassIsGreedy(s0, order, turn.tunnel);
    KeepsTransitive(s, s0, s1);
    KeptCore(s, s1);
    if matched {
      ServedIsRemoved(s0, order, turn.tunnel, s1, k, before);
      StartedOnlyStarts(s0, order, turn.tunnel, s1, k, before);
      SameRequestsOnlyStart(s, s0, s1);
    } else {
      AsideKeepsLists(s0, s1);
      SameRequestsOnlyStart(s, s0, s1);
      NothingLeftIsAwake(s1, order);
      if forall id :: turn.tunnel(id) {
        OnePassLeavesNothing(s0, order, turn.tunnel);
      }
    }
  }

  /** When the matcher stops, nothing that could be served is left, unless for want of a tunnel; then it runs again. */
  lemma {:induction false} MatchAllIsMaximal(s: System, turns: nat -> Turn, n: nat)
    requires Core(s)
    ensures Keeps(s, MatchAll(s, turns, n))
    ensures OnlyStarts(s, MatchAll(s, turns, n))
    ensures Awake(MatchAll(s, turns, n))
    ensures (forall i, id :: turns(i).tunnel(id)) ==> NoneStranded(MatchAll(s, turns, n))
    decreases Lengths(s.lists, 1)
  {
    hide Core, Keeps, OnePass, Awake, NoneStranded, OnlyStarts;
    TurnIs(s, turns(n));
    var (s1, matched) := OnePass(s, turns(n));
    KeptCore(s, s1);
    if matched {
      MatchAllIsMaximal(s1, turns, n + 1);
      KeepsTransitive(s, s1, MatchAll(s1, turns, n + 1));
      OnlyStartsIsTransitive(s, s1, MatchAll(s1, turns, n + 1));
    }
  }

  // ---------- When the matcher calls back into the timer that called it ----------

  /** The pass comes to request number `j`, takes a worker for it, gets no tunnel and gives the worker back. */
  ghost predicate GivesBack(s: System, order: seq<ReqID>, tunnel: ReqID -> bool, j: nat)
    requires j < |order|
  {
    && Ready(s, order[j]) && BestFor(s, s.requests[order[j]]).Some? && !tunnel(order[j])
    && forall i :: 0 <= i < j && Ready(s, order[i]) && BestFor(s, s.requests[order[i]]).Some? ==> !tunnel(order[i])
  }

  /**
   The pass gives a worker back. The listener then inserts into the heap of validity, whose mutex is held by the
   processing of the fire that called the matcher: in the source the goroutine waits for itself.
   */
  ghost predicate LocksTwice(s: System, order: seq<ReqID>, tunnel: ReqID -> bool)
  {
    exists j :: 0 <= j < |order| && GivesBack(s, order, tunnel, j)
  }

  /** The heap has grown, or the timer is untouched. */
  ghost predicate Touched(r: Timer, r': Timer, touched: bool)
  {
    if touched then r.times < r'.times else r' == r
  }

  lemma LocksTwiceFromTail(s: System, order: seq<ReqID>, tunnel: ReqID -> bool)
    requires order != []
    ensures LocksTwice(s, order, tunnel) <==>
            if Ready(s, order[0]) && BestFor(s, s.requests[order[0]]).Some? then !tunnel(order[0])
            else LocksTwice(s, order[1..], tunnel)
  {
    hide Best;
    assert forall j :: 0 < j < |order| ==> order[j] == order[1..][j - 1];
    if Ready(s, order[0]) && BestFor(s, s.requests[order[0]]).Some? {
      if !tunnel(order[0]) {
        assert GivesBack(s, order, tunnel, 0);
      }
    } else {
      if LocksTwice(s, order[1..], tunnel) {
        var j :| 0 <= j < |order[1..]| && GivesBack(s, order[1..], tunnel, j);
        assert GivesBack(s, order, tunnel, j + 1);
      }
      if LocksTwice(s, order, tunnel) {
        var j :| 0 <= j < |order| && GivesBack(s, order, tunnel, j);
        forall i | 0 <= i < j - 1 && Ready(s, order[1..][i]) && BestFor(s, s.requests[order[1..][i]]).Some?
          ensures !tunnel(order[1..][i])
        {
          assert order[1..][i] == order[i + 1];
        }
        assert GivesBack(s, order[1..], tunnel, j - 1);
      }
    }
  }

  /** A pass inserts into the heap of validity if and only if it gives a worker back. */
  lemma {:induction false} PassLocksTwice(s: System, order: seq<ReqID>, tunnel: ReqID -> bool)
    requires Core(s)
    ensures Touched(s.valid, Pass(s, order, tunnel).0.valid, LocksTwice(s, order, tunnel))
    ensures Pass(s, order, tunnel).0.valid != s.valid <==> LocksTwice(s, order, tunnel)
    decreases |order|
  {
    hide P.Inv, Best, MatchWorkers, Core, Started, Declined, TimerOk, LocksTwice, Insert;
    if order == [] {
      assert !LocksTwice(s, order, tunnel) by {
        EmptyLocksNothing(s, tunnel);
      }
    } else {
      LocksTwiceFromTail(s, order, tunnel);
      if !Ready(s, order[0]) {
        PassLocksTwice(s, order[1..], tunnel);
      } else {
        var r := s.requests[order[0]];
        ReadyIsNumbered(s, order[0]);
        MatchIs(s, r, tunnel(order[0]));
        NotCrashed(s);
        var best := BestFor(s, r);
        if best.None? {
          PassLocksTwice(s, order[1..], tunnel);
        } else if tunnel(order[0]) {
          StartedKeeps(s, r, best.value);
          NotCrashed(Started(s, r, best.value));
          StartedLeavesValid(s, r, best.value);
        } else {
          var s0 := Declined(s, best.value);
          DeclinedIsAside(s, best.value);
          DeclinedGrows(s, best.value);
          NotCrashed(s0);
          PassLocksTwice(s0, order[1..], tunnel);
        }
      }
    }
  }

  lemma EmptyLocksNothing(s: System, tunnel: ReqID -> bool)
    ensures !LocksTwice(s, [], tunnel)
  {
  }

  lemma StartedLeavesValid(s: System, r: ReqInfo, u: WorkerUUID)
    requires u in s.list.workers && s.list.workers[u].key.Some? && r.priority < LISTS
    ensures Started(s, r, u).valid == s.valid
  {
    hide Insert;
  }

  lemma DeclinedGrows(s: System, u: WorkerUUID)
    requires Core(s) && T.Idle(s.list, u)
    ensures s.valid.times < Declined(s, u).valid.times
  {
    hide P.Inv, Core, MinEntry, W.SetStateRaw;
    var e := RequestTime(s.now, 0);
    assert Declined(s, u).valid.times == s.valid.times + multiset{e};
    assert (s.valid.times + multiset{e})[e] == s.valid.times[e] + 1;
  }

  /** One of the passes gives a worker back. */
  ghost predicate EverLocksTwice(s: System, turns: nat -> Turn, n: nat)
    decreases Lengths(s.lists, 1)
  {
    hide OnePass, LocksTwice;
    var (s1, matched) := OnePass(s, turns(n));
    || LocksTwice(s.(now := s.now + turns(n).delay), Flat(s.lists, 1), turns(n).tunnel)
    || (matched && Lengths(s1.lists, 1) < Lengths(s.lists, 1) && EverLocksTwice(s1, turns, n + 1))
  }

  /** The matcher calls back into the timer that called it if and only if one of its passes gives a worker back. */
  lemma {:induction false} MatcherLocksTwice(s: System, turns: nat -> Turn, n: nat)
    requires Core(s)
    ensures Touched(s.valid, MatchAll(s, turns, n).valid, EverLocksTwice(s, turns, n))
    ensures MatchAll(s, turns, n).valid != s.valid <==> EverLocksTwice(s, turns, n)
    decreases Lengths(s.lists, 1)
  {
    hide Core, Keeps, OnePass, Awake, NoneStranded, OnlyStarts, LocksTwice, Touched, MatchAll, EverLocksTwice;
    TurnIs(s, turns(n));
    var (s1, matched) := OnePass(s, turns(n));
    OnePassLocksTwice(s, turns(n));
    KeptCore(s, s1);
    var once := LocksTwice(s.(now := s.now + turns(n).delay), Flat(s.lists, 1), turns(n).tunnel);
    RepetitionUnfolds(s, turns, n);
    if matched {
      MatcherLocksTwice(s1, turns, n + 1);
      TouchedTwice(s.valid, s1.valid, MatchAll(s1, turns, n + 1).valid, once, EverLocksTwice(s1, turns, n + 1));
    }
    TouchedShows(s.valid, MatchAll(s, turns, n).valid, EverLocksTwice(s, turns, n));
  }

  lemma RepetitionUnfolds(s: System, turns: nat -> Turn, n: nat)
    ensures var (s1, matched) := OnePass(s, turns(n));
            var again := matched && Lengths(s1.lists, 1) < Lengths(s.lists, 1);
            && MatchAll(s, turns, n) == (if again then MatchAll(s1, turns, n + 1) else s1)
            && (EverLocksTwice(s, turns, n) <==>
                || LocksTwice(s.(now := s.now + turns(n).delay), Flat(s.lists, 1), turns(n).tunnel)
                || (again && EverLocksTwice(s1, turns, n + 1)))
  {
    hide OnePass, LocksTwice;
  }

  lemma TouchedTwice(a: Timer, b: Timer, c: Timer, x: bool, y: bool)
    requires Touched(a, b, x) && Touched(b, c, y)
    ensures Touched(a, c, x || y)
  {
  }

  lemma TouchedShows(a: Timer, b: Timer, x: bool)
    requires Touched(a, b, x)
    ensures b != a <==> x
  {
  }

  lemma OnePassLocksTwice(s: System, turn: Turn)
    requires Core(s)
    ensures Touched(s.valid, OnePass(s, turn).0.valid,
                    LocksTwice(s.(now := s.now + turn.delay), Flat(s.lists, 1), turn.tunnel))
  {
    hide Core, Keeps, Pass, LocksTwice, Touched;
    var s0 := s.(now := s.now + turn.delay);
    TickKeeps(s, turn.delay);
    KeptCore(s, s0);
    PassLocksTwice(s0, Flat(s.lists, 1), turn.tunnel);
  }

  /** With tunnels at hand it never does. */
  lemma {:induction false} TunnelsAvoidLockingTwice(s: System, turns: nat -> Turn, n: nat)
    requires forall i, id :: turns(i).tunnel(id)
    ensures !EverLocksTwice(s, turns, n)
    decreases Lengths(s.lists, 1)
  {
    hide OnePass, MatchAll, Best, Ready;
    var (s1, matched) := OnePass(s, turns(n));
    RepetitionUnfolds(s, turns, n);
    if matched && Lengths(s1.lists, 1) < Lengths(s.lists, 1) {
      TunnelsAvoidLockingTwice(s1, turns, n + 1);
    }
  }
}
