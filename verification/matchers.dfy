/**
 The matchers, which the timers of the engine notify, and what the goroutines of the timers do.
 */
module Matchers {

  import opened Attempts
  import opened Boruta
  import opened Calls
  import opened Engine
  import opened Expiry
  import opened Invariants
  import opened Preservation
  import opened PrioQueues
  import opened RequestQueue
  import opened RequestTimes
  import opened Scheduling
  import opened Timers
  import H = TimesHeaps
  import P = ProtocolInvariant
  import S = System
  import W = WorkerProtocol

  // ---------- The matchers ----------

  class ValidMatcher {
    const requests: ReqsCollection
    const workers: WorkerList
    const jobs: JobsManager

    /** The matcher works on the components of one engine. */
    ghost predicate Valid()
      reads requests.Repr()
    {
      requests.Valid() && workers == requests.workers && jobs == requests.jobs
    }

    constructor (r: ReqsCollection, w: WorkerList, j: JobsManager)
      ensures requests == r && workers == w && jobs == j
    {
      requests, workers, jobs := r, w, j;
    }

    /** Tries to find a worker for the request and to start it there; on failure the worker is given back. */
    method MatchWorkers(req: ReqInfo, tunnel: bool, now: Time) returns (matched: bool)
      requires Valid() && requests.iterating && Core(requests.Value(now))
      requires S.Ready(requests.Value(now), req.id) && requests.requests[req.id] == req
      modifies requests.Repr()
      ensures Valid() && Core(requests.Value(now))
      ensures (requests.Value(now), matched) == S.MatchWorkers(old(requests.Value(now)), req, tunnel)
      ensures matched ==> !requests.iterating
      ensures !matched ==> requests.iterating && unchanged(requests.queue) && unchanged(requests.queue.queue)
    {
      hide Timers.Insert, Core, P.Inv, P.Linked, JobsOk, Lengths, S.Best, S.WithWorkers, S.MatchWorkers, S.CreateJob,
        S.Run, W.SetStateRaw, W.PrepareWorker, RequestTimes.Valid, PrioQueue.Valid;
      ghost var s := requests.Value(now);
      AttemptIs(s, req, tunnel);
      WaitingIsQueued(s, req.id);
      var worker, err := workers.TakeBestMatchingWorker(req.groups, req.caps, now);
      if err != NoError {
        return false;
      }
      err := jobs.Create(req.id, worker, tunnel, now);
      if err == NoError {
        err := requests.Run(req.id, worker, now);
        if err == NoError {
          return true;
        }
      }
      var _ := workers.PrepareWorker(worker, false, now);
      return false;
    }

    /** Looks at one request of the queue. */
    method TryRequest(id: ReqID, tunnel: ReqID -> bool, now: Time) returns (matched: bool)
      requires Valid() && requests.iterating && Core(requests.Value(now))
      modifies requests.Repr()
      ensures Valid() && Core(requests.Value(now))
      ensures (requests.Value(now), matched) ==
              if S.Ready(old(requests.Value(now)), id)
              then S.MatchWorkers(old(requests.Value(now)), old(requests.requests)[id], tunnel(id))
              else (old(requests.Value(now)), false)
      ensures matched ==> !requests.iterating
      ensures !matched ==> requests.iterating && requests.queue.p == old(requests.queue.p)
                           && requests.queue.Remaining() == old(requests.queue.Remaining())
    {
      hide Core, S.MatchWorkers, Flat, Lengths, S.Ready, RequestTimes.Valid, PrioQueue.Valid;
      var ready := requests.VerifyIfReady(id, now);
      if !ready {
        return false;
      }
      ReadyIsListed(requests.Value(now), id);
      matched := MatchWorkers(requests.requests[id], tunnel(id), now);
    }

    /** One pass over the queue; `tunnel` tells for which requests a tunnel can be opened. */
    method IterateRequests(now: Time, tunnel: ReqID -> bool) returns (again: bool)
      requires Valid() && requests.Ok(now)
      modifies requests.Repr()
      ensures Valid() && requests.Ok(now)
      ensures (requests.Value(now), again) ==
              S.Pass(old(requests.Value(now)), Flat(old(requests.Value(now)).lists, 1), tunnel)
    {
      hide Core, S.Pass, S.MatchWorkers, Flat, Lengths, S.Ready, RequestTimes.Valid, PrioQueue.Valid;
      ghost var s := requests.Value(now);
      var err := requests.InitIteration();
      assert requests.Value(now) == s;
      var id, ok := NextRequest(now);
      while ok
        invariant Valid() && requests.iterating && Core(requests.Value(now)) && requests.queue.p <= 255
        invariant ok ==> requests.queue.p <= LO_PRIO
        invariant S.Pass(requests.Value(now), (if ok then [id] else []) + requests.queue.Remaining(), tunnel)
                  == S.Pass(s, Flat(s.lists, 1), tunnel)
        invariant !ok ==> requests.queue.Remaining() == []
        decreases ok, |requests.queue.Remaining()|
      {
        PassStep(requests.Value(now), id, requests.queue.Remaining(), tunnel);
        var matched := TryRequest(id, tunnel, now);
        if matched {
          requests.TerminateIteration();
          return true;
        }
        id, ok := NextRequest(now);
      }
      assert (if ok then [id] else []) + requests.queue.Remaining() == [];
      PassEnd(requests.Value(now), tunnel);
      requests.TerminateIteration();
      return false;
    }

    method NextRequest(ghost now: Time) returns (id: ReqID, ok: bool)
      requires Valid() && requests.iterating && requests.queue.p < 255
      modifies requests.queue`p, requests.queue`e
      ensures Valid() && requests.Value(now) == old(requests.Value(now))
      ensures old(requests.queue.Remaining()) == (if ok then [id] else []) + requests.queue.Remaining()
      ensures ok ==> requests.queue.p <= LO_PRIO && |requests.queue.Remaining()| < |old(requests.queue.Remaining())|
      ensures !ok ==> requests.queue.Remaining() == []
    {
      hide Flat, Lengths, RequestTimes.Valid, PrioQueue.Valid;
      ghost var rest := requests.queue.Remaining();
      id, ok := requests.Next();
      if ok {
        assert rest == [rest[0]] + rest[1..];
      }
    }

    /**
     Repeats passes until one finds nothing to match. If one of them gives a worker back, the timer that has called
     is called in turn; there the source waits for itself. `turns` gives the time that passes before each of them
     and the tunnels that can be opened during it; `end` is what the clock shows at the last one.
     */
    method Notify(now: Time, turns: nat -> S.Turn) returns (end: Time)
      requires Valid() && requests.Ok(now)
      modifies requests.Repr()
      ensures Valid() && requests.Ok(end)
      ensures requests.Value(end) == S.MatchAll(old(requests.Value(now)), turns, 0)
      ensures requests.validAfterTimes.Value() != old(requests.validAfterTimes.Value()) <==>
              EverLocksTwice(old(requests.Value(now)), turns, 0)
    {
      hide Core, S.Pass, Flat, S.MatchAll, Lengths, Keeps, RequestTimes.Valid, PrioQueue.Valid,
        EverLocksTwice, Touched;
      ghost var s := requests.Value(now);
      MatcherLocksTwice(s, turns, 0);
      var n: nat := 0;
      end := now;
      var again := true;
      while again
        invariant Valid() && requests.Ok(end)
        invariant again ==> S.MatchAll(requests.Value(end), turns, n) == S.MatchAll(s, turns, 0)
        invariant !again ==> requests.Value(end) == S.MatchAll(s, turns, 0)
        decreases again, Lengths(requests.queue.Value(), 1)
      {
        ghost var s1 := requests.Value(end);
        MatchAllStep(s1, turns, n);
        TickKeeps(s1, turns(n).delay);
        KeptCore(s1, s1.(now := s1.now + turns(n).delay));
        end := end + turns(n).delay;
        assert requests.Value(end) == s1.(now := end);
        again := IterateRequests(end, turns(n).tunnel);
        assert (requests.Value(end), again) == S.OnePass(s1, turns(n));
        n := n + 1;
      }
    }
  }

  /** Passes on the requests whose deadlines were popped. */
  class DeadlineMatcher {
    const requests: ReqsCollection

    constructor (r: ReqsCollection)
      ensures requests == r
    {
      requests := r;
    }

    method Notify(dead: seq<ReqID>, now: Time, ghost d: Timer)
      requires requests.Valid() && !requests.iterating && Core(requests.Value(now).(deadline := d))
      modifies requests, requests.queue, requests.queue.queue
      ensures requests.Valid() && !requests.iterating && Core(requests.Value(now).(deadline := d))
      ensures requests.Value(now) == S.TimeoutAll(old(requests.Value(now)), dead)
    {
      hide Core, S.Timeout, Lengths, RequestTimes.Valid, PrioQueue.Valid;
      ghost var s := requests.Value(now);
      for i := 0 to |dead|
        invariant requests.Valid() && !requests.iterating && Core(requests.Value(now).(deadline := d))
        invariant S.TimeoutAll(requests.Value(now), dead[i..]) == S.TimeoutAll(s, dead)
      {
        assert dead[i..][1..] == dead[i + 1..];
        var _ := requests.Timeout(dead[i], now, d);
      }
    }
  }

  /** Passes on the requests whose timeouts were popped. */
  class TimeoutMatcher {
    const requests: ReqsCollection

    constructor (r: ReqsCollection)
      ensures requests == r
    {
      requests := r;
    }

    method Notify(out: seq<ReqID>, now: Time, ghost t: Timer)
      requires requests.Valid() && !requests.iterating && Core(requests.Value(now).(timeout := t))
      modifies requests.Repr()
      ensures requests.Valid() && !requests.iterating && Core(requests.Value(now).(timeout := t))
      ensures requests.Value(now) == S.CloseAll(old(requests.Value(now)), out)
    {
      hide Core, S.Close, Lengths, RequestTimes.Valid, PrioQueue.Valid;
      ghost var s := requests.Value(now);
      for i := 0 to |out|
        invariant requests.Valid() && !requests.iterating && Core(requests.Value(now).(timeout := t))
        invariant S.CloseAll(requests.Value(now), out[i..]) == S.CloseAll(s, out)
      {
        assert out[i..][1..] == out[i + 1..];
        var _ := requests.Close(out[i], now, t);
      }
    }
  }

  // ---------- Processing fires ----------

  /** What the goroutine of the times of validity does when its timer has fired. */
  method ProcessValid(m: ValidMatcher, now: Time, turns: nat -> S.Turn) returns (end: Time)
    requires m.Valid() && m.requests.Ok(now) && Inv(m.requests.Value(now)) && m.requests.validAfterTimes.pending.Some?
    modifies m.requests.Repr()
    ensures m.Valid() && m.requests.Ok(end) && Inv(m.requests.Value(end))
    ensures m.requests.Value(end) == S.FireValid(old(m.requests.Value(now)), turns)
  {
    hide Inv, Core, Drain, Lengths, S.MatchAll, Rearm, Awake, NoneStranded, OnlyStarts, H.Ordered, Keeps,
      EverLocksTwice, Touched;
    ghost var s := m.requests.Value(now);
    FireValidIs(s, turns);
    DrainedValidKeeps(s);
    var _ := m.requests.validAfterTimes.Pop();
    end := m.Notify(now, turns);
    m.requests.validAfterTimes.Rest();
    InvIsCore(m.requests.Value(end));
  }

  method ProcessDeadline(m: DeadlineMatcher, now: Time)
    requires m.requests.Ok(now) && Inv(m.requests.Value(now)) && m.requests.deadlineTimes.pending.Some?
    modifies m.requests.Repr()
    ensures m.requests.Ok(now) && Inv(m.requests.Value(now))
    ensures m.requests.Value(now) == S.FireDeadline(old(m.requests.Value(now)))
  {
    hide Inv, Core, Drain, Drained, Lengths, S.TimeoutAll, Rearm, Popped, TimedOut, Thinner, Ids, RequestTimes.Valid,
      PrioQueue.Valid;
    ghost var s := m.requests.Value(now);
    ghost var d := m.requests.deadlineTimes.Value();
    FireDeadlineIs(s);
    var past := m.requests.deadlineTimes.Pop();
    assert m.requests.Value(now).(deadline := d) == s;
    m.Notify(past, now, d);
    m.requests.deadlineTimes.Rest();
    InvIsCore(m.requests.Value(now));
  }

  method ProcessTimeout(m: TimeoutMatcher, now: Time)
    requires m.requests.Ok(now) && Inv(m.requests.Value(now)) && m.requests.timeoutTimes.pending.Some?
    modifies m.requests.Repr()
    ensures m.requests.Ok(now) && Inv(m.requests.Value(now))
    ensures m.requests.Value(now) == S.FireTimeout(old(m.requests.Value(now)))
  {
    hide Inv, Core, Drain, Drained, Lengths, S.CloseAll, Rearm, Popped, Finished, NoNewIdle, Ids, RequestTimes.Valid,
      PrioQueue.Valid;
    ghost var s := m.requests.Value(now);
    ghost var t := m.requests.timeoutTimes.Value();
    FireTimeoutIs(s);
    var past := m.requests.timeoutTimes.Pop();
    assert m.requests.Value(now).(timeout := t) == s;
    m.Notify(past, now, t);
    m.requests.timeoutTimes.Rest();
    InvIsCore(m.requests.Value(now));
  }
}
