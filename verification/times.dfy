/**
 A collection of times with its timer (requests/times.go). The runtime's timer is represented by the time
 it is set for and by a fire that has not been received.
 */
module RequestTimes {

  import opened Boruta
  import opened Timers
  import opened TimesHeaps

  /** What is left when no past entry is. */
  ghost function Left(m: multiset<RequestTime>, t: Time): multiset<RequestTime>
    decreases |m|
  {
    if m == multiset{} || MinEntry(m).time >= t then m else Left(m - multiset{MinEntry(m)}, t)
  }

  lemma {:induction false} LeftIs(m: multiset<RequestTime>, t: Time)
    ensures Left(m, t) == m - multiset(Drain(m, t))
    decreases |m|
  {
    hide IsMin, Less, MinEntry;
    if m != multiset{} && MinEntry(m).time < t {
      var x := MinEntry(m);
      MinIsIn(m);
      LeftIs(m - multiset{x}, t);
      DrainStep(m, x, Drain(m - multiset{x}, t));
    }
  }

  lemma DrainStep(m: multiset<RequestTime>, x: RequestTime, rest: seq<RequestTime>)
    ensures m - multiset{x} - multiset(rest) == m - multiset([x] + rest)
  {
    assert multiset([x] + rest) == multiset{x} + multiset(rest);
  }

  lemma MinIsIn(m: multiset<RequestTime>)
    requires m != multiset{}
    ensures MinEntry(m) in m
  {
  }

  /** One turn of the loop that pops. */
  lemma PopOne(m: multiset<RequestTime>, t: Time, popped: seq<RequestTime>)
    ensures m == multiset{} || MinEntry(m).time >= t ==> Drain(m, t) == [] && Left(m, t) == m
    ensures m != multiset{} && MinEntry(m).time < t ==>
              var x := MinEntry(m);
              && popped + Drain(m, t) == popped + [x] + Drain(m - multiset{x}, t)
              && Left(m, t) == Left(m - multiset{x}, t)
              && Ids(popped + [x]) == Ids(popped) + [x.req]
  {
    hide MinEntry, IsMin, Less;
    if m != multiset{} && MinEntry(m).time < t {
      var x := MinEntry(m);
      var rest := Drain(m - multiset{x}, t);
      assert popped + ([x] + rest) == popped + [x] + rest;
    }
  }

  class RequestTimes {
    const times: TimesHeap
    var armed: Option<Time>
    var pending: Option<Time>

    ghost predicate Valid()
      reads this, times
    {
      times.Valid()
    }

    ghost function Value(): Timer
      reads this, times
    {
      Timer(times.Entries(), armed, pending)
    }

    constructor ()
      ensures Valid() && fresh(times) && Value() == FRESH_TIMER
    {
      times := new TimesHeap();
      armed, pending := None, None;
    }

    /** Sets the timer for the earliest entry. */
    method Reset()
      requires Valid() && times.Entries() != multiset{}
      modifies this
      ensures Value() == Rearm(old(Value()))
    {
      var e := times.Min();
      armed := Some(e.time);
    }

    method Insert(t: RequestTime)
      requires Valid()
      modifies this, times
      ensures Valid() && Value() == Timers.Insert(old(Value()), t)
    {
      times.Push(t);
      assert t in times.Entries();
      var e := times.Min();
      if e.time == t.time {
        armed := None;
        Reset();
      }
    }

    /** What the runtime does when the time comes. */
    method Expire(now: Time)
      requires Valid()
      modifies this
      ensures Valid() && Value() == Timers.Expire(old(Value()), now)
    {
      if armed.Some? && armed.value <= now {
        armed := None;
        if pending.None? {
          pending := Some(now);
        }
      }
    }

    /** Receives a fire and pops the past entries; the first part of `process`. */
    method Pop() returns (past: seq<ReqID>)
      requires Valid() && pending.Some?
      modifies this, times
      ensures Valid() && Value() == Drained(old(Value()), old(pending.value))
      ensures past == Ids(Drain(old(times.Entries()), old(pending.value)))
    {
      hide MinEntry, Less, Drain, Left, Ids, Ordered;
      var t := pending.value;
      pending := None;
      past := [];
      ghost var popped: seq<RequestTime> := [];
      ghost var all := times.Entries();
      var n := times.Len();
      while n > 0
        invariant Valid() && armed == old(armed) && pending == None
        invariant n == |times.Entries()|
        invariant popped + Drain(times.Entries(), t) == Drain(all, t)
        invariant Left(times.Entries(), t) == Left(all, t)
        invariant past == Ids(popped)
        decreases n
      {
        var e := times.Min();
        if e.time >= t {
          break;
        }
        PopOne(times.Entries(), t, popped);
        var x := times.Pop();
        past := past + [x.req];
        popped := popped + [x];
        n := times.Len();
      }
      PopOne(times.Entries(), t, popped);
      LeftIs(all, t);
      assert popped + [] == popped;
    }

    /** The last part of `process`. */
    method Rest()
      requires Valid()
      modifies this
      ensures Valid() && Value() == Rearm(old(Value()))
    {
      var n := times.Len();
      if n > 0 {
        Reset();
      }
    }
  }
}
