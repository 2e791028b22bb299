/**
 Timers as values: the collected times, the time the timer is armed for and a fire not yet received.
 */
module Timers {

  import opened Boruta

  // ---------- The order of entries ----------

  /** Earlier time first, then smaller request ID. */
  predicate Less(a: RequestTime, b: RequestTime)
  {
    if a.time == b.time then a.req < b.req else a.time < b.time
  }

  ghost predicate IsMin(m: multiset<RequestTime>, e: RequestTime)
  {
    e in m && forall x :: x in m ==> !Less(x, e)
  }

  lemma MinIsUnique(m: multiset<RequestTime>, a: RequestTime, b: RequestTime)
    requires IsMin(m, a) && IsMin(m, b)
    ensures a == b
  {
    assert !Less(a, b) && !Less(b, a);
  }

  ghost function MinEntry(m: multiset<RequestTime>): (e: RequestTime)
    requires m != multiset{}
    ensures IsMin(m, e)
    decreases |m|
  {
    var x :| x in m;
    var rest := m - multiset{x};
    assert forall y :: y in m ==> y == x || y in rest;
    if rest == multiset{} then x
    else
      var y := MinEntry(rest);
      if Less(y, x) then y else x
  }

  // ---------- Draining ----------

  /** The entries popped when a fire carrying time `t` is processed, in the order of popping. */
  ghost function Drain(m: multiset<RequestTime>, t: Time): seq<RequestTime>
    decreases |m|
  {
    if m == multiset{} || MinEntry(m).time >= t then []
    else [MinEntry(m)] + Drain(m - multiset{MinEntry(m)}, t)
  }

  ghost predicate InOrder(s: seq<RequestTime>)
  {
    forall i, j :: 0 <= i < j < |s| ==> !Less(s[j], s[i])
  }

  lemma MinIsEarliest(m: multiset<RequestTime>)
    requires m != multiset{}
    ensures MinEntry(m) in m && forall e :: e in m ==> !Less(e, MinEntry(m)) && e.time >= MinEntry(m).time
  {
    hide MinEntry;
    assert forall e :: e in m ==> !Less(e, MinEntry(m));
  }

  /** Exactly the entries before `t` are popped and the others stay. */
  lemma {:induction false} DrainIsExact(m: multiset<RequestTime>, t: Time)
    ensures forall e :: multiset(Drain(m, t))[e] == if e.time < t then m[e] else 0
    ensures multiset(Drain(m, t)) <= m
    decreases |m|
  {
    hide MinEntry, IsMin, Less;
    if m != multiset{} {
      MinIsEarliest(m);
      if MinEntry(m).time < t {
        var x := MinEntry(m);
        var rest := m - multiset{x};
        DrainIsExact(rest, t);
        assert multiset([x] + Drain(rest, t)) == multiset{x} + multiset(Drain(rest, t));
      }
    }
  }

  /** They are popped by time, and at the same time by request. */
  lemma {:induction false} DrainIsInOrder(m: multiset<RequestTime>, t: Time)
    ensures InOrder(Drain(m, t))
    decreases |m|
  {
    hide MinEntry, IsMin, Less;
    if m != multiset{} && MinEntry(m).time < t {
      var x := MinEntry(m);
      var rest := m - multiset{x};
      MinIsEarliest(m);
      DrainIsInOrder(rest, t);
      DrainIsPart(rest, t);
      var d := Drain(rest, t);
      forall i | 0 <= i < |d|
        ensures !Less(d[i], x)
      {
        assert d[i] in d;
        assert d[i] in m;
      }
    }
  }

  lemma DrainIsPart(m: multiset<RequestTime>, t: Time)
    ensures forall e :: e in Drain(m, t) ==> e in m
  {
    hide MinEntry, IsMin, Less, Drain;
    DrainIsExact(m, t);
    forall e | e in Drain(m, t)
      ensures e in m
    {
      assert e in multiset(Drain(m, t));
    }
  }

  function Ids(s: seq<RequestTime>): (ids: seq<ReqID>)
    ensures |ids| == |s|
    ensures forall i :: 0 <= i < |s| ==> ids[i] == s[i].req
  {
    seq(|s|, i requires 0 <= i < |s| => s[i].req)
  }

  // ---------- Timers ----------

  datatype Timer = Timer(times: multiset<RequestTime>, armed: Option<Time>, pending: Option<Time>)

  const FRESH_TIMER := Timer(multiset{}, None, None)

  /** Adds an entry; the timer is set anew only if no earlier entry is waiting. */
  ghost function Insert(r: Timer, e: RequestTime): Timer
  {
    var times := r.times + multiset{e};
    assert e in times;
    Timer(times, if MinEntry(times).time == e.time then Some(e.time) else r.armed, r.pending)
  }

  /** The armed time has come: the runtime fires unless an earlier fire is still waiting to be received. */
  function Expire(r: Timer, now: Time): Timer
  {
    if r.armed.Some? && r.armed.value <= now then
      Timer(r.times, None, if r.pending.Some? then r.pending else Some(now))
    else r
  }

  /** Receiving a fire and popping the past entries. */
  ghost function Drained(r: Timer, t: Time): Timer
  {
    Timer(r.times - multiset(Drain(r.times, t)), r.armed, None)
  }

  /** The end of processing: the timer is set for the earliest entry, if there is one. */
  ghost function Rearm(r: Timer): Timer
  {
    if r.times == multiset{} then r else r.(armed := Some(MinEntry(r.times).time))
  }

  /** A waiting entry always has its timer: set for exactly the earliest time, or fired already. */
  ghost predicate Armed(r: Timer)
  {
    r.times != multiset{} ==> r.pending.Some? || r.armed == Some(MinEntry(r.times).time)
  }

  lemma InsertKeepsArmed(r: Timer, e: RequestTime)
    requires Armed(r)
    ensures Armed(Insert(r, e))
  {
    var times := r.times + multiset{e};
    assert e in times;
    if MinEntry(times).time != e.time {
      assert MinEntry(times) in r.times;
      assert forall x :: x in r.times ==> x in times;
      MinIsUnique(r.times, MinEntry(times), MinEntry(r.times));
    }
  }

  lemma ExpireKeepsArmed(r: Timer, now: Time)
    requires Armed(r)
    ensures Armed(Expire(r, now))
  {
  }
}
