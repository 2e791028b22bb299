/**
 The priority queue of the source: an array of lists, a count, and an iterator that holds the queue's
 mutex from its initialisation to its release (requests/queue.go).
 */
module PrioQueues {

  import opened Boruta
  import opened RequestQueue

  class PrioQueue {
    const queue: array<seq<ReqID>>
    var length: nat
    /** The mutex is held. */
    var locked: bool
    /** The iterator: initialised or not, the priority it is at and, if any, the element to return next. */
    var live: bool
    var p: Priority
    var e: Option<nat>

    ghost predicate Valid()
      reads this, queue
    {
      && queue.Length == LISTS
      && length == Lengths(queue[..], 1)
      && (live ==> locked)
      && (live && e.Some? ==> HI_PRIO <= p <= LO_PRIO && e.value < |queue[p]|)
    }

    ghost function Value(): Lists
      reads this, queue
      requires Valid()
    {
      queue[..]
    }

    /** What the iterator has yet to return. */
    ghost function Remaining(): seq<ReqID>
      reads this, queue
      requires Valid()
    {
      if !live then []
      else if e.None? then Flat(queue[..], p + 1)
      else queue[p][e.value..] + Flat(queue[..], p + 1)
    }

    constructor ()
      ensures Valid() && fresh(queue) && Value() == EmptyLists() && !locked && !live
    {
      var lists := new seq<ReqID>[LISTS](_ => []);
      queue := lists;
      length, locked, live, p, e := 0, false, false, HI_PRIO, None;
      new;
      assert queue[..] == EmptyLists();
      EmptyLengths(1);
    }

    /** The source panics if the request is not in the list. */
    method Remove(id: ReqID, priority: Priority)
      requires Valid() && !locked
      requires HI_PRIO <= priority <= LO_PRIO && id in Value()[priority]
      modifies this, queue
      ensures Valid() && !locked
      ensures Value() == old(Value())[priority := RemoveFirst(old(Value())[priority], id)]
    {
      var list := queue[priority];
      for i := 0 to |list|
        invariant id !in list[..i]
        invariant Valid() && Value() == old(Value()) && !locked
      {
        if list[i] == id {
          RemoveFirstAt(list, i);
          LengthsUpdate(queue[..], 1, priority, list[..i] + list[i + 1..]);
          length := length - 1;
          queue[priority] := list[..i] + list[i + 1..];
          assert queue[..] == old(queue[..])[priority := RemoveFirst(list, id)];
          return;
        }
      }
      assert false;
    }

    method Push(id: ReqID, priority: Priority)
      requires Valid() && !locked && HI_PRIO <= priority <= LO_PRIO
      modifies this, queue
      ensures Valid() && !locked
      ensures Value() == old(Value())[priority := old(Value())[priority] + [id]]
    {
      LengthsUpdate(queue[..], 1, priority, queue[priority] + [id]);
      queue[priority] := queue[priority] + [id];
      length := length + 1;
      assert queue[..] == old(queue[..])[priority := old(queue[..])[priority] + [id]];
    }

    method SetRequestPriority(id: ReqID, priority: Priority, newPriority: Priority)
      requires Valid() && !locked && HI_PRIO <= newPriority <= LO_PRIO
      requires HI_PRIO <= priority <= LO_PRIO && id in Value()[priority]
      modifies this, queue
      ensures Valid() && !locked
      ensures var removed: Lists := old(Value())[priority := RemoveFirst(old(Value())[priority], id)];
              Value() == removed[newPriority := removed[newPriority] + [id]]
    {
      Remove(id, priority);
      Push(id, newPriority);
    }

    /** The iterator will return all requests by priority, and those of a priority first in first out. */
    method InitIterator()
      requires Valid() && !locked
      modifies this
      ensures Valid() && locked && live && Value() == old(Value())
      ensures Remaining() == Flat(Value(), 1)
      ensures p == HI_PRIO
    {
      locked := true;
      live := true;
      p := HI_PRIO;
      e := if queue[p] == [] then None else Some(0);
      assert queue[p][0..] == queue[p];
    }

    /**
     Returns the next request, or that there is none. The priority is a byte that keeps growing when
     there is none; after some 240 such calls it would wrap around.
     */
    method Next() returns (id: ReqID, ok: bool)
      requires Valid() && (live ==> p < 255)
      modifies this`p, this`e
      ensures Valid() && Value() == old(Value())
      ensures ok <==> old(Remaining()) != []
      ensures ok ==> id == old(Remaining())[0] && Remaining() == old(Remaining())[1..] && p <= LO_PRIO
      ensures !ok ==> id == 0 && Remaining() == []
    {
      hide Flat, Lengths;
      if !live {
        return 0, false;
      }
      LengthsIsFlat(queue[..], 1);
      if length == 0 {
        NothingIsLeft(queue[..], p);
        p := HI_PRIO;
        e := None;
        return 0, false;
      }
      if e.None? {
        p := p + 1;
        while p <= LO_PRIO && |queue[p]| == 0
          invariant live && e.None? && old(p) < p <= 255
          invariant Flat(queue[..], p) == old(Remaining())
        {
          FlatStep(queue[..], p);
          p := p + 1;
        }
        if p > LO_PRIO {
          FlatEnd(queue[..], p);
          FlatEnd(queue[..], p + 1);
          return 0, false;
        }
        FlatStep(queue[..], p);
        e := Some(0);
        assert queue[p][0..] == queue[p];
      }
      TakeOne(queue[p], e.value, Flat(queue[..], p + 1));
      id, ok := queue[p][e.value], true;
      e := if e.value + 1 < |queue[p]| then Some(e.value + 1) else None;
    }

    method ReleaseIterator()
      requires Valid() && locked
      modifies this
      ensures Valid() && !locked && !live && Value() == old(Value())
    {
      live := false;
      locked := false;
    }
  }

  lemma TakeOne(s: seq<ReqID>, at: nat, more: seq<ReqID>)
    requires at < |s|
    ensures var all := s[at..] + more;
            && all != [] && all[0] == s[at]
            && all[1..] == if at + 1 < |s| then s[at + 1..] + more else more
  {
  }

  lemma NothingIsLeft(q: Lists, p: nat)
    requires Flat(q, 1) == []
    ensures Flat(q, p + 1) == []
    ensures 1 <= p < LISTS ==> q[p] == []
    ensures Flat(q, 2) == [] && q[1] == []
  {
    hide Flat;
    EmptyFlat(q, 1);
    FlatStep(q, 1);
    if p < LISTS {
      FlatStep(q, p);
    }
  }

  lemma FlatStep(q: Lists, p: nat)
    requires p < LISTS
    ensures Flat(q, p) == q[p] + Flat(q, p + 1)
  {
  }

  lemma FlatEnd(q: Lists, p: nat)
    requires p >= LISTS
    ensures Flat(q, p) == []
  {
  }

  lemma {:induction false} EmptyLengths(p: nat)
    ensures Lengths(EmptyLists(), p) == 0
    decreases LISTS - p
  {
    if p < LISTS {
      EmptyLengths(p + 1);
    }
  }

  /** If there is nothing at all, there is nothing from any priority on. */
  lemma {:induction false} EmptyFlat(q: Lists, p: nat)
    requires Flat(q, p) == []
    ensures forall r :: p <= r ==> Flat(q, r) == []
    decreases LISTS - p
  {
    if p < LISTS {
      EmptyFlat(q, p + 1);
    }
  }

  lemma {:induction false} RemoveFirstAt(s: seq<ReqID>, i: nat)
    requires i < |s| && s[i] !in s[..i]
    ensures RemoveFirst(s, s[i]) == s[..i] + s[i + 1..]
  {
    if i > 0 {
      assert s[0] in s[..i];
      assert s[1..][..i - 1] == s[..i][1..];
      RemoveFirstAt(s[1..], i - 1);
      assert s[..i] + s[i + 1..] == [s[0]] + (s[1..][..i - 1] + s[1..][i..]);
    }
  }
}
