/**
 The priority queue of waiting requests: one FIFO list for each priority, and an iterator over all of
 them (requests/queue.go).
 */
module RequestQueue {

  import opened Boruta

  /** One list per priority; list 0 does not exist in the source and stays empty. */
  type Lists = q: seq<seq<ReqID>> | |q| == LISTS witness EmptyLists()

  const LISTS: nat := 17

  function EmptyLists(): (q: seq<seq<ReqID>>)
    ensures |q| == LISTS && forall p :: 0 <= p < LISTS ==> q[p] == []
  {
    seq(LISTS, _ => [])
  }

  function RemoveFirst(s: seq<ReqID>, id: ReqID): seq<ReqID>
  {
    if s == [] then [] else if s[0] == id then s[1..] else [s[0]] + RemoveFirst(s[1..], id)
  }

  /** All requests in the order in which they are served: from priority `p` down, first in first out. */
  function Flat(q: Lists, p: nat): seq<ReqID>
    decreases LISTS - p
  {
    if p >= LISTS then [] else q[p] + Flat(q, p + 1)
  }

  function Lengths(q: Lists, p: nat): nat
    decreases LISTS - p
  {
    if p >= LISTS then 0 else |q[p]| + Lengths(q, p + 1)
  }

  predicate Distinct(s: seq<ReqID>)
  {
    forall i, j :: 0 <= i < j < |s| ==> s[i] != s[j]
  }

  lemma {:induction false} LengthsIsFlat(q: Lists, p: nat)
    ensures Lengths(q, p) == |Flat(q, p)|
    decreases LISTS - p
  {
    if p < LISTS {
      LengthsIsFlat(q, p + 1);
    }
  }

  lemma {:induction false} InFlat(q: Lists, p: nat, id: ReqID)
    ensures id in Flat(q, p) <==> exists k :: p <= k < LISTS && id in q[k]
    decreases LISTS - p
  {
    if p < LISTS {
      InFlat(q, p + 1, id);
    }
  }

  lemma {:induction false} LengthsUpdate(q: Lists, p: nat, k: nat, s: seq<ReqID>)
    requires k < LISTS
    ensures Lengths(q[k := s], p) == if p <= k then Lengths(q, p) - |q[k]| + |s| else Lengths(q, p)
    decreases LISTS - p
  {
    if p < LISTS {
      LengthsUpdate(q, p + 1, k, s);
    }
  }

  /** Removing takes one element out and leaves the others in their order. */
  lemma {:induction false} RemoveFirstSplits(s: seq<ReqID>, id: ReqID)
    requires id in s
    ensures exists i :: 0 <= i < |s| && s[i] == id && RemoveFirst(s, id) == s[..i] + s[i + 1..]
  {
    if s[0] == id {
      assert RemoveFirst(s, id) == s[..0] + s[0 + 1..];
    } else {
      RemoveFirstSplits(s[1..], id);
      var i :| 0 <= i < |s[1..]| && s[1..][i] == id && RemoveFirst(s[1..], id) == s[1..][..i] + s[1..][i + 1..];
      assert RemoveFirst(s, id) == s[..i + 1] + s[i + 1 + 1..];
    }
  }

  lemma RemoveFirstIsExact(s: seq<ReqID>, id: ReqID)
    requires Distinct(s)
    ensures Distinct(RemoveFirst(s, id))
    ensures forall x :: x in RemoveFirst(s, id) <==> x in s && x != id
    ensures |RemoveFirst(s, id)| == if id in s then |s| - 1 else |s|
  {
    if id in s {
      RemoveFirstSplits(s, id);
    } else {
      RemoveMissing(s, id);
    }
  }

  lemma {:induction false} RemoveMissing(s: seq<ReqID>, id: ReqID)
    requires id !in s
    ensures RemoveFirst(s, id) == s
  {
    if s != [] {
      RemoveMissing(s[1..], id);
    }
  }

  // ---------- First in, first out ----------

  /** Requests that were never moved stand in the order of their IDs. */
  predicate Ascending(s: seq<ReqID>, moved: set<ReqID>)
  {
    forall i, j :: 0 <= i < j < |s| && s[i] !in moved && s[j] !in moved ==> s[i] < s[j]
  }

  /** Whatever order the lists had, they still have. */
  ghost predicate Thinner(q: Lists, q': Lists)
  {
    forall p, moved :: 0 <= p < LISTS && Ascending(q[p], moved) ==> Ascending(q'[p], moved)
  }

  lemma RemoveFirstAscends(s: seq<ReqID>, id: ReqID)
    ensures forall moved :: Ascending(s, moved) ==> Ascending(RemoveFirst(s, id), moved)
  {
    if id in s {
      RemoveFirstSplits(s, id);
    } else {
      RemoveMissing(s, id);
    }
  }

  lemma ThinnerIsTransitive(a: Lists, b: Lists, c: Lists)
    requires Thinner(a, b) && Thinner(b, c)
    ensures Thinner(a, c)
  {
  }
}
