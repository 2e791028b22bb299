/**
 Walks through the pages of workers and of requests, each page being asked for from the end of the last.
 */
module Walks {

  import opened Boruta
  import opened Invariants
  import opened Listings
  import opened Sorters
  import opened Sorting
  import F = Filter
  import P = ProtocolInvariant
  import W = WorkerProtocol

  // ---------- Workers ----------

  /** The workers seen by asking for page after page, at most `n` of them, each time from the end of the last. */
  ghost function WorkerWalk(l: W.WorkerList, filter: Option<F.WorkerFilter>, sorter: WorkerSorter, id: WorkerUUID,
                            forward: bool, limit: nat, n: nat): seq<WorkerInfo>
    requires P.Inv(l)
    decreases n
  {
    if n == 0 || (id != "" && id !in l.workers) then []
    else
      var page := WorkerPage(l, filter, sorter, id, forward, limit);
      if page.remaining == 0 || page.items == [] then page.items
      else if forward then
        page.items + WorkerWalk(l, filter, sorter, page.items[|page.items| - 1].uuid, forward, limit, n - 1)
      else WorkerWalk(l, filter, sorter, page.items[0].uuid, forward, limit, n - 1) + page.items
  }

  /** The matching workers beyond a cursor, which need not match. */
  ghost function BeyondWorker(l: W.WorkerList, filter: Option<F.WorkerFilter>, sorter: WorkerSorter, id: WorkerUUID,
                              forward: bool): seq<WorkerInfo>
    requires P.Inv(l) && (id != "" ==> id in l.workers)
  {
    var cursor := if id == "" then None else Some(l.workers[id].info);
    Beyond(WorkerOrder(sorter), MatchedList(l, filter, sorter), cursor, forward)
  }

  lemma MatchedListLists(l: W.WorkerList, filter: Option<F.WorkerFilter>, sorter: WorkerSorter)
    requires P.Inv(l)
    ensures IsListing(WorkerOrder(sorter), Matched(l, filter), MatchedList(l, filter, sorter))
    ensures Orders(WorkerOrder(sorter), Matched(l, filter))
    ensures forall w :: w in MatchedList(l, filter, sorter) ==> w.uuid in l.workers && l.workers[w.uuid].info == w
  {
    hide P.Inv, Orders, IsListing, Listing;
    MatchedIsOrdered(l, filter, sorter);
    forall w | w in MatchedList(l, filter, sorter)
      ensures w.uuid in l.workers && l.workers[w.uuid].info == w
    {
      InListing(WorkerOrder(sorter), Matched(l, filter), MatchedList(l, filter, sorter), w);
      var u :| u in l.workers && l.workers[u].info == w;
      InfoIsUnique(l, u);
    }
  }

  /** One step of a walk that gets the promised page: it is followed by what is beyond its end. */
  lemma PromisedStep(l: W.WorkerList, filter: Option<F.WorkerFilter>, sorter: WorkerSorter, id: WorkerUUID,
                     forward: bool, limit: nat)
    requires P.Inv(l) && (id != "" ==> id in l.workers) && limit > 0
    requires WorkerPage(l, filter, sorter, id, forward, limit) == PromisedPage(l, filter, sorter, id, forward, limit)
    ensures var page := WorkerPage(l, filter, sorter, id, forward, limit);
            var beyond := BeyondWorker(l, filter, sorter, id, forward);
            if page.remaining == 0 then page.items == beyond
            else
              && page.items != []
              && var next := if forward then page.items[|page.items| - 1] else page.items[0];
                 && next in beyond && next.uuid in l.workers && l.workers[next.uuid].info == next
                 && (next.uuid != "" ==>
                       beyond == if forward then page.items + BeyondWorker(l, filter, sorter, next.uuid, forward)
                                 else BeyondWorker(l, filter, sorter, next.uuid, forward) + page.items)
  {
    hide P.Inv, Orders, Beyond, Listing, IsListing, Sorted, PageOf, WorkerPage;
    var less := WorkerOrder(sorter);
    var matched := Matched(l, filter);
    var cursor := if id == "" then None else Some(l.workers[id].info);
    MatchedListLists(l, filter, sorter);
    CursorIsOrdered(l, filter, sorter, id);
    NextPage(less, matched, cursor, forward, limit);
    var page := WorkerPage(l, filter, sorter, id, forward, limit);
    if page.remaining == 0 {
      LastPage(less, MatchedList(l, filter, sorter), cursor, forward, limit);
    } else {
      var next := if forward then page.items[|page.items| - 1] else page.items[0];
      InListing(less, matched, MatchedList(l, filter, sorter), next);
      assert next in BeyondWorker(l, filter, sorter, id, forward);
    }
  }

  lemma CursorIsOrdered(l: W.WorkerList, filter: Option<F.WorkerFilter>, sorter: WorkerSorter, id: WorkerUUID)
    requires P.Inv(l) && (id != "" ==> id in l.workers)
    ensures Orders(WorkerOrder(sorter), With(Matched(l, filter), if id == "" then None else Some(l.workers[id].info)))
  {
    hide P.Inv, Orders;
    MatchedIsOrdered(l, filter, sorter);
    ShownIsOrdered(l, filter, id, sorter);
    ShownAndCursor(l, filter, id);
  }

  /** The workers of these have names. */
  predicate AllNamed(ws: seq<WorkerInfo>)
  {
    forall w :: w in ws ==> w.uuid != ""
  }

  /** From a named worker the walk sees all matching workers beyond it, in order and once, if they have names. */
  lemma {:induction false} NamedWalkSeesAll(l: W.WorkerList, filter: Option<F.WorkerFilter>, sorter: WorkerSorter,
                                            id: WorkerUUID, forward: bool, limit: nat, n: nat)
    requires P.Inv(l) && id != "" && id in l.workers && limit > 0
    requires AllNamed(BeyondWorker(l, filter, sorter, id, forward))
    requires n > |BeyondWorker(l, filter, sorter, id, forward)|
    ensures WorkerWalk(l, filter, sorter, id, forward, limit, n) == BeyondWorker(l, filter, sorter, id, forward)
    decreases n
  {
    hide P.Inv, BeyondWorker, WorkerPage, PromisedPage;
    PageIsPromised(l, filter, sorter, id, forward, limit);
    PromisedStep(l, filter, sorter, id, forward, limit);
    var page := WorkerPage(l, filter, sorter, id, forward, limit);
    if page.remaining > 0 {
      var next := if forward then page.items[|page.items| - 1] else page.items[0];
      var rest := BeyondWorker(l, filter, sorter, next.uuid, forward);
      assert forall w :: w in rest ==> w in BeyondWorker(l, filter, sorter, id, forward);
      NamedWalkSeesAll(l, filter, sorter, next.uuid, forward, limit, n - 1);
    }
  }

  /**
   If every worker has a name, the walk sees all matching workers beyond the cursor, whether that matches or not, in
   order and once; there are enough pages if there are as many as workers left, and one.
   */
  lemma WorkerWalkSeesAll(l: W.WorkerList, filter: Option<F.WorkerFilter>, sorter: WorkerSorter, id: WorkerUUID,
                          forward: bool, limit: nat, n: nat)
    requires P.Inv(l) && "" !in l.workers && (id != "" ==> id in l.workers) && limit > 0
    requires n > |BeyondWorker(l, filter, sorter, id, forward)|
    ensures WorkerWalk(l, filter, sorter, id, forward, limit, n) == BeyondWorker(l, filter, sorter, id, forward)
  {
    hide P.Inv, BeyondWorker, WorkerPage, PromisedPage;
    PageIsPromised(l, filter, sorter, id, forward, limit);
    PromisedStep(l, filter, sorter, id, forward, limit);
    AllAreNamed(l, filter, sorter, id, forward);
    var page := WorkerPage(l, filter, sorter, id, forward, limit);
    if page.remaining > 0 {
      var next := if forward then page.items[|page.items| - 1] else page.items[0];
      AllAreNamed(l, filter, sorter, next.uuid, forward);
      NamedWalkSeesAll(l, filter, sorter, next.uuid, forward, limit, n - 1);
    }
  }

  lemma AllAreNamed(l: W.WorkerList, filter: Option<F.WorkerFilter>, sorter: WorkerSorter, id: WorkerUUID,
                    forward: bool)
    requires P.Inv(l) && "" !in l.workers && (id != "" ==> id in l.workers)
    ensures AllNamed(BeyondWorker(l, filter, sorter, id, forward))
  {
    hide P.Inv, Beyond, IsListing, Orders;
    MatchedListLists(l, filter, sorter);
    var cursor := if id == "" then None else Some(l.workers[id].info);
    BeyondIsPart(WorkerOrder(sorter), MatchedList(l, filter, sorter), cursor, forward);
  }

  // ---------- Walks with a worker without a name ----------

  /** Where the worker without a name stands among those that are shown when there is no cursor. */
  ghost function NamelessAt(l: W.WorkerList, filter: Option<F.WorkerFilter>, sorter: WorkerSorter): (k: nat)
    requires P.Inv(l) && "" in l.workers
    ensures k < |ShownList(l, filter, "", sorter)| && ShownList(l, filter, "", sorter)[k] == l.workers[""].info
    ensures k == FirstIndex(ShownList(l, filter, "", sorter), HasUuid(""))
  {
    NamelessIsFound(l, filter, sorter);
    FirstIndex(ShownList(l, filter, "", sorter), HasUuid(""))
  }

  lemma NamelessIsFound(l: W.WorkerList, filter: Option<F.WorkerFilter>, sorter: WorkerSorter)
    requires P.Inv(l) && "" in l.workers
    ensures var list := ShownList(l, filter, "", sorter);
            var k := FirstIndex(list, HasUuid(""));
            k < |list| && list[k] == l.workers[""].info
  {
    hide P.Inv, Listing, Orders, Sorted, FirstIndex;
    ShownIsOrdered(l, filter, "", sorter);
    var list := ShownList(l, filter, "", sorter);
    NamelessIsShown(l, filter, list);
    FirstIndexFinds(list, HasUuid(""));
    var w := list[FirstIndex(list, HasUuid(""))];
    assert w in list && w.uuid == "";
    var u :| u in l.workers && l.workers[u].info == w;
    InfoIsUnique(l, u);
  }

  /** The worker without a name matches, so that just the matching workers are shown. */
  lemma ShownIsMatchedList(l: W.WorkerList, filter: Option<F.WorkerFilter>, sorter: WorkerSorter)
    requires P.Inv(l) && "" in l.workers && l.workers[""].info in Matched(l, filter)
    ensures ShownList(l, filter, "", sorter) == MatchedList(l, filter, sorter)
  {
    hide P.Inv, Listing, Orders;
    ShownIsOrdered(l, filter, "", sorter);
    NamelessIsShown(l, filter, ShownList(l, filter, "", sorter));
  }

  lemma OnlyOneIsNameless(l: W.WorkerList, filter: Option<F.WorkerFilter>, sorter: WorkerSorter)
    requires P.Inv(l) && "" in l.workers
    ensures var list := ShownList(l, filter, "", sorter);
            forall i :: 0 <= i < |list| ==> list[i].uuid in l.workers && l.workers[list[i].uuid].info == list[i]
                                            && (list[i].uuid == "" <==> i == NamelessAt(l, filter, sorter))
  {
    hide P.Inv, Listing, Orders, FirstIndex;
    ShownIsOrdered(l, filter, "", sorter);
    var list := ShownList(l, filter, "", sorter);
    forall i | 0 <= i < |list|
      ensures list[i].uuid in l.workers && l.workers[list[i].uuid].info == list[i]
      ensures list[i].uuid == "" <==> i == NamelessAt(l, filter, sorter)
    {
      assert list[i] in list;
      var u :| u in l.workers && l.workers[u].info == list[i];
      InfoIsUnique(l, u);
    }
  }

  lemma ForwardStartsAtNameless(l: W.WorkerList, filter: Option<F.WorkerFilter>, sorter: WorkerSorter, limit: nat,
                                n: nat)
    requires P.Inv(l) && "" in l.workers && limit > 0 && n > 0
    ensures var walk := WorkerWalk(l, filter, sorter, "", true, limit, n);
            walk != [] && walk[0] == l.workers[""].info
  {
    hide P.Inv, Listing, Orders, FirstIndex, WorkerPage;
    NamelessIsShownAgain(l, filter, sorter, limit);
    var page := WorkerPage(l, filter, sorter, "", true, limit);
    assert page.items[0] == l.workers[""].info by {
      FirstOfForward(l, filter, sorter, limit);
    }
  }

  lemma FirstOfForward(l: W.WorkerList, filter: Option<F.WorkerFilter>, sorter: WorkerSorter, limit: nat)
    requires P.Inv(l) && "" in l.workers && limit > 0
    ensures var page := WorkerPage(l, filter, sorter, "", true, limit);
            page.items != [] && page.items[0] == l.workers[""].info
  {
    hide P.Inv, Listing, Orders, FirstIndex;
    var k := NamelessAt(l, filter, sorter);
  }

  /**
   Forward from no cursor, the walk sees exactly the matching workers, in order and once, if and only if every worker
   has a name, or the one without matches and comes first, and pages are longer than one or there are no others.
   */
  lemma ForwardWalkIsComplete(l: W.WorkerList, filter: Option<F.WorkerFilter>, sorter: WorkerSorter, limit: nat, n: nat)
    requires P.Inv(l) && limit > 0 && n > |ShownList(l, filter, "", sorter)|
    ensures WorkerWalk(l, filter, sorter, "", true, limit, n) == MatchedList(l, filter, sorter)
            <==>
            || "" !in l.workers
            || (&& l.workers[""].info in Matched(l, filter) && NamelessAt(l, filter, sorter) == 0
                && (limit > 1 || |ShownList(l, filter, "", sorter)| == 1))
  {
    hide P.Inv, Listing, Orders, FirstIndex, WorkerPage, PromisedPage, ShownList, MatchedList, WorkerWalk;
    var list := ShownList(l, filter, "", sorter);
    var matching := MatchedList(l, filter, sorter);
    NoCursor(l, filter, sorter, true);
    if "" !in l.workers {
      MatchedIsNotLonger(l, filter, sorter);
      WorkerWalkSeesAll(l, filter, sorter, "", true, limit, n);
    } else {
      ForwardStartsAtNameless(l, filter, sorter, limit, n);
      MatchedListLists(l, filter, sorter);
      var nameless := l.workers[""].info;
      InListing(WorkerOrder(sorter), Matched(l, filter), matching, nameless);
      if nameless in Matched(l, filter) {
        ShownIsMatchedList(l, filter, sorter);
        var k := NamelessAt(l, filter, sorter);
        OnlyOneIsNameless(l, filter, sorter);
        InfoIsUnique(l, "");
        if k == 0 {
          ForwardFromFirst(l, filter, sorter, limit, n);
        }
      }
    }
  }

  lemma NoCursor(l: W.WorkerList, filter: Option<F.WorkerFilter>, sorter: WorkerSorter, forward: bool)
    requires P.Inv(l)
    ensures BeyondWorker(l, filter, sorter, "", forward) == MatchedList(l, filter, sorter)
  {
    hide P.Inv, Listing, Orders;
  }

  lemma MatchedIsNotLonger(l: W.WorkerList, filter: Option<F.WorkerFilter>, sorter: WorkerSorter)
    requires P.Inv(l) && "" !in l.workers
    ensures MatchedList(l, filter, sorter) == ShownList(l, filter, "", sorter)
  {
    hide P.Inv, Listing, Orders;
    ShownIsMatched(l, filter, "");
  }

  lemma ForwardFromFirst(l: W.WorkerList, filter: Option<F.WorkerFilter>, sorter: WorkerSorter, limit: nat, n: nat)
    requires P.Inv(l) && "" in l.workers && l.workers[""].info in Matched(l, filter) && limit > 0
    requires NamelessAt(l, filter, sorter) == 0 && n > |MatchedList(l, filter, sorter)|
    ensures WorkerWalk(l, filter, sorter, "", true, limit, n) == MatchedList(l, filter, sorter)
            <==> limit > 1 || |MatchedList(l, filter, sorter)| == 1
  {
    hide P.Inv, Listing, Orders, FirstIndex, WorkerPage, ShownList, BeyondWorker, MatchedList;
    var list := MatchedList(l, filter, sorter);
    ShownIsMatchedList(l, filter, sorter);
    OnlyOneIsNameless(l, filter, sorter);
    PageIsPromised(l, filter, sorter, "", true, limit);
    NoCursor(l, filter, sorter, true);
    PromisedStep(l, filter, sorter, "", true, limit);
    var page := WorkerPage(l, filter, sorter, "", true, limit);
    FirstPageOf(WorkerOrder(sorter), list, limit);
    if page.remaining > 0 {
      if limit == 1 {
        ForwardStartsAtNameless(l, filter, sorter, limit, n - 1);
        var walk := WorkerWalk(l, filter, sorter, "", true, limit, n);
        assert walk[1] == l.workers[""].info;
        assert list[1].uuid != "";
      } else {
        var next := page.items[|page.items| - 1];
        assert next == list[limit - 1];
        var rest := BeyondWorker(l, filter, sorter, next.uuid, true);
        assert list == page.items + rest;
        forall w | w in rest
          ensures w.uuid != ""
        {
          var i :| 0 <= i < |rest| && rest[i] == w;
          assert list[limit + i] == w;
        }
        NamedWalkSeesAll(l, filter, sorter, next.uuid, true, limit, n - 1);
      }
    }
  }

  lemma FirstPageOf<T>(less: (T, T) -> bool, r: seq<T>, limit: nat)
    ensures PageOf(less, r, None, true, limit) == Page(r[..Min(limit, |r|)], |r|, |r| - Min(limit, |r|))
  {
  }

  /** A backward page at place `p` of the listing. */
  lemma BackwardPageAt(l: W.WorkerList, filter: Option<F.WorkerFilter>, sorter: WorkerSorter, id: WorkerUUID,
                       limit: nat, p: nat)
    requires P.Inv(l) && (id != "" ==> id in l.workers) && limit > 0
    requires var list := ShownList(l, filter, id, sorter);
             if id == "" then p == |list| else p < |list| && list[p] == l.workers[id].info
    ensures var list := ShownList(l, filter, id, sorter);
            var m := Min(limit, p);
            WorkerPage(l, filter, sorter, id, false, limit) == Page(list[p - m..p], |list|, p - m)
  {
    hide P.Inv, Listing, Orders, Beyond, FirstIndex, IsListing, Sorted, Shown;
    var less := WorkerOrder(sorter);
    var list := ShownList(l, filter, id, sorter);
    var cursor := if id == "" then None else Some(l.workers[id].info);
    ShownIsOrdered(l, filter, id, sorter);
    BeyondIsSlice(less, Shown(l, filter, id), list, cursor, false, p);
    WholeSlice(list, 0, p);
    CutPageIs(less, list, list, cursor, HasUuid(id), false, limit, 0, p);
  }

  /** A backward walk from no cursor sees nothing, or ends on the last worker shown. */
  lemma BackwardWalkEndsLast(l: W.WorkerList, filter: Option<F.WorkerFilter>, sorter: WorkerSorter, limit: nat, n: nat)
    requires P.Inv(l) && limit > 0 && ShownList(l, filter, "", sorter) != []
    ensures var walk := WorkerWalk(l, filter, sorter, "", false, limit, n);
            var list := ShownList(l, filter, "", sorter);
            n > 0 ==> walk != [] && walk[|walk| - 1] == list[|list| - 1]
  {
    hide P.Inv, ShownList, WorkerPage;
    if n > 0 {
      BackwardPageAt(l, filter, sorter, "", limit, |ShownList(l, filter, "", sorter)|);
    }
  }

  lemma OneLess(a: nat, m: nat)
    requires 0 < m <= a
    ensures a % m == (a - m) % m
  {
    var q, r := (a - m) / m, (a - m) % m;
    assert a - m == m * q + r;
    assert a == m * (q + 1) + r;
    ModIs(a, m, q + 1, r);
  }

  lemma ModIs(a: nat, m: nat, q: nat, r: nat)
    requires m > 0 && r < m && a == m * q + r
    ensures a % m == r
  {
    var d := a / m - q;
    assert m * d == r - a % m by {
      assert a == m * (a / m) + a % m;
      assert m * (a / m) - m * q == m * d;
    }
    MultipleIsFar(m, d);
  }

  lemma MultipleIsFar(m: int, d: int)
    requires m > 0
    ensures d >= 1 ==> m * d >= m
    ensures d <= -1 ==> m * d <= -m
  {
  }

  /** The distance is one after which a page ends. */
  predicate EndsPage(distance: nat, limit: nat)
    requires limit > 0
  {
    distance > 0 && distance % limit == 0
  }

  /** Seen from place `p`, a page ends at place `k`, before the start. */
  predicate PageEndsAt(p: nat, k: nat, limit: nat)
    requires limit > 0
  {
    0 < k < p && EndsPage(p - k, limit)
  }

  lemma NextPageEnd(p: nat, k: nat, limit: nat)
    requires limit > 0
    ensures if p <= limit then !PageEndsAt(p, k, limit)
            else if k == p - limit then PageEndsAt(p, k, limit)
            else PageEndsAt(p, k, limit) <==> PageEndsAt(p - limit, k, limit)
  {
    if limit < p && k == p - limit {
      OneLess(limit, limit);
    }
    if limit < p && k < p - limit {
      OneLess(p - k, limit);
    }
    if k < p && p - k < limit {
      ModIs(p - k, limit, 0, p - k);
    }
  }

  /** The cursor stands at place `p` of the matching workers, or there is none and that is the end. */
  ghost predicate StandsAt(l: W.WorkerList, filter: Option<F.WorkerFilter>, sorter: WorkerSorter, id: WorkerUUID,
                           p: nat)
    requires P.Inv(l)
  {
    var list := MatchedList(l, filter, sorter);
    if id == "" then p == |list| else id in l.workers && p < |list| && list[p] == l.workers[id].info
  }

  /** What a backward walk sees on its last page. */
  lemma BackwardWalkStops(l: W.WorkerList, filter: Option<F.WorkerFilter>, sorter: WorkerSorter, id: WorkerUUID,
                          limit: nat, n: nat, p: nat)
    requires P.Inv(l) && "" in l.workers && l.workers[""].info in Matched(l, filter)
    requires StandsAt(l, filter, sorter, id, p) && n > 0 && p <= limit && limit > 0
    ensures WorkerWalk(l, filter, sorter, id, false, limit, n) == MatchedList(l, filter, sorter)[..p]
  {
    hide P.Inv, WorkerPage, WorkerWalk, Matched, MatchedList, ShownList;
    NamedIsMatchedList(l, filter, sorter, id);
    BackwardPageAt(l, filter, sorter, id, limit, p);
    BackwardUnfolds(l, filter, sorter, id, limit, n);
    assert MatchedList(l, filter, sorter)[0..p] == MatchedList(l, filter, sorter)[..p];
  }

  /** What it sees on another page. */
  lemma BackwardWalkPage(l: W.WorkerList, filter: Option<F.WorkerFilter>, sorter: WorkerSorter, id: WorkerUUID,
                         limit: nat, n: nat, p: nat)
    requires P.Inv(l) && "" in l.workers && l.workers[""].info in Matched(l, filter)
    requires StandsAt(l, filter, sorter, id, p) && n > 0 && 0 < limit < p
    ensures var list := MatchedList(l, filter, sorter);
            && p <= |list|
            && WorkerWalk(l, filter, sorter, id, false, limit, n) ==
               WorkerWalk(l, filter, sorter, list[p - limit].uuid, false, limit, n - 1) + list[p - limit..p]
  {
    hide P.Inv, WorkerPage, WorkerWalk, Matched, MatchedList, ShownList, NamelessAt;
    NamedIsMatchedList(l, filter, sorter, id);
    BackwardPageAt(l, filter, sorter, id, limit, p);
    BackwardUnfolds(l, filter, sorter, id, limit, n);
    assert MatchedList(l, filter, sorter)[p - limit..p][0] == MatchedList(l, filter, sorter)[p - limit];
  }

  /** And where it goes on. */
  lemma BackwardWalkGoesOn(l: W.WorkerList, filter: Option<F.WorkerFilter>, sorter: WorkerSorter, id: WorkerUUID,
                           limit: nat, n: nat, p: nat)
    requires P.Inv(l) && "" in l.workers && l.workers[""].info in Matched(l, filter)
    requires StandsAt(l, filter, sorter, id, p) && n > 0 && 0 < limit < p
    ensures var list := MatchedList(l, filter, sorter);
            var q := p - limit;
            && p <= |list|
            && (list[q].uuid == "" <==> q == NamelessAt(l, filter, sorter))
            && (list[q].uuid != "" ==> StandsAt(l, filter, sorter, list[q].uuid, q))
            && (WorkerWalk(l, filter, sorter, id, false, limit, n) == list[..p] <==>
                WorkerWalk(l, filter, sorter, list[q].uuid, false, limit, n - 1) == list[..q])
  {
    hide P.Inv, WorkerWalk, Matched, MatchedList, ShownList, NamelessAt;
    var list := MatchedList(l, filter, sorter);
    BackwardWalkPage(l, filter, sorter, id, limit, n, p);
    ShownIsMatchedList(l, filter, sorter);
    NamelessOrNot(l, filter, sorter, p - limit);
    Split(list, WorkerWalk(l, filter, sorter, list[p - limit].uuid, false, limit, n - 1), p - limit, p);
  }

  /**
   If the worker without a name matches and stands at `k`, the backward walk from place `p` is complete if and only if
   no page but the last starts at that worker; from there the walk starts anew.
   */
  lemma {:induction false} BackwardWalkFrom(l: W.WorkerList, filter: Option<F.WorkerFilter>, sorter: WorkerSorter,
                                            id: WorkerUUID, limit: nat, n: nat, p: nat)
    requires P.Inv(l) && "" in l.workers && l.workers[""].info in Matched(l, filter) && limit > 0
    requires StandsAt(l, filter, sorter, id, p) && n > p
    ensures p <= |MatchedList(l, filter, sorter)|
    ensures WorkerWalk(l, filter, sorter, id, false, limit, n) == MatchedList(l, filter, sorter)[..p]
            <==> !PageEndsAt(p, NamelessAt(l, filter, sorter), limit)
    decreases n
  {
    hide P.Inv, WorkerWalk, Matched, MatchedList, ShownList, NamelessAt, PageEndsAt, StandsAt;
    PlaceIsInList(l, filter, sorter, id, p);
    NextPageEnd(p, NamelessAt(l, filter, sorter), limit);
    if p <= limit {
      BackwardWalkStops(l, filter, sorter, id, limit, n, p);
    } else {
      var q := p - limit;
      var next := MatchedList(l, filter, sorter)[q].uuid;
      BackwardWalkGoesOn(l, filter, sorter, id, limit, n, p);
      if next == "" {
        ShownIsMatchedList(l, filter, sorter);
        BackwardWalkEndsLast(l, filter, sorter, limit, n - 1);
        LastDiffers(l, filter, sorter, WorkerWalk(l, filter, sorter, next, false, limit, n - 1), q);
      } else {
        BackwardWalkFrom(l, filter, sorter, next, limit, n - 1, q);
      }
    }
  }

  lemma PlaceIsInList(l: W.WorkerList, filter: Option<F.WorkerFilter>, sorter: WorkerSorter, id: WorkerUUID, p: nat)
    requires P.Inv(l) && StandsAt(l, filter, sorter, id, p)
    ensures p <= |MatchedList(l, filter, sorter)| && (id != "" ==> id in l.workers)
  {
  }

  lemma NamelessOrNot(l: W.WorkerList, filter: Option<F.WorkerFilter>, sorter: WorkerSorter, i: nat)
    requires P.Inv(l) && "" in l.workers && i < |ShownList(l, filter, "", sorter)|
    ensures var w := ShownList(l, filter, "", sorter)[i];
            && w.uuid in l.workers && l.workers[w.uuid].info == w
            && (w.uuid == "" <==> i == NamelessAt(l, filter, sorter))
  {
    hide P.Inv, ShownList, NamelessAt;
    OnlyOneIsNameless(l, filter, sorter);
  }

  lemma LastDiffers(l: W.WorkerList, filter: Option<F.WorkerFilter>, sorter: WorkerSorter, rest: seq<WorkerInfo>,
                    k: nat)
    requires P.Inv(l)
    requires var list := MatchedList(l, filter, sorter);
             0 < k < |list| && rest != [] && rest[|rest| - 1] == list[|list| - 1]
    ensures rest != MatchedList(l, filter, sorter)[..k]
  {
    hide P.Inv, Listing, Orders;
    var list := MatchedList(l, filter, sorter);
    MatchedListLists(l, filter, sorter);
    assert list[k - 1] != list[|list| - 1];
  }

  lemma Split<T>(list: seq<T>, rest: seq<T>, q: nat, p: nat)
    requires q < p <= |list|
    ensures list[q..p] != [] && list[q..p][0] == list[q]
    ensures rest + list[q..p] == list[..p] <==> rest == list[..q]
  {
    assert list[..p] == list[..q] + list[q..p];
    Concatenated(rest, list[..q], list[q..p]);
  }

  lemma Concatenated<T>(a: seq<T>, b: seq<T>, c: seq<T>)
    ensures a + c == b + c <==> a == b
  {
    if a + c == b + c {
      assert |a| == |b|;
      assert a == (a + c)[..|a|] && b == (b + c)[..|b|];
    }
  }

  lemma NamedIsMatchedList(l: W.WorkerList, filter: Option<F.WorkerFilter>, sorter: WorkerSorter, id: WorkerUUID)
    requires P.Inv(l) && "" in l.workers && l.workers[""].info in Matched(l, filter) && (id != "" ==> id in l.workers)
    ensures ShownList(l, filter, id, sorter) == MatchedList(l, filter, sorter)
  {
    hide P.Inv, Listing, Orders;
    ShownIsMatchedList(l, filter, sorter);
  }

  lemma BackwardUnfolds(l: W.WorkerList, filter: Option<F.WorkerFilter>, sorter: WorkerSorter, id: WorkerUUID,
                        limit: nat, n: nat)
    requires P.Inv(l) && (id != "" ==> id in l.workers) && n > 0
    ensures var page := WorkerPage(l, filter, sorter, id, false, limit);
            WorkerWalk(l, filter, sorter, id, false, limit, n) ==
            if page.remaining == 0 || page.items == [] then page.items
            else WorkerWalk(l, filter, sorter, page.items[0].uuid, false, limit, n - 1) + page.items
  {
    hide P.Inv, WorkerPage;
  }

  /**
   If it does not match, the walk is complete if and only if it is not on the first page: after that it is not shown.
   */
  lemma BackwardWalkPastUnmatched(l: W.WorkerList, filter: Option<F.WorkerFilter>, sorter: WorkerSorter,
                                  limit: nat, n: nat)
    requires P.Inv(l) && "" in l.workers && l.workers[""].info !in Matched(l, filter) && limit > 0
    requires n > |ShownList(l, filter, "", sorter)|
    ensures WorkerWalk(l, filter, sorter, "", false, limit, n) == MatchedList(l, filter, sorter) <==>
            NamelessAt(l, filter, sorter) + limit < |ShownList(l, filter, "", sorter)|
  {
    hide P.Inv, WorkerWalk, Matched, MatchedList, ShownList, NamelessAt, BeyondWorker;
    var list := ShownList(l, filter, "", sorter);
    var k := NamelessAt(l, filter, sorter);
    FirstBackwardPage(l, filter, sorter, limit, n);
    if k + limit < |list| {
      var q := |list| - limit;
      NamelessOrNot(l, filter, sorter, q);
      BeforeFirstPage(l, filter, sorter, q);
      NamedWalkSeesAll(l, filter, sorter, list[q].uuid, false, limit, n - 1);
    } else {
      NamelessIsNotListed(l, filter, sorter);
      InSlice(list, k, if |list| <= limit then 0 else |list| - limit);
    }
  }

  lemma InSlice<T>(list: seq<T>, k: nat, from: nat)
    requires from <= k < |list|
    ensures list[k] in list[from..] && (from == 0 ==> list[from..] == list)
  {
    assert list[from..][k - from] == list[k];
  }

  /** What a backward walk from no cursor sees on its first page. */
  lemma FirstBackwardPage(l: W.WorkerList, filter: Option<F.WorkerFilter>, sorter: WorkerSorter, limit: nat, n: nat)
    requires P.Inv(l) && limit > 0 && n > 0
    ensures var list := ShownList(l, filter, "", sorter);
            WorkerWalk(l, filter, sorter, "", false, limit, n) ==
            if |list| <= limit then list
            else WorkerWalk(l, filter, sorter, list[|list| - limit].uuid, false, limit, n - 1) + list[|list| - limit..]
  {
    hide P.Inv, WorkerPage, WorkerWalk, ShownList;
    var list := ShownList(l, filter, "", sorter);
    BackwardPageAt(l, filter, sorter, "", limit, |list|);
    BackwardUnfolds(l, filter, sorter, "", limit, n);
    if |list| > limit {
      assert list[|list| - limit..|list|] == list[|list| - limit..];
      assert list[|list| - limit..][0] == list[|list| - limit];
    } else {
      assert list[0..|list|] == list;
    }
  }

  lemma NamelessIsNotListed(l: W.WorkerList, filter: Option<F.WorkerFilter>, sorter: WorkerSorter)
    requires P.Inv(l) && "" in l.workers && l.workers[""].info !in Matched(l, filter)
    ensures forall w :: w in MatchedList(l, filter, sorter) ==> w != l.workers[""].info && w.uuid != ""
  {
    hide P.Inv, Listing, Orders, Matched;
    MatchedListLists(l, filter, sorter);
  }

  /** What is beyond the first page, from the worker at place `q` that starts it. */
  lemma BeforeFirstPage(l: W.WorkerList, filter: Option<F.WorkerFilter>, sorter: WorkerSorter, q: nat)
    requires P.Inv(l) && "" in l.workers && l.workers[""].info !in Matched(l, filter)
    requires var list := ShownList(l, filter, "", sorter);
             NamelessAt(l, filter, sorter) < q < |list| && list[q].uuid != "" && list[q].uuid in l.workers
             && l.workers[list[q].uuid].info == list[q]
    ensures var list := ShownList(l, filter, "", sorter);
            var before := BeyondWorker(l, filter, sorter, list[q].uuid, false);
            && MatchedList(l, filter, sorter) == before + list[q..]
            && |before| == q - 1 && AllNamed(before)
  {
    hide P.Inv, Orders, IsListing, Sorted, Matched, Beyond, MatchedList, ShownList, NamelessAt, BeyondWorker;
    var less := WorkerOrder(sorter);
    var list := ShownList(l, filter, "", sorter);
    var matching := MatchedList(l, filter, sorter);
    var k := NamelessAt(l, filter, sorter);
    WithoutNameless(l, filter, sorter);
    CutAfter(list, matching, k, q);
    MatchedListLists(l, filter, sorter);
    BeyondIsSlice(less, Matched(l, filter), matching, Some(list[q]), false, q - 1);
    BeyondWorkerIs(l, filter, sorter, list[q].uuid);
    NamelessIsNotListed(l, filter, sorter);
    assert forall w :: w in matching[..q - 1] ==> w in matching;
  }

  lemma CutAfter<T>(list: seq<T>, less: seq<T>, k: nat, q: nat)
    requires k < q < |list| && less == list[..k] + list[k + 1..]
    ensures q - 1 < |less| && less[q - 1] == list[q] && less == less[..q - 1] + list[q..]
  {
  }

  lemma BeyondWorkerIs(l: W.WorkerList, filter: Option<F.WorkerFilter>, sorter: WorkerSorter, id: WorkerUUID)
    requires P.Inv(l) && id != "" && id in l.workers
    ensures BeyondWorker(l, filter, sorter, id, false) ==
            Beyond(WorkerOrder(sorter), MatchedList(l, filter, sorter), Some(l.workers[id].info), false)
  {
    hide P.Inv, Beyond, MatchedList;
  }

  lemma WithoutNameless(l: W.WorkerList, filter: Option<F.WorkerFilter>, sorter: WorkerSorter)
    requires P.Inv(l) && "" in l.workers && l.workers[""].info !in Matched(l, filter)
    ensures var list := ShownList(l, filter, "", sorter);
            var k := NamelessAt(l, filter, sorter);
            MatchedList(l, filter, sorter) == list[..k] + list[k + 1..]
  {
    hide P.Inv, Listing, Orders, FirstIndex;
    var list := ShownList(l, filter, "", sorter);
    ShownIsOrdered(l, filter, "", sorter);
    NamelessIsAdded(l, filter);
    var at := ListingWithout(WorkerOrder(sorter), Matched(l, filter), l.workers[""].info);
    OnlyOneIsNameless(l, filter, sorter);
    InfoIsUnique(l, "");
    assert list[at].uuid == "";
  }

  lemma NamelessIsAdded(l: W.WorkerList, filter: Option<F.WorkerFilter>)
    requires P.Inv(l) && "" in l.workers
    ensures Shown(l, filter, "") == Matched(l, filter) + {l.workers[""].info}
  {
    hide P.Inv;
    forall u | u in l.workers
      ensures l.workers[u].info.uuid == u
    {
      InfoIsUnique(l, u);
    }
  }

  /**
   Backward from no cursor, the walk sees exactly the matching workers, in order and once, if and only if every worker
   has a name, or the one without matches and no page but the last starts at it, or it does not match and is not on
   the first page.
   */
  lemma BackwardWalkIsComplete(l: W.WorkerList, filter: Option<F.WorkerFilter>, sorter: WorkerSorter, limit: nat,
                               n: nat)
    requires P.Inv(l) && limit > 0 && n > |ShownList(l, filter, "", sorter)|
    ensures WorkerWalk(l, filter, sorter, "", false, limit, n) == MatchedList(l, filter, sorter)
            <==>
            || "" !in l.workers
            || (var k, size := NamelessAt(l, filter, sorter), |ShownList(l, filter, "", sorter)|;
                if l.workers[""].info in Matched(l, filter) then k == 0 || (size - k) % limit != 0
                else k + limit < size)
  {
    hide P.Inv, Listing, Orders, FirstIndex, WorkerPage, PromisedPage, ShownList, MatchedList, WorkerWalk;
    if "" !in l.workers {
      NoCursor(l, filter, sorter, false);
      MatchedIsNotLonger(l, filter, sorter);
      WorkerWalkSeesAll(l, filter, sorter, "", false, limit, n);
    } else if l.workers[""].info in Matched(l, filter) {
      ShownIsMatchedList(l, filter, sorter);
      var list := MatchedList(l, filter, sorter);
      BackwardWalkFrom(l, filter, sorter, "", limit, n, |list|);
      assert list[..|list|] == list;
      assert PageEndsAt(|list|, NamelessAt(l, filter, sorter), limit) <==>
             !(NamelessAt(l, filter, sorter) == 0 || (|list| - NamelessAt(l, filter, sorter)) % limit != 0);
    } else {
      BackwardWalkPastUnmatched(l, filter, sorter, limit, n);
    }
  }

  // ---------- Requests ----------

  /** The requests seen by asking for page after page, at most `n` of them, each time from the end of the last. */
  ghost function RequestWalk(requests: map<ReqID, ReqInfo>, filter: Option<F.RequestFilter>, sorter: RequestSorter,
                             id: ReqID, forward: bool, limit: nat, n: nat): seq<ReqInfo>
    requires Numbered(requests)
    decreases n
  {
    if n == 0 || (id != 0 && id !in requests) then []
    else
      var page := RequestPage(requests, filter, sorter, id, forward, limit);
      if page.remaining == 0 || page.items == [] then page.items
      else if forward then
        page.items + RequestWalk(requests, filter, sorter, page.items[|page.items| - 1].id, forward, limit, n - 1)
      else RequestWalk(requests, filter, sorter, page.items[0].id, forward, limit, n - 1) + page.items
  }

  ghost function BeyondRequest(requests: map<ReqID, ReqInfo>, filter: Option<F.RequestFilter>, sorter: RequestSorter,
                               id: ReqID, forward: bool): seq<ReqInfo>
    requires Numbered(requests) && (id != 0 ==> id in requests)
  {
    var cursor := if id == 0 then None else Some(requests[id]);
    Beyond(RequestOrder(sorter), RequestList(requests, filter, sorter), cursor, forward)
  }

  lemma RequestStep(requests: map<ReqID, ReqInfo>, filter: Option<F.RequestFilter>, sorter: RequestSorter, id: ReqID,
                    forward: bool, limit: nat)
    requires Numbered(requests) && (id != 0 ==> id in requests) && limit > 0
    ensures var page := RequestPage(requests, filter, sorter, id, forward, limit);
            var beyond := BeyondRequest(requests, filter, sorter, id, forward);
            if page.remaining == 0 then page.items == beyond
            else
              && page.items != []
              && var next := if forward then page.items[|page.items| - 1] else page.items[0];
                 && next.id != 0 && next.id in requests
                 && beyond == if forward then page.items + BeyondRequest(requests, filter, sorter, next.id, forward)
                              else BeyondRequest(requests, filter, sorter, next.id, forward) + page.items
  {
    hide Orders, Beyond, Listing, IsListing, Sorted, PageOf, Numbered;
    var less := RequestOrder(sorter);
    var matched := MatchedRequests(requests, filter);
    var cursor := if id == 0 then None else Some(requests[id]);
    MatchedRequestsAreOrdered(requests, filter, sorter);
    RequestCursorIsOrdered(requests, filter, sorter, id);
    NextPage(less, matched, cursor, forward, limit);
    var page := RequestPage(requests, filter, sorter, id, forward, limit);
    if page.remaining == 0 {
      LastPage(less, RequestList(requests, filter, sorter), cursor, forward, limit);
    } else {
      var next := if forward then page.items[|page.items| - 1] else page.items[0];
      MatchedHasId(requests, filter, next);
    }
  }

  lemma MatchedHasId(requests: map<ReqID, ReqInfo>, filter: Option<F.RequestFilter>, r: ReqInfo)
    requires Numbered(requests) && r in MatchedRequests(requests, filter)
    ensures r.id != 0 && r.id in requests && requests[r.id] == r
  {
  }

  lemma RequestCursorIsOrdered(requests: map<ReqID, ReqInfo>, filter: Option<F.RequestFilter>, sorter: RequestSorter,
                               id: ReqID)
    requires Numbered(requests) && (id != 0 ==> id in requests)
    ensures Orders(RequestOrder(sorter),
                   With(MatchedRequests(requests, filter), if id == 0 then None else Some(requests[id])))
  {
    hide Orders;
    RequestsAreOrdered(sorter, With(MatchedRequests(requests, filter), if id == 0 then None else Some(requests[id])));
  }

  /** From any request, matching or not, or from none, the walk by IDs sees all matching requests beyond it. */
  lemma {:induction false} RequestWalkSeesAll(requests: map<ReqID, ReqInfo>, filter: Option<F.RequestFilter>,
                                              sorter: RequestSorter, id: ReqID, forward: bool, limit: nat, n: nat)
    requires Numbered(requests) && (id != 0 ==> id in requests) && limit > 0
    requires n > |BeyondRequest(requests, filter, sorter, id, forward)|
    ensures RequestWalk(requests, filter, sorter, id, forward, limit, n) ==
            BeyondRequest(requests, filter, sorter, id, forward)
    decreases n
  {
    hide BeyondRequest, RequestPage;
    RequestStep(requests, filter, sorter, id, forward, limit);
    var page := RequestPage(requests, filter, sorter, id, forward, limit);
    if page.remaining > 0 {
      var next := if forward then page.items[|page.items| - 1] else page.items[0];
      RequestWalkSeesAll(requests, filter, sorter, next.id, forward, limit, n - 1);
    }
  }

  /** From no request, in either direction, that is the whole list. */
  lemma RequestWalkIsComplete(requests: map<ReqID, ReqInfo>, filter: Option<F.RequestFilter>, sorter: RequestSorter,
                              forward: bool, limit: nat, n: nat)
    requires Numbered(requests) && limit > 0 && n > |RequestList(requests, filter, sorter)|
    ensures RequestWalk(requests, filter, sorter, 0, forward, limit, n) == RequestList(requests, filter, sorter)
  {
    hide RequestList, RequestWalk;
    RequestWalkSeesAll(requests, filter, sorter, 0, forward, limit, n);
  }
}
