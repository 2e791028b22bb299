/**
 What is listed, of workers and of requests, and which worker a scan of the list chooses.
 */
module Listings {

  import opened Boruta
  import opened Invariants
  import opened Matching
  import opened Preservation
  import opened Sorters
  import opened Sorting
  import F = Filter
  import P = ProtocolInvariant
  import S = System
  import W = WorkerProtocol

  // ---------- Workers ----------

  predicate IsWanted(w: WorkerInfo, filter: Option<F.WorkerFilter>, pid: WorkerUUID, onlyIdle: bool)
  {
    && (filter.None? || F.Matches(w, filter.value.groups, filter.value.caps) || w.uuid == pid)
    && (onlyIdle ==> w.state == IDLE)
  }

  /** The workers that are listed: those that match the filter, and the one named. */
  function Wanted(l: W.WorkerList, filter: Option<F.WorkerFilter>, pid: WorkerUUID, onlyIdle: bool): set<WorkerInfo>
  {
    set u | u in l.workers && IsWanted(l.workers[u].info, filter, pid, onlyIdle) :: l.workers[u].info
  }

  /** The workers that match the filter. */
  function Matched(l: W.WorkerList, filter: Option<F.WorkerFilter>): set<WorkerInfo>
  {
    set u | u in l.workers && (filter.None? || F.Matches(l.workers[u].info, filter.value.groups, filter.value.caps)) ::
      l.workers[u].info
  }

  /** What is divided into pages: the matching workers; without a cursor also one whose UUID is empty. */
  function Shown(l: W.WorkerList, filter: Option<F.WorkerFilter>, id: WorkerUUID): set<WorkerInfo>
  {
    if id == "" then Wanted(l, filter, "", false) else Matched(l, filter)
  }

  lemma InfoIsUnique(l: W.WorkerList, u: WorkerUUID)
    requires P.Inv(l) && u in l.workers
    ensures l.workers[u].info.uuid == u
    ensures forall v :: v in l.workers && l.workers[v].info == l.workers[u].info ==> v == u
  {
    forall v | v in l.workers
      ensures l.workers[v].info.uuid == v
    {
      assert P.WorkerOk(l, v);
    }
  }

  lemma WantedAreDistinct(l: W.WorkerList, filter: Option<F.WorkerFilter>, pid: WorkerUUID, onlyIdle: bool)
    requires P.Inv(l)
    ensures DistinctUuids(Wanted(l, filter, pid, onlyIdle))
  {
    hide P.Inv;
    forall u | u in l.workers
      ensures l.workers[u].info.uuid == u
    {
      InfoIsUnique(l, u);
    }
  }

  lemma WantedIs(l: W.WorkerList, filter: Option<F.WorkerFilter>, pid: WorkerUUID, onlyIdle: bool, s: set<WorkerInfo>)
    requires P.Inv(l)
    requires forall w :: w in s <==>
                           w.uuid in l.workers && l.workers[w.uuid].info == w && IsWanted(w, filter, pid, onlyIdle)
    ensures s == Wanted(l, filter, pid, onlyIdle)
  {
    hide P.Inv, IsWanted;
    forall u | u in l.workers
      ensures l.workers[u].info.uuid == u
    {
      InfoIsUnique(l, u);
    }
  }

  /** What the source sorts is what is shown, with the cursor. */
  lemma ShownAndCursor(l: W.WorkerList, filter: Option<F.WorkerFilter>, id: WorkerUUID)
    requires P.Inv(l) && (id != "" ==> id in l.workers)
    ensures id != "" ==> Wanted(l, filter, id, false) == Shown(l, filter, id) + {l.workers[id].info}
    ensures id != "" ==> (l.workers[id].info in Shown(l, filter, id) <==>
                            filter.None? || F.Matches(l.workers[id].info, filter.value.groups, filter.value.caps))
  {
    hide P.Inv;
    forall u | u in l.workers
      ensures l.workers[u].info.uuid == u
    {
      InfoIsUnique(l, u);
    }
  }

  /** Without a worker whose UUID is empty, exactly the matching workers are divided into pages. */
  lemma ShownIsMatched(l: W.WorkerList, filter: Option<F.WorkerFilter>, id: WorkerUUID)
    requires P.Inv(l) && "" !in l.workers
    ensures Shown(l, filter, id) == Matched(l, filter)
  {
    hide P.Inv;
    forall u | u in l.workers
      ensures l.workers[u].info.uuid == u
    {
      InfoIsUnique(l, u);
    }
  }

  // ---------- Pages of workers ----------

  lemma ShownIsOrdered(l: W.WorkerList, filter: Option<F.WorkerFilter>, id: WorkerUUID, sorter: WorkerSorter)
    requires P.Inv(l) && (id != "" ==> id in l.workers)
    ensures DistinctUuids(Wanted(l, filter, id, false)) && Orders(WorkerOrder(sorter), Wanted(l, filter, id, false))
    ensures Orders(WorkerOrder(sorter), Shown(l, filter, id))
  {
    hide P.Inv, Orders;
    WantedAreDistinct(l, filter, id, false);
    WorkersAreOrdered(sorter, Wanted(l, filter, id, false));
    ShownAndCursor(l, filter, id);
    OrdersSubset(WorkerOrder(sorter), Shown(l, filter, id), Wanted(l, filter, id, false));
  }

  /** The worker is the one at which a cursor with this UUID points, or looks so. */
  function HasUuid(id: WorkerUUID): WorkerInfo -> bool
  {
    (w: WorkerInfo) => w.uuid == id
  }

  lemma CursorIsRecognised(l: W.WorkerList, filter: Option<F.WorkerFilter>, id: WorkerUUID, res: seq<WorkerInfo>)
    requires P.Inv(l) && (id != "" ==> id in l.workers)
    requires forall w :: w in res ==> w in Wanted(l, filter, id, false)
    ensures id != "" ==> Recognises(HasUuid(id), res, l.workers[id].info)
  {
    hide P.Inv;
    forall u | u in l.workers
      ensures l.workers[u].info.uuid == u
    {
      InfoIsUnique(l, u);
    }
  }

  /** What is divided into pages, in order. */
  ghost function ShownList(l: W.WorkerList, filter: Option<F.WorkerFilter>, id: WorkerUUID, sorter: WorkerSorter)
    : seq<WorkerInfo>
    requires P.Inv(l) && (id != "" ==> id in l.workers)
  {
    ShownIsOrdered(l, filter, id, sorter);
    Listing(WorkerOrder(sorter), Shown(l, filter, id))
  }

  /** The page of workers that the source gives. */
  ghost function WorkerPage(l: W.WorkerList, filter: Option<F.WorkerFilter>, sorter: WorkerSorter, id: WorkerUUID,
                            forward: bool, limit: nat): Page<WorkerInfo>
    requires P.Inv(l) && (id != "" ==> id in l.workers)
  {
    var cursor := if id == "" then None else Some(l.workers[id].info);
    CutPage(WorkerOrder(sorter), ShownList(l, filter, id, sorter), cursor, HasUuid(id), forward, limit)
  }

  lemma MatchedIsOrdered(l: W.WorkerList, filter: Option<F.WorkerFilter>, sorter: WorkerSorter)
    requires P.Inv(l)
    ensures Orders(WorkerOrder(sorter), Matched(l, filter))
  {
    hide P.Inv, Orders;
    ShownIsOrdered(l, filter, "", sorter);
    OrdersSubset(WorkerOrder(sorter), Matched(l, filter), Shown(l, filter, ""));
  }

  /** The matching workers, in order. */
  ghost function MatchedList(l: W.WorkerList, filter: Option<F.WorkerFilter>, sorter: WorkerSorter): seq<WorkerInfo>
    requires P.Inv(l)
  {
    MatchedIsOrdered(l, filter, sorter);
    Listing(WorkerOrder(sorter), Matched(l, filter))
  }

  /** The page of workers that is promised: those nearest to the cursor of the matching workers beyond it. */
  ghost function PromisedPage(l: W.WorkerList, filter: Option<F.WorkerFilter>, sorter: WorkerSorter, id: WorkerUUID,
                              forward: bool, limit: nat): Page<WorkerInfo>
    requires P.Inv(l) && (id != "" ==> id in l.workers)
  {
    var cursor := if id == "" then None else Some(l.workers[id].info);
    PageOf(WorkerOrder(sorter), MatchedList(l, filter, sorter), cursor, forward, limit)
  }

  /**
   The page is the promised one, unless it is asked for without a cursor and there is a worker with an empty UUID:
   that is listed even if it does not match, and a forward page starts at it, wherever it stands.
   */
  lemma PageIsPromised(l: W.WorkerList, filter: Option<F.WorkerFilter>, sorter: WorkerSorter, id: WorkerUUID,
                       forward: bool, limit: nat)
    requires P.Inv(l) && (id != "" ==> id in l.workers) && limit > 0
    ensures var list := ShownList(l, filter, id, sorter);
            WorkerPage(l, filter, sorter, id, forward, limit) == PromisedPage(l, filter, sorter, id, forward, limit)
            <==> || id != "" || "" !in l.workers
                 || (l.workers[""].info in Matched(l, filter) && (!forward || (list != [] && list[0].uuid == "")))
  {
    hide P.Inv, Listing, Orders, Sorted, PageOf, PageFrom, FirstIndex;
    if id == "" {
      ShownIsOrdered(l, filter, id, sorter);
      MatchedIsOrdered(l, filter, sorter);
      var list := ShownList(l, filter, id, sorter);
      NamelessIsShown(l, filter, list);
      if Shown(l, filter, id) == Matched(l, filter) {
        if forward {
          FirstPageIsFromStart(WorkerOrder(sorter), list, HasUuid(""), limit);
        }
      } else {
        ListingLength(WorkerOrder(sorter), Shown(l, filter, id), list);
        ListingLength(WorkerOrder(sorter), Matched(l, filter), Listing(WorkerOrder(sorter), Matched(l, filter)));
        assert WorkerPage(l, filter, sorter, id, forward, limit).total == |list| by {
          TotalIsLength(WorkerOrder(sorter), list, None, HasUuid(""), forward, limit);
        }
        var matching := Listing(WorkerOrder(sorter), Matched(l, filter));
        TotalIsLength(WorkerOrder(sorter), matching, None, HasUuid(""), false, limit);
      }
    }
  }

  lemma TotalIsLength<T>(less: (T, T) -> bool, r: seq<T>, cursor: Option<T>, wanted: T -> bool, forward: bool,
                         limit: nat)
    ensures CutPage(less, r, cursor, wanted, forward, limit).total == |r|
    ensures PageOf(less, r, cursor, forward, limit).total == |r|
    ensures PageOf(less, r, cursor, !forward, limit).total == |r|
  {
  }

  lemma NamelessIsShown(l: W.WorkerList, filter: Option<F.WorkerFilter>, list: seq<WorkerInfo>)
    requires P.Inv(l) && forall w :: w in Shown(l, filter, "") <==> w in list
    ensures "" in l.workers <==> exists w :: w in list && w.uuid == ""
    ensures Matched(l, filter) <= Shown(l, filter, "")
    ensures Shown(l, filter, "") == Matched(l, filter) <==>
            ("" in l.workers ==> l.workers[""].info in Matched(l, filter))
    ensures Shown(l, filter, "") == Matched(l, filter) || |Shown(l, filter, "")| != |Matched(l, filter)|
    ensures "" in l.workers ==> list != []
  {
    hide P.Inv;
    forall u | u in l.workers
      ensures l.workers[u].info.uuid == u
    {
      InfoIsUnique(l, u);
    }
    if "" in l.workers {
      assert l.workers[""].info in list;
      assert Shown(l, filter, "") == Matched(l, filter) + {l.workers[""].info};
    }
  }

  /** A forward page that ends on a worker with an empty UUID is followed by one that starts at that worker. */
  lemma NamelessIsShownAgain(l: W.WorkerList, filter: Option<F.WorkerFilter>, sorter: WorkerSorter, limit: nat)
    requires P.Inv(l) && limit > 0 && "" in l.workers
    ensures var page := WorkerPage(l, filter, sorter, "", true, limit);
            page.items != [] && page.items[0].uuid == ""
  {
    hide P.Inv, Listing, Orders, Sorted, FirstIndex;
    ShownIsOrdered(l, filter, "", sorter);
    var list := ShownList(l, filter, "", sorter);
    NamelessIsShown(l, filter, list);
    FirstIndexFinds(list, HasUuid(""));
  }

  // ---------- Requests ----------

  /** The requests that match the filter. */
  function MatchedRequests(requests: map<ReqID, ReqInfo>, filter: Option<F.RequestFilter>): set<ReqInfo>
  {
    set id | id in requests && (filter.None? || F.RequestMatches(filter.value, requests[id])) :: requests[id]
  }

  lemma MatchedIs(requests: map<ReqID, ReqInfo>, filter: Option<F.RequestFilter>, id: ReqID)
    requires id in requests
    ensures requests[id] in MatchedRequests(requests, filter) <==>
            filter.None? || F.RequestMatches(filter.value, requests[id])
  {
  }

  lemma MatchedRequestsAreOrdered(requests: map<ReqID, ReqInfo>, filter: Option<F.RequestFilter>, sorter: RequestSorter)
    requires Numbered(requests)
    ensures DistinctIds(MatchedRequests(requests, filter))
    ensures Orders(RequestOrder(sorter), MatchedRequests(requests, filter))
  {
    hide Orders;
    RequestsAreOrdered(sorter, MatchedRequests(requests, filter));
  }

  /** The matching requests, in order. */
  ghost function RequestList(requests: map<ReqID, ReqInfo>, filter: Option<F.RequestFilter>, sorter: RequestSorter)
    : seq<ReqInfo>
    requires Numbered(requests)
  {
    MatchedRequestsAreOrdered(requests, filter, sorter);
    Listing(RequestOrder(sorter), MatchedRequests(requests, filter))
  }

  /** The page of requests that is promised: those nearest to the cursor of the matching requests beyond it. */
  ghost function RequestPage(requests: map<ReqID, ReqInfo>, filter: Option<F.RequestFilter>, sorter: RequestSorter,
                             id: ReqID, forward: bool, limit: nat): Page<ReqInfo>
    requires Numbered(requests) && (id != 0 ==> id in requests)
  {
    var cursor := if id == 0 then None else Some(requests[id]);
    PageOf(RequestOrder(sorter), RequestList(requests, filter, sorter), cursor, forward, limit)
  }

  function HasId(id: ReqID): ReqInfo -> bool
  {
    (r: ReqInfo) => r.id == id
  }

  lemma IdIsRecognised(requests: map<ReqID, ReqInfo>, filter: Option<F.RequestFilter>, id: ReqID, res: seq<ReqInfo>)
    requires Numbered(requests) && (id != 0 ==> id in requests)
    requires forall r :: r in res ==> r in MatchedRequests(requests, filter) || (id != 0 && r == requests[id])
    ensures id != 0 ==> Recognises(HasId(id), res, requests[id])
  {
  }

  /** No request has the ID that means no cursor, so the search for it leaves the page as it is promised. */
  lemma NoRequestIsZero(requests: map<ReqID, ReqInfo>, filter: Option<F.RequestFilter>,
                        less: (ReqInfo, ReqInfo) -> bool, cursor: Option<ReqInfo>, id: ReqID, forward: bool, limit: nat)
    requires Numbered(requests) && Orders(less, MatchedRequests(requests, filter)) && limit > 0
    requires id == 0 <==> cursor.None?
    ensures var list := Listing(less, MatchedRequests(requests, filter));
            CutPage(less, list, cursor, HasId(id), forward, limit) == PageOf(less, list, cursor, forward, limit)
  {
    hide Listing, Orders, PageOf, PageFrom, FirstIndex;
    FirstPageIsFromStart(less, Listing(less, MatchedRequests(requests, filter)), HasId(0), limit);
  }

  // ---------- Choosing a worker ----------

  /** Of the first `n`, the one at `at` has the fewest capabilities and groups, and is the first to have so few. */
  predicate FirstLeast(s: seq<WorkerInfo>, n: nat, at: nat)
    requires n <= |s|
  {
    && at < n
    && (forall j :: 0 <= j < at ==> |s[j].caps| + |s[j].groups| > |s[at].caps| + |s[at].groups|)
    && (forall j :: at <= j < n ==> |s[j].caps| + |s[j].groups| >= |s[at].caps| + |s[at].groups|)
  }

  /** The scan for the least score, below the greatest 32-bit integer; the first one found is kept. */
  method LeastScore(matching: seq<WorkerInfo>) returns (bestScore: nat, worker: WorkerUUID, ghost at: nat)
    ensures bestScore <= 0x7FFF_FFFF
    ensures bestScore == 0x7FFF_FFFF ==>
              forall j :: 0 <= j < |matching| ==> |matching[j].caps| + |matching[j].groups| >= 0x7FFF_FFFF
    ensures bestScore < 0x7FFF_FFFF ==>
              && at < |matching| && FirstLeast(matching, |matching|, at)
              && worker == matching[at].uuid && |matching[at].caps| + |matching[at].groups| == bestScore
  {
    bestScore, worker, at := W.MAX_INT32, "", 0;
    for i := 0 to |matching|
      invariant bestScore <= W.MAX_INT32
      invariant bestScore == W.MAX_INT32 ==> forall j :: 0 <= j < i ==> W.Score(matching[j]) >= W.MAX_INT32
      invariant bestScore < W.MAX_INT32 ==>
                  FirstLeast(matching, i, at) && worker == matching[at].uuid && W.Score(matching[at]) == bestScore
    {
      var score := W.Score(matching[i]);
      if score < bestScore {
        bestScore := score;
        worker := matching[i].uuid;
        at := i;
      }
    }
  }

  lemma WantedAreCandidates(l: W.WorkerList, groups: seq<Group>, caps: Capabilities, w: WorkerInfo)
    requires P.Inv(l)
    ensures w in Wanted(l, Some(F.WorkerFilter(groups, caps)), "", true) && W.Score(w) < W.MAX_INT32 ==>
              w.uuid in l.workers && l.workers[w.uuid].info == w && W.Candidate(l, groups, caps, w.uuid)
    ensures forall u :: u in l.workers && W.Candidate(l, groups, caps, u) ==>
              l.workers[u].info in Wanted(l, Some(F.WorkerFilter(groups, caps)), "", true)
  {
    hide P.Inv;
    forall u | u in l.workers
      ensures l.workers[u].info.uuid == u
    {
      InfoIsUnique(l, u);
    }
  }

  lemma FirstLeastIsBest(l: W.WorkerList, groups: seq<Group>, caps: Capabilities, s: seq<WorkerInfo>, at: nat)
    requires P.Inv(l)
    requires IsListing(WorkerOrder(WorkerSorter(ByUuid, false)),
                       Wanted(l, Some(F.WorkerFilter(groups, caps)), "", true), s)
    requires FirstLeast(s, |s|, at) && at < |s| && W.Score(s[at]) < W.MAX_INT32
    ensures S.Best(l, groups, caps) == Some(s[at].uuid)
    ensures s[at].uuid in l.workers && P.Linked(l, s[at].uuid) && W.SetStateRaw(l, s[at].uuid, RUN).error == NoError
  {
    hide P.Inv, S.Best, F.Matches;
    WantedAreCandidates(l, groups, caps, s[at]);
    var u := s[at].uuid;
    assert s[at] in s;
    forall v | v in l.workers && v != u && W.Candidate(l, groups, caps, v)
      ensures S.Preferred(l, u, v)
    {
      InfoIsUnique(l, v);
      var j :| 0 <= j < |s| && s[j] == l.workers[v].info;
    }
    BestIsFound(l, groups, caps);
    LinkedFromInv(l, u);
  }

  lemma NoneIsBest(l: W.WorkerList, groups: seq<Group>, caps: Capabilities, s: seq<WorkerInfo>)
    requires P.Inv(l)
    requires IsListing(WorkerOrder(WorkerSorter(ByUuid, false)),
                       Wanted(l, Some(F.WorkerFilter(groups, caps)), "", true), s)
    requires forall j :: 0 <= j < |s| ==> W.Score(s[j]) >= W.MAX_INT32
    ensures S.Best(l, groups, caps) == None
  {
    hide P.Inv, S.Best, F.Matches;
    BestIsFound(l, groups, caps);
    forall u | u in l.workers
      ensures !W.Candidate(l, groups, caps, u)
    {
      WantedAreCandidates(l, groups, caps, l.workers[u].info);
    }
  }
}
