/**
 What the caller of a listing gets: which items are on the page, in which order, by the name of the item that the
 caller passes.
 */
module PageContents {

  import opened Boruta
  import opened Lexicographic
  import opened Invariants
  import opened Sorting
  import opened Sorters
  import opened Listings
  import F = Filter
  import O = Outcomes
  import P = ProtocolInvariant
  import W = WorkerProtocol

  // ---------- Names of items ----------

  /** The text is the name, in small or capital letters. */
  predicate Spells(text: string, name: string)
  {
    && |text| == |name|
    && forall i :: 0 <= i < |text| ==>
                     text[i] == name[i] || ('A' <= text[i] <= 'Z' && name[i] as int == text[i] as int + 32)
  }

  predicate IsSmall(name: string)
  {
    forall i :: 0 <= i < |name| ==> !('A' <= name[i] <= 'Z')
  }

  lemma SpellingIgnoresCase(text: string, name: string)
    requires IsSmall(name)
    ensures Spells(text, name) <==> ToLower(text) == name
  {
    if Spells(text, name) {
      assert forall i :: 0 <= i < |name| ==> ToLower(text)[i] == name[i];
    }
  }

  // ---------- Pages ----------

  /** The elements on the wanted side of the cursor, if there is one. */
  ghost function BeyondOf<T(!new)>(less: (T, T) -> bool, s: set<T>, cursor: Option<T>, forward: bool): set<T>
  {
    set x | x in s && (cursor.None? || (x != cursor.value && if forward then less(cursor.value, x)
                                                             else less(x, cursor.value)))
  }

  /**
   The page holds, in order, as many as the limit allows of the elements beyond the cursor, those nearest to it; it
   tells how many elements there are and how many are left beyond the page.
   */
  ghost predicate IsPage<T(!new)>(less: (T, T) -> bool, s: set<T>, cursor: Option<T>, forward: bool, limit: nat,
                                  page: Page<T>)
  {
    var beyond := BeyondOf(less, s, cursor, forward);
    && (forall i, j :: 0 <= i < j < |page.items| ==>
                         page.items[i] != page.items[j] && less(page.items[i], page.items[j]))
    && (forall x :: x in page.items ==> x in beyond)
    && (forall x, y :: x in beyond && x !in page.items && y in page.items ==>
                         if forward then less(y, x) else less(x, y))
    && |page.items| == (if limit < |beyond| then limit else |beyond|)
    && page.total == |s| && page.remaining == |beyond| - |page.items|
  }

  lemma {:induction false} BeyondLists<T(!new)>(less: (T, T) -> bool, r: seq<T>, cursor: Option<T>, forward: bool)
    requires Sorted(less, r)
    ensures Sorted(less, Beyond(less, r, cursor, forward))
    ensures forall x :: x in Beyond(less, r, cursor, forward) <==>
                          x in r && (cursor.None? || (x != cursor.value && if forward then less(cursor.value, x)
                                                                           else less(x, cursor.value)))
  {
    if cursor.Some? && r != [] {
      BeyondLists(less, r[1..], cursor, forward);
      assert r == [r[0]] + r[1..];
      var rest := Beyond(less, r[1..], cursor, forward);
      forall j | 0 <= j < |rest|
        ensures r[0] != rest[j] && less(r[0], rest[j])
      {
        assert rest[j] in r[1..];
        var k :| 0 <= k < |r[1..]| && r[1..][k] == rest[j];
      }
    }
  }

  /** The first elements of a sorted list come before the others, and the last after them. */
  lemma PartIsNearest<T>(less: (T, T) -> bool, b: seq<T>, n: nat)
    requires Sorted(less, b) && n <= |b|
    ensures Sorted(less, b[..n]) && Sorted(less, b[n..])
    ensures forall x :: x in b <==> x in b[..n] || x in b[n..]
    ensures forall x, y :: x in b[..n] && y in b[n..] ==> less(x, y)
  {
    assert b == b[..n] + b[n..];
  }

  lemma PromisedIsPage<T(!new)>(less: (T, T) -> bool, s: set<T>, cursor: Option<T>, forward: bool, limit: nat)
    requires Sorting.Orders(less, s)
    ensures IsPage(less, s, cursor, forward, limit, PageOf(less, Listing(less, s), cursor, forward, limit))
  {
    hide Listing, Orders, Beyond, BeyondOf, Sorted, IsPage;
    var r := Listing(less, s);
    BeyondIsListed(less, s, r, cursor, forward);
    ListingLength(less, BeyondOf(less, s, cursor, forward), Beyond(less, r, cursor, forward));
    ListingLength(less, s, r);
    CutIsPage(less, s, cursor, forward, limit, Beyond(less, r, cursor, forward));
  }

  lemma CutIsPage<T(!new)>(less: (T, T) -> bool, s: set<T>, cursor: Option<T>, forward: bool, limit: nat, b: seq<T>)
    requires Sorted(less, b) && forall x :: x in BeyondOf(less, s, cursor, forward) <==> x in b
    requires |b| == |BeyondOf(less, s, cursor, forward)|
    ensures var n := Min(limit, |b|);
            IsPage(less, s, cursor, forward, limit,
                   Page(if forward then b[..n] else b[|b| - n..], |s|, |b| - n))
  {
    hide BeyondOf, Sorted;
    var n := Min(limit, |b|);
    var at := if forward then n else |b| - n;
    PartIsNearest(less, b, at);
    SortedMeans(less, if forward then b[..n] else b[|b| - n..]);
  }

  lemma SortedMeans<T>(less: (T, T) -> bool, r: seq<T>)
    requires Sorted(less, r)
    ensures forall i, j :: 0 <= i < j < |r| ==> r[i] != r[j] && less(r[i], r[j])
  {
  }

  lemma BeyondIsListed<T(!new)>(less: (T, T) -> bool, s: set<T>, r: seq<T>, cursor: Option<T>, forward: bool)
    requires IsListing(less, s, r)
    ensures IsListing(less, BeyondOf(less, s, cursor, forward), Beyond(less, r, cursor, forward))
  {
    hide Beyond;
    BeyondLists(less, r, cursor, forward);
  }

  /** Orders that agree on different elements have the same pages. */
  lemma SamePage<T(!new)>(less: (T, T) -> bool, other: (T, T) -> bool, s: set<T>, cursor: Option<T>, forward: bool,
                          limit: nat, page: Page<T>)
    requires IsPage(less, s, cursor, forward, limit, page)
    requires forall a, b :: (a in s || Some(a) == cursor) && (b in s || Some(b) == cursor) && a != b ==>
                              (less(a, b) <==> other(a, b))
    ensures IsPage(other, s, cursor, forward, limit, page)
  {
    assert BeyondOf(less, s, cursor, forward) == BeyondOf(other, s, cursor, forward);
    assert BeyondOf(less, s, cursor, forward) <= s;
    hide BeyondOf;
    forall i, j | 0 <= i < j < |page.items|
      ensures page.items[i] != page.items[j] && other(page.items[i], page.items[j])
    {
      assert page.items[i] in s && page.items[j] in s;
    }
  }

  // ---------- Requests ----------

  const REQUEST_ITEMS: set<string> := {"", "id", "priority", "deadline", "validafter", "state"}

  /** The places of the states in the order of their written names. */
  function Place(state: ReqState): nat
  {
    match state
    case CANCEL => 0 // CANCELLED
    case DONE => 1
    case FAILED => 2
    case INPROGRESS => 3 // IN PROGRESS
    case INVALID => 4
    case TIMEOUT => 5
    case WAIT => 6 // WAITING
  }

  lemma PlaceIsByName(a: ReqState, b: ReqState)
    ensures Place(a) < Place(b) <==> StringLess(ReqStateName(a), ReqStateName(b))
  {
    var m, n := ReqStateName(a), ReqStateName(b);
    StringTrichotomy(m, n);
    if a != b && m[0] == n[0] {
      FirstDifferenceDecides("IN PROGRESS", "INVALID");
      assert "IN PROGRESS"[..2] == "INVALID"[..2];
    }
  }

  /** By the named item the first request comes first; the IDs decide between those that have it in common. */
  predicate Precedes(name: string, a: ReqInfo, b: ReqInfo)
  {
    if name == "priority" then a.priority < b.priority || (a.priority == b.priority && a.id < b.id)
    else if name == "deadline" then a.deadline < b.deadline || (a.deadline == b.deadline && a.id < b.id)
    else if name == "validafter" then a.validAfter < b.validAfter || (a.validAfter == b.validAfter && a.id < b.id)
    else if name == "state" then Place(a.state) < Place(b.state) || (a.state == b.state && a.id < b.id)
    else a.id < b.id
  }

  /** The order that is asked for. */
  function RequestsBy(name: string, descending: bool): (ReqInfo, ReqInfo) -> bool
  {
    (a, b) => if descending then Precedes(name, b, a) else Precedes(name, a, b)
  }

  lemma RequestItemsAreSmall(name: string)
    requires name in REQUEST_ITEMS
    ensures IsSmall(name)
  {
  }

  /** A sorter is found for the six names and for no other text; without sort information that by ID is used. */
  lemma RequestSorterIsFound(info: Option<SortInfo>)
    ensures NewRequestSorter(info).Some? <==>
            info.None? || exists name :: name in REQUEST_ITEMS && Spells(info.value.item, name)
  {
    if info.Some? {
      forall name | name in REQUEST_ITEMS
        ensures Spells(info.value.item, name) <==> ToLower(info.value.item) == name
      {
        RequestItemsAreSmall(name);
        SpellingIgnoresCase(info.value.item, name);
      }
    }
  }

  lemma RequestSorterIs(info: Option<SortInfo>, name: string, descending: bool)
    requires match info
             case None => name == "" && !descending
             case Some(i) => name in REQUEST_ITEMS && Spells(i.item, name) && i.descending == descending
    ensures NewRequestSorter(info).Some?
    ensures forall a, b :: RequestLess(NewRequestSorter(info).value, a, b) <==> RequestsBy(name, descending)(a, b)
  {
    if info.Some? {
      RequestItemsAreSmall(name);
      SpellingIgnoresCase(info.value.item, name);
    }
    var s := NewRequestSorter(info).value;
    forall a, b
      ensures RequestLess(s, a, b) <==> RequestsBy(name, descending)(a, b)
    {
      PlaceIsByName(a.state, b.state);
      PlaceIsByName(b.state, a.state);
    }
  }

  /** What the filter lets through: each of its lists that is not empty names the value of the request. */
  ghost predicate IsAskedFor(filter: Option<F.RequestFilter>, r: ReqInfo)
  {
    filter.Some? ==>
      && (|filter.value.ids| > 0 ==> r.id in filter.value.ids)
      && (|filter.value.priorities| > 0 ==> r.priority in filter.value.priorities)
      && (|filter.value.states| > 0 ==> r.state in filter.value.states)
  }

  /**
   The page of requests for any filter, item, direction, cursor and limit holds the requests asked for that are
   nearest beyond the cursor, in the order of the named item.
   */
  lemma RequestPageIs(requests: map<ReqID, ReqInfo>, filter: Option<F.RequestFilter>, info: Option<SortInfo>,
                      name: string, descending: bool, id: ReqID, forward: bool, limit: nat)
    requires Numbered(requests) && (id != 0 ==> id in requests)
    requires match info
             case None => name == "" && !descending
             case Some(i) => name in REQUEST_ITEMS && Spells(i.item, name) && i.descending == descending
    ensures NewRequestSorter(info).Some?
    ensures var page := RequestPage(requests, filter, NewRequestSorter(info).value, id, forward, limit);
            var asked := set i | i in requests && IsAskedFor(filter, requests[i]) :: requests[i];
            var cursor := if id == 0 then None else Some(requests[id]);
            IsPage(RequestsBy(name, descending), asked, cursor, forward, limit, page)
  {
    hide Listing, PageOf, RequestLess, RequestsBy, IsPage;
    RequestSorterIs(info, name, descending);
    var s := NewRequestSorter(info).value;
    var matched := MatchedRequests(requests, filter);
    var cursor := if id == 0 then None else Some(requests[id]);
    assert matched == set i | i in requests && IsAskedFor(filter, requests[i]) :: requests[i];
    MatchedRequestsAreOrdered(requests, filter, s);
    PromisedIsPage(RequestOrder(s), matched, cursor, forward, limit);
    SamePage(RequestOrder(s), RequestsBy(name, descending), matched, cursor, forward, limit,
             RequestPage(requests, filter, s, id, forward, limit));
  }

  /** So the items of a page ascend, or descend, by the named item, and by ID where that is the same. */
  lemma RequestsAreSorted(requests: map<ReqID, ReqInfo>, filter: Option<F.RequestFilter>, item: string,
                          descending: bool, id: ReqID, forward: bool, limit: nat)
    requires Numbered(requests) && (id != 0 ==> id in requests)
    ensures var sorter := NewRequestSorter(Some(SortInfo(item, descending)));
            sorter.Some? ==>
              var items := RequestPage(requests, filter, sorter.value, id, forward, limit).items;
              forall i, j :: 0 <= i < j < |items| ==>
                               var a, b := if descending then items[j] else items[i],
                                           if descending then items[i] else items[j];
                               && (item == "" || item == "id" ==> a.id < b.id)
                               && (item == "priority" ==>
                                     a.priority < b.priority || (a.priority == b.priority && a.id < b.id))
                               && (item == "deadline" ==>
                                     a.deadline < b.deadline || (a.deadline == b.deadline && a.id < b.id))
                               && (item == "validafter" ==>
                                     a.validAfter < b.validAfter || (a.validAfter == b.validAfter && a.id < b.id))
                               && (item == "state" ==>
                                     Place(a.state) < Place(b.state) || (a.state == b.state && a.id < b.id))
  {
    hide Listing, PageOf, RequestPage, RequestLess, NewRequestSorter;
    if item in REQUEST_ITEMS {
      RequestPageIs(requests, filter, Some(SortInfo(item, descending)), item, descending, id, forward, limit);
    }
  }

  // ---------- Workers ----------

  const WORKER_ITEMS: set<string> := {"", "uuid", "state", "groups"}

  /** The places of the states in the order of their written names. */
  function WorkerPlace(state: WorkerState): nat
  {
    match state
    case BUSY => 0
    case FAIL => 1 // FAILED
    case IDLE => 2
    case MAINTENANCE => 3
    case PREPARE => 4
    case RUN => 5 // RUNNING
  }

  lemma WorkerPlaceIsByName(a: WorkerState, b: WorkerState)
    ensures WorkerPlace(a) < WorkerPlace(b) <==> StringLess(WorkerStateName(a), WorkerStateName(b))
  {
    StringTrichotomy(WorkerStateName(a), WorkerStateName(b));
  }

  /** The first group in which the lists differ is less; if there is none, the first list is shorter. */
  ghost predicate GroupsPrecede(a: seq<Group>, b: seq<Group>)
  {
    exists i :: 0 <= i <= |a| && i < |b| && a[..i] == b[..i] && (i < |a| ==> StringLess(a[i], b[i]))
  }

  lemma {:induction false} GroupsPrecedeIs(a: seq<Group>, b: seq<Group>)
    ensures GroupsLess(a, b) <==> GroupsPrecede(a, b)
  {
    if b != [] && a != [] {
      GroupsPrecedeIs(a[1..], b[1..]);
      if StringLess(a[0], b[0]) {
        assert a[..0] == b[..0];
      } else if GroupsLess(a, b) {
        var i :| 0 <= i <= |a[1..]| && i < |b[1..]| && a[1..][..i] == b[1..][..i]
                 && (i < |a[1..]| ==> StringLess(a[1..][i], b[1..][i]));
        assert a[..i + 1] == [a[0]] + a[1..][..i] && b[..i + 1] == [b[0]] + b[1..][..i];
      }
      forall i | 0 < i <= |a| && i < |b| && a[..i] == b[..i] && (i < |a| ==> StringLess(a[i], b[i]))
        ensures GroupsLess(a, b)
      {
        assert a[0] == a[..i][0] && b[0] == b[..i][0];
        assert a[1..][..i - 1] == a[..i][1..] && b[1..][..i - 1] == b[..i][1..];
      }
    } else if b != [] {
      assert a[..0] == b[..0];
    }
  }

  /** By the named item the first worker comes first; the UUIDs decide between those that have it in common. */
  ghost predicate WorkerPrecedes(name: string, a: WorkerInfo, b: WorkerInfo)
  {
    if name == "state" then
      WorkerPlace(a.state) < WorkerPlace(b.state) || (a.state == b.state && StringLess(a.uuid, b.uuid))
    else if name == "groups" then
      GroupsPrecede(a.groups, b.groups) || (a.groups == b.groups && StringLess(a.uuid, b.uuid))
    else StringLess(a.uuid, b.uuid)
  }

  ghost function WorkersBy(name: string, descending: bool): (WorkerInfo, WorkerInfo) -> bool
  {
    (a, b) => if descending then WorkerPrecedes(name, b, a) else WorkerPrecedes(name, a, b)
  }

  lemma WorkerItemsAreSmall(name: string)
    requires name in WORKER_ITEMS
    ensures IsSmall(name)
  {
  }

  lemma WorkerSorterIsFound(info: Option<SortInfo>)
    ensures NewWorkerSorter(info).Some? <==>
            info.None? || exists name :: name in WORKER_ITEMS && Spells(info.value.item, name)
  {
    if info.Some? {
      forall name | name in WORKER_ITEMS
        ensures Spells(info.value.item, name) <==> ToLower(info.value.item) == name
      {
        WorkerItemsAreSmall(name);
        SpellingIgnoresCase(info.value.item, name);
      }
    }
  }

  lemma WorkerSorterIs(info: Option<SortInfo>, name: string, descending: bool)
    requires match info
             case None => name == "" && !descending
             case Some(i) => name in WORKER_ITEMS && Spells(i.item, name) && i.descending == descending
    ensures NewWorkerSorter(info).Some?
    ensures forall a: WorkerInfo, b: WorkerInfo :: a.uuid != b.uuid ==>
                             (WorkerLess(NewWorkerSorter(info).value, a, b) <==> WorkersBy(name, descending)(a, b))
  {
    if info.Some? {
      WorkerItemsAreSmall(name);
      SpellingIgnoresCase(info.value.item, name);
    }
    var s := NewWorkerSorter(info).value;
    forall a: WorkerInfo, b: WorkerInfo | a.uuid != b.uuid
      ensures WorkerLess(s, a, b) <==> WorkersBy(name, descending)(a, b)
    {
      StringTrichotomy(a.uuid, b.uuid);
      WorkerPlaceIsByName(a.state, b.state);
      WorkerPlaceIsByName(b.state, a.state);
      StringTrichotomy(WorkerStateName(a.state), WorkerStateName(b.state));
      WorkerStateNamesDiffer(a.state, b.state);
      GroupsPrecedeIs(a.groups, b.groups);
      GroupsPrecedeIs(b.groups, a.groups);
      GroupsTrichotomy(a.groups, b.groups);
    }
  }

  /** What is listed: the workers that satisfy the filter, and without a cursor also one without a name. */
  ghost function ListedWorkers(l: W.WorkerList, filter: Option<F.WorkerFilter>, id: WorkerUUID): set<WorkerInfo>
  {
    set u | u in l.workers
            && (|| filter.None?
                || O.Satisfies(l.workers[u].info, filter.value.groups, filter.value.caps)
                || (id == "" && u == "")) :: l.workers[u].info
  }

  lemma ShownIsListed(l: W.WorkerList, filter: Option<F.WorkerFilter>, id: WorkerUUID)
    requires P.Inv(l)
    ensures Shown(l, filter, id) == ListedWorkers(l, filter, id)
  {
    hide P.Inv, F.Matches, O.Satisfies;
    forall u | u in l.workers
      ensures l.workers[u].info.uuid == u
      ensures filter.Some? ==>
                (F.Matches(l.workers[u].info, filter.value.groups, filter.value.caps) <==>
                 O.Satisfies(l.workers[u].info, filter.value.groups, filter.value.caps))
    {
      InfoIsUnique(l, u);
      if filter.Some? {
        O.MatchingIsSatisfying(l.workers[u].info, filter.value.groups, filter.value.caps);
      }
    }
  }

  /**
   The page of workers for any filter, item, direction, cursor and limit, in the order of the named item. If it is
   asked for forward and without a cursor and there is a worker without a name, it is that worker followed by the page
   beyond it.
   */
  lemma WorkerPageIs(l: W.WorkerList, filter: Option<F.WorkerFilter>, info: Option<SortInfo>, name: string,
                     descending: bool, id: WorkerUUID, forward: bool, limit: nat)
    requires P.Inv(l) && (id != "" ==> id in l.workers) && limit > 0
    requires match info
             case None => name == "" && !descending
             case Some(i) => name in WORKER_ITEMS && Spells(i.item, name) && i.descending == descending
    ensures NewWorkerSorter(info).Some?
    ensures var page := WorkerPage(l, filter, NewWorkerSorter(info).value, id, forward, limit);
            var listed := ListedWorkers(l, filter, id);
            if id == "" && forward && "" in l.workers then
              && page.items != [] && page.items[0] == l.workers[""].info
              && IsPage(WorkersBy(name, descending), listed, Some(l.workers[""].info), true, limit - 1,
                        page.(items := page.items[1..]))
            else
              var cursor := if id == "" then None else Some(l.workers[id].info);
              IsPage(WorkersBy(name, descending), listed, cursor, forward, limit, page)
  {
    hide P.Inv, Listing, Orders, PageOf, PageFrom, FirstIndex, IsPage, WorkersBy, WorkerLess, ListedWorkers, Shown;
    WorkerSorterIs(info, name, descending);
    var s := NewWorkerSorter(info).value;
    var listed := ListedWorkers(l, filter, id);
    ShownIsListed(l, filter, id);
    ShownIsOrdered(l, filter, id, s);
    var page := WorkerPage(l, filter, s, id, forward, limit);
    if id == "" && forward && "" in l.workers {
      var cursor := Some(l.workers[""].info);
      NamelessIsListed(l, filter);
      PageFromNameless(WorkerOrder(s), listed, HasUuid(""), l.workers[""].info, limit);
      PromisedIsPage(WorkerOrder(s), listed, cursor, true, limit - 1);
      UuidsDecide(l, filter, id, s, name, descending, cursor);
      SamePage(WorkerOrder(s), WorkersBy(name, descending), listed, cursor, true, limit - 1,
               page.(items := page.items[1..]));
    } else {
      var cursor := if id == "" then None else Some(l.workers[id].info);
      if id == "" && forward {
        NoneIsNameless(l, filter);
        FirstPageIsFromStart(WorkerOrder(s), Listing(WorkerOrder(s), listed), HasUuid(""), limit);
      }
      PromisedIsPage(WorkerOrder(s), listed, cursor, forward, limit);
      UuidsDecide(l, filter, id, s, name, descending, cursor);
      SamePage(WorkerOrder(s), WorkersBy(name, descending), listed, cursor, forward, limit, page);
    }
  }

  lemma NamelessIsListed(l: W.WorkerList, filter: Option<F.WorkerFilter>)
    requires P.Inv(l) && "" in l.workers
    ensures forall w :: w in ListedWorkers(l, filter, "") ==> (w.uuid == "" <==> w == l.workers[""].info)
    ensures l.workers[""].info in ListedWorkers(l, filter, "")
  {
    hide P.Inv;
    forall u | u in l.workers
      ensures l.workers[u].info.uuid == u
    {
      InfoIsUnique(l, u);
    }
  }

  lemma NoneIsNameless(l: W.WorkerList, filter: Option<F.WorkerFilter>)
    requires P.Inv(l) && "" !in l.workers
    ensures forall w :: w in ListedWorkers(l, filter, "") ==> w.uuid != ""
  {
    hide P.Inv;
    forall u | u in l.workers
      ensures l.workers[u].info.uuid == u
    {
      InfoIsUnique(l, u);
    }
  }

  /** Among the workers of a list the order is the one asked for. */
  lemma UuidsDecide(l: W.WorkerList, filter: Option<F.WorkerFilter>, id: WorkerUUID, s: WorkerSorter, name: string,
                    descending: bool, cursor: Option<WorkerInfo>)
    requires P.Inv(l) && (cursor.Some? ==> exists u :: u in l.workers && cursor.value == l.workers[u].info)
    requires forall a: WorkerInfo, b: WorkerInfo :: a.uuid != b.uuid ==>
                                                      (WorkerLess(s, a, b) <==> WorkersBy(name, descending)(a, b))
    ensures forall a, b :: (a in ListedWorkers(l, filter, id) || Some(a) == cursor)
                           && (b in ListedWorkers(l, filter, id) || Some(b) == cursor) && a != b ==>
                             (WorkerOrder(s)(a, b) <==> WorkersBy(name, descending)(a, b))
  {
    hide P.Inv, WorkerLess, WorkersBy;
    forall u | u in l.workers
      ensures l.workers[u].info.uuid == u
    {
      InfoIsUnique(l, u);
    }
  }

  /** A page that starts at an element of the listing is that element and the page beyond it. */
  lemma PageFromNameless<T(!new)>(less: (T, T) -> bool, s: set<T>, wanted: T -> bool, c: T, limit: nat)
    requires Sorting.Orders(less, s) && limit > 0 && c in s && forall x :: x in s ==> (wanted(x) <==> x == c)
    ensures var r := Listing(less, s);
            var page := PageFrom(r, FirstIndex(r, wanted), limit);
            && page.items != [] && page.items[0] == c
            && page.(items := page.items[1..]) == PageOf(less, r, Some(c), true, limit - 1)
  {
    hide Listing, Orders, Beyond;
    var r := Listing(less, s);
    assert c in r;
    CursorIsFound(wanted, r, c);
    var k := FirstIndex(r, wanted);
    BeyondIsSuffix(less, s, r, k);
    var n := Min(limit - 1, |r| - k - 1);
    assert r[k..k + (n + 1)][1..] == r[k + 1..][..n];
  }
}
