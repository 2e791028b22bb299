/**
 The orders in which requests and workers are listed (requests/sorter.go, workers/sorter.go).
 */
module Sorters {

  import opened Boruta
  import opened Lexicographic
  import opened Sorting

  datatype SortInfo = SortInfo(item: string, descending: bool)

  function ToLower(s: string): string
  {
    seq(|s|, i requires 0 <= i < |s| => if 'A' <= s[i] <= 'Z' then s[i] - 'A' + 'a' else s[i])
  }

  // ---------- Requests ----------

  datatype RequestItem = ById | ByPriority | ByDeadline | ByValidAfter | ByState

  datatype RequestSorter = RequestSorter(item: RequestItem, descending: bool)

  function NewRequestSorter(info: Option<SortInfo>): Option<RequestSorter>
  {
    var i := if info.None? then SortInfo("", false) else info.value;
    var item := ToLower(i.item);
    if item == "" || item == "id" then Some(RequestSorter(ById, i.descending))
    else if item == "priority" then Some(RequestSorter(ByPriority, i.descending))
    else if item == "deadline" then Some(RequestSorter(ByDeadline, i.descending))
    else if item == "validafter" then Some(RequestSorter(ByValidAfter, i.descending))
    else if item == "state" then Some(RequestSorter(ByState, i.descending))
    else None
  }

  function ReqStateName(state: ReqState): string
  {
    match state
    case WAIT => "WAITING"
    case INPROGRESS => "IN PROGRESS"
    case CANCEL => "CANCELLED"
    case TIMEOUT => "TIMEOUT"
    case INVALID => "INVALID"
    case DONE => "DONE"
    case FAILED => "FAILED"
  }

  /** Either operand may come first, according to the order. */
  predicate LessInt(descending: bool, a: int, b: int)
  {
    if !descending then a < b else b < a
  }

  predicate LessName(descending: bool, a: string, b: string)
  {
    if !descending then StringLess(a, b) else StringLess(b, a)
  }

  predicate RequestLess(s: RequestSorter, a: ReqInfo, b: ReqInfo)
  {
    match s.item
    case ById => LessInt(s.descending, a.id, b.id)
    case ByPriority =>
      if a.priority == b.priority then LessInt(s.descending, a.id, b.id)
      else LessInt(s.descending, a.priority, b.priority)
    case ByDeadline =>
      if a.deadline == b.deadline then LessInt(s.descending, a.id, b.id)
      else LessInt(s.descending, a.deadline, b.deadline)
    case ByValidAfter =>
      if a.validAfter == b.validAfter then LessInt(s.descending, a.id, b.id)
      else LessInt(s.descending, a.validAfter, b.validAfter)
    case ByState =>
      if a.state == b.state then LessInt(s.descending, a.id, b.id)
      else LessName(s.descending, ReqStateName(a.state), ReqStateName(b.state))
  }

  function RequestOrder(s: RequestSorter): (ReqInfo, ReqInfo) -> bool
  {
    (a, b) => RequestLess(s, a, b)
  }

  /** No two requests of the set have the same ID. */
  ghost predicate DistinctIds(s: set<ReqInfo>)
  {
    forall a, b :: a in s && b in s && a != b ==> a.id != b.id
  }

  lemma StateNamesDiffer(a: ReqState, b: ReqState)
    ensures ReqStateName(a) == ReqStateName(b) ==> a == b
  {
    assert forall c: ReqState :: ReqStateName(c)[0] == 'I' ==> c in {INPROGRESS, INVALID};
    assert ReqStateName(INPROGRESS)[2] != ReqStateName(INVALID)[2];
  }

  lemma RequestLessIsTotal(s: RequestSorter, a: ReqInfo, b: ReqInfo)
    requires a.id != b.id
    ensures RequestLess(s, a, b) <==> !RequestLess(s, b, a)
    ensures RequestLess(s, a, b) <==> RequestLess(s.(descending := !s.descending), b, a)
  {
    StateNamesDiffer(a.state, b.state);
    StringTrichotomy(ReqStateName(a.state), ReqStateName(b.state));
  }

  lemma RequestLessIsTransitive(s: RequestSorter, a: ReqInfo, b: ReqInfo, c: ReqInfo)
    requires RequestLess(s, a, b) && RequestLess(s, b, c)
    ensures RequestLess(s, a, c)
  {
    if s.item == ByState {
      var na, nb, nc := ReqStateName(a.state), ReqStateName(b.state), ReqStateName(c.state);
      StateNamesDiffer(a.state, c.state);
      StringTrichotomy(na, nb);
      StringTrichotomy(nb, nc);
      StringTrichotomy(na, nc);
      if !s.descending && StringLess(na, nb) && StringLess(nb, nc) {
        StringTransitive(na, nb, nc);
      }
      if s.descending && StringLess(nb, na) && StringLess(nc, nb) {
        StringTransitive(nc, nb, na);
      }
    }
  }

  /** Requests with distinct IDs are strictly and totally ordered by every sorter. */
  lemma RequestsAreOrdered(s: RequestSorter, reqs: set<ReqInfo>)
    requires DistinctIds(reqs)
    ensures Orders(RequestOrder(s), reqs)
  {
    forall a, b | a in reqs && b in reqs && a != b
      ensures RequestOrder(s)(a, b) <==> !RequestOrder(s)(b, a)
    {
      RequestLessIsTotal(s, a, b);
    }
    forall a, b, c | RequestOrder(s)(a, b) && RequestOrder(s)(b, c)
      ensures RequestOrder(s)(a, c)
    {
      RequestLessIsTransitive(s, a, b, c);
    }
  }

  // ---------- Workers ----------

  datatype WorkerItem = ByUuid | ByWorkerState | ByGroups

  datatype WorkerSorter = WorkerSorter(item: WorkerItem, descending: bool)

  function NewWorkerSorter(info: Option<SortInfo>): Option<WorkerSorter>
  {
    if info.None? then Some(WorkerSorter(ByUuid, false))
    else
      var item := ToLower(info.value.item);
      if item == "" || item == "uuid" then Some(WorkerSorter(ByUuid, info.value.descending))
      else if item == "state" then Some(WorkerSorter(ByWorkerState, info.value.descending))
      else if item == "groups" then Some(WorkerSorter(ByGroups, info.value.descending))
      else None
  }

  function WorkerStateName(state: WorkerState): string
  {
    match state
    case MAINTENANCE => "MAINTENANCE"
    case IDLE => "IDLE"
    case RUN => "RUNNING"
    case FAIL => "FAILED"
    case PREPARE => "PREPARE"
    case BUSY => "BUSY"
  }

  /** Groups are compared one by one; if all common ones are equal, the shorter list is first. */
  predicate GroupsLess(a: seq<Group>, b: seq<Group>)
  {
    if b == [] then false
    else if a == [] then true
    else StringLess(a[0], b[0]) || (a[0] == b[0] && GroupsLess(a[1..], b[1..]))
  }

  lemma {:induction false} GroupsTrichotomy(a: seq<Group>, b: seq<Group>)
    ensures a == b ==> !GroupsLess(a, b)
    ensures a != b ==> (GroupsLess(a, b) <==> !GroupsLess(b, a))
  {
    if a != [] && b != [] {
      StringTrichotomy(a[0], b[0]);
      GroupsTrichotomy(a[1..], b[1..]);
      assert a == [a[0]] + a[1..] && b == [b[0]] + b[1..];
    }
  }

  lemma {:induction false} GroupsTransitive(a: seq<Group>, b: seq<Group>, c: seq<Group>)
    requires GroupsLess(a, b) && GroupsLess(b, c)
    ensures GroupsLess(a, c)
  {
    if a != [] {
      if StringLess(a[0], b[0]) && StringLess(b[0], c[0]) {
        StringTransitive(a[0], b[0], c[0]);
      }
      if a[0] == b[0] == c[0] {
        StringTrichotomy(a[0], a[0]);
        GroupsTransitive(a[1..], b[1..], c[1..]);
      }
    }
  }

  /** A descending order negates the comparison. */
  predicate Ordered(descending: bool, less: bool)
  {
    if !descending then less else !less
  }

  predicate WorkerLess(s: WorkerSorter, a: WorkerInfo, b: WorkerInfo)
  {
    match s.item
    case ByUuid => Ordered(s.descending, StringLess(a.uuid, b.uuid))
    case ByWorkerState =>
      if a.state == b.state then Ordered(s.descending, StringLess(a.uuid, b.uuid))
      else Ordered(s.descending, StringLess(WorkerStateName(a.state), WorkerStateName(b.state)))
    case ByGroups =>
      if a.groups == b.groups then Ordered(s.descending, StringLess(a.uuid, b.uuid))
      else Ordered(s.descending, GroupsLess(a.groups, b.groups))
  }

  function WorkerOrder(s: WorkerSorter): (WorkerInfo, WorkerInfo) -> bool
  {
    (a, b) => WorkerLess(s, a, b)
  }

  lemma {:induction false} GroupsDecide(a: seq<Group>, b: seq<Group>, i: nat)
    requires i <= |a| && i <= |b| && a[..i] == b[..i]
    ensures i < |a| && i < |b| && a[i] != b[i] ==> (GroupsLess(a, b) <==> StringLess(a[i], b[i]))
    ensures i == |a| || i == |b| ==> (GroupsLess(a, b) <==> |a| < |b|)
    decreases i
  {
    if i > 0 {
      assert a[0] == a[..i][0] == b[..i][0] == b[0];
      StringTrichotomy(a[0], b[0]);
      assert a[1..][..i - 1] == a[..i][1..] && b[1..][..i - 1] == b[..i][1..];
      GroupsDecide(a[1..], b[1..], i - 1);
    }
  }

  /** The scan of the source through two lists of groups. */
  method CompareGroups(s: WorkerSorter, a: WorkerInfo, b: WorkerInfo) returns (less: bool)
    requires s.item == ByGroups
    ensures less <==> WorkerLess(s, a, b)
  {
    var ga, gb := a.groups, b.groups;
    var min := if |ga| <= |gb| then |ga| else |gb|;
    for i := 0 to min
      invariant ga[..i] == gb[..i]
    {
      GroupsDecide(ga, gb, i);
      StringTrichotomy(ga[i], gb[i]);
      if StringLess(ga[i], gb[i]) {
        return Ordered(s.descending, true);
      } else if StringLess(gb[i], ga[i]) {
        return Ordered(s.descending, false);
      }
    }
    GroupsDecide(ga, gb, min);
    if |ga| == |gb| {
      assert ga == ga[..min] && gb == gb[..min];
      return Ordered(s.descending, StringLess(a.uuid, b.uuid));
    }
    less := Ordered(s.descending, |ga| < |gb|);
  }

  ghost predicate DistinctUuids(s: set<WorkerInfo>)
  {
    forall a, b :: a in s && b in s && a != b ==> a.uuid != b.uuid
  }

  lemma WorkerStateNamesDiffer(a: WorkerState, b: WorkerState)
    ensures WorkerStateName(a) == WorkerStateName(b) ==> a == b
  {
    assert forall c: WorkerState :: WorkerStateName(c)[0] == WorkerStateName(a)[0] ==> c == a;
  }

  /** What decides between two workers with distinct UUIDs is a strict order; descending is its reverse. */
  lemma WorkerLessIsTotal(s: WorkerSorter, a: WorkerInfo, b: WorkerInfo)
    requires a.uuid != b.uuid
    ensures WorkerLess(s, a, b) <==> !WorkerLess(s, b, a)
    ensures WorkerLess(s, a, b) <==> WorkerLess(s.(descending := !s.descending), b, a)
  {
    StringTrichotomy(a.uuid, b.uuid);
    WorkerStateNamesDiffer(a.state, b.state);
    StringTrichotomy(WorkerStateName(a.state), WorkerStateName(b.state));
    GroupsTrichotomy(a.groups, b.groups);
  }

  /** Compared with itself, a worker is less in descending order: that comparison is not irreflexive. */
  lemma WorkerLessOnItself(s: WorkerSorter, a: WorkerInfo)
    ensures WorkerLess(s, a, a) <==> s.descending
  {
    StringTrichotomy(a.uuid, a.uuid);
  }

  lemma AscendingIsTransitive(s: WorkerSorter, a: WorkerInfo, b: WorkerInfo, c: WorkerInfo)
    requires !s.descending && WorkerLess(s, a, b) && WorkerLess(s, b, c)
    ensures WorkerLess(s, a, c)
  {
    if StringLess(a.uuid, b.uuid) && StringLess(b.uuid, c.uuid) {
      StringTransitive(a.uuid, b.uuid, c.uuid);
    }
    match s.item
    case ByUuid =>
    case ByWorkerState =>
      var na, nb, nc := WorkerStateName(a.state), WorkerStateName(b.state), WorkerStateName(c.state);
      WorkerStateNamesDiffer(a.state, c.state);
      if StringLess(na, nb) && StringLess(nb, nc) {
        StringTransitive(na, nb, nc);
        StringTrichotomy(na, nc);
      }
    case ByGroups =>
      if GroupsLess(a.groups, b.groups) && GroupsLess(b.groups, c.groups) {
        GroupsTransitive(a.groups, b.groups, c.groups);
        GroupsTrichotomy(a.groups, c.groups);
      }
  }

  lemma WorkersAreOrdered(s: WorkerSorter, infos: set<WorkerInfo>)
    requires DistinctUuids(infos)
    ensures Orders(WorkerOrder(s), infos)
  {
    forall a, b | a in infos && b in infos && a != b
      ensures WorkerOrder(s)(a, b) <==> !WorkerOrder(s)(b, a)
    {
      WorkerLessIsTotal(s, a, b);
    }
    var asc := s.(descending := false);
    forall a, b, c | a in infos && b in infos && c in infos && a != b && b != c && a != c
                     && WorkerOrder(s)(a, b) && WorkerOrder(s)(b, c)
      ensures WorkerOrder(s)(a, c)
    {
      if s.descending {
        WorkerLessIsTotal(s, a, b);
        WorkerLessIsTotal(s, b, c);
        WorkerLessIsTotal(s, a, c);
        AscendingIsTransitive(asc, c, b, a);
      } else {
        AscendingIsTransitive(s, a, b, c);
      }
    }
  }

  // ---------- Ascending and descending ----------

  function Reverse<T>(s: seq<T>): (r: seq<T>)
    ensures |r| == |s| && forall i :: 0 <= i < |s| ==> r[i] == s[|s| - 1 - i]
  {
    seq(|s|, i requires 0 <= i < |s| => s[|s| - 1 - i])
  }

  lemma ReversedListing<T(!new)>(asc: (T, T) -> bool, desc: (T, T) -> bool, s: set<T>)
    requires Orders(asc, s) && Orders(desc, s)
    requires forall a, b :: a in s && b in s && a != b ==> (asc(a, b) <==> desc(b, a))
    ensures Listing(desc, s) == Reverse(Listing(asc, s))
  {
    hide Listing, Orders;
    var a := Listing(asc, s);
    var r := Reverse(a);
    forall i, j | 0 <= i < j < |r|
      ensures r[i] != r[j] && desc(r[i], r[j])
    {
      assert a[|a| - 1 - j] in a && a[|a| - 1 - i] in a;
    }
    forall x
      ensures x in s <==> x in r
    {
      if x in a {
        var i :| 0 <= i < |a| && a[i] == x;
        assert r[|a| - 1 - i] == x;
      }
    }
    ListingIsUnique(desc, s, r, Listing(desc, s));
  }

  /** The descending list of requests is exactly the ascending one reversed. */
  lemma DescendingRequests(item: RequestItem, reqs: set<ReqInfo>)
    requires DistinctIds(reqs)
    ensures var asc := RequestOrder(RequestSorter(item, false));
            var desc := RequestOrder(RequestSorter(item, true));
            Orders(asc, reqs) && Orders(desc, reqs) && Listing(desc, reqs) == Reverse(Listing(asc, reqs))
  {
    RequestsAreOrdered(RequestSorter(item, false), reqs);
    RequestsAreOrdered(RequestSorter(item, true), reqs);
    forall a, b | a in reqs && b in reqs && a != b
      ensures RequestLess(RequestSorter(item, false), a, b) <==> RequestLess(RequestSorter(item, true), b, a)
    {
      RequestLessIsTotal(RequestSorter(item, false), a, b);
    }
    ReversedListing(RequestOrder(RequestSorter(item, false)), RequestOrder(RequestSorter(item, true)), reqs);
  }

  /** And so is the descending list of workers. */
  lemma DescendingWorkers(item: WorkerItem, infos: set<WorkerInfo>)
    requires DistinctUuids(infos)
    ensures var asc := WorkerOrder(WorkerSorter(item, false));
            var desc := WorkerOrder(WorkerSorter(item, true));
            Orders(asc, infos) && Orders(desc, infos) && Listing(desc, infos) == Reverse(Listing(asc, infos))
  {
    WorkersAreOrdered(WorkerSorter(item, false), infos);
    WorkersAreOrdered(WorkerSorter(item, true), infos);
    forall a, b | a in infos && b in infos && a != b
      ensures WorkerLess(WorkerSorter(item, false), a, b) <==> WorkerLess(WorkerSorter(item, true), b, a)
    {
      WorkerLessIsTotal(WorkerSorter(item, false), a, b);
    }
    ReversedListing(WorkerOrder(WorkerSorter(item, false)), WorkerOrder(WorkerSorter(item, true)), infos);
  }
}
