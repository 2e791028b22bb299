/**
 The predicates by which workers and requests are selected (filter/filter.go), and their loops.
 */
module Filter {

  import opened Boruta
  import opened Lexicographic

  // ---------- Workers ----------

  /** Every required capability is present in the worker with the same value. */
  predicate CapsMatch(w: WorkerInfo, caps: Capabilities)
  {
    forall k :: k in caps ==> k in w.caps && w.caps[k] == caps[k]
  }

  /** The worker belongs to one of the groups, if there are any. */
  predicate GroupsMatch(w: WorkerInfo, groups: seq<Group>)
  {
    groups == [] || exists g :: g in groups && g in w.groups
  }

  predicate Matches(w: WorkerInfo, groups: seq<Group>, caps: Capabilities)
  {
    GroupsMatch(w, groups) && CapsMatch(w, caps)
  }

  datatype WorkerFilter = WorkerFilter(groups: seq<Group>, caps: Capabilities)

  /** The linear search of the helpers that look for a value in a field of the filter. */
  method Contains<T(==)>(x: T, list: seq<T>) returns (found: bool)
    ensures found <==> x in list
  {
    for i := 0 to |list|
      invariant x !in list[..i]
    {
      if list[i] == x {
        return true;
      }
    }
    return false;
  }

  method IsCapsMatching(w: WorkerInfo, caps: Capabilities) returns (ok: bool)
    ensures ok <==> CapsMatch(w, caps)
  {
    if |caps| == 0 {
      return true;
    }
    var keys := caps.Keys;
    while keys != {}
      invariant keys <= caps.Keys
      invariant forall k :: k in caps && k !in keys ==> k in w.caps && w.caps[k] == caps[k]
    {
      var k :| k in keys;
      if k !in w.caps || caps[k] != w.caps[k] {
        return false;
      }
      keys := keys - {k};
    }
    return true;
  }

  /** The set of groups stands for the lookup map built when the filter is created. */
  method IsGroupsMatching(w: WorkerInfo, matcher: set<Group>) returns (ok: bool)
    ensures ok <==> matcher == {} || exists g :: g in matcher && g in w.groups
  {
    if |matcher| == 0 {
      return true;
    }
    for i := 0 to |w.groups|
      invariant forall g :: g in matcher ==> g !in w.groups[..i]
    {
      if w.groups[i] in matcher {
        return true;
      }
    }
    return false;
  }

  method MatchWorker(w: WorkerInfo, groups: seq<Group>, caps: Capabilities) returns (ok: bool)
    ensures ok <==> Matches(w, groups, caps)
  {
    var matcher := set g | g in groups;
    assert matcher == {} <==> groups == [] by {
      if groups != [] {
        assert groups[0] in matcher;
      }
    }
    var byGroups := IsGroupsMatching(w, matcher);
    if !byGroups {
      return false;
    }
    ok := IsCapsMatching(w, caps);
  }

  // ---------- Requests ----------

  datatype RequestFilter = RequestFilter(ids: seq<ReqID>, priorities: seq<Priority>, states: seq<ReqState>)

  /** Each enabled field must name the request's value; an empty field is disabled. */
  predicate RequestMatches(f: RequestFilter, r: ReqInfo)
  {
    && (f.ids == [] || r.id in f.ids)
    && (f.states == [] || r.state in f.states)
    && (f.priorities == [] || r.priority in f.priorities)
  }

  method MatchRequest(f: RequestFilter, r: ReqInfo) returns (ok: bool)
    ensures ok <==> RequestMatches(f, r)
  {
    if |f.ids| > 0 {
      var found := Contains(r.id, f.ids);
      if !found {
        return false;
      }
    }
    if |f.states| > 0 {
      var found := Contains(r.state, f.states);
      if !found {
        return false;
      }
    }
    if |f.priorities| > 0 {
      var found := Contains(r.priority, f.priorities);
      if !found {
        return false;
      }
    }
    return true;
  }

  // ---------- Groups are kept sorted ----------

  function InsertString(x: string, s: seq<string>): seq<string>
  {
    if s == [] || !StringLess(s[0], x) then [x] + s else [s[0]] + InsertString(x, s[1..])
  }

  /** The permutation of the strings in ascending order. */
  function SortedStrings(s: seq<string>): (r: seq<string>)
  {
    if s == [] then [] else InsertString(s[0], SortedStrings(s[1..]))
  }

  ghost predicate IsSorted(s: seq<string>)
  {
    forall i, j :: 0 <= i < j < |s| ==> !StringLess(s[j], s[i])
  }

  lemma {:induction false} InsertKeepsSorted(x: string, s: seq<string>)
    requires IsSorted(s)
    ensures IsSorted(InsertString(x, s)) && multiset(InsertString(x, s)) == multiset(s) + multiset{x}
  {
    if s == [] {
      assert InsertString(x, s) == [x];
    } else if !StringLess(s[0], x) {
      forall j | 0 <= j < |s|
        ensures !StringLess(s[j], x)
      {
        StringTrichotomy(s[0], x);
        StringTrichotomy(s[0], s[j]);
        if StringLess(s[j], x) && x != s[0] && s[j] != s[0] {
          StringTransitive(s[j], x, s[0]);
        }
      }
    } else {
      var rest := InsertString(x, s[1..]);
      InsertKeepsSorted(x, s[1..]);
      assert s == [s[0]] + s[1..];
      StringTrichotomy(s[0], x);
      forall j | 0 <= j < |rest|
        ensures !StringLess(rest[j], s[0])
      {
        assert rest[j] in multiset(rest);
        if rest[j] in s[1..] {
          var k :| 0 <= k < |s[1..]| && s[1..][k] == rest[j];
        }
      }
    }
  }

  /** Setting the groups of a worker only brings them into order. */
  lemma {:induction false} SortedStringsIsSorting(s: seq<string>)
    ensures IsSorted(SortedStrings(s)) && multiset(SortedStrings(s)) == multiset(s)
  {
    if s != [] {
      assert s == [s[0]] + s[1..];
      SortedStringsIsSorting(s[1..]);
      InsertKeepsSorted(s[0], SortedStrings(s[1..]));
    }
  }
}
