/**
 Sorted listings of sets and their division into pages. Sorting itself is the library's; it stands for
 the one sequence that lists a set in ascending order.
 */
module Sorting {

  import opened Boruta

  /** On the set, the relation is a strict total order. (It need not be irreflexive.) */
  ghost predicate Orders<T(!new)>(less: (T, T) -> bool, s: set<T>)
  {
    && (forall a, b :: a in s && b in s && a != b ==> (less(a, b) <==> !less(b, a)))
    && (forall a, b, c :: a in s && b in s && c in s && a != b && b != c && a != c && less(a, b) && less(b, c) ==>
                            less(a, c))
  }

  ghost predicate Sorted<T>(less: (T, T) -> bool, r: seq<T>)
  {
    forall i, j :: 0 <= i < j < |r| ==> r[i] != r[j] && less(r[i], r[j])
  }

  ghost predicate NoRepetition<T>(r: seq<T>)
  {
    forall i, j :: 0 <= i < j < |r| ==> r[i] != r[j]
  }

  lemma NothingRepeats<T>()
    ensures NoRepetition<T>([])
  {
  }

  lemma Appended<T>(r: seq<T>, x: T)
    requires NoRepetition(r) && x !in r
    ensures NoRepetition(r + [x])
    ensures forall y :: y in r + [x] <==> y in r || y == x
  {
  }

  function Elements<T>(r: seq<T>): set<T>
  {
    set x | x in r
  }

  /** The sequence lists the set, each element once, in ascending order. */
  ghost predicate IsListing<T(!new)>(less: (T, T) -> bool, s: set<T>, r: seq<T>)
  {
    Sorted(less, r) && forall x :: x in s <==> x in r
  }

  function Insert<T(==)>(less: (T, T) -> bool, x: T, r: seq<T>): seq<T>
  {
    if r == [] || less(x, r[0]) then [x] + r else [r[0]] + Insert(less, x, r[1..])
  }

  lemma {:induction false} InsertLists<T(!new)>(less: (T, T) -> bool, x: T, r: seq<T>)
    requires Sorted(less, r) && x !in r && Orders(less, Elements(r) + {x})
    ensures Sorted(less, Insert(less, x, r))
    ensures forall y :: y in Insert(less, x, r) <==> y == x || y in r
  {
    if r == [] || less(x, r[0]) {
      assert forall y :: y in r ==> y in Elements(r);
    } else {
      assert r == [r[0]] + r[1..];
      assert r[0] in Elements(r) && Elements(r[1..]) <= Elements(r);
      InsertLists(less, x, r[1..]);
      var t := Insert(less, x, r[1..]);
      forall j | 0 <= j < |t|
        ensures r[0] != t[j] && less(r[0], t[j])
      {
        assert t[j] in t;
        if t[j] in r[1..] {
          var k :| 0 <= k < |r[1..]| && r[1..][k] == t[j];
        }
      }
    }
  }

  lemma {:induction false} ListingLength<T(!new)>(less: (T, T) -> bool, s: set<T>, r: seq<T>)
    requires IsListing(less, s, r)
    ensures |r| == |s|
    decreases |r|
  {
    if r == [] {
      assert s == {};
    } else {
      assert r == [r[0]] + r[1..];
      ListingLength(less, s - {r[0]}, r[1..]);
    }
  }

  lemma OrdersSubset<T(!new)>(less: (T, T) -> bool, s: set<T>, t: set<T>)
    requires Orders(less, t) && s <= t
    ensures Orders(less, s)
  {
  }

  /** A listing starts with the least element, and goes on with a listing of the others. */
  lemma FirstIsLeast<T(!new)>(less: (T, T) -> bool, s: set<T>, r: seq<T>)
    requires Orders(less, s) && IsListing(less, s, r) && r != []
    ensures r[0] in s && forall x :: x in s && x != r[0] ==> less(r[0], x) && !less(x, r[0])
    ensures IsListing(less, s - {r[0]}, r[1..])
  {
    assert r == [r[0]] + r[1..];
    assert r[0] in r;
    forall x | x in s && x != r[0]
      ensures less(r[0], x) && !less(x, r[0])
    {
      var i :| 0 <= i < |r| && r[i] == x;
    }
  }

  /** There is one listing of a set only. */
  lemma {:induction false} ListingIsUnique<T(!new)>(less: (T, T) -> bool, s: set<T>, a: seq<T>, b: seq<T>)
    requires Orders(less, s) && IsListing(less, s, a) && IsListing(less, s, b)
    ensures a == b
    decreases |a|
  {
    hide IsListing, Orders;
    ListingLength(less, s, a);
    ListingLength(less, s, b);
    if a != [] {
      FirstIsLeast(less, s, a);
      FirstIsLeast(less, s, b);
      assert a[0] == b[0];
      assert Orders(less, s - {a[0]}) by {
        OrdersSubset(less, s - {a[0]}, s);
      }
      ListingIsUnique(less, s - {a[0]}, a[1..], b[1..]);
    }
  }

  ghost function Listing<T(!new)>(less: (T, T) -> bool, s: set<T>): (r: seq<T>)
    requires Orders(less, s)
    ensures IsListing(less, s, r)
    decreases |s|
  {
    if s == {} then []
    else
      var x :| x in s;
      var r := Listing(less, s - {x});
      assert Elements(r) + {x} == s;
      InsertLists(less, x, r);
      Insert(less, x, r)
  }

  /** What stands for the library's sorting of a slice without repetitions. */
  method Sort<T(==, !new)>(less: (T, T) -> bool, a: seq<T>) returns (r: seq<T>)
    requires Orders(less, Elements(a)) && NoRepetition(a)
    ensures IsListing(less, Elements(a), r)
    ensures r == Listing(less, Elements(a))
  {
    r := [];
    for i := 0 to |a|
      invariant IsListing(less, Elements(a[..i]), r)
    {
      assert Elements(r) == Elements(a[..i]) <= Elements(a) && a[i] in Elements(a);
      assert a[i] !in a[..i];
      InsertLists(less, a[i], r);
      r := Insert(less, a[i], r);
      assert a[..i + 1] == a[..i] + [a[i]];
    }
    assert a[..|a|] == a;
    ListingIsUnique(less, Elements(a), r, Listing(less, Elements(a)));
  }

  // ---------- Pages ----------

  const MAX_PAGE_LIMIT: nat := 0xFFFF

  /** A page and how many items there are beyond it. */
  datatype Page<T> = Page(items: seq<T>, total: nat, remaining: nat)

  /** The limit that is applied: none, or too large a one, is replaced; any other is kept. */
  function EffectiveLimit(limit: nat): (n: nat)
    ensures 0 < n <= MAX_PAGE_LIMIT
    ensures 0 < limit <= MAX_PAGE_LIMIT ==> n == limit
    ensures limit == 0 || limit > MAX_PAGE_LIMIT ==> n == MAX_PAGE_LIMIT
  {
    if limit == 0 || limit > MAX_PAGE_LIMIT then MAX_PAGE_LIMIT else limit
  }

  function Min(a: nat, b: nat): nat
  {
    if a < b then a else b
  }

  /** The items of a listing which are beyond the cursor in the given direction. */
  function Beyond<T(==)>(less: (T, T) -> bool, r: seq<T>, cursor: Option<T>, forward: bool): seq<T>
  {
    if cursor.None? || r == [] then r
    else
      var rest := Beyond(less, r[1..], cursor, forward);
      if r[0] != cursor.value && (if forward then less(cursor.value, r[0]) else less(r[0], cursor.value))
      then [r[0]] + rest
      else rest
  }

  /**
   The page which is promised: the items nearest to the cursor of those beyond it, among the matching
   items only.
   */
  function PageOf<T(==)>(less: (T, T) -> bool, matching: seq<T>, cursor: Option<T>, forward: bool, limit: nat): Page<T>
  {
    var beyond := Beyond(less, matching, cursor, forward);
    var n := Min(limit, |beyond|);
    Page(if forward then beyond[..n] else beyond[|beyond| - n..], |matching|, |beyond| - n)
  }

  /** The page that starts at an index, wherever that is. */
  function PageFrom<T>(r: seq<T>, index: nat, limit: nat): Page<T>
    requires index <= |r|
  {
    var n := Min(limit, |r| - index);
    Page(r[index..index + n], |r|, |r| - index - n)
  }

  /** The index of the first element looked for, or 0 if there is none. */
  function FirstIndex<T>(r: seq<T>, wanted: T -> bool): (index: nat)
    ensures index < |r| || index == 0
  {
    if r == [] || wanted(r[0]) then 0
    else
      var i := FirstIndex(r[1..], wanted);
      if i < |r| - 1 && wanted(r[i + 1]) then i + 1 else 0
  }

  lemma {:induction false} FirstIndexFinds<T>(r: seq<T>, wanted: T -> bool)
    ensures (exists x :: x in r && wanted(x)) ==> FirstIndex(r, wanted) < |r| && wanted(r[FirstIndex(r, wanted)])
    ensures forall i :: 0 <= i < FirstIndex(r, wanted) ==> !wanted(r[i])
  {
    if r != [] {
      FirstIndexFinds(r[1..], wanted);
      assert forall x :: x in r ==> x == r[0] || x in r[1..];
    }
  }

  /** The predicate recognises `c` among the elements. */
  ghost predicate Recognises<T(!new)>(wanted: T -> bool, r: seq<T>, c: T)
  {
    forall x :: x in r ==> (wanted(x) <==> x == c)
  }

  lemma CursorIsFound<T(!new)>(wanted: T -> bool, r: seq<T>, c: T)
    requires Recognises(wanted, r, c) && c in r
    ensures r[FirstIndex(r, wanted)] == c
  {
    FirstIndexFinds(r, wanted);
  }

  /** A search that finds nothing leaves the index at the start; one that succeeds elsewhere spoils the first page. */
  lemma FirstPageIsFromStart<T(!new)>(less: (T, T) -> bool, r: seq<T>, wanted: T -> bool, limit: nat)
    requires Sorted(less, r) && limit > 0
    ensures PageFrom(r, FirstIndex(r, wanted), limit) == PageOf(less, r, None, true, limit)
            <==> (forall x :: x in r ==> !wanted(x)) || (r != [] && wanted(r[0]))
  {
    var index := FirstIndex(r, wanted);
    FirstIndexFinds(r, wanted);
    if index == 0 {
      assert r != [] ==> r[0] in r;
      assert r[0..][..Min(limit, |r|)] == r[0..Min(limit, |r|)];
    } else {
      assert PageFrom(r, index, limit).items[0] == r[index];
      assert PageOf(less, r, None, true, limit).items[0] == r[0];
      assert r[index] in r && wanted(r[index]);
    }
  }

  /** Beyond an element of a listing are the elements after it, or before it. */
  lemma {:induction false} BeyondIsSuffix<T(!new)>(less: (T, T) -> bool, s: set<T>, r: seq<T>, at: nat)
    requires Orders(less, s) && Sorted(less, r) && at < |r| && forall x :: x in r ==> x in s
    ensures Beyond(less, r, Some(r[at]), true) == r[at + 1..]
    ensures Beyond(less, r, Some(r[at]), false) == r[..at]
  {
    var c := r[at];
    BeyondSplits(less, r, c, at);
    assert r == r[..at] + [c] + r[at + 1..];
    BeyondSplits(less, r, c, at + 1);
    BeyondAll(less, r[..at], c, false);
    BeyondAll(less, r[at + 1..], c, true);
    assert Beyond(less, r[at..], Some(c), true) == Beyond(less, r[at + 1..], Some(c), true) by {
      assert r[at..][1..] == r[at + 1..];
    }
    assert Beyond(less, r[at..], Some(c), false) == Beyond(less, r[at + 1..], Some(c), false) by {
      assert r[at..][1..] == r[at + 1..];
    }
    BeyondNone(less, r[..at], c, true);
    BeyondNone(less, r[at + 1..], c, false);
  }

  lemma {:induction false} BeyondSplits<T(!new)>(less: (T, T) -> bool, r: seq<T>, c: T, n: nat)
    requires n <= |r|
    ensures forall f ::
              Beyond(less, r, Some(c), f) == Beyond(less, r[..n], Some(c), f) + Beyond(less, r[n..], Some(c), f)
  {
    if n > 0 {
      BeyondSplits(less, r[1..], c, n - 1);
      assert r[..n][1..] == r[1..][..n - 1] && r[1..][n - 1..] == r[n..];
    } else {
      assert r[0..] == r;
    }
  }

  lemma {:induction false} BeyondAll<T>(less: (T, T) -> bool, r: seq<T>, c: T, forward: bool)
    requires forall x :: x in r ==> x != c && if forward then less(c, x) else less(x, c)
    ensures Beyond(less, r, Some(c), forward) == r
  {
    if r != [] {
      assert r[0] in r && forall x :: x in r[1..] ==> x in r;
      BeyondAll(less, r[1..], c, forward);
    }
  }

  lemma {:induction false} BeyondNone<T>(less: (T, T) -> bool, r: seq<T>, c: T, forward: bool)
    requires forall x :: x in r ==> x == c || !(if forward then less(c, x) else less(x, c))
    ensures Beyond(less, r, Some(c), forward) == []
  {
    if r != [] {
      assert r[0] in r && forall x :: x in r[1..] ==> x in r;
      BeyondNone(less, r[1..], c, forward);
    }
  }

  lemma {:induction false} BeyondSkips<T>(less: (T, T) -> bool, a: seq<T>, c: T, b: seq<T>, forward: bool)
    ensures Beyond(less, a + [c] + b, Some(c), forward) == Beyond(less, a + b, Some(c), forward)
  {
    if a == [] {
      assert a + [c] + b == [c] + b && a + b == b;
      assert ([c] + b)[1..] == b;
    } else {
      assert (a + [c] + b)[1..] == a[1..] + [c] + b && (a + b)[1..] == a[1..] + b;
      BeyondSkips(less, a[1..], c, b, forward);
    }
  }

  /** The listing without an element. */
  lemma ListingWithout<T(!new)>(less: (T, T) -> bool, s: set<T>, c: T) returns (at: nat)
    requires Orders(less, s + {c}) && c !in s
    ensures Orders(less, s)
    ensures var all := Listing(less, s + {c});
            at < |all| && all[at] == c && Listing(less, s) == all[..at] + all[at + 1..]
  {
    hide Listing, Insert, Beyond;
    OrdersSubset(less, s, s + {c});
    var all := Listing(less, s + {c});
    assert c in all;
    at :| 0 <= at < |all| && all[at] == c;
    CutOut(less, s, all, at);
    ListingIsUnique(less, s, all[..at] + all[at + 1..], Listing(less, s));
  }

  lemma CutOut<T(!new)>(less: (T, T) -> bool, s: set<T>, all: seq<T>, at: nat)
    requires at < |all| && all[at] !in s && IsListing(less, s + {all[at]}, all)
    ensures IsListing(less, s, all[..at] + all[at + 1..])
  {
    var r := all[..at] + all[at + 1..];
    assert all == all[..at] + [all[at]] + all[at + 1..];
    forall x
      ensures x in s <==> x in r
    {
    }
  }

  /** Whether the cursor itself is listed makes no difference to what is beyond it. */
  lemma CursorDoesNotMatter<T(!new)>(less: (T, T) -> bool, s: set<T>, c: T, forward: bool)
    requires Orders(less, s + {c})
    ensures Orders(less, s)
    ensures Beyond(less, Listing(less, s), Some(c), forward) == Beyond(less, Listing(less, s + {c}), Some(c), forward)
    ensures |Listing(less, s)| == if c in s then |Listing(less, s + {c})| else |Listing(less, s + {c})| - 1
  {
    hide Beyond, Sorted, Orders, Listing, IsListing, Insert;
    OrdersSubset(less, s, s + {c});
    if c in s {
      assert s + {c} == s;
    } else {
      var all := Listing(less, s + {c});
      var at := ListingWithout(less, s, c);
      assert all == all[..at] + [c] + all[at + 1..];
      BeyondSkips(less, all[..at], c, all[at + 1..], forward);
    }
  }

  /** What is beyond the cursor lies between two places of a listing. */
  lemma BeyondIsSlice<T(!new)>(less: (T, T) -> bool, s: set<T>, r: seq<T>, cursor: Option<T>, forward: bool, at: nat)
    requires Orders(less, s) && IsListing(less, s, r) && (cursor.Some? ==> at < |r| && r[at] == cursor.value)
    ensures Beyond(less, r, cursor, forward) ==
            if cursor.None? then r else if forward then r[at + 1..] else r[..at]
  {
    if cursor.Some? {
      BeyondIsSuffix(less, s, r, at);
    }
  }

  /** The search through the listing; without success the index stays 0. */
  method Find<T>(r: seq<T>, wanted: T -> bool) returns (index: nat)
    ensures index == FirstIndex(r, wanted)
  {
    for i: nat := 0 to |r|
      invariant forall x :: x in r[..i] ==> !wanted(x)
    {
      if wanted(r[i]) {
        FirstIndexIs(r, wanted, i);
        return i;
      }
    }
    assert r[..|r|] == r;
    NoFirstIndex(r, wanted);
    return 0;
  }

  lemma FirstIndexIs<T>(r: seq<T>, wanted: T -> bool, i: nat)
    requires i < |r| && wanted(r[i]) && forall x :: x in r[..i] ==> !wanted(x)
    ensures FirstIndex(r, wanted) == i
  {
    assert r[i] in r;
    FirstIndexFinds(r, wanted);
    forall j | 0 <= j < i
      ensures !wanted(r[j])
    {
      assert r[j] in r[..i];
    }
  }

  lemma {:induction false} NoFirstIndex<T>(r: seq<T>, wanted: T -> bool)
    requires forall x :: x in r ==> !wanted(x)
    ensures FirstIndex(r, wanted) == 0
  {
    forall i | 0 <= i < |r|
      ensures !wanted(r[i])
    {
      assert r[i] in r;
    }
  }

  /** The page that the source cuts out of the listing with the cursor in it, by its index arithmetic. */
  function CutPage<T(==)>(less: (T, T) -> bool, matching: seq<T>, cursor: Option<T>, wanted: T -> bool, forward: bool,
                          limit: nat): Page<T>
  {
    if cursor.None? && forward then PageFrom(matching, FirstIndex(matching, wanted), limit)
    else PageOf(less, matching, cursor, forward, limit)
  }

  /** What is beyond the cursor, seen in the listing with the cursor in it. */
  lemma BeyondCursor<T(!new)>(less: (T, T) -> bool, s: set<T>, res: seq<T>, cursor: Option<T>, wanted: T -> bool,
                              forward: bool, matches: bool)
    requires match cursor
             case None => Orders(less, s) && res == Listing(less, s)
             case Some(c) =>
               && Orders(less, s + {c}) && Orders(less, s) && res == Listing(less, s + {c}) && (matches <==> c in s)
               && Recognises(wanted, res, c)
    ensures var index := FirstIndex(res, wanted);
            && (cursor.Some? ==> index < |res|)
            && Beyond(less, Listing(less, s), cursor, forward) ==
               (if cursor.None? then res else if forward then res[index + 1..] else res[..index])
    ensures |Listing(less, s)| == if cursor.Some? && !matches then |res| - 1 else |res|
  {
    hide Beyond, Orders, Sorted, Listing, IsListing, Insert, FirstIndex, Recognises;
    if cursor.None? {
      BeyondIsSlice(less, s, res, cursor, forward, 0);
    } else {
      var c := cursor.value;
      InListing(less, s + {c}, res, c);
      CursorDoesNotMatter(less, s, c, forward);
      CursorIsFound(wanted, res, c);
      BeyondIsSlice(less, s + {c}, res, cursor, forward, FirstIndex(res, wanted));
    }
  }

  /**
   `wanted` recognises the element of the cursor. The search for it is made without a cursor too; it then may find
   an element that looks like no cursor.
   */
  method Cut<T(==, !new)>(ghost less: (T, T) -> bool, ghost s: set<T>, res: seq<T>, cursor: Option<T>,
                          wanted: T -> bool, forward: bool, limit: nat, matches: bool) returns (page: Page<T>)
    requires match cursor
             case None => Orders(less, s) && res == Listing(less, s)
             case Some(c) =>
               && Orders(less, s + {c}) && Orders(less, s) && res == Listing(less, s + {c}) && (matches <==> c in s)
               && Recognises(wanted, res, c)
    ensures page == CutPage(less, Listing(less, s), cursor, wanted, forward, limit)
  {
    hide Beyond, Orders, Listing, FirstIndex, Recognises, CutPage, Insert, IsListing;
    BeyondCursor(less, s, res, cursor, wanted, forward, matches);
    if |res| == 0 {
      CutPageIs(less, Listing(less, s), res, cursor, wanted, forward, limit, 0, 0);
      return Page([], 0, 0);
    }
    var index := Find(res, wanted);
    var total := |res|;
    var elems: nat, remaining: nat;
    if forward {
      if cursor.Some? {
        index := index + 1;
      }
      elems := Min(limit, total - index);
      remaining := total - index - elems;
      WholeSlice(res, index, total);
      CutPageIs(less, Listing(less, s), res, cursor, wanted, forward, limit, index, total);
    } else {
      if cursor.None? {
        index := |res|;
      }
      elems := Min(limit, index);
      remaining := index - elems;
      WholeSlice(res, 0, index);
      CutPageIs(less, Listing(less, s), res, cursor, wanted, forward, limit, 0, index);
      index := index - elems;
    }
    if cursor.Some? && !matches {
      total := total - 1;
    }
    page := Page(res[index..index + elems], total, remaining);
  }

  lemma InListing<T(!new)>(less: (T, T) -> bool, s: set<T>, r: seq<T>, x: T)
    requires IsListing(less, s, r)
    ensures x in s <==> x in r
  {
  }

  /** The page, when what is beyond the cursor lies between two places of the listing. */
  lemma CutPageIs<T>(less: (T, T) -> bool, matching: seq<T>, res: seq<T>, cursor: Option<T>, wanted: T -> bool,
                     forward: bool, limit: nat, lo: nat, hi: nat)
    requires lo <= hi <= |res|
    requires if cursor.None? && forward then matching == res && lo == FirstIndex(res, wanted) && hi == |res|
             else Beyond(less, matching, cursor, forward) == res[lo..hi]
    ensures var n := Min(limit, hi - lo);
            CutPage(less, matching, cursor, wanted, forward, limit) ==
            Page(if forward then res[lo..lo + n] else res[hi - n..hi], |matching|, hi - lo - n)
  {
    hide Beyond, FirstIndex;
    SliceOfSlice(res, lo, hi, Min(limit, hi - lo));
  }

  lemma SliceOfSlice<T>(r: seq<T>, lo: nat, hi: nat, n: nat)
    requires lo <= hi <= |r| && n <= hi - lo
    ensures |r[lo..hi]| == hi - lo
    ensures r[lo..hi][..n] == r[lo..lo + n]
    ensures r[lo..hi][hi - lo - n..] == r[hi - n..hi]
  {
  }

  lemma WholeSlice<T>(r: seq<T>, lo: nat, hi: nat)
    requires lo <= hi <= |r|
    ensures hi == |r| ==> r[lo..hi] == r[lo..]
    ensures lo == 0 ==> r[lo..hi] == r[..hi]
    ensures lo == 0 && hi == |r| ==> r[lo..hi] == r
  {
  }

  // ---------- Walking through the pages ----------

  lemma NextForward<T(!new)>(less: (T, T) -> bool, s: set<T>, r: seq<T>, cursor: Option<T>, limit: nat, at: nat)
    requires Orders(less, s) && IsListing(less, s, r) && limit > 0
    requires cursor.Some? ==> at < |r| && r[at] == cursor.value
    requires |Beyond(less, r, cursor, true)| > limit
    ensures var beyond := Beyond(less, r, cursor, true);
            beyond[limit - 1] in r && beyond == beyond[..limit] + Beyond(less, r, Some(beyond[limit - 1]), true)
  {
    hide Beyond, Orders, Sorted;
    BeyondIsSlice(less, s, r, cursor, true, at);
    var lo := if cursor.Some? then at + 1 else 0;
    var beyond := Beyond(less, r, cursor, true);
    assert beyond == r[lo..];
    BeyondIsSlice(less, s, r, Some(r[lo + limit - 1]), true, lo + limit - 1);
    assert beyond[limit..] == r[lo + limit..];
  }

  lemma NextBackward<T(!new)>(less: (T, T) -> bool, s: set<T>, r: seq<T>, cursor: Option<T>, limit: nat, at: nat)
    requires Orders(less, s) && IsListing(less, s, r) && limit > 0
    requires cursor.Some? ==> at < |r| && r[at] == cursor.value
    requires |Beyond(less, r, cursor, false)| > limit
    ensures var beyond := Beyond(less, r, cursor, false);
            var n := |beyond| - limit;
            beyond[n] in r && beyond == Beyond(less, r, Some(beyond[n]), false) + beyond[n..]
  {
    hide Beyond, Orders, Sorted;
    BeyondIsSlice(less, s, r, cursor, false, at);
    var hi := if cursor.Some? then at else |r|;
    var beyond := Beyond(less, r, cursor, false);
    assert beyond == r[..hi];
    BeyondIsSlice(less, s, r, Some(r[hi - limit]), false, hi - limit);
    assert beyond[..hi - limit] == r[..hi - limit];
  }

  /** The set with the cursor, which need not match. */
  function With<T>(s: set<T>, cursor: Option<T>): set<T>
  {
    if cursor.None? then s else s + {cursor.value}
  }

  /** What is beyond any cursor can be read off the listing with the cursor in it. */
  lemma BeyondAnyCursor<T(!new)>(less: (T, T) -> bool, s: set<T>, cursor: Option<T>, forward: bool) returns (at: nat)
    requires Orders(less, With(s, cursor))
    ensures Orders(less, s)
    ensures cursor.Some? ==> at < |Listing(less, With(s, cursor))| && Listing(less, With(s, cursor))[at] == cursor.value
    ensures Beyond(less, Listing(less, s), cursor, forward) ==
            Beyond(less, Listing(less, With(s, cursor)), cursor, forward)
  {
    hide Beyond, Orders, Sorted, Listing, IsListing, Insert;
    at := 0;
    if cursor.Some? {
      var all := Listing(less, With(s, cursor));
      CursorDoesNotMatter(less, s, cursor.value, forward);
      InListing(less, With(s, cursor), all, cursor.value);
      at :| 0 <= at < |all| && all[at] == cursor.value;
    }
  }

  lemma BeyondIsFromListing<T(!new)>(less: (T, T) -> bool, s: set<T>, cursor: Option<T>, forward: bool)
    requires Orders(less, s)
    ensures forall x :: x in Beyond(less, Listing(less, s), cursor, forward) ==> x in s
  {
    hide Listing, Orders, Sorted, Beyond;
    BeyondIsPart(less, Listing(less, s), cursor, forward);
    assert IsListing(less, s, Listing(less, s));
  }

  lemma {:induction false} BeyondIsPart<T>(less: (T, T) -> bool, r: seq<T>, cursor: Option<T>, forward: bool)
    ensures forall x :: x in Beyond(less, r, cursor, forward) ==> x in r
  {
    if cursor.Some? && r != [] {
      BeyondIsPart(less, r[1..], cursor, forward);
      assert forall x :: x in r[1..] ==> x in r;
    }
  }

  /** A page is never empty while there are items beyond, and the next one starts where it ends. */
  lemma NextPage<T(!new)>(less: (T, T) -> bool, s: set<T>, cursor: Option<T>, forward: bool, limit: nat)
    requires Orders(less, With(s, cursor)) && limit > 0
    ensures Orders(less, s)
    ensures var page := PageOf(less, Listing(less, s), cursor, forward, limit);
            var beyond := Beyond(less, Listing(less, s), cursor, forward);
            page.remaining > 0 ==>
              && page.items != []
              && var next := if forward then page.items[|page.items| - 1] else page.items[0];
                 && next in s
                 && (if forward then beyond == page.items + Beyond(less, Listing(less, s), Some(next), forward)
                     else beyond == Beyond(less, Listing(less, s), Some(next), forward) + page.items)
  {
    hide Beyond, Orders, Sorted, Listing, Insert;
    var at := BeyondAnyCursor(less, s, cursor, forward);
    var all := With(s, cursor);
    var r := Listing(less, all);
    var page := PageOf(less, Listing(less, s), cursor, forward, limit);
    if page.remaining > 0 {
      if forward {
        NextForward(less, all, r, cursor, limit, at);
      } else {
        NextBackward(less, all, r, cursor, limit, at);
      }
      var next := if forward then page.items[|page.items| - 1] else page.items[0];
      BeyondIsFromListing(less, s, cursor, forward);
      NotTheCursor(less, s, cursor, next, forward);
    }
  }

  /** Beyond an element there is the same, whether another cursor is listed or not, if that lies behind. */
  lemma NotTheCursor<T(!new)>(less: (T, T) -> bool, s: set<T>, cursor: Option<T>, next: T, forward: bool)
    requires Orders(less, With(s, cursor)) && Orders(less, s)
    requires next in Beyond(less, Listing(less, s), cursor, forward) && next in s
    ensures Beyond(less, Listing(less, With(s, cursor)), Some(next), forward) ==
            Beyond(less, Listing(less, s), Some(next), forward)
  {
    hide Listing, IsListing, Insert, Orders, Sorted;
    if cursor.Some? {
      BeyondIsBeyond(less, Listing(less, s), cursor.value, next, forward);
      if cursor.value in s {
        assert With(s, cursor) == s;
      } else {
        var at := ListingWithout(less, s, cursor.value);
        var all := Listing(less, With(s, cursor));
        assert all == all[..at] + [cursor.value] + all[at + 1..];
        Contrary(less, With(s, cursor), cursor.value, next);
        BeyondSkipsOther(less, all[..at], cursor.value, all[at + 1..], next, forward);
      }
    }
  }

  lemma Contrary<T(!new)>(less: (T, T) -> bool, s: set<T>, a: T, b: T)
    requires Orders(less, s) && a in s && b in s && a != b
    ensures less(a, b) <==> !less(b, a)
  {
  }

  lemma {:induction false} BeyondIsBeyond<T>(less: (T, T) -> bool, r: seq<T>, c: T, x: T, forward: bool)
    requires x in Beyond(less, r, Some(c), forward)
    ensures x != c && if forward then less(c, x) else less(x, c)
  {
    if r != [] && x in Beyond(less, r[1..], Some(c), forward) {
      BeyondIsBeyond(less, r[1..], c, x, forward);
    }
  }

  lemma {:induction false} BeyondSkipsOther<T>(less: (T, T) -> bool, a: seq<T>, c: T, b: seq<T>, next: T, forward: bool)
    requires if forward then !less(next, c) else !less(c, next)
    ensures Beyond(less, a + [c] + b, Some(next), forward) == Beyond(less, a + b, Some(next), forward)
  {
    if a == [] {
      assert a + [c] + b == [c] + b && a + b == b;
      assert ([c] + b)[1..] == b;
    } else {
      assert (a + [c] + b)[1..] == a[1..] + [c] + b && (a + b)[1..] == a[1..] + b;
      BeyondSkipsOther(less, a[1..], c, b, next, forward);
    }
  }

  /** Where the page after this one starts. */
  function NextCursor<T>(page: Page<T>, forward: bool): T
    requires page.items != []
  {
    if forward then page.items[|page.items| - 1] else page.items[0]
  }

  lemma NextIsCloser<T(!new)>(less: (T, T) -> bool, s: set<T>, cursor: Option<T>, forward: bool, limit: nat)
    requires Orders(less, With(s, cursor)) && Orders(less, s) && limit > 0
    ensures var page := PageOf(less, Listing(less, s), cursor, forward, limit);
            page.remaining > 0 ==>
              && page.items != [] && With(s, Some(NextCursor(page, forward))) == s
              && |Beyond(less, Listing(less, s), Some(NextCursor(page, forward)), forward)|
                 < |Beyond(less, Listing(less, s), cursor, forward)|
  {
    hide Orders, Beyond, Listing, PageOf;
    NextPage(less, s, cursor, forward, limit);
  }

  /** The items seen by asking for page after page, each time from the end of the last, until none remain. */
  ghost function Walk<T(!new)>(less: (T, T) -> bool, s: set<T>, cursor: Option<T>, forward: bool, limit: nat): seq<T>
    requires Orders(less, With(s, cursor)) && Orders(less, s) && limit > 0
    decreases |Beyond(less, Listing(less, s), cursor, forward)|
  {
    hide Orders, Beyond, Listing, PageOf, With, NextCursor;
    var page := PageOf(less, Listing(less, s), cursor, forward, limit);
    if page.remaining == 0 then page.items
    else
      NextIsCloser(less, s, cursor, forward, limit);
      var rest := Walk(less, s, Some(NextCursor(page, forward)), forward, limit);
      if forward then page.items + rest else rest + page.items
  }

  /** Page after page, in either direction, the whole of what is beyond the cursor is seen, in order and once. */
  lemma {:induction false} WalkSeesAll<T(!new)>(less: (T, T) -> bool, s: set<T>, cursor: Option<T>, forward: bool,
                                                limit: nat)
    requires Orders(less, With(s, cursor)) && limit > 0
    ensures Orders(less, s)
    ensures Walk(less, s, cursor, forward, limit) == Beyond(less, Listing(less, s), cursor, forward)
    decreases |Beyond(less, Listing(less, s), cursor, forward)|
  {
    hide Orders, Beyond, Listing, Sorted;
    OrdersSubset(less, s, With(s, cursor));
    var page := PageOf(less, Listing(less, s), cursor, forward, limit);
    NextPage(less, s, cursor, forward, limit);
    if page.remaining > 0 {
      var next := if forward then page.items[|page.items| - 1] else page.items[0];
      assert With(s, Some(next)) == s;
      WalkSeesAll(less, s, Some(next), forward, limit);
    } else {
      LastPage(less, Listing(less, s), cursor, forward, limit);
    }
  }

  lemma LastPage<T>(less: (T, T) -> bool, r: seq<T>, cursor: Option<T>, forward: bool, limit: nat)
    requires PageOf(less, r, cursor, forward, limit).remaining == 0
    ensures PageOf(less, r, cursor, forward, limit).items == Beyond(less, r, cursor, forward)
  {
    hide Beyond;
  }

  /** From the start, or from the end, this is the whole listing. */
  lemma WalkIsListing<T(!new)>(less: (T, T) -> bool, s: set<T>, forward: bool, limit: nat)
    requires Orders(less, s) && limit > 0
    ensures Walk(less, s, None, forward, limit) == Listing(less, s)
  {
    hide Orders, Listing, Walk;
    WalkSeesAll(less, s, None, forward, limit);
  }
}
