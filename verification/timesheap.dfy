/**
 The binary heap of times (requests/timesheap.go over requests/timesheapcontainer.go), with the sifting
 of the library's heap written out.
 */
module TimesHeaps {

  import opened Boruta
  import opened Timers

  /** The place above `k`. */
  function Parent(k: nat): nat
    requires 1 <= k
  {
    (k - 1) / 2
  }

  /** Element `k` is not less than element `p`. */
  predicate Above(s: seq<RequestTime>, p: nat, k: nat)
    requires p < |s| && k < |s|
  {
    !Less(s[k], s[p])
  }

  /** No element of the first `n` is less than its parent. */
  ghost predicate Ordered(s: seq<RequestTime>, n: nat)
    requires n <= |s|
  {
    forall k: nat :: 1 <= k < n ==> Above(s, Parent(k), k)
  }

  /** As `Ordered`, but element `j` may be less than its parent; its children respect its parent. */
  ghost predicate OrderedAbove(s: seq<RequestTime>, n: nat, j: nat)
    requires n <= |s|
  {
    && (forall k: nat :: 1 <= k < n && k != j ==> Above(s, Parent(k), k))
    && (forall k: nat :: 1 <= k < n && Parent(k) == j && 1 <= j ==> Above(s, Parent(j), k))
  }

  /** As `Ordered`, but the children of element `i` may be less than it; they respect its parent. */
  ghost predicate OrderedBelow(s: seq<RequestTime>, n: nat, i: nat)
    requires n <= |s|
  {
    && (forall k: nat :: 1 <= k < n && Parent(k) != i ==> Above(s, Parent(k), k))
    && (forall k: nat :: 1 <= k < n && Parent(k) == i && 1 <= i ==> Above(s, Parent(i), k))
  }

  function Swapped(s: seq<RequestTime>, i: nat, j: nat): seq<RequestTime>
    requires i < |s| && j < |s|
  {
    s[i := s[j]][j := s[i]]
  }

  lemma SwapKeepsEntries(s: seq<RequestTime>, i: nat, j: nat)
    requires i < |s| && j < |s|
    ensures multiset(Swapped(s, i, j)) == multiset(s)
  {
  }

  /** Swapping an element with a greater parent moves the possible fault one level up. */
  lemma StepUp(s: seq<RequestTime>, n: nat, j: nat)
    requires 1 <= j < n <= |s| && OrderedAbove(s, n, j) && Less(s[j], s[Parent(j)])
    ensures OrderedAbove(Swapped(s, Parent(j), j), n, Parent(j))
  {
    var i := Parent(j);
    var s' := Swapped(s, i, j);
    forall k: nat | 1 <= k < n && k != i
      ensures Above(s', Parent(k), k)
    {
      assert k != j ==> Above(s, Parent(k), k);
    }
    forall k: nat | 1 <= k < n && Parent(k) == i && 1 <= i
      ensures Above(s', Parent(i), k)
    {
      assert Above(s, Parent(i), i);
      assert k != j ==> Above(s, i, k);
    }
  }

  /** Of the children of `i`, of which there is at least one, `j` is the lesser. */
  predicate IsLesserChild(s: seq<RequestTime>, n: nat, i: nat, j: nat)
    requires j < n <= |s|
  {
    && (j == 2 * i + 1 || j == 2 * i + 2)
    && !Less(s[2 * i + 1], s[j])
    && (2 * i + 2 < n ==> !Less(s[2 * i + 2], s[j]))
  }

  lemma ChosenIsLesser(s: seq<RequestTime>, n: nat, i: nat)
    requires n <= |s| && 2 * i + 1 < n
    ensures var j := if 2 * i + 2 < n && Less(s[2 * i + 2], s[2 * i + 1]) then 2 * i + 2 else 2 * i + 1;
            IsLesserChild(s, n, i, j)
  {
  }

  /** Without a lesser child below the possible fault there is none. */
  lemma StopDown(s: seq<RequestTime>, n: nat, i: nat, j: nat)
    requires n <= |s| && OrderedBelow(s, n, i)
    requires 2 * i + 1 >= n || (j < n && IsLesserChild(s, n, i, j) && !Less(s[j], s[i]))
    ensures Ordered(s, n)
  {
    forall k: nat | 1 <= k < n
      ensures Above(s, Parent(k), k)
    {
      assert Parent(k) == i ==> k == 2 * i + 1 || k == 2 * i + 2;
    }
  }

  /** Putting the last element in the place of the root leaves a possible fault there. */
  lemma StartDown(s: seq<RequestTime>)
    requires s != [] && Ordered(s, |s|)
    ensures OrderedBelow(Swapped(s, 0, |s| - 1), |s| - 1, 0)
  {
    var n := |s| - 1;
    var s' := Swapped(s, 0, n);
    forall k: nat | 1 <= k < n && Parent(k) != 0
      ensures Above(s', Parent(k), k)
    {
      assert Above(s, Parent(k), k);
    }
  }

  /** Swapping an element with its lesser child, if that is less, moves the possible fault one level down. */
  lemma StepDown(s: seq<RequestTime>, n: nat, i: nat, j: nat)
    requires i < j < n <= |s| && OrderedBelow(s, n, i) && Less(s[j], s[i]) && IsLesserChild(s, n, i, j)
    ensures OrderedBelow(Swapped(s, i, j), n, j)
  {
    var s' := Swapped(s, i, j);
    assert Parent(j) == i;
    assert forall k: nat :: 1 <= k < n && Parent(k) == i ==> k == 2 * i + 1 || k == 2 * i + 2;
    forall k: nat | 1 <= k < n && Parent(k) != j
      ensures Above(s', Parent(k), k)
    {
      assert Parent(k) != i ==> Above(s, Parent(k), k);
      if k == i {
        assert Above(s, Parent(i), j);
      }
    }
    forall k: nat | 1 <= k < n && Parent(k) == j
      ensures Above(s', Parent(j), k)
    {
      assert Above(s, Parent(k), k);
    }
  }

  /** The root of an ordered heap is its least entry. */
  lemma {:induction false} RootIsLeast(s: seq<RequestTime>, k: nat)
    requires Ordered(s, |s|) && k < |s|
    ensures !Less(s[k], s[0])
    decreases k
  {
    if k > 0 {
      RootIsLeast(s, Parent(k));
      assert Above(s, Parent(k), k);
    }
  }

  lemma RootIsMin(s: seq<RequestTime>)
    requires Ordered(s, |s|) && s != []
    ensures multiset(s) != multiset{} && s[0] == MinEntry(multiset(s))
  {
    assert s[0] in multiset(s);
    forall x | x in multiset(s)
      ensures !Less(x, s[0])
    {
      var k :| 0 <= k < |s| && s[k] == x;
      RootIsLeast(s, k);
    }
    MinIsUnique(multiset(s), s[0], MinEntry(multiset(s)));
  }

  lemma CutLast(s: seq<RequestTime>)
    requires s != [] && Ordered(s, |s| - 1)
    ensures Ordered(s[..|s| - 1], |s| - 1)
    ensures multiset(s[..|s| - 1]) == multiset(s) - multiset{s[|s| - 1]}
  {
    var n := |s| - 1;
    assert s == s[..n] + [s[n]];
    forall k: nat | 1 <= k < n
      ensures Above(s[..n], Parent(k), k)
    {
      assert Above(s, Parent(k), k);
    }
  }

  class TimesHeap {
    var con: seq<RequestTime>

    ghost predicate Valid()
      reads this
    {
      Ordered(con, |con|)
    }

    ghost function Entries(): multiset<RequestTime>
      reads this
    {
      multiset(con)
    }

    constructor ()
      ensures Valid() && Entries() == multiset{}
    {
      con := [];
    }

    method Len() returns (n: nat)
      ensures n == |con| == |Entries()|
    {
      n := |con|;
    }

    /** The source panics on an empty heap. */
    method Min() returns (e: RequestTime)
      requires Valid() && Entries() != multiset{}
      ensures e == MinEntry(Entries())
    {
      e := con[0];
      RootIsMin(con);
    }

    method Push(t: RequestTime)
      requires Valid()
      modifies this
      ensures Valid() && Entries() == old(Entries()) + multiset{t}
    {
      con := con + [t];
      Up(|con| - 1);
    }

    method Pop() returns (e: RequestTime)
      requires Valid() && Entries() != multiset{}
      modifies this
      ensures Valid() && e == MinEntry(old(Entries()))
      ensures Entries() == old(Entries()) - multiset{e}
    {
      hide Ordered, OrderedBelow, MinEntry, Less;
      RootIsMin(con);
      StartDown(con);
      var n := |con| - 1;
      SwapKeepsEntries(con, 0, n);
      con := Swapped(con, 0, n);
      Down(n);
      e := con[n];
      CutLast(con);
      con := con[..n];
    }

    method Up(start: nat)
      requires start == |con| - 1 && OrderedAbove(con, |con|, start)
      modifies this
      ensures Valid() && Entries() == old(Entries())
    {
      var j: nat := start;
      while j > 0
        invariant 0 <= j < |con|
        invariant OrderedAbove(con, |con|, j)
        invariant Entries() == old(Entries())
      {
        var i := (j - 1) / 2;
        if !Less(con[j], con[i]) {
          break;
        }
        StepUp(con, |con|, j);
        SwapKeepsEntries(con, i, j);
        con := Swapped(con, i, j);
        j := i;
      }
    }

    method Down(n: nat)
      requires n == |con| - 1 && OrderedBelow(con, n, 0)
      modifies this
      ensures |con| == n + 1 && Ordered(con, n) && con[n] == old(con)[n] && Entries() == old(Entries())
    {
      hide Ordered, OrderedBelow, Less, IsLesserChild;
      var i: nat := 0;
      while 2 * i + 1 < n
        invariant |con| == n + 1 && con[n] == old(con)[n]
        invariant OrderedBelow(con, n, i)
        invariant Entries() == old(Entries())
        decreases n - i
      {
        var j: nat := 2 * i + 1;
        if j + 1 < n && Less(con[j + 1], con[j]) {
          j := j + 1;
        }
        ChosenIsLesser(con, n, i);
        if !Less(con[j], con[i]) {
          StopDown(con, n, i, j);
          return;
        }
        StepDown(con, n, i, j);
        SwapKeepsEntries(con, i, j);
        con := Swapped(con, i, j);
        i := j;
      }
      StopDown(con, n, i, 0);
    }
  }
}
