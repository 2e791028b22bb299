/**
 A run after which a worker with an empty UUID hides another one from the list.
 */
module Nameless {

  import opened Boruta
  import opened Histories
  import opened Listings
  import opened Sorters
  import opened Sorting
  import opened System
  import F = Filter
  import P = ProtocolInvariant
  import R = Runs
  import W = WorkerProtocol

  const A_CAPS: Capabilities := map[UUID_CAP := "a"]
  const NO_CAPS: Capabilities := map[UUID_CAP := ""]

  /** Two workers, of which the second in the order of states has no name. */
  const HALF_NAMED: W.WorkerList := W.WorkerList(
    map["a" := Member(A_CAPS, [], IDLE, Some(0), 0), "" := Member(NO_CAPS, [], MAINTENANCE, None, 1)],
    [W.Registration("a", [IDLE], true, W.Waiting), W.Registration("", [], true, W.Waiting)],
    map["a" := 0],
    false)

  lemma WorkersRegister() returns (s: System)
    ensures Reached(s) && s.list == HALF_NAMED
  {
    hide Reached, OnWorkerIdle;
    InitIsReached();
    WorkerIsEnlisted(Init(), A_CAPS, []);
    var w := Member(A_CAPS, [], PREPARE, None, 0);
    var l1 := W.WorkerList(map["a" := w], [W.Registration("a", [PREPARE], true, W.Waiting)], map[], false);
    assert l1.workers == W.EMPTY.workers["a" := w] && l1.regs == W.EMPTY.regs + l1.regs;
    PreparationAdvances(Init().(list := l1), 0, 0);
    KeyIsInstalled(Init().(list := l1), 0, 0);
    PreparationEnds(Init().(list := WithDryad(l1, "a", 0)), 0, 0, "a");
    var idle := Member(A_CAPS, [], IDLE, Some(0), 0);
    var l2 := W.WorkerList(map["a" := idle], [W.Registration("a", [IDLE], true, W.Waiting)], map["a" := 0], false);
    assert l2.workers == l1.workers["a" := idle] && l2.regs == l1.regs[0 := l2.regs[0]];
    assert l2.dryads == WithDryad(l1, "a", 0).dryads;
    var s2 := OnWorkerIdle(Init().(list := l2));
    assert s2.list == l2 by {
      ListenerKeepsList(Init().(list := l2));
    }
    var step := CallRegister(NO_CAPS, ADDR, ADDR);
    assert F.SortedStrings([]) == [];
    assert HALF_NAMED.workers == l2.workers["" := Member(NO_CAPS, [], MAINTENANCE, None, 1)];
    assert HALF_NAMED.regs == l2.regs + [W.Registration("", [], true, W.Waiting)];
    assert ListStep(l2, step) == W.Outcome(HALF_NAMED, W.Quiet, NoError);
    QuietStepIsReached(s2, step);
    s := s2.(list := HALF_NAMED);
  }

  lemma ReachedIsOk(s: System)
    requires Reached(s)
    ensures P.Inv(s.list) && exists steps :: Exec(steps) == s
  {
    hide Exec, P.Inv;
    var steps :| R.BenignRun(steps) && Exec(steps) == s;
    R.RunKeeps(steps);
  }

  /** The first page of all workers, forward, then leaves out the worker that should come first. */
  lemma FirstWorkerIsSkipped()
    ensures exists steps :: Exec(steps).list == HALF_NAMED
    ensures P.Inv(HALF_NAMED)
    ensures var a, nameless := HALF_NAMED.workers["a"].info, HALF_NAMED.workers[""].info;
            var sorter := WorkerSorter(ByWorkerState, false);
            && PromisedPage(HALF_NAMED, None, sorter, "", true, 10) == Page([a, nameless], 2, 0)
            && WorkerPage(HALF_NAMED, None, sorter, "", true, 10) == Page([nameless], 2, 0)
  {
    hide P.Inv, Orders, Listing, Exec, Reached;
    var s := WorkersRegister();
    ReachedIsOk(s);
    var sorter := WorkerSorter(ByWorkerState, false);
    var a, nameless := HALF_NAMED.workers["a"].info, HALF_NAMED.workers[""].info;
    ShownIsOrdered(HALF_NAMED, None, "", sorter);
    var shown := Shown(HALF_NAMED, None, "");
    assert shown == {a, nameless} by {
      assert HALF_NAMED.workers.Keys == {"a", ""};
    }
    assert Matched(HALF_NAMED, None) == shown;
    var list := [a, nameless];
    assert WorkerOrder(sorter)(a, nameless) by {
      assert "IDLE"[0] < "MAINTENANCE"[0];
    }
    assert IsListing(WorkerOrder(sorter), shown, list);
    ListingIsUnique(WorkerOrder(sorter), shown, list, ShownList(HALF_NAMED, None, "", sorter));
    FirstIndexIs(list, HasUuid(""), 1);
  }
}
