/** Worked cases of the traversal on small record graphs. */
module Scenarios {
  import opened Traversal

  /** One turn of the walk, unfolded. */
  lemma VisitUnfold<O>(w: World<O>, f: Filters, s: State<O>)
    requires Closed(w) && InUniverse(w, s) && s.queue != []
    ensures InUniverse(w, Step(w, f, s))
    ensures Visit(w, f, s) == Visit(w, f, Step(w, f, s))
  {
    StepProgress(w, f, s);
  }

  /** Record 1 has record 2 as its related object, and record 2 has record 1. */
  function Pair(): World<int> {
    World({1, 2}, x => "app", x => "node", x => if x == 1 then [[Row(2)]] else [[Row(1)]])
  }

  lemma PairClosed()
    ensures Closed(Pair())
  {
    var w := Pair();
    assert AllDelivered(w.related(1)) == [2];
    assert AllDelivered(w.related(2)) == [1];
  }

  /** The walk from record 1 ends on the cycle and serializes each record once. */
  lemma CycleVisitedOnce()
    ensures Closed(Pair())
    ensures Visit(Pair(), Filters("app.node", [], []), Start([1])).order == [1, 2]
  {
    PairClosed();
    var w, f := Pair(), Filters("app.node", [], []);
    assert RelName(w, 1) == "app.node" && RelName(w, 2) == "app.node";
    assert Admitted(w, f, 1) && Admitted(w, f, 2);
    assert {} + {1} == {1} && {1} + {2} == {1, 2};
    assert [1][1..] == [] && [2][1..] == [];
    var s0 := Start([1]);
    var s1 := State([2], {1}, [1]);
    var s2 := State([], {1, 2}, [1, 2]);
    assert Enqueued([Row(2)], {1}) == [2];
    assert Expansion(w.related(1), {1}) == [2];
    assert Step(w, f, s0) == s1;
    assert Enqueued([Row(1)], {1, 2}) == [];
    assert Expansion(w.related(2), {1, 2}) == [];
    assert Step(w, f, s1) == s2;
    VisitUnfold(w, f, s0);
    VisitUnfold(w, f, s1);
  }

  /**
   * Record 1 relates to records 2 and 3 (two accessors), and both relate to
   * record 4 through an accessor that raises after it; record 5 would come
   * next in that accessor. Nothing else relates to 5.
   */
  function Diamond(): World<int> {
    World({1, 2, 3, 4, 5}, x => "app", x => "node",
      x => if x == 1 then [[Row(2)], [Row(3)]]
           else if x == 4 || x == 5 then []
           else [[Row(4), Raise(ObjectDoesNotExist), Row(5)]])
  }

  lemma DiamondClosed()
    ensures Closed(Diamond())
  {
    var w := Diamond();
    assert AllDelivered([[Row(3)]]) == [3];
    assert AllDelivered(w.related(1)) == [2, 3];
    assert Delivered([Raise(ObjectDoesNotExist), Row(5)]) == [];
    assert AllDelivered(w.related(2)) == [4];
    assert AllDelivered(w.related(3)) == [4];
    assert AllDelivered(w.related(4)) == [];
    assert AllDelivered(w.related(5)) == [];
  }

  lemma DiamondAdmitted()
    ensures forall x :: x in Diamond().universe ==> Admitted(Diamond(), Filters("app.node", [], []), x)
  {
    var w, f := Diamond(), Filters("app.node", [], []);
    assert forall x :: x in w.universe ==> RelName(w, x) == "app.node";
  }

  /** Record 1 enqueues 2 and 3; record 2 enqueues 4. */
  lemma DiamondFirstTurns()
    ensures Step(Diamond(), Filters("app.node", [], []), Start([1])) == State([2, 3], {1}, [1])
    ensures Step(Diamond(), Filters("app.node", [], []), State([2, 3], {1}, [1]))
         == State([3, 4], {1, 2}, [1, 2])
  {
    var w := Diamond();
    DiamondAdmitted();
    assert {} + {1} == {1} && {1} + {2} == {1, 2};
    assert [1][1..] == [] && [2, 3][1..] == [3];
    assert Expansion([[Row(3)]], {1}) == [3];
    assert Expansion(w.related(1), {1}) == [2, 3];
    assert Enqueued([Raise(ObjectDoesNotExist), Row(5)], {1, 2}) == [];
    assert Expansion(w.related(2), {1, 2}) == [4];
  }

  /** Record 3 enqueues 4 again; the second 4 is dequeued as a duplicate. */
  lemma DiamondLastTurns()
    ensures Step(Diamond(), Filters("app.node", [], []), State([3, 4], {1, 2}, [1, 2]))
         == State([4, 4], {1, 2, 3}, [1, 2, 3])
    ensures Step(Diamond(), Filters("app.node", [], []), State([4, 4], {1, 2, 3}, [1, 2, 3]))
         == State([4], {1, 2, 3, 4}, [1, 2, 3, 4])
    ensures Step(Diamond(), Filters("app.node", [], []), State([4], {1, 2, 3, 4}, [1, 2, 3, 4]))
         == State([], {1, 2, 3, 4}, [1, 2, 3, 4])
  {
    var w := Diamond();
    DiamondAdmitted();
    assert {1, 2} + {3} == {1, 2, 3} && {1, 2, 3} + {4} == {1, 2, 3, 4};
    assert [3, 4][1..] == [4] && [4, 4][1..] == [4] && [4][1..] == [];
    assert Enqueued([Raise(ObjectDoesNotExist), Row(5)], {1, 2, 3}) == [];
    assert Expansion(w.related(3), {1, 2, 3}) == [4];
    assert Expansion(w.related(4), {1, 2, 3, 4}) == [];
  }

  /**
   * Record 4 is queued twice, once by each of 2 and 3, yet serialized once;
   * record 5, which comes after the error in both accessors, is never
   * reached, although the same accessor without the error would queue it.
   */
  lemma DiamondVisitedOnce()
    ensures Closed(Diamond())
    ensures Visit(Diamond(), Filters("app.node", [], []), Start([1])).order == [1, 2, 3, 4]
    ensures 5 !in Visit(Diamond(), Filters("app.node", [], []), Start([1])).priors
    ensures Enqueued([Row(4), Row(5)], {1, 2}) == [4, 5]
  {
    assert Enqueued([Row(5)], {1, 2}) == [5];
    DiamondClosed();
    DiamondFirstTurns();
    DiamondLastTurns();
    var w, f := Diamond(), Filters("app.node", [], []);
    VisitUnfold(w, f, Start([1]));
    VisitUnfold(w, f, State([2, 3], {1}, [1]));
    VisitUnfold(w, f, State([3, 4], {1, 2}, [1, 2]));
    VisitUnfold(w, f, State([4, 4], {1, 2, 3}, [1, 2, 3]));
    VisitUnfold(w, f, State([4], {1, 2, 3, 4}, [1, 2, 3, 4]));
  }
}
