// What the greedy closing reports when the lists of some areas run out, and when they cannot.
module ShortLists {
  import opened CloseFacilities
  import opened FiniteSets
  import opened Options

  // ---------------------------------------------------------------- what is skipped

  // An area whose last listed facility closes is skipped: its way, and its weight if that was near, are in the totals before and
  // in none after.
  ghost predicate RunsOut(a: Area, removed: set<nat>, c: nat) {
    a.Dist(removed).Some? && a.Dist(removed + {c}).None?
  }

  ghost function LostOne(a: Area, removed: set<nat>, c: nat, far: real): Impact {
    if !RunsOut(a, removed, c) then ZERO
    else
      var d := a.Dist(removed).value;
      Impact(a.w * d, if d <= far then a.w else 0.0, 1)
  }

  ghost function Lost(areas: seq<Area>, removed: set<nat>, c: nat, far: real): Impact {
    if areas == [] then ZERO
    else Plus(Lost(areas[..|areas| - 1], removed, c, far), LostOne(areas[|areas| - 1], removed, c, far))
  }

  ghost function SumLost(areas: seq<Area>, steps: seq<Step>, far: real): Impact {
    if steps == [] then ZERO
    else
      var m := |steps| - 1;
      Plus(SumLost(areas, steps[..m], far), Lost(areas, Closed(steps[..m]), steps[m].histId, far))
  }

  lemma OneButLost(a: Area, removed: set<nat>, c: nat, far: real)
    requires a.Valid()
    ensures One(a, removed, c, far).cost
            == Weighted([a], removed + {c}) - Weighted([a], removed) + LostOne(a, removed, c, far).cost
    ensures One(a, removed, c, far).far
            == Inside([a], removed, far) - Inside([a], removed + {c}, far) - LostOne(a, removed, c, far).far
  {
    if !RunsOut(a, removed, c) {
      if a.cands != [] && a.Dist(removed + {c}).None? {
        assert [a][..0] == [];
      } else {
        OneIsDifference(a, removed, c, far);
      }
    } else {
      assert [a][..0] == [];
    }
  }

  lemma {:induction false} TotalButLost(areas: seq<Area>, removed: set<nat>, c: nat, far: real)
    requires AllValid(areas)
    ensures Total(areas, removed, c, far).cost
            == Weighted(areas, removed + {c}) - Weighted(areas, removed) + Lost(areas, removed, c, far).cost
    ensures Total(areas, removed, c, far).far
            == Inside(areas, removed, far) - Inside(areas, removed + {c}, far) - Lost(areas, removed, c, far).far
  {
    hide One, LostOne;
    if areas != [] {
      var m := |areas| - 1;
      TotalButLost(areas[..m], removed, c, far);
      SplitLast(areas, removed, far);
      SplitLast(areas, removed + {c}, far);
      OneButLost(areas[m], removed, c, far);
    }
  }

  // Lists of any length: the summed costs are the true change plus the ways skipped, and the summed newly far weights are the true
  // change less the weights skipped while near.
  lemma {:induction false} TotalsButLost(areas: seq<Area>, candidates: seq<nat>, far: real, steps: seq<Step>)
    requires Greedy(areas, candidates, far, steps) && AllValid(areas)
    ensures SumCost(steps) == Weighted(areas, Closed(steps)) - Weighted(areas, {}) + SumLost(areas, steps, far).cost
    ensures SumFar(steps) == Inside(areas, {}, far) - Inside(areas, Closed(steps), far) - SumLost(areas, steps, far).far
  {
    hide Lost;
    if steps == [] {
      assert Closed(steps) == {};
    } else {
      var m := |steps| - 1;
      TotalsButLost(areas, candidates, far, steps[..m]);
      ClosedStep(steps);
      TotalButLost(areas, Closed(steps[..m]), steps[m].histId, far);
    }
  }

  // ---------------------------------------------------------------- when nothing is skipped

  ghost predicate NonNegativeWays(areas: seq<Area>) {
    forall a, i :: a in areas && 0 <= i < |a.cands| ==> a.cands[i].d >= 0.0
  }

  // Closing c takes no way, or no near weight, out of sight.
  ghost predicate NoWayLost(areas: seq<Area>, removed: set<nat>, c: nat, far: real) {
    forall a :: a in areas ==> LostOne(a, removed, c, far).cost == 0.0
  }

  ghost predicate NoWeightLost(areas: seq<Area>, removed: set<nat>, c: nat, far: real) {
    forall a :: a in areas ==> LostOne(a, removed, c, far).far == 0.0
  }

  lemma LostOneNonNegative(a: Area, removed: set<nat>, c: nat, far: real)
    requires a.Valid()
    ensures LostOne(a, removed, c, far).far >= 0.0
    ensures (forall i :: 0 <= i < |a.cands| ==> a.cands[i].d >= 0.0) ==> LostOne(a, removed, c, far).cost >= 0.0
  {
    FirstOpenIs(a.cands, removed);
  }

  lemma {:induction false} LostNonNegative(areas: seq<Area>, removed: set<nat>, c: nat, far: real)
    requires AllValid(areas)
    ensures Lost(areas, removed, c, far).far >= 0.0
    ensures Lost(areas, removed, c, far).far == 0.0 <==> NoWeightLost(areas, removed, c, far)
    ensures NonNegativeWays(areas) ==>
              Lost(areas, removed, c, far).cost >= 0.0
              && (Lost(areas, removed, c, far).cost == 0.0 <==> NoWayLost(areas, removed, c, far))
  {
    hide LostOne;
    if areas != [] {
      var m := |areas| - 1;
      LostNonNegative(areas[..m], removed, c, far);
      LostOneNonNegative(areas[m], removed, c, far);
      assert areas == areas[..m] + [areas[m]];
    }
  }

  ghost predicate NeverLosesWay(areas: seq<Area>, steps: seq<Step>, far: real) {
    forall n :: 0 <= n < |steps| ==> NoWayLost(areas, Closed(steps[..n]), steps[n].histId, far)
  }

  ghost predicate NeverLosesWeight(areas: seq<Area>, steps: seq<Step>, far: real) {
    forall n :: 0 <= n < |steps| ==> NoWeightLost(areas, Closed(steps[..n]), steps[n].histId, far)
  }

  lemma NeverLosesMore(areas: seq<Area>, steps: seq<Step>, far: real)
    requires steps != []
    ensures var m := |steps| - 1;
            && (NeverLosesWay(areas, steps, far)
                <==> NeverLosesWay(areas, steps[..m], far) && NoWayLost(areas, Closed(steps[..m]), steps[m].histId, far))
            && (NeverLosesWeight(areas, steps, far)
                <==> NeverLosesWeight(areas, steps[..m], far) && NoWeightLost(areas, Closed(steps[..m]), steps[m].histId, far))
  {
    hide NoWayLost, NoWeightLost, Closed;
    forall n | 0 <= n < |steps| - 1 ensures steps[..|steps| - 1][..n] == steps[..n] {
    }
  }

  lemma {:induction false} SumLostIsNothing(areas: seq<Area>, steps: seq<Step>, far: real)
    requires AllValid(areas)
    ensures SumLost(areas, steps, far).far >= 0.0
    ensures SumLost(areas, steps, far).far == 0.0 <==> NeverLosesWeight(areas, steps, far)
    ensures NonNegativeWays(areas) ==>
              SumLost(areas, steps, far).cost >= 0.0
              && (SumLost(areas, steps, far).cost == 0.0 <==> NeverLosesWay(areas, steps, far))
  {
    hide Lost, NoWayLost, NoWeightLost;
    if steps != [] {
      var m := |steps| - 1;
      SumLostIsNothing(areas, steps[..m], far);
      LostNonNegative(areas, Closed(steps[..m]), steps[m].histId, far);
      NeverLosesMore(areas, steps, far);
    }
  }

  // The newly far total is true exactly when no weighted area loses the last facility of its list while it is near; the cost
  // total exactly when none loses it from a distance.
  lemma TotalsTrueWhenKept(areas: seq<Area>, candidates: seq<nat>, far: real, steps: seq<Step>)
    requires Greedy(areas, candidates, far, steps) && AllValid(areas)
    ensures SumFar(steps) == Inside(areas, {}, far) - Inside(areas, Closed(steps), far) <==> NeverLosesWeight(areas, steps, far)
    ensures NonNegativeWays(areas) ==>
              (SumCost(steps) == Weighted(areas, Closed(steps)) - Weighted(areas, {}) <==> NeverLosesWay(areas, steps, far))
  {
    hide NeverLosesWay, NeverLosesWeight, SumLost;
    TotalsButLost(areas, candidates, far, steps);
    SumLostIsNothing(areas, steps, far);
  }

  // ---------------------------------------------------------------- conditions known before the call

  ghost predicate HasOther(a: Area, candidates: seq<nat>) {
    exists i :: 0 <= i < |a.cands| && a.cands[i].fac !in candidates
  }

  // An area that counts has more facilities on its list than may be closed, or one that is no candidate.
  ghost predicate Lasts(areas: seq<Area>, candidates: seq<nat>, k: nat) {
    forall a :: a in areas ==> a.w == 0.0 || a.cands == [] || |a.cands| > k || HasOther(a, candidates)
  }

  lemma LastsIsServed(areas: seq<Area>, candidates: seq<nat>, k: nat, far: real, steps: seq<Step>)
    requires Greedy(areas, candidates, far, steps) && AllValid(areas) && |steps| <= k && Lasts(areas, candidates, k)
    ensures Served(areas, Closed(steps))
  {
    ClosedSize(areas, candidates, far, steps);
    OnlyCandidatesClose(areas, candidates, far, steps);
    forall a | a in areas ensures ServedOne(a, Closed(steps)) {
      if HasOther(a, candidates) {
        FirstOpenIs(a.cands, Closed(steps));
      } else if a.w != 0.0 && a.cands != [] {
        StillServed(a.cands, Closed(steps));
      }
    }
  }

  // Then both totals are true and no step is cheaper than an earlier one.
  lemma LastingListsSuffice(areas: seq<Area>, candidates: seq<nat>, k: nat, far: real, steps: seq<Step>)
    requires Greedy(areas, candidates, far, steps) && AllValid(areas) && |steps| <= k && Lasts(areas, candidates, k)
    ensures SumCost(steps) == Weighted(areas, Closed(steps)) - Weighted(areas, {})
    ensures SumFar(steps) == Inside(areas, {}, far) - Inside(areas, Closed(steps), far)
    ensures forall i, j :: 0 <= i <= j < |steps| ==> steps[i].impact.cost <= steps[j].impact.cost
  {
    LastsIsServed(areas, candidates, k, far, steps);
    TotalsAreTrue(areas, candidates, far, steps);
    StepCostsRise(areas, candidates, far, steps);
  }

  ghost predicate PositiveWays(areas: seq<Area>) {
    forall a, i :: a in areas && 0 <= i < |a.cands| ==> a.cands[i].d > 0.0
  }

  // An area served at first and not at the end has run out at some step.
  lemma {:induction false} RunsOutSomewhere(a: Area, steps: seq<Step>) returns (n: nat)
    requires a.Dist({}).Some? && a.Dist(Closed(steps)).None?
    ensures n < |steps| && RunsOut(a, Closed(steps[..n]), steps[n].histId)
  {
    NoneClosed();
    assert steps != [];
    var m := |steps| - 1;
    ClosedStep(steps);
    if a.Dist(Closed(steps[..m])).Some? {
      n := m;
    } else {
      n := RunsOutSomewhere(a, steps[..m]);
      assert steps[..m][..n] == steps[..n];
    }
  }

  lemma NoneClosed()
    ensures Closed([]) == {}
  {
  }

  lemma RunOutIsLost(a: Area, removed: set<nat>, c: nat, far: real)
    requires a.Valid() && a.w > 0.0 && RunsOut(a, removed, c) && forall i :: 0 <= i < |a.cands| ==> a.cands[i].d > 0.0
    ensures LostOne(a, removed, c, far).cost > 0.0
  {
    FirstOpenIs(a.cands, removed);
  }

  // With all distances positive the cost total is true exactly when every weighted area with a list keeps an open facility.
  lemma TotalTrueWhenServed(areas: seq<Area>, candidates: seq<nat>, far: real, steps: seq<Step>)
    requires Greedy(areas, candidates, far, steps) && AllValid(areas) && PositiveWays(areas)
    ensures SumCost(steps) == Weighted(areas, Closed(steps)) - Weighted(areas, {}) <==> Served(areas, Closed(steps))
  {
    if Served(areas, Closed(steps)) {
      TotalsAreTrue(areas, candidates, far, steps);
    } else {
      var a :| a in areas && !ServedOne(a, Closed(steps));
      FirstOpenIs(a.cands, {});
      assert a.cands[0].fac !in {};
      var n := RunsOutSomewhere(a, steps);
      RunOutIsLost(a, Closed(steps[..n]), steps[n].histId, far);
      assert !NoWayLost(areas, Closed(steps[..n]), steps[n].histId, far);
      TotalsTrueWhenKept(areas, candidates, far, steps);
    }
  }

  // So when as many facilities may be closed as there are candidates, the total is true exactly when no weighted area's list lies
  // inside the candidates.
  lemma FullClosingTrueWhenOthers(areas: seq<Area>, candidates: seq<nat>, far: real, steps: seq<Step>)
    requires Greedy(areas, candidates, far, steps) && AllValid(areas) && PositiveWays(areas) && AllClosed(candidates, steps)
    ensures SumCost(steps) == Weighted(areas, Closed(steps)) - Weighted(areas, {})
            <==> forall a :: a in areas ==> a.w == 0.0 || a.cands == [] || HasOther(a, candidates)
  {
    TotalTrueWhenServed(areas, candidates, far, steps);
    OnlyCandidatesClose(areas, candidates, far, steps);
    forall a | a in areas ensures ServedOne(a, Closed(steps)) <==> a.w == 0.0 || a.cands == [] || HasOther(a, candidates) {
      FirstOpenIs(a.cands, Closed(steps));
    }
  }

  // ---------------------------------------------------------------- an input on which they run out

  // Facility p stands beside the area, q five metres off.
  ghost predicate Between(a: Area, p: nat, q: nat) {
    a.w == 1.0 && a.cands == [Cand(p, 0.0), Cand(q, 5.0)] && p != q
  }

  lemma DistOfTwo(a: Area, p: nat, q: nat, removed: set<nat>)
    requires Between(a, p, q)
    ensures a.Dist(removed) == if p !in removed then Some(0.0) else if q !in removed then Some(5.0) else None
  {
    assert a.cands[1..] == [Cand(q, 5.0)];
    OneListed(Cand(q, 5.0), removed);
  }

  lemma OneListed(x: Cand, removed: set<nat>)
    ensures FirstOpen([x], removed) == if x.fac !in removed then Some(x.d) else None
  {
    assert [x][1..] == [];
  }

  lemma OneOfTwo(a: Area, p: nat, q: nat, removed: set<nat>, c: nat, far: real)
    requires Between(a, p, q) && (c == p || c == q) && far >= 5.0
    ensures One(a, removed, c, far) == if c == p && p !in removed && q !in removed then Impact(5.0, 0.0, 1) else ZERO
  {
    hide Area.Dist, FirstOpen;
    DistOfTwo(a, p, q, removed);
    DistOfTwo(a, p, q, removed + {c});
  }

  lemma TotalOfTwo(a: Area, b: Area, removed: set<nat>, c: nat, far: real)
    ensures Total([a, b], removed, c, far) == Plus(One(a, removed, c, far), One(b, removed, c, far))
  {
    hide Total, One, Plus;
    TotalOfOneMore([], a, removed, c, far);
    TotalOfOneMore([a], b, removed, c, far);
    TotalOfNone(removed, c, far);
    PlusZero(One(a, removed, c, far));
    ZeroPlus(One(a, removed, c, far));
    assert [] + [a] == [a] && [a] + [b] == [a, b];
  }

  lemma ZeroPlus(i: Impact)
    ensures Plus(ZERO, i) == i
  {
  }

  lemma TwoRounds(x: Area, y: Area, removed: set<nat>, c: nat, far: real)
    requires Between(x, 1, 2) && Between(y, 2, 1) && (c == 1 || c == 2) && far >= 5.0
    ensures Total([x, y], removed, c, far) == if 1 !in removed && 2 !in removed then Impact(5.0, 0.0, 1) else ZERO
  {
    hide Total, One;
    TotalOfTwo(x, y, removed, c, far);
    OneOfTwo(x, 1, 2, removed, c, far);
    OneOfTwo(y, 2, 1, removed, c, far);
  }

  lemma SumsOfTwo(x: Area, y: Area, removed: set<nat>, far: real)
    ensures Weighted([x, y], removed) == Weighted([x], removed) + Weighted([y], removed)
    ensures Inside([x, y], removed, far) == Inside([x], removed, far) + Inside([y], removed, far)
  {
    SplitLast([x, y], removed, far);
    assert [x, y][..1] == [x];
  }

  lemma SumsOfOne(a: Area, p: nat, q: nat, removed: set<nat>, far: real)
    requires Between(a, p, q) && far >= 5.0 && (p !in removed || q in removed)
    ensures Weighted([a], removed) == 0.0
    ensures Inside([a], removed, far) == if p !in removed then 1.0 else 0.0
  {
    hide Area.Dist, FirstOpen;
    DistOfTwo(a, p, q, removed);
    assert [a][..0] == [];
  }

  lemma GreedyMore(areas: seq<Area>, candidates: seq<nat>, far: real, steps: seq<Step>, st: Step)
    requires Greedy(areas, candidates, far, steps) && IsLeast(areas, candidates, Closed(steps), far, st)
    ensures Greedy(areas, candidates, far, steps + [st])
  {
    hide IsLeast, Closed;
    assert (steps + [st])[..|steps|] == steps;
  }

  lemma TwoSteps(areas: seq<Area>, far: real, s1: Step, s2: Step)
    requires IsLeast(areas, [1, 2], {}, far, s1) && IsLeast(areas, [1, 2], {s1.histId}, far, s2)
    ensures Greedy(areas, [1, 2], far, [s1, s2]) && Closed([s1, s2]) == {s1.histId, s2.histId}
    ensures SumCost([s1, s2]) == s1.impact.cost + s2.impact.cost && SumFar([s1, s2]) == s1.impact.far + s2.impact.far
  {
    hide IsLeast;
    NoneClosed();
    ClosedStep([s1]);
    ClosedStep([s1, s2]);
    assert [s1][..0] == [] && [s1, s2][..1] == [s1];
    assert Closed([s1]) == {s1.histId};
    GreedyMore(areas, [1, 2], far, [], s1);
    GreedyMore(areas, [1, 2], far, [s1], s2);
    assert [] + [s1] == [s1] && [s1] + [s2] == [s1, s2];
    assert SumCost([s1]) == s1.impact.cost && SumFar([s1]) == s1.impact.far;
  }

  // Two areas beside one facility each, with the other's five metres off, both closed: the second step costs nothing, less than
  // the first, and neither total is the change from before to after.
  lemma ShortListsMislead(x: Area, y: Area, far: real) returns (steps: seq<Step>)
    requires Between(x, 1, 2) && Between(y, 2, 1) && far >= 5.0
    ensures AllValid([x, y]) && Greedy([x, y], [1, 2], far, steps) && |steps| == 2
    ensures steps[0].impact.cost == 5.0 && steps[1].impact.cost == 0.0
    ensures SumCost(steps) != Weighted([x, y], Closed(steps)) - Weighted([x, y], {})
    ensures SumFar(steps) != Inside([x, y], {}, far) - Inside([x, y], Closed(steps), far)
  {
    hide Total, Weighted, Inside, SumCost, SumFar, Greedy, Closed;
    var s1, s2 := Step(1, Impact(5.0, 0.0, 1)), Step(2, ZERO);
    steps := [s1, s2];
    TwoRounds(x, y, {}, 1, far);
    TwoRounds(x, y, {}, 2, far);
    TwoRounds(x, y, {1}, 2, far);
    TwoSteps([x, y], far, s1, s2);
    SumsOfTwo(x, y, {}, far);
    SumsOfTwo(x, y, {1, 2}, far);
    SumsOfOne(x, 1, 2, {}, far);
    SumsOfOne(y, 2, 1, {}, far);
    SumsOfOne(x, 1, 2, {1, 2}, far);
    SumsOfOne(y, 2, 1, {1, 2}, far);
  }
}
