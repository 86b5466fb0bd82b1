// Planning closings over the eight nearest facilities of each area instead of all of them.
module TopLists {
  import opened CloseFacilities
  import opened Options
  import opened ShortLists

  function TopOf(a: Area): Area {
    a.(cands := Top(a.cands))
  }

  function TopAll(areas: seq<Area>): seq<Area> {
    seq(|areas|, i requires 0 <= i < |areas| => TopOf(areas[i]))
  }

  lemma TopIsValid(a: Area)
    requires a.Valid()
    ensures TopOf(a).Valid()
  {
  }

  lemma TopsAreValid(areas: seq<Area>)
    requires AllValid(areas)
    ensures AllValid(TopAll(areas))
  {
    hide TopOf;
    forall i | 0 <= i < |areas| ensures TopOf(areas[i]).Valid() {
      TopIsValid(areas[i]);
    }
  }

  // ---------------------------------------------------------------- the same numbers

  lemma SameDist(a: Area, removed: set<nat>)
    requires a.Valid() && |removed| <= MAX_K
    ensures TopOf(a).Dist(removed) == a.Dist(removed) && TopOf(a).w == a.w
  {
    hide FirstOpen, Top;
    TopIsExact(a.cands, removed);
  }

  lemma SameOne(a: Area, removed: set<nat>, c: nat, far: real)
    requires a.Valid() && |removed + {c}| <= MAX_K
    ensures One(TopOf(a), removed, c, far) == One(a, removed, c, far)
  {
    hide Area.Dist, TopOf;
    FewerClosed(removed, c);
    SameDist(a, removed);
    SameDist(a, removed + {c});
  }

  lemma FewerClosed(removed: set<nat>, c: nat)
    ensures |removed| <= |removed + {c}| <= |removed| + 1
  {
    if c in removed {
      assert removed + {c} == removed;
    }
  }

  lemma {:induction false} SameTotal(areas: seq<Area>, removed: set<nat>, c: nat, far: real)
    requires AllValid(areas) && |removed + {c}| <= MAX_K
    ensures Total(TopAll(areas), removed, c, far) == Total(areas, removed, c, far)
  {
    hide One, TopOf;
    if areas != [] {
      var m := |areas| - 1;
      assert TopAll(areas)[..m] == TopAll(areas[..m]);
      SameTotal(areas[..m], removed, c, far);
      SameOne(areas[m], removed, c, far);
    }
  }

  lemma {:induction false} SameSums(areas: seq<Area>, removed: set<nat>, far: real)
    requires AllValid(areas) && |removed| <= MAX_K
    ensures Weighted(TopAll(areas), removed) == Weighted(areas, removed)
    ensures Inside(TopAll(areas), removed, far) == Inside(areas, removed, far)
  {
    hide Area.Dist, TopOf;
    if areas != [] {
      var m := |areas| - 1;
      assert TopAll(areas)[..m] == TopAll(areas[..m]);
      SameSums(areas[..m], removed, far);
      SameDist(areas[m], removed);
    }
  }

  // ---------------------------------------------------------------- the same choice

  lemma SameLeast(areas: seq<Area>, candidates: seq<nat>, removed: set<nat>, far: real, st: Step)
    requires AllValid(areas) && |removed| < MAX_K
    ensures IsLeast(TopAll(areas), candidates, removed, far, st) <==> IsLeast(areas, candidates, removed, far, st)
  {
    hide Total, TopAll;
    forall c: nat ensures Total(TopAll(areas), removed, c, far) == Total(areas, removed, c, far) {
      FewerClosed(removed, c);
      SameTotal(areas, removed, c, far);
    }
  }

  lemma {:induction false} ClosedAtMost(steps: seq<Step>)
    ensures |Closed(steps)| <= |steps|
  {
    if steps != [] {
      ClosedAtMost(steps[..|steps| - 1]);
      ClosedStep(steps);
      FewerClosed(Closed(steps[..|steps| - 1]), steps[|steps| - 1].histId);
    }
  }

  // Up to seven steps are greedy over the eight nearest exactly when they are greedy over the full lists.
  lemma {:induction false} SameGreedy(areas: seq<Area>, candidates: seq<nat>, far: real, steps: seq<Step>)
    requires AllValid(areas) && |steps| <= MAX_K
    ensures Greedy(TopAll(areas), candidates, far, steps) <==> Greedy(areas, candidates, far, steps)
  {
    hide IsLeast, TopAll, Closed;
    if steps != [] {
      var m := |steps| - 1;
      SameGreedy(areas, candidates, far, steps[..m]);
      ClosedAtMost(steps[..m]);
      SameLeast(areas, candidates, Closed(steps[..m]), far, steps[m]);
    }
  }

  // ---------------------------------------------------------------- the plan

  // Closing up to seven over the eight nearest: the steps are those of the full lists, and so is the table of single closings;
  // if the full lists last, the totals are true over them and no step is cheaper than an earlier one.
  method PlanClose(areas: seq<Area>, candidates: seq<nat>, k: nat, far: real) returns (steps: seq<Step>, singles: map<nat, Impact>)
    requires AllValid(areas) && k <= 7
    ensures Greedy(areas, candidates, far, steps) && |steps| <= k
    ensures forall n :: 0 <= n < |steps| ==> steps[n].impact.touched == |Moved(areas, Closed(steps[..n]), steps[n].histId)|
    ensures |steps| == k || AllClosed(candidates, steps)
    ensures forall h :: At(singles, h) == Total(areas, {}, h, far) && At(singles, h).touched == |Moved(areas, {}, h)|
    ensures Lasts(areas, candidates, k) ==>
              && SumCost(steps) == Weighted(areas, Closed(steps)) - Weighted(areas, {})
              && SumFar(steps) == Inside(areas, {}, far) - Inside(areas, Closed(steps), far)
              && forall i, j :: 0 <= i <= j < |steps| ==> steps[i].impact.cost <= steps[j].impact.cost
  {
    hide Greedy, Total, Weighted, Inside, At, Lasts, SumCost, SumFar, TopAll, Moved, Closed;
    TopsAreValid(areas);
    steps := GreedyClose(TopAll(areas), candidates, k, far);
    SameGreedy(areas, candidates, far, steps);
    GreedyCountsMoved(areas, candidates, far, steps);
    singles := SingleImpacts(TopAll(areas), far);
    forall h: nat ensures At(singles, h) == Total(areas, {}, h, far) && At(singles, h).touched == |Moved(areas, {}, h)| {
      TouchedAreMoved(areas, {}, h, far);
      FewerClosed({}, h);
      SameTotal(areas, {}, h, far);
    }
    if Lasts(areas, candidates, k) {
      LastingListsSuffice(areas, candidates, k, far, steps);
    }
  }
}
