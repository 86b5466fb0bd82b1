// Which post offices to close: the greedy choice of least harm, its per-facility index and its one-pass shortcut.
module CloseFacilities {
  import opened FiniteSets
  import opened Options

  datatype Cand = Cand(fac: nat, d: real)

  // A demand point: its weight and its nearest facilities, nearest first.
  datatype Area = Area(cd: nat, w: real, cands: seq<Cand>) {
    ghost predicate Valid() {
      w >= 0.0 && SortedCands(cands) && DistinctCands(cands)
    }

    function Dist(removed: set<nat>): Option<real> {
      FirstOpen(cands, removed)
    }
  }

  function FirstOpen(cands: seq<Cand>, removed: set<nat>): Option<real> {
    if cands == [] then None
    else if cands[0].fac !in removed then Some(cands[0].d)
    else FirstOpen(cands[1..], removed)
  }

  ghost predicate SortedCands(cands: seq<Cand>) {
    forall i, j :: 0 <= i < j < |cands| ==> cands[i].d <= cands[j].d
  }

  ghost predicate DistinctCands(cands: seq<Cand>) {
    forall i, j :: 0 <= i < j < |cands| ==> cands[i].fac != cands[j].fac
  }

  // ---------------------------------------------------------------- one area

  lemma {:induction false} FirstOpenIs(cands: seq<Cand>, removed: set<nat>)
    ensures FirstOpen(cands, removed).None? <==> forall i :: 0 <= i < |cands| ==> cands[i].fac in removed
    ensures FirstOpen(cands, removed).Some? ==>
              exists i :: 0 <= i < |cands| && cands[i].fac !in removed && cands[i].d == FirstOpen(cands, removed).value
    ensures SortedCands(cands) && FirstOpen(cands, removed).Some? ==>
              forall i :: 0 <= i < |cands| && cands[i].fac !in removed ==> FirstOpen(cands, removed).value <= cands[i].d
  {
    if cands != [] && cands[0].fac in removed {
      FirstOpenIs(cands[1..], removed);
      if FirstOpen(cands, removed).Some? {
        var i :| 0 <= i < |cands[1..]| && cands[1..][i].fac !in removed && cands[1..][i].d == FirstOpen(cands, removed).value;
        assert cands[i + 1] == cands[1..][i];
      }
      forall i | 0 < i < |cands| ensures cands[i] == cands[1..][i - 1] {
      }
    }
  }

  // Closing more never brings anything nearer.
  lemma {:induction false} FartherWhenMoreClosed(cands: seq<Cand>, removed: set<nat>, more: set<nat>)
    requires SortedCands(cands) && removed <= more
    ensures FirstOpen(cands, more).Some? ==>
              FirstOpen(cands, removed).Some? && FirstOpen(cands, removed).value <= FirstOpen(cands, more).value
  {
    FirstOpenIs(cands, removed);
    FirstOpenIs(cands, more);
  }

  ghost function FacsOf(cands: seq<Cand>): set<nat> {
    set i | 0 <= i < |cands| :: cands[i].fac
  }

  lemma {:induction false} FacsOfSize(cands: seq<Cand>)
    requires DistinctCands(cands)
    ensures |FacsOf(cands)| == |cands|
  {
    if cands != [] {
      var m := |cands| - 1;
      FacsOfSize(cands[..m]);
      assert FacsOf(cands) == FacsOf(cands[..m]) + {cands[m].fac};
    }
  }

  // A list with more facilities than were closed still has an open one.
  lemma StillServed(cands: seq<Cand>, removed: set<nat>)
    requires DistinctCands(cands) && |cands| > |removed|
    ensures FirstOpen(cands, removed).Some?
  {
    FacsOfSize(cands);
    NotAllInside(FacsOf(cands), removed);
    FirstOpenIs(cands, removed);
  }

  // d is the distance of the nearest facility of the list that is not closed.
  ghost predicate IsNearestOpen(cands: seq<Cand>, removed: set<nat>, d: real) {
    && (exists i :: 0 <= i < |cands| && cands[i].fac !in removed && cands[i].d == d)
    && (forall i :: 0 <= i < |cands| && cands[i].fac !in removed ==> d <= cands[i].d)
  }

  const TOP_N: nat := 8
  const MAX_K: nat := 7

  function Top(full: seq<Cand>): seq<Cand> {
    if |full| <= TOP_N then full else full[..TOP_N]
  }

  // Keeping only the eight nearest facilities loses nothing as long as at most seven are closed.
  lemma TopIsExact(full: seq<Cand>, removed: set<nat>)
    requires SortedCands(full) && DistinctCands(full) && |removed| <= MAX_K
    ensures FirstOpen(Top(full), removed) == FirstOpen(full, removed)
    ensures FirstOpen(Top(full), removed).Some? <==> exists i :: 0 <= i < |full| && full[i].fac !in removed
    ensures forall d :: FirstOpen(Top(full), removed) == Some(d) <==> IsNearestOpen(full, removed, d)
  {
    FirstOpenIs(full, removed);
    if |full| > TOP_N {
      StillServed(Top(full), removed);
      FirstOpenOfPrefix(full, TOP_N, removed);
    }
    forall d ensures FirstOpen(full, removed) == Some(d) <==> IsNearestOpen(full, removed, d) {
    }
  }

  lemma {:induction false} FirstOpenOfPrefix(cands: seq<Cand>, n: nat, removed: set<nat>)
    requires n <= |cands| && FirstOpen(cands[..n], removed).Some?
    ensures FirstOpen(cands, removed) == FirstOpen(cands[..n], removed)
  {
    if cands[0].fac in removed {
      assert cands[1..][..n - 1] == cands[..n][1..];
      FirstOpenOfPrefix(cands[1..], n - 1, removed);
    }
  }

  // What closing c costs grows with what is closed already.
  lemma {:induction false} CostGrows(cands: seq<Cand>, removed: set<nat>, x: nat, c: nat)
    requires SortedCands(cands) && DistinctCands(cands) && c != x && c !in removed && x !in removed
    requires FirstOpen(cands, removed + {x} + {c}).Some?
    ensures FirstOpen(cands, removed + {c}).Some? && FirstOpen(cands, removed + {x}).Some? && FirstOpen(cands, removed).Some?
    ensures FirstOpen(cands, removed + {c}).value - FirstOpen(cands, removed).value
            <= FirstOpen(cands, removed + {x} + {c}).value - FirstOpen(cands, removed + {x}).value
  {
    FartherWhenMoreClosed(cands, removed, removed + {x});
    FartherWhenMoreClosed(cands, removed + {c}, removed + {x} + {c});
    FartherWhenMoreClosed(cands, removed + {x}, removed + {x} + {c});
    if cands[0].fac in removed {
      CostGrows(cands[1..], removed, x, c);
    }
  }

  // ---------------------------------------------------------------- what closing one facility does

  datatype Impact = Impact(cost: real, far: real, touched: nat)

  function Plus(a: Impact, b: Impact): Impact {
    Impact(a.cost + b.cost, a.far + b.far, a.touched + b.touched)
  }

  const ZERO: Impact := Impact(0.0, 0.0, 0)

  // The weighted way that is added when the nearest distance rises.
  function Added(w: real, from: real, to: real): real {
    w * (to - from)
  }

  ghost function One(a: Area, removed: set<nat>, c: nat, far: real): Impact {
    var before, now := a.Dist(removed), a.Dist(removed + {c});
    if before.None? || now.None? || now == before then ZERO
    else Impact(Added(a.w, before.value, now.value), if before.value <= far < now.value then a.w else 0.0, 1)
  }

  ghost function Total(areas: seq<Area>, removed: set<nat>, c: nat, far: real): Impact {
    if areas == [] then ZERO
    else Plus(Total(areas[..|areas| - 1], removed, c, far), One(areas[|areas| - 1], removed, c, far))
  }

  // How often an area is listed under facility c.
  ghost function Times(cands: seq<Cand>, c: nat): nat {
    if cands == [] then 0 else Times(cands[..|cands| - 1], c) + if cands[|cands| - 1].fac == c then 1 else 0
  }

  ghost function Copies(a: Area, n: nat): seq<Area> {
    seq(n, _ => a)
  }

  // The areas the index lists under facility c.
  ghost function Listed(areas: seq<Area>, c: nat): seq<Area> {
    if areas == [] then []
    else
      var a := areas[|areas| - 1];
      Listed(areas[..|areas| - 1], c) + Copies(a, Times(a.cands, c))
  }

  lemma {:induction false} TimesOfDistinct(cands: seq<Cand>, c: nat)
    requires DistinctCands(cands)
    ensures Times(cands, c) == if exists i :: 0 <= i < |cands| && cands[i].fac == c then 1 else 0
  {
    if cands != [] {
      var m := |cands| - 1;
      TimesOfDistinct(cands[..m], c);
      if i :| 0 <= i < |cands| && cands[i].fac == c {
        assert i < m ==> cands[..m][i].fac == c;
      }
    }
  }

  lemma {:induction false} NotListedNotTouched(cands: seq<Cand>, removed: set<nat>, c: nat)
    requires forall i :: 0 <= i < |cands| ==> cands[i].fac != c
    ensures FirstOpen(cands, removed + {c}) == FirstOpen(cands, removed)
  {
    if cands != [] {
      NotListedNotTouched(cands[1..], removed, c);
    }
  }

  lemma NotListedIsZero(a: Area, removed: set<nat>, c: nat, far: real)
    requires forall i :: 0 <= i < |a.cands| ==> a.cands[i].fac != c
    ensures One(a, removed, c, far) == ZERO
  {
    NotListedNotTouched(a.cands, removed, c);
  }

  lemma TotalOfOneMore(areas: seq<Area>, a: Area, removed: set<nat>, c: nat, far: real)
    ensures Total(areas + [a], removed, c, far) == Plus(Total(areas, removed, c, far), One(a, removed, c, far))
  {
    assert (areas + [a])[..|areas|] == areas;
  }

  // Summing over the index gives what summing over all areas would, for any set of closed facilities.
  lemma {:induction false} IndexIsEnough(areas: seq<Area>, removed: set<nat>, c: nat, far: real)
    requires forall a :: a in areas ==> DistinctCands(a.cands)
    ensures Total(Listed(areas, c), removed, c, far) == Total(areas, removed, c, far)
  {
    hide One;
    if areas != [] {
      var m := |areas| - 1;
      var a := areas[m];
      IndexIsEnough(areas[..m], removed, c, far);
      TimesOfDistinct(a.cands, c);
      if Times(a.cands, c) == 0 {
        NotListedIsZero(a, removed, c, far);
        assert Copies(a, 0) == [];
        assert Listed(areas, c) == Listed(areas[..m], c);
      } else {
        assert Copies(a, 1) == [a];
        assert Listed(areas, c) == Listed(areas[..m], c) + [a];
        TotalOfOneMore(Listed(areas[..m], c), a, removed, c, far);
      }
    }
  }

  // The areas that have an open facility before and after, but at another distance.
  ghost function Moved(areas: seq<Area>, removed: set<nat>, c: nat): set<nat> {
    set i: nat | i < |areas| && areas[i].Dist(removed).Some? && areas[i].Dist(removed + {c}).Some?
                 && areas[i].Dist(removed).value != areas[i].Dist(removed + {c}).value
  }

  lemma MovedOfMore(areas: seq<Area>, a: Area, removed: set<nat>, c: nat, far: real)
    ensures |Moved(areas + [a], removed, c)| == |Moved(areas, removed, c)| + One(a, removed, c, far).touched
  {
    hide Area.Dist;
    var all := areas + [a];
    assert all[|areas|] == a;
    assert forall i :: 0 <= i < |areas| ==> all[i] == areas[i];
    if One(a, removed, c, far).touched == 0 {
      assert Moved(all, removed, c) == Moved(areas, removed, c);
    } else {
      assert Moved(all, removed, c) == Moved(areas, removed, c) + {|areas|};
    }
  }

  // The number reported with a closing is that of the areas it moves.
  lemma {:induction false} TouchedAreMoved(areas: seq<Area>, removed: set<nat>, c: nat, far: real)
    ensures Total(areas, removed, c, far).touched == |Moved(areas, removed, c)|
  {
    hide One, Moved;
    if areas == [] {
      NoneMoved(removed, c);
    } else {
      var m := |areas| - 1;
      TouchedAreMoved(areas[..m], removed, c, far);
      assert areas == areas[..m] + [areas[m]];
      MovedOfMore(areas[..m], areas[m], removed, c, far);
    }
  }

  lemma NoneMoved(removed: set<nat>, c: nat)
    ensures Moved([], removed, c) == {}
  {
  }

  // ---------------------------------------------------------------- the greedy choice

  datatype Step = Step(histId: nat, impact: Impact)

  ghost function Closed(steps: seq<Step>): set<nat> {
    set i | 0 <= i < |steps| :: steps[i].histId
  }

  predicate KeyLe(cost: real, c: nat, cost': real, c': nat) {
    cost < cost' || (cost == cost' && c <= c')
  }

  // The candidate costs least of those still open, and bears the smallest number among those of that cost.
  ghost predicate IsLeast(areas: seq<Area>, candidates: seq<nat>, removed: set<nat>, far: real, st: Step) {
    && st.histId in candidates
    && st.histId !in removed
    && st.impact == Total(areas, removed, st.histId, far)
    && forall c :: c in candidates && c !in removed ==>
         var cost := Total(areas, removed, c, far).cost;
         st.impact.cost <= cost && (st.impact.cost == cost ==> st.histId <= c)
  }

  // Each step closes the candidate whose closing costs least at that moment.
  ghost predicate Greedy(areas: seq<Area>, candidates: seq<nat>, far: real, steps: seq<Step>) {
    steps != [] ==>
      var m := |steps| - 1;
      && Greedy(areas, candidates, far, steps[..m])
      && IsLeast(areas, candidates, Closed(steps[..m]), far, steps[m])
  }

  // Every step reports how many areas it moves, given what is closed by then.
  ghost predicate CountsMoved(areas: seq<Area>, steps: seq<Step>) {
    forall n :: 0 <= n < |steps| ==> steps[n].impact.touched == |Moved(areas, Closed(steps[..n]), steps[n].histId)|
  }

  lemma {:induction false} GreedyCountsMoved(areas: seq<Area>, candidates: seq<nat>, far: real, steps: seq<Step>)
    requires Greedy(areas, candidates, far, steps)
    ensures CountsMoved(areas, steps)
  {
    hide Moved, Closed, Total;
    if steps != [] {
      var m := |steps| - 1;
      GreedyCountsMoved(areas, candidates, far, steps[..m]);
      TouchedAreMoved(areas, Closed(steps[..m]), steps[m].histId, far);
      forall n | 0 <= n < m ensures steps[..m][n] == steps[n] && steps[..m][..n] == steps[..n] {
      }
    }
  }

  lemma {:induction false} ClosedSize(areas: seq<Area>, candidates: seq<nat>, far: real, steps: seq<Step>)
    requires Greedy(areas, candidates, far, steps)
    ensures |Closed(steps)| == |steps|
  {
    if steps != [] {
      var m := |steps| - 1;
      ClosedSize(areas, candidates, far, steps[..m]);
      ClosedStep(steps);
    }
  }

  lemma ClosedStep(steps: seq<Step>)
    requires steps != []
    ensures Closed(steps) == Closed(steps[..|steps| - 1]) + {steps[|steps| - 1].histId}
  {
  }

  ghost predicate AllValid(areas: seq<Area>) {
    forall a :: a in areas ==> a.Valid()
  }

  // An area that counts and lists any facility at all still has one that is open.
  ghost predicate ServedOne(a: Area, removed: set<nat>) {
    a.w == 0.0 || a.cands == [] || a.Dist(removed).Some?
  }

  ghost predicate Served(areas: seq<Area>, removed: set<nat>) {
    forall a :: a in areas ==> ServedOne(a, removed)
  }

  lemma ServedBefore(areas: seq<Area>, removed: set<nat>, more: set<nat>)
    requires AllValid(areas) && removed <= more && Served(areas, more)
    ensures Served(areas, removed)
  {
    forall a | a in areas ensures ServedOne(a, removed) {
      assert ServedOne(a, more);
      FartherWhenMoreClosed(a.cands, removed, more);
    }
  }

  lemma AddedGrows(w: real, from: real, to: real, from': real, to': real)
    requires w >= 0.0 && 0.0 <= to - from <= to' - from'
    ensures 0.0 <= Added(w, from, to) <= Added(w, from', to')
  {
    assert w * (to' - from') == w * (to - from) + w * ((to' - from') - (to - from));
  }

  lemma AddedIsDifference(w: real, from: real, to: real)
    ensures Added(w, from, to) == w * to - w * from
    ensures from == to ==> Added(w, from, to) == 0.0
  {
  }

  lemma OneOfNoWeight(a: Area, removed: set<nat>, c: nat, far: real)
    requires a.w == 0.0 || a.cands == []
    ensures One(a, removed, c, far).cost == 0.0 && One(a, removed, c, far).far == 0.0
  {
  }

  lemma OneGrows(a: Area, removed: set<nat>, x: nat, c: nat, far: real)
    requires a.Valid() && c != x && c !in removed && x !in removed
    requires ServedOne(a, removed + {x} + {c})
    ensures 0.0 <= One(a, removed, c, far).cost <= One(a, removed + {x}, c, far).cost
  {
    hide Added;
    if a.w == 0.0 || a.cands == [] {
      OneOfNoWeight(a, removed, c, far);
      OneOfNoWeight(a, removed + {x}, c, far);
    } else {
      CostGrows(a.cands, removed, x, c);
      FartherWhenMoreClosed(a.cands, removed, removed + {c});
      var before, now := a.Dist(removed).value, a.Dist(removed + {c}).value;
      var before', now' := a.Dist(removed + {x}).value, a.Dist(removed + {x} + {c}).value;
      FartherWhenMoreClosed(a.cands, removed + {x}, removed + {x} + {c});
      AddedGrows(a.w, before, now, before', now');
      AddedIsDifference(a.w, before, now);
    }
  }

  lemma {:induction false} TotalGrows(areas: seq<Area>, removed: set<nat>, x: nat, c: nat, far: real)
    requires AllValid(areas) && Served(areas, removed + {x} + {c})
    requires c != x && c !in removed && x !in removed
    ensures Total(areas, removed, c, far).cost <= Total(areas, removed + {x}, c, far).cost
  {
    hide One, ServedOne;
    if areas != [] {
      TotalGrows(areas[..|areas| - 1], removed, x, c, far);
      OneGrows(areas[|areas| - 1], removed, x, c, far);
    }
  }

  lemma LastStepCostsMore(areas: seq<Area>, candidates: seq<nat>, far: real, steps: seq<Step>)
    requires Greedy(areas, candidates, far, steps) && |steps| >= 2
    requires AllValid(areas) && Served(areas, Closed(steps))
    ensures steps[|steps| - 2].impact.cost <= steps[|steps| - 1].impact.cost
  {
    var m := |steps| - 1;
    var before := Closed(steps[..m - 1]);
    var x, c := steps[m - 1].histId, steps[m].histId;
    assert steps[..m][..m - 1] == steps[..m - 1];
    assert IsLeast(areas, candidates, before, far, steps[m - 1]);
    ClosedStep(steps[..m]);
    ClosedStep(steps);
    assert Closed(steps[..m]) == before + {x};
    assert Closed(steps) == before + {x} + {c};
    TotalGrows(areas, before, x, c, far);
  }

  // Closing one facility after another never gets cheaper.
  lemma {:induction false} StepCostsRise(areas: seq<Area>, candidates: seq<nat>, far: real, steps: seq<Step>)
    requires Greedy(areas, candidates, far, steps)
    requires AllValid(areas) && Served(areas, Closed(steps))
    ensures forall i, j :: 0 <= i <= j < |steps| ==> steps[i].impact.cost <= steps[j].impact.cost
  {
    if |steps| >= 2 {
      var m := |steps| - 1;
      ClosedStep(steps);
      ServedBefore(areas, Closed(steps[..m]), Closed(steps));
      StepCostsRise(areas, candidates, far, steps[..m]);
      LastStepCostsMore(areas, candidates, far, steps);
      forall i | 0 <= i < m ensures steps[i].impact.cost <= steps[m - 1].impact.cost {
        assert steps[..m][i] == steps[i] && steps[..m][m - 1] == steps[m - 1];
      }
    }
  }

  // ---------------------------------------------------------------- the totals

  ghost function Weighted(areas: seq<Area>, removed: set<nat>): real {
    if areas == [] then 0.0
    else
      var a := areas[|areas| - 1];
      Weighted(areas[..|areas| - 1], removed) + match a.Dist(removed) case None => 0.0 case Some(d) => a.w * d
  }

  // Weight of the demand that still has an office within far.
  ghost function Inside(areas: seq<Area>, removed: set<nat>, far: real): real {
    if areas == [] then 0.0
    else
      var a := areas[|areas| - 1];
      Inside(areas[..|areas| - 1], removed, far)
      + match a.Dist(removed) case None => 0.0 case Some(d) => if d <= far then a.w else 0.0
  }

  lemma OneIsDifference(a: Area, removed: set<nat>, c: nat, far: real)
    requires a.Valid() && ServedOne(a, removed + {c})
    ensures Weighted([a], removed + {c}) - Weighted([a], removed) == One(a, removed, c, far).cost
    ensures Inside([a], removed, far) - Inside([a], removed + {c}, far) == One(a, removed, c, far).far
  {
    hide Added;
    FartherWhenMoreClosed(a.cands, removed, removed + {c});
    assert [a][..0] == [];
    if a.w == 0.0 || a.cands == [] {
      OneOfNoWeight(a, removed, c, far);
    } else {
      AddedIsDifference(a.w, a.Dist(removed).value, a.Dist(removed + {c}).value);
    }
  }

  lemma SplitLast(areas: seq<Area>, removed: set<nat>, far: real)
    requires areas != []
    ensures var m := |areas| - 1;
            && Weighted(areas, removed) == Weighted(areas[..m], removed) + Weighted([areas[m]], removed)
            && Inside(areas, removed, far) == Inside(areas[..m], removed, far) + Inside([areas[m]], removed, far)
  {
    assert [areas[|areas| - 1]][..0] == [];
  }

  lemma {:induction false} TotalIsDifference(areas: seq<Area>, removed: set<nat>, c: nat, far: real)
    requires AllValid(areas) && Served(areas, removed + {c})
    ensures Total(areas, removed, c, far).cost == Weighted(areas, removed + {c}) - Weighted(areas, removed)
    ensures Total(areas, removed, c, far).far == Inside(areas, removed, far) - Inside(areas, removed + {c}, far)
  {
    hide One, ServedOne;
    if areas != [] {
      var m := |areas| - 1;
      TotalIsDifference(areas[..m], removed, c, far);
      SplitLast(areas, removed, far);
      SplitLast(areas, removed + {c}, far);
      OneIsDifference(areas[m], removed, c, far);
    }
  }

  ghost function SumCost(steps: seq<Step>): real {
    if steps == [] then 0.0 else SumCost(steps[..|steps| - 1]) + steps[|steps| - 1].impact.cost
  }

  ghost function SumFar(steps: seq<Step>): real {
    if steps == [] then 0.0 else SumFar(steps[..|steps| - 1]) + steps[|steps| - 1].impact.far
  }

  // The summed steps are the change of the weighted distance, and of the weight within far, from before to after.
  lemma {:induction false} TotalsAreTrue(areas: seq<Area>, candidates: seq<nat>, far: real, steps: seq<Step>)
    requires Greedy(areas, candidates, far, steps)
    requires AllValid(areas) && Served(areas, Closed(steps))
    ensures SumCost(steps) == Weighted(areas, Closed(steps)) - Weighted(areas, {})
    ensures SumFar(steps) == Inside(areas, {}, far) - Inside(areas, Closed(steps), far)
  {
    if steps == [] {
      assert Closed(steps) == {};
    } else {
      var m := |steps| - 1;
      ClosedStep(steps);
      ServedBefore(areas, Closed(steps[..m]), Closed(steps));
      TotalsAreTrue(areas, candidates, far, steps[..m]);
      TotalIsDifference(areas, Closed(steps[..m]), steps[m].histId, far);
    }
  }

  // ---------------------------------------------------------------- the loops

  ghost function ListedIn(byFac: map<nat, seq<Area>>, c: nat): seq<Area> {
    if c in byFac then byFac[c] else []
  }

  // The index: under every facility the areas that have it among their nearest.
  method BuildIndex(areas: seq<Area>) returns (byFac: map<nat, seq<Area>>)
    ensures forall c :: ListedIn(byFac, c) == Listed(areas, c)
  {
    byFac := map[];
    var i := 0;
    while i < |areas|
      invariant 0 <= i <= |areas|
      invariant forall c :: ListedIn(byFac, c) == Listed(areas[..i], c)
    {
      byFac := IndexArea(byFac, areas[i]);
      assert areas[..i + 1][..i] == areas[..i];
      i := i + 1;
    }
    assert areas[..i] == areas;
  }

  lemma OneMoreListed(a: Area, j: nat, c: nat)
    requires j < |a.cands|
    ensures Copies(a, Times(a.cands[..j + 1], c))
            == Copies(a, Times(a.cands[..j], c)) + if a.cands[j].fac == c then [a] else []
  {
    assert a.cands[..j + 1][..j] == a.cands[..j];
  }

  method IndexArea(byFac0: map<nat, seq<Area>>, a: Area) returns (byFac: map<nat, seq<Area>>)
    ensures forall c :: ListedIn(byFac, c) == ListedIn(byFac0, c) + Copies(a, Times(a.cands, c))
  {
    hide Copies, Times;
    byFac := byFac0;
    var j := 0;
    NoneListed(a);
    while j < |a.cands|
      invariant 0 <= j <= |a.cands|
      invariant forall c :: ListedIn(byFac, c) == ListedIn(byFac0, c) + Copies(a, Times(a.cands[..j], c))
    {
      var h := a.cands[j].fac;
      ghost var before := byFac;
      byFac := byFac[h := (if h in byFac then byFac[h] else []) + [a]];
      forall c: nat ensures ListedIn(byFac, c) == ListedIn(byFac0, c) + Copies(a, Times(a.cands[..j + 1], c)) {
        OneMoreListed(a, j, c);
        assert ListedIn(byFac, c) == ListedIn(before, c) + if h == c then [a] else [];
      }
      j := j + 1;
    }
    assert a.cands[..j] == a.cands;
  }

  lemma NoneListed(a: Area)
    ensures forall c :: Copies(a, Times(a.cands[..0], c)) == []
  {
  }

  // The numbers of one candidate, summed over the areas the index lists for it.
  method Measure(listed: seq<Area>, removed: set<nat>, c: nat, far: real) returns (r: Impact)
    ensures r == Total(listed, removed, c, far)
  {
    hide Total, FirstOpen, Area.Dist, Added;
    var cost, newlyFar, touched := 0.0, 0.0, 0;
    var after := removed + {c};
    TotalOfNone(removed, c, far);
    var i := 0;
    while i < |listed|
      invariant 0 <= i <= |listed|
      invariant Impact(cost, newlyFar, touched) == Total(listed[..i], removed, c, far)
    {
      var a := listed[i];
      var before, now := a.Dist(removed), a.Dist(after);
      assert listed[..i + 1] == listed[..i] + [a];
      TotalOfOneMore(listed[..i], a, removed, c, far);
      if before.Some? && now.Some? && now != before {
        cost := cost + Added(a.w, before.value, now.value);
        touched := touched + 1;
        if before.value <= far < now.value {
          newlyFar := newlyFar + a.w;
        }
      }
      i := i + 1;
    }
    assert listed[..i] == listed;
    r := Impact(cost, newlyFar, touched);
  }

  lemma TotalOfNone(removed: set<nat>, c: nat, far: real)
    ensures Total([], removed, c, far) == ZERO
  {
  }

  method PickLeast(areas: seq<Area>, byFac: map<nat, seq<Area>>, candidates: seq<nat>, removed: set<nat>, far: real)
    returns (found: bool, best: Step)
    requires forall a :: a in areas ==> DistinctCands(a.cands)
    requires forall c :: ListedIn(byFac, c) == Listed(areas, c)
    ensures found ==> IsLeast(areas, candidates, removed, far, best)
    ensures !found ==> forall c :: c in candidates ==> c in removed
  {
    found, best := false, Step(0, ZERO);
    var i := 0;
    while i < |candidates|
      invariant 0 <= i <= |candidates|
      invariant found ==> IsLeast(areas, candidates[..i], removed, far, best)
      invariant !found ==> forall c :: c in candidates[..i] ==> c in removed
    {
      var c := candidates[i];
      assert candidates[..i + 1] == candidates[..i] + [c];
      if c !in removed {
        var impact := Measure(if c in byFac then byFac[c] else [], removed, c, far);
        assert ListedIn(byFac, c) == Listed(areas, c);
        IndexIsEnough(areas, removed, c, far);
        if !found || !KeyLe(best.impact.cost, best.histId, impact.cost, c) {
          found, best := true, Step(c, impact);
        }
      }
      i := i + 1;
    }
    assert candidates[..i] == candidates;
  }

  ghost predicate AllClosed(candidates: seq<nat>, steps: seq<Step>) {
    forall c :: c in candidates ==> c in Closed(steps)
  }

  lemma {:induction false} OnlyCandidatesClose(areas: seq<Area>, candidates: seq<nat>, far: real, steps: seq<Step>)
    requires Greedy(areas, candidates, far, steps)
    ensures forall c :: c in Closed(steps) ==> c in candidates
  {
    if steps != [] {
      var m := |steps| - 1;
      OnlyCandidatesClose(areas, candidates, far, steps[..m]);
      ClosedStep(steps);
    }
  }

  ghost function Elems(s: seq<nat>): set<nat> {
    set c | c in s
  }

  lemma {:induction false} NoMoreElemsThanPlaces(s: seq<nat>)
    ensures |Elems(s)| <= |s|
  {
    if s != [] {
      var m := |s| - 1;
      NoMoreElemsThanPlaces(s[..m]);
      assert s == s[..m] + [s[m]];
      assert Elems(s) == Elems(s[..m]) + {s[m]};
    }
  }

  // As many steps as candidates: no candidate is left.
  lemma EveryCandidateClosed(areas: seq<Area>, candidates: seq<nat>, far: real, steps: seq<Step>)
    requires Greedy(areas, candidates, far, steps) && |steps| == |candidates|
    ensures AllClosed(candidates, steps)
  {
    OnlyCandidatesClose(areas, candidates, far, steps);
    ClosedSize(areas, candidates, far, steps);
    NoMoreElemsThanPlaces(candidates);
    SubsetOfSameSize(Closed(steps), Elems(candidates));
    assert forall c :: c in candidates ==> c in Elems(candidates);
  }

  // The greedy loop. It ends after k steps or when every candidate is closed, and with k large enough the latter.
  method GreedyClose(areas: seq<Area>, candidates: seq<nat>, k: nat, far: real) returns (steps: seq<Step>)
    requires forall a :: a in areas ==> DistinctCands(a.cands)
    ensures Greedy(areas, candidates, far, steps)
    ensures forall n :: 0 <= n < |steps| ==> steps[n].impact.touched == |Moved(areas, Closed(steps[..n]), steps[n].histId)|
    ensures |steps| <= k && |steps| <= |candidates|
    ensures |steps| == k || AllClosed(candidates, steps)
    ensures k >= |candidates| ==> AllClosed(candidates, steps)
  {
    var byFac := BuildIndex(areas);
    var removed: set<nat> := {};
    steps := [];
    var n := 0;
    while n < (if k <= |candidates| then k else |candidates|)
      invariant 0 <= n == |steps| && n <= k && n <= |candidates|
      invariant removed == Closed(steps) && Greedy(areas, candidates, far, steps)
    {
      var found, best := PickLeast(areas, byFac, candidates, removed, far);
      if !found {
        GreedyCountsMoved(areas, candidates, far, steps);
        return;
      }
      assert (steps + [best])[..n] == steps;
      ClosedStep(steps + [best]);
      removed := removed + {best.histId};
      steps := steps + [best];
      n := n + 1;
    }
    GreedyCountsMoved(areas, candidates, far, steps);
    if |steps| == |candidates| {
      EveryCandidateClosed(areas, candidates, far, steps);
    }
  }

  // ---------------------------------------------------------------- closing one facility alone

  function At(m: map<nat, Impact>, h: nat): Impact {
    if h in m then m[h] else ZERO
  }

  predicate HasSecond(a: Area) {
    |a.cands| >= 2 && a.cands[1].d > a.cands[0].d
  }

  function ToSecond(a: Area, far: real): Impact
    requires HasSecond(a)
  {
    var d1, d2 := a.cands[0].d, a.cands[1].d;
    Impact(Added(a.w, d1, d2), if d1 <= far < d2 then a.w else 0.0, 1)
  }

  // What the pass adds for one area: it feels the closing of its first facility, and then goes to its second.
  function FirstToSecond(a: Area, h: nat, far: real): Impact {
    if HasSecond(a) && a.cands[0].fac == h then ToSecond(a, far) else ZERO
  }

  lemma OnlyFirstMatters(a: Area, h: nat, far: real)
    requires SortedCands(a.cands) && DistinctCands(a.cands)
    ensures One(a, {}, h, far) == FirstToSecond(a, h, far)
  {
    if a.cands != [] {
      var rest := a.cands[1..];
      assert FirstOpen(a.cands, {}) == Some(a.cands[0].d);
      assert FirstOpen(a.cands, {} + {h}) == if a.cands[0].fac == h then FirstOpen(rest, {} + {h}) else Some(a.cands[0].d);
      if a.cands[0].fac == h && rest != [] {
        assert rest[0] == a.cands[1];
        assert FirstOpen(rest, {} + {h}) == Some(a.cands[1].d);
      }
    }
  }

  // One area more, and every facility's numbers are still those of closing it first.
  lemma OneAreaMore(areas: seq<Area>, a: Area, before: map<nat, Impact>, out: map<nat, Impact>, far: real)
    requires SortedCands(a.cands) && DistinctCands(a.cands)
    requires forall h :: At(before, h) == Total(areas, {}, h, far)
    requires forall h :: At(out, h) == Plus(At(before, h), FirstToSecond(a, h, far))
    ensures forall h :: At(out, h) == Total(areas + [a], {}, h, far)
  {
    hide Total, One, FirstToSecond, Plus, At;
    forall h: nat ensures At(out, h) == Total(areas + [a], {}, h, far) {
      TotalOfOneMore(areas, a, {}, h, far);
      OnlyFirstMatters(a, h, far);
    }
  }

  ghost predicate SomeMentions(areas: seq<Area>, h: nat) {
    exists i :: 0 <= i < |areas| && Mentions(areas[i].cands, h)
  }

  lemma MentionsOfMore(areas: seq<Area>, a: Area, h: nat)
    ensures SomeMentions(areas + [a], h) <==> SomeMentions(areas, h) || Mentions(a.cands, h)
  {
    hide Mentions;
    var more := areas + [a];
    forall i | 0 <= i < |areas| ensures more[i] == areas[i] {
    }
    assert more[|areas|] == a;
  }

  // One pass over the areas; out[h] is what closing h first would do.
  method SingleImpacts(areas: seq<Area>, far: real) returns (out: map<nat, Impact>)
    requires forall a :: a in areas ==> SortedCands(a.cands) && DistinctCands(a.cands)
    ensures forall h :: At(out, h) == Total(areas, {}, h, far)
    ensures forall h :: At(out, h).touched == |Moved(areas, {}, h)|
    ensures forall h :: h in out <==> SomeMentions(areas, h)
  {
    NoneImpacts(far);
    hide Total, One, FirstToSecond, Plus, At, Mentions, SomeMentions, Moved;
    out := map[];
    var i := 0;
    while i < |areas|
      invariant 0 <= i <= |areas|
      invariant forall h :: At(out, h) == Total(areas[..i], {}, h, far)
      invariant forall h :: h in out <==> SomeMentions(areas[..i], h)
    {
      ghost var before := out;
      out := PassArea(out, areas[i], far);
      assert areas[..i + 1] == areas[..i] + [areas[i]];
      OneAreaMore(areas[..i], areas[i], before, out, far);
      forall h: nat ensures h in out <==> SomeMentions(areas[..i + 1], h) {
        MentionsOfMore(areas[..i], areas[i], h);
      }
      i := i + 1;
    }
    assert areas[..i] == areas;
    forall h: nat ensures At(out, h).touched == |Moved(areas, {}, h)| {
      TouchedAreMoved(areas, {}, h, far);
    }
  }

  lemma NoneImpacts(far: real)
    ensures forall h :: At(map[], h) == Total([], {}, h, far)
    ensures forall h :: !SomeMentions([], h)
  {
  }

  lemma OneEntryMore(out: map<nat, Impact>, h1: nat, o: Impact, h: nat)
    requires h1 in out
    ensures At(out[h1 := Plus(out[h1], o)], h) == Plus(At(out, h), if h == h1 then o else ZERO)
  {
  }

  method PassArea(out0: map<nat, Impact>, a: Area, far: real) returns (out: map<nat, Impact>)
    ensures forall h :: At(out, h) == Plus(At(out0, h), FirstToSecond(a, h, far))
    ensures forall h :: h in out <==> h in out0 || Mentions(a.cands, h)
  {
    hide Added, ToSecond, Mentions, Plus, At;
    out := Mention(out0, a.cands);
    ghost var named := out;
    if HasSecond(a) {
      var h1 := a.cands[0].fac;
      FirstIsMentioned(a.cands);
      out := out[h1 := Plus(out[h1], ToSecond(a, far))];
    }
    forall h: nat ensures At(out, h) == Plus(At(out0, h), FirstToSecond(a, h, far)) {
      if HasSecond(a) {
        OneEntryMore(named, a.cands[0].fac, ToSecond(a, far), h);
      } else {
        PlusZero(At(out0, h));
      }
    }
  }

  lemma PlusZero(i: Impact)
    ensures Plus(i, ZERO) == i
  {
  }

  lemma FirstIsMentioned(cands: seq<Cand>)
    requires cands != []
    ensures Mentions(cands, cands[0].fac)
  {
  }

  ghost predicate Mentions(cands: seq<Cand>, h: nat) {
    exists j :: 0 <= j < |cands| && cands[j].fac == h
  }

  // Every facility of the list gets an entry, starting from nothing.
  method Mention(out0: map<nat, Impact>, cands: seq<Cand>) returns (out: map<nat, Impact>)
    ensures forall h :: At(out, h) == At(out0, h)
    ensures forall h :: h in out <==> h in out0 || Mentions(cands, h)
  {
    out := out0;
    var j := 0;
    while j < |cands|
      invariant 0 <= j <= |cands|
      invariant forall h :: At(out, h) == At(out0, h)
      invariant forall h :: h in out <==> h in out0 || exists n :: 0 <= n < j && cands[n].fac == h
    {
      if cands[j].fac !in out {
        out := out[cands[j].fac := ZERO];
      }
      j := j + 1;
    }
  }

  // The first greedy step is the least of the single impacts, ties to the smaller number.
  lemma {:induction false} FirstStepIsLeastSingle(areas: seq<Area>, candidates: seq<nat>, far: real, steps: seq<Step>,
                                                  out: map<nat, Impact>)
    requires Greedy(areas, candidates, far, steps) && steps != []
    requires forall h :: At(out, h) == Total(areas, {}, h, far)
    ensures steps[0].histId in candidates && steps[0].impact == At(out, steps[0].histId)
    ensures forall c :: c in candidates ==>
              At(out, steps[0].histId).cost <= At(out, c).cost
              && (At(out, steps[0].histId).cost == At(out, c).cost ==> steps[0].histId <= c)
  {
    var m := |steps| - 1;
    if m == 0 {
      assert Closed(steps[..0]) == {};
      assert IsLeast(areas, candidates, Closed(steps[..0]), far, steps[0]);
    } else {
      FirstStepIsLeastSingle(areas, candidates, far, steps[..m], out);
    }
  }
}
