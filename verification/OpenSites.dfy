// Where to open new post offices: the greedy choice of sites and how close it comes to the best choice.
module OpenSites {

  // An area within reach of a site, and its distance from the site.
  datatype Hop = Hop(area: nat, d: real)

  // Codes are fixed-width digit strings, so they compare like numbers.
  datatype Site = Site(code: nat, reach: seq<Hop>)

  // The areas in the order of the dictionary, their weights, and the candidate sites.
  datatype Plan = Plan(areas: seq<nat>, w: map<nat, real>, sites: seq<Site>, far: real) {
    ghost predicate Valid() {
      && (forall i, j :: 0 <= i < j < |areas| ==> areas[i] != areas[j])
      && (forall a :: a in areas ==> a in w && w[a] >= 0.0)
      && (forall i, j :: 0 <= i < j < |sites| ==> sites[i].code != sites[j].code)
      && (forall s :: s in sites ==> ReachOk(s.reach))
    }

    ghost predicate ReachOk(reach: seq<Hop>) {
      && (forall i, j :: 0 <= i < j < |reach| ==> reach[i].area != reach[j].area)
      && (forall i :: 0 <= i < |reach| ==> reach[i].area in areas)
    }

    // Every area has a distance to its nearest office.
    ghost predicate Knows(cur: map<nat, real>) {
      forall a :: a in areas ==> a in cur
    }
  }

  predicate InMaps(reach: seq<Hop>, w: map<nat, real>, cur: map<nat, real>) {
    forall h :: h in reach ==> h.area in w && h.area in cur
  }

  // ---------------------------------------------------------------- what opening one site is worth

  ghost function Min(x: real, y: real): real {
    if x <= y then x else y
  }

  ghost function HopGain(w: map<nat, real>, cur: map<nat, real>, h: Hop): real
    requires h.area in w && h.area in cur
  {
    if h.d < cur[h.area] then w[h.area] * (cur[h.area] - h.d) else 0.0
  }

  ghost function HopNear(w: map<nat, real>, cur: map<nat, real>, far: real, h: Hop): real
    requires h.area in w && h.area in cur
  {
    if h.d < cur[h.area] && cur[h.area] > far >= h.d then w[h.area] else 0.0
  }

  ghost function Gain(w: map<nat, real>, cur: map<nat, real>, reach: seq<Hop>): real
    requires InMaps(reach, w, cur)
  {
    if reach == [] then 0.0
    else Gain(w, cur, reach[..|reach| - 1]) + HopGain(w, cur, reach[|reach| - 1])
  }

  ghost function NewlyNear(w: map<nat, real>, cur: map<nat, real>, far: real, reach: seq<Hop>): real
    requires InMaps(reach, w, cur)
  {
    if reach == [] then 0.0
    else NewlyNear(w, cur, far, reach[..|reach| - 1]) + HopNear(w, cur, far, reach[|reach| - 1])
  }

  // The areas, by their places in the list, to which the site is nearer than the nearest office so far.
  ghost function Improved(cur: map<nat, real>, reach: seq<Hop>): set<nat> {
    set i: nat | i < |reach| && reach[i].area in cur && reach[i].d < cur[reach[i].area]
  }

  lemma NoneImproved(cur: map<nat, real>)
    ensures Improved(cur, []) == {}
  {
  }

  lemma OneMoreImproved(cur: map<nat, real>, reach: seq<Hop>, n: nat)
    requires n < |reach| && reach[n].area in cur
    ensures |Improved(cur, reach[..n + 1])| == |Improved(cur, reach[..n])| + if reach[n].d < cur[reach[n].area] then 1 else 0
  {
    assert Improved(cur, reach[..n + 1]) == Improved(cur, reach[..n]) + if reach[n].d < cur[reach[n].area] then {n} else {};
  }

  ghost function Lower(cur: map<nat, real>, reach: seq<Hop>): (r: map<nat, real>)
    requires forall h :: h in reach ==> h.area in cur
    ensures r.Keys == cur.Keys
  {
    if reach == [] then cur
    else
      var m := |reach| - 1;
      var prev := Lower(cur, reach[..m]);
      prev[reach[m].area := Min(prev[reach[m].area], reach[m].d)]
  }

  // ---------------------------------------------------------------- the objective

  // Total weighted distance, and the weight of the areas within far.
  ghost function Cost(areas: seq<nat>, w: map<nat, real>, cur: map<nat, real>): real
    requires forall a :: a in areas ==> a in w && a in cur
  {
    if areas == [] then 0.0 else w[areas[0]] * cur[areas[0]] + Cost(areas[1..], w, cur)
  }

  ghost function Inside(areas: seq<nat>, w: map<nat, real>, cur: map<nat, real>, far: real): real
    requires forall a :: a in areas ==> a in w && a in cur
  {
    if areas == [] then 0.0
    else (if cur[areas[0]] <= far then w[areas[0]] else 0.0) + Inside(areas[1..], w, cur, far)
  }

  ghost function CostOf(p: Plan, cur: map<nat, real>): real
    requires p.Valid() && p.Knows(cur)
  {
    Cost(p.areas, p.w, cur)
  }

  ghost function InsideOf(p: Plan, cur: map<nat, real>): real
    requires p.Valid() && p.Knows(cur)
  {
    Inside(p.areas, p.w, cur, p.far)
  }

  lemma {:induction false} CostElsewhere(areas: seq<nat>, w: map<nat, real>, cur: map<nat, real>, a: nat, x: real, far: real)
    requires forall b :: b in areas ==> b in w && b in cur
    requires a !in areas
    ensures Cost(areas, w, cur[a := x]) == Cost(areas, w, cur)
    ensures Inside(areas, w, cur[a := x], far) == Inside(areas, w, cur, far)
  {
    if areas != [] {
      CostElsewhere(areas[1..], w, cur, a, x, far);
    }
  }

  lemma {:induction false} CostUpdate(areas: seq<nat>, w: map<nat, real>, cur: map<nat, real>, a: nat, x: real, far: real)
    requires forall b :: b in areas ==> b in w && b in cur
    requires forall i, j :: 0 <= i < j < |areas| ==> areas[i] != areas[j]
    requires a in areas
    ensures Cost(areas, w, cur[a := x]) == Cost(areas, w, cur) - w[a] * (cur[a] - x)
    ensures Inside(areas, w, cur[a := x], far)
            == Inside(areas, w, cur, far) + (if x <= far then w[a] else 0.0) - (if cur[a] <= far then w[a] else 0.0)
  {
    if areas[0] == a {
      CostElsewhere(areas[1..], w, cur, a, x, far);
    } else {
      CostUpdate(areas[1..], w, cur, a, x, far);
    }
  }

  lemma {:induction false} LowerElsewhere(cur: map<nat, real>, reach: seq<Hop>, a: nat)
    requires forall h :: h in reach ==> h.area in cur
    requires a in cur && forall i :: 0 <= i < |reach| ==> reach[i].area != a
    ensures Lower(cur, reach)[a] == cur[a]
  {
    if reach != [] {
      LowerElsewhere(cur, reach[..|reach| - 1], a);
    }
  }

  lemma ReachInMaps(p: Plan, cur: map<nat, real>, reach: seq<Hop>)
    requires p.Valid() && p.Knows(cur) && p.ReachOk(reach)
    ensures InMaps(reach, p.w, cur)
  {
  }

  // The reported gain of a site is exactly the drop of the objective, and the newly near weight exactly what comes inside.
  lemma {:induction false} GainIsDrop(p: Plan, cur: map<nat, real>, reach: seq<Hop>)
    requires p.Valid() && p.Knows(cur) && p.ReachOk(reach) && InMaps(reach, p.w, cur)
    ensures CostOf(p, Lower(cur, reach)) == CostOf(p, cur) - Gain(p.w, cur, reach)
    ensures InsideOf(p, Lower(cur, reach)) == InsideOf(p, cur) + NewlyNear(p.w, cur, p.far, reach)
  {
    if reach != [] {
      var m := |reach| - 1;
      var before, h := reach[..m], reach[m];
      assert p.ReachOk(before);
      ReachInMaps(p, cur, before);
      GainIsDrop(p, cur, before);
      LowerElsewhere(cur, before, h.area);
      LastHop(p, cur, Lower(cur, before), h);
    }
  }

  lemma LastHop(p: Plan, cur: map<nat, real>, prev: map<nat, real>, h: Hop)
    requires p.Valid() && p.Knows(cur) && p.Knows(prev) && h.area in p.areas && prev[h.area] == cur[h.area]
    ensures var next := prev[h.area := Min(prev[h.area], h.d)];
            && CostOf(p, next) == CostOf(p, prev) - HopGain(p.w, cur, h)
            && InsideOf(p, next) == InsideOf(p, prev) + HopNear(p.w, cur, p.far, h)
  {
    CostUpdate(p.areas, p.w, prev, h.area, Min(prev[h.area], h.d), p.far);
  }

  // ---------------------------------------------------------------- nearer offices make every further site worth less

  ghost predicate Nearer(p: Plan, cur': map<nat, real>, cur: map<nat, real>)
    requires p.Knows(cur') && p.Knows(cur)
  {
    forall a :: a in p.areas ==> cur'[a] <= cur[a]
  }

  lemma Scale(w: real, x: real, y: real)
    requires w >= 0.0 && x <= y
    ensures w * x <= w * y
  {
  }

  lemma HopGainFalls(p: Plan, cur': map<nat, real>, cur: map<nat, real>, h: Hop)
    requires p.Valid() && p.Knows(cur') && p.Knows(cur) && Nearer(p, cur', cur) && h.area in p.areas
    ensures 0.0 <= HopGain(p.w, cur', h) <= HopGain(p.w, cur, h)
  {
    Scale(p.w[h.area], cur'[h.area] - h.d, cur[h.area] - h.d);
    if h.d < cur'[h.area] {
      Scale(p.w[h.area], 0.0, cur'[h.area] - h.d);
    } else if h.d < cur[h.area] {
      Scale(p.w[h.area], 0.0, cur[h.area] - h.d);
    }
  }

  lemma {:induction false} GainFalls(p: Plan, cur': map<nat, real>, cur: map<nat, real>, reach: seq<Hop>)
    requires p.Valid() && p.Knows(cur') && p.Knows(cur) && Nearer(p, cur', cur) && p.ReachOk(reach)
    requires InMaps(reach, p.w, cur) && InMaps(reach, p.w, cur')
    ensures 0.0 <= Gain(p.w, cur', reach) <= Gain(p.w, cur, reach)
  {
    if reach != [] {
      var m := |reach| - 1;
      assert p.ReachOk(reach[..m]);
      ReachInMaps(p, cur, reach[..m]);
      ReachInMaps(p, cur', reach[..m]);
      GainFalls(p, cur', cur, reach[..m]);
      HopGainFalls(p, cur', cur, reach[m]);
    }
  }

  lemma {:induction false} LowerNearer(p: Plan, cur': map<nat, real>, cur: map<nat, real>, reach: seq<Hop>)
    requires p.Valid() && p.Knows(cur') && p.Knows(cur) && Nearer(p, cur', cur) && p.ReachOk(reach)
    requires InMaps(reach, p.w, cur) && InMaps(reach, p.w, cur')
    ensures Nearer(p, Lower(cur', reach), Lower(cur, reach)) && Nearer(p, Lower(cur, reach), cur)
  {
    if reach != [] {
      var m := |reach| - 1;
      assert p.ReachOk(reach[..m]);
      ReachInMaps(p, cur, reach[..m]);
      ReachInMaps(p, cur', reach[..m]);
      LowerNearer(p, cur', cur, reach[..m]);
    }
  }

  // Opening a site brings each of its areas within its distance.
  lemma {:induction false} LowerReaches(cur: map<nat, real>, reach: seq<Hop>, i: nat)
    requires forall h :: h in reach ==> h.area in cur
    requires i < |reach|
    ensures Lower(cur, reach)[reach[i].area] <= reach[i].d
  {
    if i < |reach| - 1 {
      LowerReaches(cur, reach[..|reach| - 1], i);
    }
  }

  lemma {:induction false} NoGainLeft(p: Plan, cur: map<nat, real>, reach: seq<Hop>)
    requires p.Valid() && p.Knows(cur) && p.ReachOk(reach) && InMaps(reach, p.w, cur)
    requires forall i :: 0 <= i < |reach| ==> cur[reach[i].area] <= reach[i].d
    ensures Gain(p.w, cur, reach) == 0.0
  {
    if reach != [] {
      assert p.ReachOk(reach[..|reach| - 1]);
      ReachInMaps(p, cur, reach[..|reach| - 1]);
      NoGainLeft(p, cur, reach[..|reach| - 1]);
    }
  }

  // ---------------------------------------------------------------- opening several sites

  ghost predicate SitesOf(p: Plan, chosen: seq<nat>) {
    forall i :: 0 <= i < |chosen| ==> chosen[i] < |p.sites|
  }

  // Distances after opening the chosen sites, given by their positions.
  ghost function After(p: Plan, cur: map<nat, real>, chosen: seq<nat>): (r: map<nat, real>)
    requires p.Valid() && p.Knows(cur) && SitesOf(p, chosen)
    ensures r.Keys == cur.Keys
  {
    if chosen == [] then cur
    else
      var m := |chosen| - 1;
      assert p.sites[chosen[m]] in p.sites;
      Lower(After(p, cur, chosen[..m]), p.sites[chosen[m]].reach)
  }

  ghost function Saved(p: Plan, cur: map<nat, real>, chosen: seq<nat>): real
    requires p.Valid() && p.Knows(cur) && SitesOf(p, chosen)
  {
    CostOf(p, cur) - CostOf(p, After(p, cur, chosen))
  }

  ghost function SiteGain(p: Plan, cur: map<nat, real>, i: nat): real
    requires p.Valid() && p.Knows(cur) && i < |p.sites|
  {
    assert p.sites[i] in p.sites;
    ReachInMaps(p, cur, p.sites[i].reach);
    Gain(p.w, cur, p.sites[i].reach)
  }

  ghost function SiteNear(p: Plan, cur: map<nat, real>, i: nat): real
    requires p.Valid() && p.Knows(cur) && i < |p.sites|
  {
    assert p.sites[i] in p.sites;
    ReachInMaps(p, cur, p.sites[i].reach);
    NewlyNear(p.w, cur, p.far, p.sites[i].reach)
  }

  lemma SiteIsOk(p: Plan, cur: map<nat, real>, i: nat)
    requires p.Valid() && p.Knows(cur) && i < |p.sites|
    ensures p.ReachOk(p.sites[i].reach) && InMaps(p.sites[i].reach, p.w, cur)
  {
    assert p.sites[i] in p.sites;
    ReachInMaps(p, cur, p.sites[i].reach);
  }

  lemma {:induction false} AfterNearer(p: Plan, cur': map<nat, real>, cur: map<nat, real>, chosen: seq<nat>)
    requires p.Valid() && p.Knows(cur') && p.Knows(cur) && Nearer(p, cur', cur) && SitesOf(p, chosen)
    ensures Nearer(p, After(p, cur', chosen), After(p, cur, chosen)) && Nearer(p, After(p, cur, chosen), cur)
  {
    if chosen != [] {
      var m := |chosen| - 1;
      AfterNearer(p, cur', cur, chosen[..m]);
      var a', a := After(p, cur', chosen[..m]), After(p, cur, chosen[..m]);
      SiteIsOk(p, a', chosen[m]);
      SiteIsOk(p, a, chosen[m]);
      LowerNearer(p, a', a, p.sites[chosen[m]].reach);
    }
  }

  lemma SavedStep(p: Plan, cur: map<nat, real>, chosen: seq<nat>)
    requires p.Valid() && p.Knows(cur) && SitesOf(p, chosen) && chosen != []
    ensures var m := |chosen| - 1;
            && Saved(p, cur, chosen) == Saved(p, cur, chosen[..m]) + SiteGain(p, After(p, cur, chosen[..m]), chosen[m])
            && InsideOf(p, After(p, cur, chosen))
               == InsideOf(p, After(p, cur, chosen[..m])) + SiteNear(p, After(p, cur, chosen[..m]), chosen[m])
  {
    var m := |chosen| - 1;
    var a := After(p, cur, chosen[..m]);
    SiteIsOk(p, a, chosen[m]);
    GainIsDrop(p, a, p.sites[chosen[m]].reach);
  }

  ghost function Times(n: nat, x: real): real {
    n as real * x
  }

  lemma TimesMore(n: nat, x: real)
    ensures Times(n + 1, x) == Times(n, x) + x && Times(0, x) == 0.0
  {
  }

  lemma NothingSaved(p: Plan, cur: map<nat, real>, chosen: seq<nat>)
    requires p.Valid() && p.Knows(cur) && chosen == []
    ensures Saved(p, cur, chosen) == 0.0
  {
  }

  lemma {:induction false} SavedAtMostTimes(p: Plan, cur: map<nat, real>, chosen: seq<nat>, best: real)
    requires p.Valid() && p.Knows(cur) && SitesOf(p, chosen)
    requires forall i: nat :: i < |p.sites| ==> SiteGain(p, cur, i) <= best
    ensures Saved(p, cur, chosen) <= Times(|chosen|, best)
  {
    hide Times, Saved, SiteGain, After, InsideOf, SiteNear;
    if chosen == [] {
      NothingSaved(p, cur, chosen);
      TimesMore(0, best);
    } else {
      var m := |chosen| - 1;
      SavedAtMostTimes(p, cur, chosen[..m], best);
      SavedStep(p, cur, chosen);
      SiteGainFalls(p, cur, chosen[..m], chosen[m]);
      assert SiteGain(p, cur, chosen[m]) <= best;
      TimesMore(m, best);
    }
  }

  // No set of sites saves more than the number of its sites times the best single gain.
  lemma SavedAtMost(p: Plan, cur: map<nat, real>, chosen: seq<nat>, best: real)
    requires p.Valid() && p.Knows(cur) && SitesOf(p, chosen)
    requires forall i: nat :: i < |p.sites| ==> SiteGain(p, cur, i) <= best
    ensures Saved(p, cur, chosen) <= |chosen| as real * best
  {
    hide Saved, SiteGain, After;
    SavedAtMostTimes(p, cur, chosen, best);
  }

  lemma SiteGainFalls(p: Plan, cur: map<nat, real>, chosen: seq<nat>, i: nat)
    requires p.Valid() && p.Knows(cur) && SitesOf(p, chosen) && i < |p.sites|
    ensures 0.0 <= SiteGain(p, After(p, cur, chosen), i) <= SiteGain(p, cur, i)
  {
    var a := After(p, cur, chosen);
    SiteIsOk(p, a, i);
    SiteIsOk(p, cur, i);
    AfterNearer(p, cur, cur, chosen);
    GainFalls(p, a, cur, p.sites[i].reach);
  }

  lemma {:induction false} CostFalls(areas: seq<nat>, w: map<nat, real>, cur': map<nat, real>, cur: map<nat, real>)
    requires forall a :: a in areas ==> a in w && a in cur && a in cur' && w[a] >= 0.0 && cur'[a] <= cur[a]
    ensures Cost(areas, w, cur') <= Cost(areas, w, cur)
  {
    if areas != [] {
      CostFalls(areas[1..], w, cur', cur);
      Scale(w[areas[0]], cur'[areas[0]], cur[areas[0]]);
    }
  }

  // What is still missing towards any other choice is at most the number of its sites times the best gain now.
  lemma GapAtMost(p: Plan, cur: map<nat, real>, chosen: seq<nat>, other: seq<nat>, best: real)
    requires p.Valid() && p.Knows(cur) && SitesOf(p, chosen) && SitesOf(p, other)
    requires forall i: nat :: i < |p.sites| ==> SiteGain(p, After(p, cur, chosen), i) <= best
    ensures Saved(p, cur, other) - Saved(p, cur, chosen) <= |other| as real * best
  {
    var a := After(p, cur, chosen);
    AfterNearer(p, cur, cur, chosen);
    SavedAtMost(p, a, other, best);
    AfterNearer(p, a, cur, other);
    CostFalls(p.areas, p.w, After(p, a, other), After(p, cur, other));
  }

  // ---------------------------------------------------------------- the greedy choice

  datatype Step = Step(code: nat, gain: real, newlyNear: real, improved: nat)

  predicate KeyLess(g: real, nn: real, c: nat, g': real, nn': real, c': nat) {
    g < g' || (g == g' && (nn < nn' || (nn == nn' && c < c')))
  }

  // Site i is the best of the sites not yet picked: by gain, then by newly near weight, then by code.
  ghost predicate IsBest(p: Plan, cur: map<nat, real>, picked: seq<nat>, i: nat)
    requires p.Valid() && p.Knows(cur)
  {
    && i < |p.sites|
    && i !in picked
    && forall j: nat :: j < |p.sites| && j !in picked && j != i ==>
         && SiteGain(p, cur, j) <= SiteGain(p, cur, i)
         && (SiteGain(p, cur, j) == SiteGain(p, cur, i) ==> SiteNear(p, cur, j) <= SiteNear(p, cur, i))
         && (SiteGain(p, cur, j) == SiteGain(p, cur, i) && SiteNear(p, cur, j) == SiteNear(p, cur, i) ==>
               p.sites[j].code < p.sites[i].code)
  }

  ghost predicate StepIs(p: Plan, cur: map<nat, real>, i: nat, st: Step)
    requires p.Valid() && p.Knows(cur) && i < |p.sites|
  {
    SiteIsOk(p, cur, i);
    st == Step(p.sites[i].code, SiteGain(p, cur, i), SiteNear(p, cur, i), |Improved(cur, p.sites[i].reach)|)
  }

  // Each step reports the best site of its moment, and that site still gained something.
  ghost predicate Greedy(p: Plan, cur: map<nat, real>, chosen: seq<nat>, steps: seq<Step>)
    requires p.Valid() && p.Knows(cur)
    decreases |steps|
  {
    && |chosen| == |steps|
    && SitesOf(p, chosen)
    && (steps != [] ==>
          var m := |steps| - 1;
          && Greedy(p, cur, chosen[..m], steps[..m])
          && IsBest(p, After(p, cur, chosen[..m]), chosen[..m], chosen[m])
          && StepIs(p, After(p, cur, chosen[..m]), chosen[m], steps[m])
          && steps[m].gain > 0.0)
  }

  ghost predicate NothingLeft(p: Plan, cur: map<nat, real>, picked: seq<nat>)
    requires p.Valid() && p.Knows(cur)
  {
    forall i: nat :: i < |p.sites| && i !in picked ==> SiteGain(p, cur, i) <= 0.0
  }

  ghost function SumGain(steps: seq<Step>): real {
    if steps == [] then 0.0 else SumGain(steps[..|steps| - 1]) + steps[|steps| - 1].gain
  }

  ghost function SumNear(steps: seq<Step>): real {
    if steps == [] then 0.0 else SumNear(steps[..|steps| - 1]) + steps[|steps| - 1].newlyNear
  }

  // The reported totals are the true change of the objective between before and after.
  lemma {:induction false} TotalsAreTrue(p: Plan, cur: map<nat, real>, chosen: seq<nat>, steps: seq<Step>)
    requires p.Valid() && p.Knows(cur) && Greedy(p, cur, chosen, steps)
    ensures SumGain(steps) == Saved(p, cur, chosen)
    ensures SumNear(steps) == InsideOf(p, After(p, cur, chosen)) - InsideOf(p, cur)
  {
    if steps != [] {
      var m := |steps| - 1;
      TotalsAreTrue(p, cur, chosen[..m], steps[..m]);
      SavedStep(p, cur, chosen);
    }
  }

  // A site that is already open gains nothing more.
  lemma {:induction false} OpenGainsNothing(p: Plan, cur: map<nat, real>, chosen: seq<nat>, i: nat)
    requires p.Valid() && p.Knows(cur) && SitesOf(p, chosen) && i in chosen
    ensures SiteGain(p, After(p, cur, chosen), i) == 0.0
  {
    var m := |chosen| - 1;
    var a := After(p, cur, chosen[..m]);
    var reach := p.sites[i].reach;
    SiteIsOk(p, After(p, cur, chosen), i);
    if chosen[m] == i {
      SiteIsOk(p, a, i);
      forall h: nat | h < |reach| ensures Lower(a, reach)[reach[h].area] <= reach[h].d {
        LowerReaches(a, reach, h);
      }
      NoGainLeft(p, Lower(a, reach), reach);
    } else {
      OpenGainsNothing(p, cur, chosen[..m], i);
      assert chosen == chosen[..m] + [chosen[m]];
      SiteIsOk(p, a, chosen[m]);
      SiteIsOk(p, a, i);
      LowerNearer(p, a, a, p.sites[chosen[m]].reach);
      GainFalls(p, After(p, cur, chosen), a, reach);
    }
  }

  // ---------------------------------------------------------------- how good the greedy choice is

  ghost function Pow(q: real, n: nat): real {
    if n == 0 then 1.0 else q * Pow(q, n - 1)
  }

  // The last step closes at least 1/k of the gap that was left before it.
  lemma GapShrinks(p: Plan, cur: map<nat, real>, chosen: seq<nat>, steps: seq<Step>, other: seq<nat>, k: nat)
    requires p.Valid() && p.Knows(cur) && Greedy(p, cur, chosen, steps) && steps != []
    requires SitesOf(p, other) && |other| <= k
    ensures var before := Saved(p, cur, chosen[..|steps| - 1]);
            Saved(p, cur, other) - before <= k as real * (Saved(p, cur, chosen) - before)
  {
    hide Saved, SiteGain;
    var m := |steps| - 1;
    var best := SiteGain(p, After(p, cur, chosen[..m]), chosen[m]);
    BestOfAll(p, cur, chosen, steps);
    GapAtMost(p, cur, chosen[..m], other, best);
    FewerTimes(|other|, k, best);
    SavedStep(p, cur, chosen);
  }

  lemma BestOfAll(p: Plan, cur: map<nat, real>, chosen: seq<nat>, steps: seq<Step>)
    requires p.Valid() && p.Knows(cur) && Greedy(p, cur, chosen, steps) && steps != []
    ensures var m := |steps| - 1;
            var a := After(p, cur, chosen[..m]);
            SiteGain(p, a, chosen[m]) > 0.0 && forall i: nat :: i < |p.sites| ==> SiteGain(p, a, i) <= SiteGain(p, a, chosen[m])
  {
    var m := |steps| - 1;
    var a := After(p, cur, chosen[..m]);
    forall i: nat | i < |p.sites| ensures SiteGain(p, a, i) <= SiteGain(p, a, chosen[m]) {
      if i in chosen[..m] {
        OpenGainsNothing(p, cur, chosen[..m], i);
      }
    }
  }

  lemma FewerTimes(n: nat, k: nat, x: real)
    requires n <= k && x >= 0.0
    ensures n as real * x <= k as real * x
  {
    Scale(x, n as real, k as real);
  }

  lemma ShrinkByFactor(gap: real, gap': real, k: nat, bound: real)
    requires k >= 1 && gap <= k as real * (gap - gap') && gap <= bound
    ensures gap' <= Rate(k) * bound
  {
    var r := k as real;
    var s := 1.0 / r;
    assert s * r == 1.0 && 0.0 < s <= 1.0;
    assert s * gap <= s * (r * (gap - gap')) by {
      Scale(s, gap, r * (gap - gap'));
    }
    assert s * (r * (gap - gap')) == (s * r) * (gap - gap') == gap - gap';
    Scale(1.0 - s, gap, bound);
    assert (1.0 - s) * gap == gap - s * gap;
  }

  lemma PowStep(q: real, m: nat, x: real)
    ensures q * (Pow(q, m) * x) == Pow(q, m + 1) * x
  {
  }

  ghost function Rate(k: nat): real
    requires k >= 1
  {
    1.0 - 1.0 / k as real
  }

  ghost predicate GapWithin(rest: real, opt: real, saved: real) {
    opt - saved <= rest * opt
  }

  lemma {:induction false} GapAfter(p: Plan, cur: map<nat, real>, chosen: seq<nat>, steps: seq<Step>, other: seq<nat>, k: nat)
    requires p.Valid() && p.Knows(cur) && Greedy(p, cur, chosen, steps)
    requires SitesOf(p, other) && |other| <= k && k >= 1
    ensures GapWithin(Pow(Rate(k), |steps|), Saved(p, cur, other), Saved(p, cur, chosen))
    decreases |steps|
  {
    hide Saved, Pow, Rate, IsBest, StepIs, After;
    if steps != [] {
      var m := |steps| - 1;
      var opt := Saved(p, cur, other);
      GapAfter(p, cur, chosen[..m], steps[..m], other, k);
      GapShrinks(p, cur, chosen, steps, other, k);
      ShrinkByFactor(opt - Saved(p, cur, chosen[..m]), opt - Saved(p, cur, chosen), k, Pow(Rate(k), m) * opt);
      PowStep(Rate(k), m, opt);
    } else {
      NoGapYet(p, cur, chosen, Rate(k), Saved(p, cur, other));
    }
  }

  lemma NoGapYet(p: Plan, cur: map<nat, real>, chosen: seq<nat>, q: real, opt: real)
    requires p.Valid() && p.Knows(cur) && SitesOf(p, chosen) && chosen == []
    ensures opt - Saved(p, cur, chosen) == Pow(q, 0) * opt
  {
  }

  lemma {:induction false} PowNonNegative(q: real, n: nat)
    requires q >= 0.0
    ensures Pow(q, n) >= 0.0
  {
    if n > 0 {
      PowNonNegative(q, n - 1);
      Scale(q, 0.0, Pow(q, n - 1));
    }
  }

  // Stopping because nothing gains any more means that no choice of sites whatever would save more.
  lemma StoppedIsBest(p: Plan, cur: map<nat, real>, chosen: seq<nat>, other: seq<nat>)
    requires p.Valid() && p.Knows(cur) && SitesOf(p, chosen) && SitesOf(p, other)
    requires NothingLeft(p, After(p, cur, chosen), chosen)
    ensures Saved(p, cur, other) <= Saved(p, cur, chosen)
  {
    var a := After(p, cur, chosen);
    forall i: nat | i < |p.sites| ensures SiteGain(p, a, i) <= 0.0 {
      if i in chosen {
        OpenGainsNothing(p, cur, chosen, i);
      }
    }
    GapAtMost(p, cur, chosen, other, 0.0);
  }

  lemma SavedNonNegative(p: Plan, cur: map<nat, real>, chosen: seq<nat>)
    requires p.Valid() && p.Knows(cur) && SitesOf(p, chosen)
    ensures Saved(p, cur, chosen) >= 0.0
  {
    AfterNearer(p, cur, cur, chosen);
    CostFalls(p.areas, p.w, After(p, cur, chosen), cur);
  }

  lemma FullBound(p: Plan, cur: map<nat, real>, chosen: seq<nat>, steps: seq<Step>, other: seq<nat>, k: nat)
    requires p.Valid() && p.Knows(cur) && Greedy(p, cur, chosen, steps) && |steps| == k >= 1
    requires SitesOf(p, other) && |other| <= k
    ensures Saved(p, cur, chosen) >= (1.0 - Pow(Rate(k), k)) * Saved(p, cur, other)
  {
    assert SitesOf(p, chosen);
    hide Saved, Pow, Rate, Greedy, After, GapWithin;
    GapAfter(p, cur, chosen, steps, other, k);
    ShareFromGap(Pow(Rate(k), k), Saved(p, cur, other), Saved(p, cur, chosen));
  }

  lemma StoppedBound(p: Plan, cur: map<nat, real>, chosen: seq<nat>, other: seq<nat>, k: nat)
    requires p.Valid() && p.Knows(cur) && SitesOf(p, chosen) && SitesOf(p, other) && k >= 1
    requires NothingLeft(p, After(p, cur, chosen), chosen)
    ensures Saved(p, cur, chosen) >= (1.0 - Pow(Rate(k), k)) * Saved(p, cur, other)
  {
    hide Saved, Pow, Rate, After, NothingLeft;
    StoppedIsBest(p, cur, chosen, other);
    SavedNonNegative(p, cur, other);
    RateNonNegative(k);
    ShareOfLess(Pow(Rate(k), k), Saved(p, cur, other), Saved(p, cur, chosen));
  }

  lemma BoundByRate(p: Plan, cur: map<nat, real>, chosen: seq<nat>, steps: seq<Step>, other: seq<nat>, k: nat)
    requires p.Valid() && p.Knows(cur) && Greedy(p, cur, chosen, steps) && k >= 1
    requires |steps| == k || NothingLeft(p, After(p, cur, chosen), chosen)
    requires SitesOf(p, other) && |other| <= k
    ensures SumGain(steps) >= (1.0 - Pow(Rate(k), k)) * Saved(p, cur, other)
  {
    assert SitesOf(p, chosen);
    hide Saved, Pow, Rate, Greedy, NothingLeft, After, SumGain;
    TotalsAreTrue(p, cur, chosen, steps);
    if |steps| == k {
      FullBound(p, cur, chosen, steps, other, k);
    } else {
      StoppedBound(p, cur, chosen, other, k);
    }
  }

  // The classical bound: k greedy sites save at least the share 1 - (1 - 1/k)^k of what any k sites could save.
  lemma GreedyBound(p: Plan, cur: map<nat, real>, chosen: seq<nat>, steps: seq<Step>, other: seq<nat>, k: nat)
    requires p.Valid() && p.Knows(cur) && Greedy(p, cur, chosen, steps) && k >= 1
    requires |steps| == k || NothingLeft(p, After(p, cur, chosen), chosen)
    requires SitesOf(p, other) && |other| <= k
    ensures SumGain(steps) >= (1.0 - Pow(1.0 - 1.0 / k as real, k)) * Saved(p, cur, other)
  {
    hide Saved, Pow, Greedy, NothingLeft, After, SumGain;
    BoundByRate(p, cur, chosen, steps, other, k);
  }

  lemma RateNonNegative(k: nat)
    requires k >= 1
    ensures Pow(Rate(k), k) >= 0.0
  {
    assert 1.0 / k as real <= 1.0;
    PowNonNegative(Rate(k), k);
  }

  lemma ShareFromGap(rest: real, opt: real, saved: real)
    requires GapWithin(rest, opt, saved)
    ensures saved >= (1.0 - rest) * opt
  {
  }

  lemma ShareOfLess(rest: real, opt: real, saved: real)
    requires rest >= 0.0 && 0.0 <= opt <= saved
    ensures saved >= (1.0 - rest) * opt
  {
    Scale(rest, 0.0, opt);
  }

  // ---------------------------------------------------------------- the loop

  // One site's numbers, summed over its areas in order.
  method Measure(p: Plan, cur: map<nat, real>, i: nat) returns (gain: real, newlyNear: real, reached: nat)
    requires p.Valid() && p.Knows(cur) && i < |p.sites|
    ensures gain == SiteGain(p, cur, i) && newlyNear == SiteNear(p, cur, i) && reached == |Improved(cur, p.sites[i].reach)|
  {
    hide Improved;
    gain, newlyNear, reached := 0.0, 0.0, 0;
    var reach := p.sites[i].reach;
    SiteIsOk(p, cur, i);
    NoneImproved(cur);
    var n := 0;
    while n < |reach|
      invariant 0 <= n <= |reach|
      invariant p.ReachOk(reach) && InMaps(reach, p.w, cur) && InMaps(reach[..n], p.w, cur)
      invariant gain == Gain(p.w, cur, reach[..n])
      invariant newlyNear == NewlyNear(p.w, cur, p.far, reach[..n])
      invariant reached == |Improved(cur, reach[..n])|
    {
      var h := reach[n];
      assert reach[..n + 1][..n] == reach[..n];
      OneMoreImproved(cur, reach, n);
      if h.d < cur[h.area] {
        gain := gain + p.w[h.area] * (cur[h.area] - h.d);
        reached := reached + 1;
        if cur[h.area] > p.far >= h.d {
          newlyNear := newlyNear + p.w[h.area];
        }
      }
      n := n + 1;
    }
    assert reach[..n] == reach;
  }

  // The best of the sites not yet picked, if there is one.
  method PickBest(p: Plan, cur: map<nat, real>, picked: seq<nat>) returns (found: bool, best: nat, step: Step)
    requires p.Valid() && p.Knows(cur)
    ensures found ==> IsBest(p, cur, picked, best) && StepIs(p, cur, best, step)
    ensures !found ==> forall i :: 0 <= i < |p.sites| ==> i in picked
  {
    found, best, step := false, 0, Step(0, 0.0, 0.0, 0);
    var i := 0;
    while i < |p.sites|
      invariant 0 <= i <= |p.sites|
      invariant !found ==> forall j :: 0 <= j < i ==> j in picked
      invariant found ==> best < i && best !in picked && StepIs(p, cur, best, step)
      invariant found ==> forall j: nat :: j < i && j !in picked && j != best ==>
                  KeyLess(SiteGain(p, cur, j), SiteNear(p, cur, j), p.sites[j].code, step.gain, step.newlyNear, step.code)
    {
      if i !in picked {
        var gain, newlyNear, reached := Measure(p, cur, i);
        if !found || KeyLess(step.gain, step.newlyNear, step.code, gain, newlyNear, p.sites[i].code) {
          found, best, step := true, i, Step(p.sites[i].code, gain, newlyNear, reached);
        }
      }
      i := i + 1;
    }
  }

  method LowerBy(cur: map<nat, real>, reach: seq<Hop>) returns (r: map<nat, real>)
    requires forall h :: h in reach ==> h.area in cur
    ensures r == Lower(cur, reach)
  {
    r := cur;
    var n := 0;
    while n < |reach|
      invariant 0 <= n <= |reach|
      invariant r == Lower(cur, reach[..n])
    {
      assert reach[..n + 1][..n] == reach[..n];
      if reach[n].d < r[reach[n].area] {
        r := r[reach[n].area := reach[n].d];
      }
      n := n + 1;
    }
    assert reach[..n] == reach;
  }

  method GreedyOpen(p: Plan, cur0: map<nat, real>, k: nat) returns (steps: seq<Step>, ghost chosen: seq<nat>)
    requires p.Valid() && p.Knows(cur0)
    ensures |steps| <= k
    ensures Greedy(p, cur0, chosen, steps)
    ensures |steps| == k || NothingLeft(p, After(p, cur0, chosen), chosen)
  {
    hide Improved, SiteGain, SiteNear;
    var cur := cur0;
    var picked: seq<nat> := [];
    steps, chosen := [], [];
    var n := 0;
    while n < k
      invariant 0 <= n <= k && |steps| == n
      invariant picked == chosen && Greedy(p, cur0, chosen, steps)
      invariant cur == After(p, cur0, chosen)
    {
      var found, best, step := PickBest(p, cur, picked);
      if !found || step.gain <= 0.0 {
        BestIsNothing(p, cur, picked, found, best, step);
        return;
      }
      SiteIsOk(p, cur, best);
      cur := LowerBy(cur, p.sites[best].reach);
      ghost var longer := chosen + [best];
      assert longer[..|steps|] == chosen && (steps + [step])[..|steps|] == steps;
      picked := picked + [best];
      steps, chosen := steps + [step], longer;
      n := n + 1;
    }
  }

  lemma BestIsNothing(p: Plan, cur: map<nat, real>, picked: seq<nat>, found: bool, best: nat, step: Step)
    requires p.Valid() && p.Knows(cur)
    requires found ==> IsBest(p, cur, picked, best) && StepIs(p, cur, best, step) && step.gain <= 0.0
    requires !found ==> forall i :: 0 <= i < |p.sites| ==> i in picked
    ensures NothingLeft(p, cur, picked)
  {
  }
}
