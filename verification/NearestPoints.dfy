// The k facilities nearest on foot to demand points: both ends are snapped to the graph and the snap distances added.
module NearestPoints {
  import opened Walks
  import opened NearestLists
  import opened KSource

  // Facility i is snapped to vertex fv[i], fd[i] metres away; facilities too far from any road take no part.
  function Seeds(fv: seq<nat>, fd: seq<real>, snapMax: real, extra: real): seq<Seed>
    requires |fv| == |fd|
  {
    if fv == [] then []
    else
      var m := |fv| - 1;
      Seeds(fv[..m], fd[..m], snapMax, extra) + if fd[m] <= snapMax then [Seed(fd[m] + extra, fv[m], m)] else []
  }

  lemma {:induction false} SeedsHold(fv: seq<nat>, fd: seq<real>, snapMax: real, extra: real)
    requires |fv| == |fd|
    ensures |Seeds(fv, fd, snapMax, extra)| == |Seeds(fv, fd, snapMax, 0.0)|
    ensures forall i :: 0 <= i < |Seeds(fv, fd, snapMax, 0.0)| ==>
              var a, b := Seeds(fv, fd, snapMax, 0.0)[i], Seeds(fv, fd, snapMax, extra)[i];
              b == Seed(a.d + extra, a.v, a.fac) && a.fac < |fv| && a.v == fv[a.fac] && a.d == fd[a.fac] <= snapMax
  {
    if fv != [] {
      var m := |fv| - 1;
      SeedsHold(fv[..m], fd[..m], snapMax, extra);
    }
  }

  // Every facility near enough to a road has its seed.
  lemma {:induction false} SeedsComplete(fv: seq<nat>, fd: seq<real>, snapMax: real, extra: real, i: nat)
    requires |fv| == |fd| && i < |fv| && fd[i] <= snapMax
    ensures Seed(fd[i] + extra, fv[i], i) in Seeds(fv, fd, snapMax, extra)
  {
    if i < |fv| - 1 {
      SeedsComplete(fv[..|fv| - 1], fd[..|fv| - 1], snapMax, extra, i);
    }
  }

  // The seeds as seen from a point that is itself extra metres away from its vertex.
  ghost predicate Shifted(seeds: seq<Seed>, seeds': seq<Seed>, extra: real) {
    |seeds| == |seeds'|
    && forall i :: 0 <= i < |seeds| ==> seeds'[i] == Seed(seeds[i].d + extra, seeds[i].v, seeds[i].fac)
  }

  lemma AttainsShifted(arcs: set<Arc>, seeds: seq<Seed>, seeds': seq<Seed>, extra: real, s: nat, v: nat, x: real)
    requires Shifted(seeds, seeds', extra)
    ensures Attains(arcs, seeds, s, v, x) <==> Attains(arcs, seeds', s, v, x + extra)
  {
    if Attains(arcs, seeds, s, v, x) {
      var i, p :| Route(arcs, seeds, i, p, s, v, x);
      assert Route(arcs, seeds', i, p, s, v, x + extra);
    }
    if Attains(arcs, seeds', s, v, x + extra) {
      var i, p :| Route(arcs, seeds', i, p, s, v, x + extra);
      assert Route(arcs, seeds, i, p, s, v, x);
    }
  }

  // The labels that stay within the limit when extra metres are added to each.
  function Cut(lab: seq<Label>, extra: real, limit: real): seq<Label> {
    if lab == [] || lab[0].d + extra > limit then []
    else [Label(lab[0].fac, lab[0].d + extra)] + Cut(lab[1..], extra, limit)
  }

  lemma {:induction false} CutHolds(lab: seq<Label>, extra: real, limit: real)
    requires Sorted(false, lab)
    ensures var r := Cut(lab, extra, limit);
            && |r| <= |lab|
            && (forall j :: 0 <= j < |r| ==> r[j] == Label(lab[j].fac, lab[j].d + extra) && r[j].d <= limit)
            && (|r| < |lab| ==> lab[|r|].d + extra > limit)
            && (forall j :: |r| <= j < |lab| ==> lab[j].d + extra > limit)
  {
    if lab != [] && lab[0].d + extra <= limit {
      CutHolds(lab[1..], extra, limit);
    } else {
      forall j | 0 <= j < |lab| ensures lab[j].d + extra > limit {
        assert j == 0 || Before(false, lab[0], lab[j]);
      }
    }
  }

  lemma SortedIgnoringNumbers(byNumber: bool, lab: seq<Label>)
    requires Sorted(byNumber, lab)
    ensures Sorted(false, lab)
  {
    forall i, j | 0 <= i < j < |lab| ensures Before(false, lab[i], lab[j]) {
      assert Before(byNumber, lab[i], lab[j]);
    }
  }

  lemma CutIsSorted(lab: seq<Label>, byNumber: bool, extra: real, limit: real)
    requires Sorted(byNumber, lab)
    ensures Sorted(byNumber, Cut(lab, extra, limit))
  {
    var r := Cut(lab, extra, limit);
    SortedIgnoringNumbers(byNumber, lab);
    CutHolds(lab, extra, limit);
    forall i, j | 0 <= i < j < |r| ensures Before(byNumber, r[i], r[j]) {
      assert Before(byNumber, lab[i], lab[j]);
    }
  }

  // Adding the point's own snap distance and cutting at the limit again leaves the k nearest as the point sees them.
  lemma CutIsNearest(arcs: set<Arc>, seeds: seq<Seed>, seeds': seq<Seed>, k: nat, limit: real, v: nat, lab: seq<Label>,
                     byNumber: bool, extra: real)
    requires Nearest(arcs, seeds, k, limit, v, lab, byNumber)
    requires Shifted(seeds, seeds', extra) && extra >= 0.0
    ensures Nearest(arcs, seeds', k, limit, v, Cut(lab, extra, limit), byNumber)
  {
    SortedIgnoringNumbers(byNumber, lab);
    CutHolds(lab, extra, limit);
    CutIsSorted(lab, byNumber, extra, limit);
    CutDistances(arcs, seeds, seeds', k, limit, v, lab, byNumber, extra);
    CutComplete(arcs, seeds, seeds', k, limit, v, lab, byNumber, extra);
  }

  lemma CutDistances(arcs: set<Arc>, seeds: seq<Seed>, seeds': seq<Seed>, k: nat, limit: real, v: nat, lab: seq<Label>,
                     byNumber: bool, extra: real)
    requires Nearest(arcs, seeds, k, limit, v, lab, byNumber) && Shifted(seeds, seeds', extra)
    ensures forall j :: 0 <= j < |Cut(lab, extra, limit)| ==>
              IsDistance(arcs, seeds', Cut(lab, extra, limit)[j].fac, v, Cut(lab, extra, limit)[j].d)
  {
    SortedIgnoringNumbers(byNumber, lab);
    CutHolds(lab, extra, limit);
    forall j | 0 <= j < |Cut(lab, extra, limit)|
      ensures IsDistance(arcs, seeds', Cut(lab, extra, limit)[j].fac, v, Cut(lab, extra, limit)[j].d)
    {
      CutDistance(arcs, seeds, seeds', v, lab[j], extra);
    }
  }

  lemma CutComplete(arcs: set<Arc>, seeds: seq<Seed>, seeds': seq<Seed>, k: nat, limit: real, v: nat, lab: seq<Label>,
                    byNumber: bool, extra: real)
    requires Nearest(arcs, seeds, k, limit, v, lab, byNumber)
    requires Shifted(seeds, seeds', extra) && extra >= 0.0
    ensures var r := Cut(lab, extra, limit);
            forall s, y :: Attains(arcs, seeds', s, v, y) && y <= limit ==>
              Lists(r, s) || (|r| == k && AllBefore(byNumber, r, Label(s, y)))
  {
    var r := Cut(lab, extra, limit);
    forall s, y | Attains(arcs, seeds', s, v, y) && y <= limit
      ensures Lists(r, s) || (|r| == k && AllBefore(byNumber, r, Label(s, y)))
    {
      AttainsShifted(arcs, seeds, seeds', extra, s, v, y - extra);
      CutListsOrFull(arcs, seeds, k, limit, v, lab, byNumber, extra, s, y - extra);
    }
  }

  lemma CutListsOrFull(arcs: set<Arc>, seeds: seq<Seed>, k: nat, limit: real, v: nat, lab: seq<Label>, byNumber: bool,
                       extra: real, s: nat, x: real)
    requires Nearest(arcs, seeds, k, limit, v, lab, byNumber) && extra >= 0.0
    requires Attains(arcs, seeds, s, v, x) && x + extra <= limit
    ensures var r := Cut(lab, extra, limit);
            Lists(r, s) || (|r| == k && AllBefore(byNumber, r, Label(s, x + extra)))
  {
    var r := Cut(lab, extra, limit);
    SortedIgnoringNumbers(byNumber, lab);
    CutHolds(lab, extra, limit);
    if Lists(lab, s) {
      var j :| 0 <= j < |lab| && lab[j].fac == s;
      assert IsDistance(arcs, seeds, s, v, lab[j].d);
      assert r[j].fac == s;
    } else {
      assert |lab| == k && AllBefore(byNumber, lab, Label(s, x));
      assert forall j :: 0 <= j < |lab| ==> Before(byNumber, lab[j], Label(s, x));
    }
  }

  lemma CutDistance(arcs: set<Arc>, seeds: seq<Seed>, seeds': seq<Seed>, v: nat, a: Label, extra: real)
    requires IsDistance(arcs, seeds, a.fac, v, a.d) && Shifted(seeds, seeds', extra)
    ensures IsDistance(arcs, seeds', a.fac, v, a.d + extra)
  {
    AttainsShifted(arcs, seeds, seeds', extra, a.fac, v, a.d);
    forall y | Attains(arcs, seeds', a.fac, v, y) ensures a.d + extra <= y {
      AttainsShifted(arcs, seeds, seeds', extra, a.fac, v, y - extra);
    }
  }

  // A point too far from any road has no facility at all.
  ghost predicate PointRow(arcs: set<Arc>, seeds: seq<Seed>, k: nat, limit: real, snapMax: real, v: nat, extra: real,
                           r: seq<Label>, byNumber: bool)
  {
    if extra > snapMax then r == [] else Nearest(arcs, seeds, k, limit, v, r, byNumber)
  }

  // What the list of a vertex becomes for a point that is extra metres away from it.
  ghost function RowFor(lab: seq<Label>, extra: real, limit: real, snapMax: real): seq<Label> {
    if extra > snapMax then [] else Cut(lab, extra, limit)
  }

  lemma RowIsRight(arcs: set<Arc>, fv: seq<nat>, fd: seq<real>, k: nat, limit: real, snapMax: real, v: nat, extra: real,
                   lab: seq<Label>, byNumber: bool)
    requires |fv| == |fd| && extra >= 0.0
    requires Nearest(arcs, Seeds(fv, fd, snapMax, 0.0), k, limit, v, lab, byNumber)
    ensures PointRow(arcs, Seeds(fv, fd, snapMax, extra), k, limit, snapMax, v, extra, RowFor(lab, extra, limit, snapMax), byNumber)
  {
    SeedsHold(fv, fd, snapMax, extra);
    if extra <= snapMax {
      CutIsNearest(arcs, Seeds(fv, fd, snapMax, 0.0), Seeds(fv, fd, snapMax, extra), k, limit, v, lab, byNumber, extra);
    }
  }

  ghost predicate RowsRight(arcs: set<Arc>, fv: seq<nat>, fd: seq<real>, ov: seq<nat>, od: seq<real>, k: nat, limit: real,
                            snapMax: real, rows: seq<seq<Label>>, byNumber: bool)
    requires |fv| == |fd| && |rows| <= |ov| == |od|
  {
    forall p :: 0 <= p < |rows| ==>
      PointRow(arcs, Seeds(fv, fd, snapMax, od[p]), k, limit, snapMax, ov[p], od[p], rows[p], byNumber)
  }

  lemma OneRowMore(arcs: set<Arc>, fv: seq<nat>, fd: seq<real>, ov: seq<nat>, od: seq<real>, k: nat, limit: real,
                   snapMax: real, rows: seq<seq<Label>>, lab: seq<Label>, byNumber: bool)
    requires |fv| == |fd| && |rows| < |ov| == |od| && od[|rows|] >= 0.0
    requires RowsRight(arcs, fv, fd, ov, od, k, limit, snapMax, rows, byNumber)
    requires Nearest(arcs, Seeds(fv, fd, snapMax, 0.0), k, limit, ov[|rows|], lab, byNumber)
    ensures RowsRight(arcs, fv, fd, ov, od, k, limit, snapMax, rows + [RowFor(lab, od[|rows|], limit, snapMax)], byNumber)
  {
    hide PointRow, Nearest, RowFor, Seeds;
    RowIsRight(arcs, fv, fd, k, limit, snapMax, ov[|rows|], od[|rows|], lab, byNumber);
  }

  method NearestK(g: Csr, fv: seq<nat>, fd: seq<real>, ov: seq<nat>, od: seq<real>, k: nat, limit: real, snapMax: real)
    returns (s: array2<int>, d: array2<Dist>, ghost rows: seq<seq<Label>>)
    requires g.Valid() && NonNegative(g.Arcs()) && k >= 1
    requires |fv| == |fd| && forall i :: 0 <= i < |fv| ==> fv[i] < g.N()
    requires |ov| == |od| && forall p :: 0 <= p < |ov| ==> ov[p] < g.N() && od[p] >= 0.0
    ensures s.Length0 == d.Length0 == |rows| == |ov| && s.Length1 == d.Length1 == k
    ensures forall p :: 0 <= p < |ov| ==> Shows(s, d, p, rows[p])
    ensures RowsRight(g.Arcs(), fv, fd, ov, od, k, limit, snapMax, rows, Positive(g.Arcs()))
  {
    hide RowsRight, Nearest, NonNegative, Positive, RowFor, Csr.Arcs;
    var seeds := Seeds(fv, fd, snapMax, 0.0);
    SeedsHold(fv, fd, snapMax, 0.0);
    var src, dist;
    ghost var L;
    src, dist, L := KNearest(g, seeds, k, limit);
    s := new int[|ov|, k]((_, _) => -1);
    d := new Dist[|ov|, k]((_, _) => Inf);
    rows := [];
    NoRows(g.Arcs(), fv, fd, ov, od, k, limit, snapMax, Positive(g.Arcs()));
    var p := 0;
    while p < |ov|
      invariant 0 <= p <= |ov| && |rows| == p
      invariant forall v :: 0 <= v < g.N() ==> Shows(src, dist, v, L[v])
      invariant forall i :: 0 <= i < p ==> Shows(s, d, i, rows[i])
      invariant RowsRight(g.Arcs(), fv, fd, ov, od, k, limit, snapMax, rows, Positive(g.Arcs()))
    {
      ghost var r := FillRow(src, dist, s, d, p, ov[p], od[p], limit, snapMax, L[ov[p]], g.Arcs(), seeds, Positive(g.Arcs()));
      OneRowMore(g.Arcs(), fv, fd, ov, od, k, limit, snapMax, rows, L[ov[p]], Positive(g.Arcs()));
      rows := rows + [r];
      p := p + 1;
    }
  }

  lemma NoRows(arcs: set<Arc>, fv: seq<nat>, fd: seq<real>, ov: seq<nat>, od: seq<real>, k: nat, limit: real, snapMax: real,
               byNumber: bool)
    requires |fv| == |fd| && |ov| == |od|
    ensures RowsRight(arcs, fv, fd, ov, od, k, limit, snapMax, [], byNumber)
  {
  }

  // Copy the row of vertex v for point p, add its snap distance, and blank what is missing, too far or not snapped.
  method FillRow(src: array2<int>, dist: array2<Dist>, s: array2<int>, d: array2<Dist>, p: nat, v: nat, extra: real,
                 limit: real, snapMax: real, ghost lab: seq<Label>, ghost arcs: set<Arc>, ghost seeds: seq<Seed>,
                 ghost byNumber: bool) returns (ghost r: seq<Label>)
    requires v < src.Length0 == dist.Length0 && p < s.Length0 == d.Length0
    requires src.Length1 == dist.Length1 == s.Length1 == d.Length1
    requires src != s && dist != d && Shows(src, dist, v, lab) && Nearest(arcs, seeds, src.Length1, limit, v, lab, byNumber)
    modifies s, d
    ensures r == RowFor(lab, extra, limit, snapMax)
    ensures Shows(s, d, p, r)
    ensures forall i, j :: 0 <= i < s.Length0 && 0 <= j < s.Length1 && i != p ==> s[i, j] == old(s[i, j]) && d[i, j] == old(d[i, j])
  {
    SortedIgnoringNumbers(byNumber, lab);
    CutHolds(lab, extra, limit);
    r := if extra > snapMax then [] else Cut(lab, extra, limit);
    var j := 0;
    while j < s.Length1
      invariant 0 <= j <= s.Length1
      invariant forall i :: 0 <= i < j ==>
                  if i < |r| then s[p, i] == r[i].fac && d[p, i] == Fin(r[i].d) else s[p, i] == -1 && d[p, i] == Inf
      invariant forall i, c :: 0 <= i < s.Length0 && 0 <= c < s.Length1 && i != p ==>
                  s[i, c] == old(s[i, c]) && d[i, c] == old(d[i, c])
    {
      s[p, j] := src[v, j];
      d[p, j] := match dist[v, j] case Inf => Inf case Fin(m) => Fin(m + extra);
      if extra > snapMax || d[p, j].Inf? || d[p, j].m > limit || s[p, j] < 0 {
        s[p, j] := -1;
        d[p, j] := Inf;
      }
      j := j + 1;
    }
  }
}
