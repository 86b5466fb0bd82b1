// From a list of undirected road segments to compressed rows: loops dropped, the shortest of parallel segments kept.
module RoadGraph {
  import opened Walks
  import opened NearestLists
  import opened KSource

  datatype Segments = Segments(n: nat, u: seq<nat>, v: seq<nat>, w: seq<real>) {
    ghost predicate Valid() {
      && |u| == |v| == |w|
      && forall i :: 0 <= i < |u| ==> u[i] < n && v[i] < n
    }

    ghost predicate NonNegativeLengths() {
      forall i :: 0 <= i < |w| ==> w[i] >= 0.0
    }

    // Every segment can be walked both ways.
    ghost function Roads(): set<Arc>
      requires Valid()
    {
      (set i | 0 <= i < |u| :: Arc(u[i], v[i], w[i])) + (set i | 0 <= i < |u| :: Arc(v[i], u[i], w[i]))
    }
  }

  function BothWays(s: Segments): seq<Arc>
    requires s.Valid()
  {
    seq(|s.u|, i requires 0 <= i < |s.u| => Arc(s.u[i], s.v[i], s.w[i]))
    + seq(|s.u|, i requires 0 <= i < |s.u| => Arc(s.v[i], s.u[i], s.w[i]))
  }

  function NoLoops(arcs: seq<Arc>): (r: seq<Arc>)
    ensures forall a :: a in r <==> a in arcs && a.from != a.to
  {
    if arcs == [] then []
    else (if arcs[0].from != arcs[0].to then [arcs[0]] else []) + NoLoops(arcs[1..])
  }

  // By origin, then by destination, then the shorter first.
  predicate ArcLe(a: Arc, b: Arc) {
    a.from < b.from || (a.from == b.from && (a.to < b.to || (a.to == b.to && a.w <= b.w)))
  }

  ghost predicate InOrder(arcs: seq<Arc>) {
    forall i, j :: 0 <= i < j < |arcs| ==> ArcLe(arcs[i], arcs[j])
  }

  function Insert(a: Arc, arcs: seq<Arc>): (r: seq<Arc>)
    ensures forall x :: x in r <==> x == a || x in arcs
  {
    if arcs == [] then [a]
    else if ArcLe(a, arcs[0]) then [a] + arcs
    else [arcs[0]] + Insert(a, arcs[1..])
  }

  function LexSort(arcs: seq<Arc>): (r: seq<Arc>)
    ensures forall x :: x in r <==> x in arcs
  {
    if arcs == [] then [] else Insert(arcs[0], LexSort(arcs[1..]))
  }

  predicate SamePair(a: Arc, b: Arc) {
    a.from == b.from && a.to == b.to
  }

  // The first arc of every run of arcs with the same origin and destination.
  function Firsts(arcs: seq<Arc>): seq<Arc> {
    if |arcs| <= 1 then arcs
    else
      var m := |arcs| - 1;
      Firsts(arcs[..m]) + if SamePair(arcs[m - 1], arcs[m]) then [] else [arcs[m]]
  }

  function Bincount(arcs: seq<Arc>, x: nat): nat {
    if arcs == [] then 0
    else Bincount(arcs[..|arcs| - 1], x) + if arcs[|arcs| - 1].from == x then 1 else 0
  }

  function CumSum(arcs: seq<Arc>, r: nat): nat {
    if r == 0 then 0 else CumSum(arcs, r - 1) + Bincount(arcs, r - 1)
  }

  function ToCsr(s: Segments): Csr
    requires s.Valid()
  {
    var arcs := Firsts(LexSort(NoLoops(BothWays(s))));
    Csr(seq(s.n + 1, r requires 0 <= r <= s.n => CumSum(arcs, r)),
        seq(|arcs|, i requires 0 <= i < |arcs| => arcs[i].to),
        seq(|arcs|, i requires 0 <= i < |arcs| => arcs[i].w))
  }

  // ---------------------------------------------------------------- sorting

  lemma {:induction false} InsertKeepsOrder(a: Arc, arcs: seq<Arc>)
    requires InOrder(arcs)
    ensures InOrder(Insert(a, arcs))
  {
    if arcs != [] {
      if ArcLe(a, arcs[0]) {
        forall i | 0 <= i < |arcs| ensures ArcLe(a, arcs[i]) {
          assert i == 0 || ArcLe(arcs[0], arcs[i]);
        }
      } else {
        var rest := Insert(a, arcs[1..]);
        InsertKeepsOrder(a, arcs[1..]);
        forall i | 0 <= i < |rest| ensures ArcLe(arcs[0], rest[i]) {
          assert rest[i] in rest;
        }
      }
    }
  }

  lemma {:induction false} LexSortSorts(arcs: seq<Arc>)
    ensures InOrder(LexSort(arcs))
  {
    if arcs != [] {
      LexSortSorts(arcs[1..]);
      InsertKeepsOrder(arcs[0], LexSort(arcs[1..]));
    }
  }

  // ---------------------------------------------------------------- keeping the first of every run

  predicate PairLess(a: Arc, b: Arc) {
    a.from < b.from || (a.from == b.from && a.to < b.to)
  }

  ghost predicate StrictOrder(arcs: seq<Arc>) {
    forall i, j :: 0 <= i < j < |arcs| ==> PairLess(arcs[i], arcs[j])
  }

  lemma {:induction false} FirstsAreMembers(arcs: seq<Arc>)
    ensures forall a :: a in Firsts(arcs) ==> a in arcs
  {
    if |arcs| > 1 {
      FirstsAreMembers(arcs[..|arcs| - 1]);
    }
  }

  lemma {:induction false} FirstsStrict(arcs: seq<Arc>)
    requires InOrder(arcs)
    ensures StrictOrder(Firsts(arcs))
  {
    if |arcs| > 1 {
      var m := |arcs| - 1;
      FirstsStrict(arcs[..m]);
      var before := Firsts(arcs[..m]);
      FirstsAreMembers(arcs[..m]);
      if !SamePair(arcs[m - 1], arcs[m]) {
        forall i | 0 <= i < |before| ensures PairLess(before[i], arcs[m]) {
          assert before[i] in arcs[..m];
          LastIsGreater(arcs, before[i]);
        }
      }
    }
  }

  lemma LastIsGreater(arcs: seq<Arc>, a: Arc)
    requires InOrder(arcs) && |arcs| > 1 && a in arcs[..|arcs| - 1]
    requires !SamePair(arcs[|arcs| - 2], arcs[|arcs| - 1])
    ensures PairLess(a, arcs[|arcs| - 1])
  {
    var m := |arcs| - 1;
    var i :| 0 <= i < m && arcs[i] == a;
    assert i == m - 1 || ArcLe(arcs[i], arcs[m - 1]);
    assert ArcLe(arcs[m - 1], arcs[m]);
  }

  lemma {:induction false} FirstsRepresent(arcs: seq<Arc>, b: Arc)
    requires InOrder(arcs) && b in arcs
    ensures Represented(Firsts(arcs), b)
  {
    if |arcs| <= 1 {
      assert SamePair(b, b);
    } else {
      var m := |arcs| - 1;
      if b in arcs[..m] {
        FirstsRepresent(arcs[..m], b);
        MoreRepresent(arcs, b, b);
      } else {
        assert b == arcs[m];
        if SamePair(arcs[m - 1], b) {
          assert ArcLe(arcs[m - 1], b);
          FirstsRepresent(arcs[..m], arcs[m - 1]);
          MoreRepresent(arcs, arcs[m - 1], b);
        } else {
          assert b in Firsts(arcs) && SamePair(b, b);
        }
      }
    }
  }

  lemma MoreRepresent(arcs: seq<Arc>, c: Arc, b: Arc)
    requires |arcs| > 1 && Represented(Firsts(arcs[..|arcs| - 1]), c) && SamePair(c, b) && c.w <= b.w
    ensures Represented(Firsts(arcs), b)
  {
    var before := Firsts(arcs[..|arcs| - 1]);
    var a :| a in before && SamePair(a, c) && a.w <= c.w;
    assert a in Firsts(arcs);
  }

  // Some kept arc joins the same two vertices and is not longer than b.
  ghost predicate Represented(kept: seq<Arc>, b: Arc) {
    exists a :: a in kept && SamePair(a, b) && a.w <= b.w
  }

  // kept is what is left of the roads: in strict order, without loops, and standing in for every road.
  ghost predicate Keeps(kept: seq<Arc>, roads: set<Arc>, n: nat) {
    && StrictOrder(kept)
    && (forall a :: a in kept ==> a in roads && a.from != a.to && a.from < n && a.to < n)
    && (forall b {:trigger Represented(kept, b)} :: b in roads && b.from != b.to ==> Represented(kept, b))
  }

  // ---------------------------------------------------------------- the row pointers

  ghost function Below(arcs: seq<Arc>, r: nat): nat {
    if arcs == [] then 0
    else Below(arcs[..|arcs| - 1], r) + if arcs[|arcs| - 1].from < r then 1 else 0
  }

  lemma {:induction false} BelowStep(arcs: seq<Arc>, r: nat)
    ensures Below(arcs, 0) == 0
    ensures Below(arcs, r + 1) == Below(arcs, r) + Bincount(arcs, r)
  {
    if arcs != [] {
      BelowStep(arcs[..|arcs| - 1], r);
    }
  }

  lemma {:induction false} CumSumIsBelow(arcs: seq<Arc>, r: nat)
    ensures CumSum(arcs, r) == Below(arcs, r)
  {
    if r == 0 {
      BelowStep(arcs, 0);
    } else {
      CumSumIsBelow(arcs, r - 1);
      BelowStep(arcs, r - 1);
    }
  }

  // In order of origin, the arcs from origins below r are exactly the first Below(arcs, r).
  lemma {:induction false} BelowSplits(arcs: seq<Arc>, r: nat)
    requires forall i, j :: 0 <= i < j < |arcs| ==> arcs[i].from <= arcs[j].from
    ensures Below(arcs, r) <= |arcs|
    ensures forall e :: 0 <= e < |arcs| ==> (arcs[e].from < r <==> e < Below(arcs, r))
  {
    if arcs != [] {
      var m := |arcs| - 1;
      BelowSplits(arcs[..m], r);
      if arcs[m].from < r && m > 0 {
        assert arcs[..m][m - 1].from <= arcs[m].from;
        assert arcs[..m][m - 1].from < r;
      }
    }
  }

  // ---------------------------------------------------------------- what the rows contain

  ghost function Kept(s: Segments): seq<Arc>
    requires s.Valid()
  {
    Firsts(LexSort(NoLoops(BothWays(s))))
  }

  lemma KeptHolds(s: Segments)
    requires s.Valid()
    ensures Keeps(Kept(s), s.Roads(), s.n)
  {
    var sorted := LexSort(NoLoops(BothWays(s)));
    LexSortSorts(NoLoops(BothWays(s)));
    FirstsStrict(sorted);
    FirstsAreMembers(sorted);
    forall a | a in Kept(s) ensures a in s.Roads() && a.from != a.to && a.from < s.n && a.to < s.n {
      BothWaysAreRoads(s, a);
    }
    forall b | b in s.Roads() && b.from != b.to ensures Represented(Kept(s), b) {
      BothWaysAreRoads(s, b);
      FirstsRepresent(sorted, b);
    }
  }

  lemma BothWaysAreRoads(s: Segments, a: Arc)
    requires s.Valid()
    ensures a in BothWays(s) <==> a in s.Roads()
    ensures a in s.Roads() ==> a.from < s.n && a.to < s.n
  {
    var both, m := BothWays(s), |s.u|;
    if a in both {
      var i :| 0 <= i < |both| && both[i] == a;
      assert a == if i < m then Arc(s.u[i], s.v[i], s.w[i]) else Arc(s.v[i - m], s.u[i - m], s.w[i - m]);
    }
    forall i | 0 <= i < m ensures Arc(s.u[i], s.v[i], s.w[i]) in both && Arc(s.v[i], s.u[i], s.w[i]) in both {
      assert both[i] == Arc(s.u[i], s.v[i], s.w[i]);
      assert both[m + i] == Arc(s.v[i], s.u[i], s.w[i]);
    }
  }

  lemma PointerSplits(kept: seq<Arc>, roads: set<Arc>, n: nat, r: nat)
    requires Keeps(kept, roads, n) && r <= n
    ensures CumSum(kept, r) <= |kept|
    ensures r == n ==> CumSum(kept, r) == |kept|
    ensures forall e :: 0 <= e < |kept| ==> (kept[e].from < r <==> e < CumSum(kept, r))
  {
    CumSumIsBelow(kept, r);
    forall i, j | 0 <= i < j < |kept| ensures kept[i].from <= kept[j].from {
      assert PairLess(kept[i], kept[j]);
    }
    BelowSplits(kept, r);
    assert forall e :: 0 <= e < |kept| ==> kept[e] in kept;
  }

  lemma RowPointers(s: Segments, r: nat)
    requires s.Valid() && r <= s.n
    ensures var p := ToCsr(s).ip[r];
            && p <= |Kept(s)|
            && (r == 0 ==> p == 0)
            && (r == s.n ==> p == |Kept(s)|)
            && forall e :: 0 <= e < |Kept(s)| ==> (Kept(s)[e].from < r <==> e < p)
  {
    KeptHolds(s);
    PointerSplits(Kept(s), s.Roads(), s.n, r);
  }

  lemma PointersRise(s: Segments, x: nat, y: nat)
    requires s.Valid() && x <= y <= s.n
    ensures ToCsr(s).ip[x] <= ToCsr(s).ip[y]
  {
    RowPointers(s, x);
    RowPointers(s, y);
    var p := ToCsr(s).ip[y];
    assert p < |Kept(s)| ==> !(Kept(s)[p].from < y);
  }

  // The rows are well formed, and row x holds exactly the kept arcs from x.
  lemma CsrHoldsKept(s: Segments)
    requires s.Valid()
    ensures ToCsr(s).Valid() && ToCsr(s).N() == s.n
    ensures forall x, e :: ToCsr(s).InRow(x, e) <==> 0 <= e < |Kept(s)| && Kept(s)[e].from == x
    ensures forall x, e :: ToCsr(s).InRow(x, e) ==> ToCsr(s).ArcAt(x, e) == Kept(s)[e]
  {
    var g, kept := ToCsr(s), Kept(s);
    KeptHolds(s);
    RowPointers(s, 0);
    RowPointers(s, s.n);
    forall x, y | 0 <= x <= y < |g.ip| ensures g.ip[x] <= g.ip[y] {
      PointersRise(s, x, y);
    }
    forall e | 0 <= e < |g.ix| ensures g.ix[e] < s.n {
      assert kept[e] in kept;
    }
    forall x, e ensures g.InRow(x, e) <==> 0 <= e < |kept| && kept[e].from == x {
      if 0 <= x < s.n {
        RowPointers(s, x);
        RowPointers(s, x + 1);
      } else if 0 <= e < |kept| {
        assert kept[e] in kept;
      }
    }
  }

  lemma CsrArcs(s: Segments)
    requires s.Valid()
    ensures ToCsr(s).Valid()
    ensures forall a :: a in ToCsr(s).Arcs() <==> a in Kept(s)
  {
    var g, kept := ToCsr(s), Kept(s);
    CsrHoldsKept(s);
    forall a ensures a in g.Arcs() <==> a in kept {
      if a in kept {
        var e :| 0 <= e < |kept| && kept[e] == a;
        assert g.InRow(a.from, e) && g.ArcAt(a.from, e) == a;
      }
      if a in g.Arcs() {
        var x, e :| 0 <= x < g.N() && 0 <= e < |g.ix| && g.InRow(x, e) && g.ArcAt(x, e) == a;
        assert kept[e] == a;
      }
    }
  }

  // ---------------------------------------------------------------- what the compressed rows mean

  // No loops; at most one arc per pair of vertices, the shortest of the parallel roads; and every arc both ways.
  lemma CsrShape(s: Segments)
    requires s.Valid()
    ensures ToCsr(s).Valid()
    ensures ToCsr(s).Arcs() <= s.Roads()
    ensures forall a :: a in ToCsr(s).Arcs() ==> a.from != a.to
    ensures forall a, b :: a in ToCsr(s).Arcs() && b in s.Roads() && SamePair(a, b) ==> a.w <= b.w
    ensures forall a :: a in ToCsr(s).Arcs() ==> Arc(a.to, a.from, a.w) in ToCsr(s).Arcs()
    ensures forall b {:trigger Represented(Kept(s), b)} :: b in s.Roads() && b.from != b.to ==> Represented(Kept(s), b)
    ensures forall x, e, f :: e < f && ToCsr(s).InRow(x, e) && ToCsr(s).InRow(x, f) ==>
              ToCsr(s).ArcAt(x, e).to < ToCsr(s).ArcAt(x, f).to
  {
    var g, kept := ToCsr(s), Kept(s);
    CsrHoldsKept(s);
    CsrArcs(s);
    KeptHolds(s);
    forall x, e, f | e < f && g.InRow(x, e) && g.InRow(x, f) ensures g.ArcAt(x, e).to < g.ArcAt(x, f).to {
      assert PairLess(kept[e], kept[f]);
    }
    forall a, b | a in g.Arcs() && b in s.Roads() && SamePair(a, b) ensures a.w <= b.w {
      KeptIsShortest(kept, s.Roads(), s.n, a, b);
    }
    forall b | b in s.Roads() ensures Arc(b.to, b.from, b.w) in s.Roads() {
      RoadsBothWays(s, b);
    }
    forall a | a in g.Arcs() ensures Arc(a.to, a.from, a.w) in g.Arcs() {
      KeptBothWays(kept, s.Roads(), s.n, a);
    }
  }

  lemma KeptIsShortest(kept: seq<Arc>, roads: set<Arc>, n: nat, a: Arc, b: Arc)
    requires Keeps(kept, roads, n) && a in kept && b in roads && SamePair(a, b)
    ensures a.w <= b.w
  {
    assert Represented(kept, b);
    var c :| c in kept && SamePair(c, b) && c.w <= b.w;
    var i :| 0 <= i < |kept| && kept[i] == a;
    var j :| 0 <= j < |kept| && kept[j] == c;
    OnePlacePerPair(kept, i, j);
  }

  lemma OnePlacePerPair(kept: seq<Arc>, i: nat, j: nat)
    requires StrictOrder(kept) && i < |kept| && j < |kept| && SamePair(kept[i], kept[j])
    ensures i == j
  {
  }

  lemma RoadsBothWays(s: Segments, a: Arc)
    requires s.Valid() && a in s.Roads()
    ensures Arc(a.to, a.from, a.w) in s.Roads()
  {
  }

  lemma KeptBothWays(kept: seq<Arc>, roads: set<Arc>, n: nat, a: Arc)
    requires Keeps(kept, roads, n) && a in kept
    requires forall b :: b in roads ==> Arc(b.to, b.from, b.w) in roads
    ensures Arc(a.to, a.from, a.w) in kept
  {
    var back := Arc(a.to, a.from, a.w);
    assert back in roads;
    assert Represented(kept, back);
    var c :| c in kept && SamePair(c, back) && c.w <= back.w;
    KeptIsShortest(kept, roads, n, a, Arc(c.to, c.from, c.w));
    assert c == back;
  }

  // Every walk over the roads has a walk over the rows between the same ends that is not longer ...
  lemma {:induction false} WalkOverKept(kept: seq<Arc>, rows: set<Arc>, roads: set<Arc>, n: nat, p: Walk, x: nat, y: nat)
    returns (q: Walk)
    requires Keeps(kept, roads, n) && (forall a :: a in kept ==> a in rows)
    requires NonNegative(roads) && IsWalk(roads, p, x, y)
    ensures IsWalk(rows, q, x, y) && Length(q) <= Length(p)
  {
    match p
    case At(_) =>
      q := p;
    case Via(prev, b) =>
      var r := WalkOverKept(kept, rows, roads, n, prev, x, b.from);
      if b.from == b.to {
        q := r;
      } else {
        assert Represented(kept, b);
        var a :| a in kept && SamePair(a, b) && a.w <= b.w;
        q := Via(r, a);
      }
  }

  lemma RowsWalkNotLonger(s: Segments, p: Walk, x: nat, y: nat) returns (q: Walk)
    requires s.Valid() && s.NonNegativeLengths() && IsWalk(s.Roads(), p, x, y)
    ensures ToCsr(s).Valid() && IsWalk(ToCsr(s).Arcs(), q, x, y) && Length(q) <= Length(p)
  {
    CsrArcs(s);
    KeptHolds(s);
    q := WalkOverKept(Kept(s), ToCsr(s).Arcs(), s.Roads(), s.n, p, x, y);
  }

  // ... and every walk over the rows is a walk over the roads.
  lemma {:induction false} WalkInLarger(arcs: set<Arc>, more: set<Arc>, p: Walk, x: nat, y: nat)
    requires arcs <= more && IsWalk(arcs, p, x, y)
    ensures IsWalk(more, p, x, y)
  {
    match p
    case At(_) =>
    case Via(prev, a) => WalkInLarger(arcs, more, prev, x, a.from);
  }

  ghost predicate IsLeastLength(arcs: set<Arc>, x: nat, y: nat, d: real) {
    && (exists p :: IsWalk(arcs, p, x, y) && Length(p) == d)
    && (forall p :: IsWalk(arcs, p, x, y) ==> d <= Length(p))
  }

  // The least length between any two vertices is the same over the rows as over the roads.
  lemma MetricPreserved(s: Segments, x: nat, y: nat, d: real)
    requires s.Valid() && s.NonNegativeLengths()
    ensures ToCsr(s).Valid()
    ensures IsLeastLength(ToCsr(s).Arcs(), x, y, d) <==> IsLeastLength(s.Roads(), x, y, d)
  {
    CsrShape(s);
    var rows, roads := ToCsr(s).Arcs(), s.Roads();
    if IsLeastLength(rows, x, y, d) {
      var p :| IsWalk(rows, p, x, y) && Length(p) == d;
      WalkInLarger(rows, roads, p, x, y);
      forall r | IsWalk(roads, r, x, y) ensures d <= Length(r) {
        var q := RowsWalkNotLonger(s, r, x, y);
      }
    }
    if IsLeastLength(roads, x, y, d) {
      var p :| IsWalk(roads, p, x, y) && Length(p) == d;
      var q := RowsWalkNotLonger(s, p, x, y);
      WalkInLarger(rows, roads, q, x, y);
      forall r | IsWalk(rows, r, x, y) ensures d <= Length(r) {
        WalkInLarger(rows, roads, r, x, y);
      }
    }
  }

  lemma RowsAttain(s: Segments, seeds: seq<Seed>, fac: nat, v: nat, x: real) returns (x': real)
    requires s.Valid() && s.NonNegativeLengths() && Attains(s.Roads(), seeds, fac, v, x)
    ensures ToCsr(s).Valid() && Attains(ToCsr(s).Arcs(), seeds, fac, v, x') && x' <= x
  {
    var i, p :| Route(s.Roads(), seeds, i, p, fac, v, x);
    var q := RowsWalkNotLonger(s, p, seeds[i].v, v);
    x' := seeds[i].d + Length(q);
    assert Route(ToCsr(s).Arcs(), seeds, i, q, fac, v, x');
  }

  lemma RoadsAttain(s: Segments, seeds: seq<Seed>, fac: nat, v: nat, x: real)
    requires s.Valid() && ToCsr(s).Valid() && Attains(ToCsr(s).Arcs(), seeds, fac, v, x)
    ensures Attains(s.Roads(), seeds, fac, v, x)
  {
    CsrShape(s);
    var i, p :| Route(ToCsr(s).Arcs(), seeds, i, p, fac, v, x);
    WalkInLarger(ToCsr(s).Arcs(), s.Roads(), p, seeds[i].v, v);
    assert Route(s.Roads(), seeds, i, p, fac, v, x);
  }

  // A list that is right for the rows is right for the roads themselves.
  lemma NearestOverRoads(s: Segments, seeds: seq<Seed>, k: nat, limit: real, v: nat, lab: seq<Label>, byNumber: bool)
    requires s.Valid() && s.NonNegativeLengths() && ToCsr(s).Valid()
    requires Nearest(ToCsr(s).Arcs(), seeds, k, limit, v, lab, byNumber)
    ensures Nearest(s.Roads(), seeds, k, limit, v, lab, byNumber)
  {
    forall j | 0 <= j < |lab| ensures IsDistance(s.Roads(), seeds, lab[j].fac, v, lab[j].d) {
      assert IsDistance(ToCsr(s).Arcs(), seeds, lab[j].fac, v, lab[j].d);
      RoadsAttain(s, seeds, lab[j].fac, v, lab[j].d);
      forall x | Attains(s.Roads(), seeds, lab[j].fac, v, x) ensures lab[j].d <= x {
        var x' := RowsAttain(s, seeds, lab[j].fac, v, x);
      }
    }
    forall f, x | Attains(s.Roads(), seeds, f, v, x) && x <= limit
      ensures Lists(lab, f) || (|lab| == k && AllBefore(byNumber, lab, Label(f, x)))
    {
      var x' := RowsAttain(s, seeds, f, v, x);
      if !Lists(lab, f) {
        assert AllBefore(byNumber, lab, Label(f, x'));
        forall j | 0 <= j < |lab| ensures Before(byNumber, lab[j], Label(f, x)) {
          assert Before(byNumber, lab[j], Label(f, x'));
        }
      }
    }
  }
}
