// The k nearest facilities of every vertex of a road graph, found by one heap that spreads from all facilities at once.
module KSource {
  import opened FiniteSets
  import opened Walks
  import opened NearestLists

  // Compressed sparse rows: the arcs leaving vertex x are the positions ip[x] <= e < ip[x + 1].
  datatype Csr = Csr(ip: seq<nat>, ix: seq<nat>, wt: seq<real>) {
    predicate Valid() {
      && |ip| >= 1
      && ip[0] == 0
      && ip[|ip| - 1] == |ix| == |wt|
      && (forall x, y :: 0 <= x <= y < |ip| ==> ip[x] <= ip[y])
      && (forall e :: 0 <= e < |ix| ==> ix[e] < |ip| - 1)
    }

    function N(): nat
      requires Valid()
    {
      |ip| - 1
    }

    predicate InRow(x: int, e: int)
      requires Valid()
    {
      0 <= x < N() && ip[x] <= e < ip[x + 1]
    }

    function ArcAt(x: int, e: int): Arc
      requires Valid() && InRow(x, e)
    {
      assert ip[x + 1] <= ip[|ip| - 1];
      Arc(x, ix[e], wt[e])
    }

    ghost function Arcs(): set<Arc>
      requires Valid()
    {
      set x, e | 0 <= x < N() && 0 <= e < |ix| && InRow(x, e) :: ArcAt(x, e)
    }
  }

  // ---------------------------------------------------------------- the state of the search

  datatype Item = Item(d: real, v: nat, s: nat)

  // Python's order on tuples.
  predicate ItemLe(a: Item, b: Item) {
    a.d < b.d || (a.d == b.d && (a.v < b.v || (a.v == b.v && a.s <= b.s)))
  }

  // The part of that order the search can rely on: all of it only when every arc has a positive length.
  ghost predicate Under(byNumber: bool, a: Item, b: Item) {
    if byNumber then ItemLe(a, b) else a.d <= b.d
  }

  // What is fixed during one search.
  datatype Query = Query(g: Csr, seeds: seq<Seed>, k: nat, limit: real, byNumber: bool) {
    ghost predicate Valid() {
      && g.Valid()
      && k >= 1
      && NonNegative(g.Arcs())
      && (byNumber ==> Positive(g.Arcs()))
      && (forall i :: 0 <= i < |seeds| ==> seeds[i].v < g.N())
    }
  }

  // The offer "fac at distance x" needs no further work at a vertex with labels lab.
  ghost predicate Settled(q: Query, lab: seq<Label>, fac: nat, x: real) {
    || (exists j :: 0 <= j < |lab| && lab[j].fac == fac && lab[j].d <= x)
    || (|lab| >= q.k && AllBefore(q.byNumber, lab, Label(fac, x)))
  }

  ghost predicate Covered(q: Query, L: seq<seq<Label>>, heap: multiset<Item>, v: nat, fac: nat, x: real) {
    v < |L| && (Settled(q, L[v], fac, x) || Item(x, v, fac) in heap)
  }

  // What label j of vertex x offers over arc e is taken care of.
  ghost predicate Relaxed(q: Query, L: seq<seq<Label>>, heap: multiset<Item>, x: int, e: int, j: int)
    requires q.g.Valid() && q.g.InRow(x, e) && |L| == q.g.N() && 0 <= j < |L[x]|
  {
    var a := q.g.ArcAt(x, e);
    L[x][j].d + a.w <= q.limit ==> Covered(q, L, heap, a.to, L[x][j].fac, L[x][j].d + a.w)
  }

  ghost predicate GoodLabels(q: Query, L: seq<seq<Label>>)
    requires q.g.Valid()
  {
    && |L| == q.g.N()
    && forall v :: 0 <= v < |L| ==> GoodRow(q, v, L[v])
  }

  ghost predicate GoodRow(q: Query, v: nat, lab: seq<Label>)
    requires q.g.Valid()
  {
    && |lab| <= q.k
    && Distinct(lab)
    && Sorted(q.byNumber, lab)
    && forall j :: 0 <= j < |lab| ==> lab[j].d <= q.limit && Attains(q.g.Arcs(), q.seeds, lab[j].fac, v, lab[j].d)
  }

  ghost predicate GoodItem(q: Query, it: Item)
    requires q.g.Valid()
  {
    it.v < q.g.N() && it.d <= q.limit && Attains(q.g.Arcs(), q.seeds, it.s, it.v, it.d)
  }

  ghost predicate GoodHeap(q: Query, heap: multiset<Item>)
    requires q.g.Valid()
  {
    forall it :: it in heap ==> GoodItem(q, it)
  }

  // Every label was taken from the heap before everything that is in it now.
  ghost predicate LabelsFirst(q: Query, L: seq<seq<Label>>, heap: multiset<Item>) {
    forall v, j, it :: 0 <= v < |L| && 0 <= j < |L[v]| && it in heap ==>
      Under(q.byNumber, Item(L[v][j].d, v, L[v][j].fac), it)
  }

  ghost predicate SeedsCovered(q: Query, L: seq<seq<Label>>, heap: multiset<Item>) {
    forall i :: 0 <= i < |q.seeds| && q.seeds[i].d <= q.limit ==>
      Covered(q, L, heap, q.seeds[i].v, q.seeds[i].fac, q.seeds[i].d)
  }

  // All arcs of all labels are relaxed, except those of the last label of vertex v from position e on.
  ghost predicate RelaxedBut(q: Query, L: seq<seq<Label>>, heap: multiset<Item>, v: int, e: int)
    requires q.g.Valid() && |L| == q.g.N()
  {
    forall x, f, j :: q.g.InRow(x, f) && 0 <= j < |L[x]| && !(x == v && j == |L[x]| - 1 && f >= e) ==>
      Relaxed(q, L, heap, x, f, j)
  }

  ghost predicate Inv(q: Query, L: seq<seq<Label>>, heap: multiset<Item>, v: int, e: int)
    requires q.Valid()
  {
    && GoodLabels(q, L)
    && GoodHeap(q, heap)
    && LabelsFirst(q, L, heap)
    && SeedsCovered(q, L, heap)
    && RelaxedBut(q, L, heap, v, e)
  }

  // ---------------------------------------------------------------- one step of the search

  ghost predicate Smallest(it: Item, heap: multiset<Item>) {
    it in heap && forall other :: other in heap ==> ItemLe(it, other)
  }

  // A popped item whose vertex is full or already holds the facility changes nothing that matters.
  lemma SkipKeepsInv(q: Query, L: seq<seq<Label>>, heap: multiset<Item>, it: Item)
    requires q.Valid() && Inv(q, L, heap, -1, 0) && Smallest(it, heap)
    requires |L[it.v]| >= q.k || Lists(L[it.v], it.s)
    ensures Inv(q, L, heap - multiset{it}, -1, 0)
  {
    var rest := heap - multiset{it};
    assert Settled(q, L[it.v], it.s, it.d) by {
      SettledWhenUnder(q, L, heap, it);
    }
    CoverageSurvives(q, L, heap, L, rest, it, -1, 0);
  }

  lemma SettledWhenUnder(q: Query, L: seq<seq<Label>>, heap: multiset<Item>, it: Item)
    requires q.Valid() && GoodLabels(q, L) && it.v < |L|
    requires forall j :: 0 <= j < |L[it.v]| ==> Under(q.byNumber, Item(L[it.v][j].d, it.v, L[it.v][j].fac), it)
    requires |L[it.v]| >= q.k || Lists(L[it.v], it.s)
    ensures Settled(q, L[it.v], it.s, it.d)
  {
  }

  // L' and heap' come from L and heap by taking item it off the heap and perhaps appending its label.
  ghost predicate Takes(q: Query, L: seq<seq<Label>>, heap: multiset<Item>, L': seq<seq<Label>>, heap': multiset<Item>, it: Item) {
    && |L'| == |L|
    && it.v < |L|
    && Settled(q, L'[it.v], it.s, it.d)
    && (forall x :: 0 <= x < |L| && x != it.v ==> L'[x] == L[x])
    && (L'[it.v] == L[it.v] || (|L[it.v]| < q.k && L'[it.v] == L[it.v] + [Label(it.s, it.d)]))
    && (forall other :: other in heap && other != it ==> other in heap')
  }

  lemma CoveredStays(q: Query, L: seq<seq<Label>>, heap: multiset<Item>, L': seq<seq<Label>>, heap': multiset<Item>, it: Item,
                     u: nat, s: nat, x: real)
    requires Takes(q, L, heap, L', heap', it) && Covered(q, L, heap, u, s, x)
    ensures Covered(q, L', heap', u, s, x)
  {
    if Settled(q, L[u], s, x) {
      if j :| 0 <= j < |L[u]| && L[u][j].fac == s && L[u][j].d <= x {
        assert L'[u][j] == L[u][j];
      }
    } else {
      assert Item(x, u, s) in heap;
    }
  }

  lemma CoverageSurvives(q: Query, L: seq<seq<Label>>, heap: multiset<Item>, L': seq<seq<Label>>, heap': multiset<Item>,
                         it: Item, v: int, e: int)
    requires q.g.Valid() && |L| == q.g.N() && SeedsCovered(q, L, heap) && RelaxedBut(q, L, heap, -1, 0)
    requires Takes(q, L, heap, L', heap', it)
    requires L' == L || (v == it.v && e == q.g.ip[it.v])
    ensures SeedsCovered(q, L', heap')
    ensures RelaxedBut(q, L', heap', v, e)
  {
    forall i | 0 <= i < |q.seeds| && q.seeds[i].d <= q.limit
      ensures Covered(q, L', heap', q.seeds[i].v, q.seeds[i].fac, q.seeds[i].d)
    {
      CoveredStays(q, L, heap, L', heap', it, q.seeds[i].v, q.seeds[i].fac, q.seeds[i].d);
    }
    forall x, f, j | q.g.InRow(x, f) && 0 <= j < |L'[x]| && !(x == v && j == |L'[x]| - 1 && f >= e)
      ensures Relaxed(q, L', heap', x, f, j)
    {
      assert j < |L[x]| && L'[x][j] == L[x][j];
      assert Relaxed(q, L, heap, x, f, j);
      var a := q.g.ArcAt(x, f);
      if L[x][j].d + a.w <= q.limit {
        CoveredStays(q, L, heap, L', heap', it, a.to, L[x][j].fac, L[x][j].d + a.w);
      }
    }
  }

  function Appended(L: seq<seq<Label>>, it: Item): seq<seq<Label>>
    requires it.v < |L|
  {
    L[it.v := L[it.v] + [Label(it.s, it.d)]]
  }

  lemma AcceptKeepsRows(q: Query, L: seq<seq<Label>>, heap: multiset<Item>, it: Item)
    requires q.Valid() && GoodLabels(q, L) && GoodItem(q, it) && it.v < |L|
    requires forall j :: 0 <= j < |L[it.v]| ==> Under(q.byNumber, Item(L[it.v][j].d, it.v, L[it.v][j].fac), it)
    requires |L[it.v]| < q.k && !Lists(L[it.v], it.s)
    ensures GoodLabels(q, Appended(L, it))
  {
    var L' := Appended(L, it);
    var lab := L'[it.v];
    assert lab[|lab| - 1] == Label(it.s, it.d);
    assert GoodRow(q, it.v, L[it.v]);
    assert GoodRow(q, it.v, lab);
    forall v | 0 <= v < |L'| ensures GoodRow(q, v, L'[v]) {
      assert GoodRow(q, v, L[v]);
    }
  }

  lemma AcceptKeepsFirst(q: Query, L: seq<seq<Label>>, heap: multiset<Item>, it: Item)
    requires LabelsFirst(q, L, heap) && Smallest(it, heap) && it.v < |L|
    ensures LabelsFirst(q, Appended(L, it), heap - multiset{it})
  {
    var L': seq<seq<Label>> := Appended(L, it);
    var rest := heap - multiset{it};
    forall v: nat, j: nat, other | v < |L'| && j < |L'[v]| && other in rest
      ensures Under(q.byNumber, Item(L'[v][j].d, v, L'[v][j].fac), other)
    {
      assert other in heap;
      if v != it.v || j < |L[v]| {
        assert L'[v][j] == L[v][j];
      }
    }
  }

  lemma AcceptTakes(q: Query, L: seq<seq<Label>>, heap: multiset<Item>, it: Item)
    requires it in heap && it.v < |L| && |L[it.v]| < q.k
    ensures Takes(q, L, heap, Appended(L, it), heap - multiset{it}, it)
  {
    var lab := Appended(L, it)[it.v];
    assert lab[|lab| - 1] == Label(it.s, it.d);
  }

  // A popped item that is accepted: its label is final, and only its own arcs are still to be relaxed.
  lemma AcceptKeepsInv(q: Query, L: seq<seq<Label>>, heap: multiset<Item>, it: Item)
    requires q.Valid() && Inv(q, L, heap, -1, 0) && Smallest(it, heap)
    requires |L[it.v]| < q.k && !Lists(L[it.v], it.s)
    ensures Inv(q, Appended(L, it), heap - multiset{it}, it.v, q.g.ip[it.v])
  {
    hide GoodRow, Lists, SeedsCovered, RelaxedBut, Takes;
    assert GoodItem(q, it);
    AcceptKeepsRows(q, L, heap, it);
    AcceptKeepsFirst(q, L, heap, it);
    AcceptTakes(q, L, heap, it);
    CoverageSurvives(q, L, heap, Appended(L, it), heap - multiset{it}, it, it.v, q.g.ip[it.v]);
  }

  // One arc of the newest label: pushed, or rightly left out because it is too long, or pruned at its far end.
  ghost predicate Pruned(q: Query, L: seq<seq<Label>>, u: nat, s: nat)
    requires u < |L|
  {
    |L[u]| >= q.k || Lists(L[u], s)
  }

  // The newest label is the last label taken, so every label stands before it in the order of the heap.
  ghost predicate IsLast(q: Query, L: seq<seq<Label>>, it: Item) {
    && it.v < |L|
    && |L[it.v]| > 0
    && L[it.v][|L[it.v]| - 1] == Label(it.s, it.d)
    && forall v, j :: 0 <= v < |L| && 0 <= j < |L[v]| ==> Under(q.byNumber, Item(L[v][j].d, v, L[v][j].fac), it)
  }

  ghost predicate ArcDone(q: Query, L: seq<seq<Label>>, heap: multiset<Item>, it: Item, e: int, heap': multiset<Item>)
    requires q.Valid() && |L| == q.g.N() && q.g.InRow(it.v, e)
  {
    var a := q.g.ArcAt(it.v, e);
    assert q.g.ip[it.v + 1] <= q.g.ip[|q.g.ip| - 1];
    heap' == if it.d + a.w > q.limit || Pruned(q, L, a.to, it.s) then heap
             else heap + multiset{Item(it.d + a.w, a.to, it.s)}
  }

  lemma PushedComesLater(q: Query, L: seq<seq<Label>>, it: Item, e: int, v: nat, j: nat)
    requires q.Valid() && |L| == q.g.N() && IsLast(q, L, it) && q.g.InRow(it.v, e)
    requires v < |L| && j < |L[v]|
    ensures var a := q.g.ArcAt(it.v, e);
            Under(q.byNumber, Item(L[v][j].d, v, L[v][j].fac), Item(it.d + a.w, a.to, it.s))
  {
    assert q.g.ip[it.v + 1] <= q.g.ip[|q.g.ip| - 1];
    assert q.g.ArcAt(it.v, e) in q.g.Arcs();
    assert Under(q.byNumber, Item(L[v][j].d, v, L[v][j].fac), it);
  }

  lemma NewArcRelaxed(q: Query, L: seq<seq<Label>>, heap: multiset<Item>, it: Item, e: int, heap': multiset<Item>)
    requires q.Valid() && GoodLabels(q, L) && IsLast(q, L, it) && q.g.InRow(it.v, e) && ArcDone(q, L, heap, it, e, heap')
    ensures Relaxed(q, L, heap', it.v, e, |L[it.v]| - 1)
  {
    var a := q.g.ArcAt(it.v, e);
    if it.d + a.w <= q.limit && Pruned(q, L, a.to, it.s) {
      forall i: nat | i < |L[a.to]|
        ensures Under(q.byNumber, Item(L[a.to][i].d, a.to, L[a.to][i].fac), Item(it.d + a.w, a.to, it.s))
      {
        PushedComesLater(q, L, it, e, a.to, i);
      }
      SettledWhenUnder(q, L, heap, Item(it.d + a.w, a.to, it.s));
    }
  }

  lemma RelaxKeepsRelaxed(q: Query, L: seq<seq<Label>>, heap: multiset<Item>, it: Item, e: int, heap': multiset<Item>)
    requires q.Valid() && GoodLabels(q, L) && IsLast(q, L, it) && q.g.InRow(it.v, e) && ArcDone(q, L, heap, it, e, heap')
    requires RelaxedBut(q, L, heap, it.v, e) && SeedsCovered(q, L, heap)
    ensures RelaxedBut(q, L, heap', it.v, e + 1) && SeedsCovered(q, L, heap')
  {
    assert forall u: nat, s: nat, x: real :: Covered(q, L, heap, u, s, x) ==> Covered(q, L, heap', u, s, x);
    forall x, f, j | q.g.InRow(x, f) && 0 <= j < |L[x]| && !(x == it.v && j == |L[x]| - 1 && f >= e + 1)
      ensures Relaxed(q, L, heap', x, f, j)
    {
      if x == it.v && j == |L[x]| - 1 && f == e {
        NewArcRelaxed(q, L, heap, it, e, heap');
      } else {
        assert Relaxed(q, L, heap, x, f, j);
      }
    }
  }

  lemma RelaxKeepsHeap(q: Query, L: seq<seq<Label>>, heap: multiset<Item>, it: Item, e: int, heap': multiset<Item>)
    requires q.Valid() && GoodLabels(q, L) && IsLast(q, L, it) && q.g.InRow(it.v, e) && ArcDone(q, L, heap, it, e, heap')
    requires GoodHeap(q, heap) && LabelsFirst(q, L, heap)
    ensures GoodHeap(q, heap') && LabelsFirst(q, L, heap')
  {
    var a := q.g.ArcAt(it.v, e);
    var pushed := Item(it.d + a.w, a.to, it.s);
    assert q.g.ip[it.v + 1] <= q.g.ip[|q.g.ip| - 1];
    assert a in q.g.Arcs();
    assert GoodRow(q, it.v, L[it.v]);
    AttainsStep(q.g.Arcs(), q.seeds, it.s, it.d, a);
    forall other | other in heap' ensures GoodItem(q, other) {
      assert other in heap || other == pushed;
    }
    forall v: nat, j: nat, other | v < |L| && j < |L[v]| && other in heap'
      ensures Under(q.byNumber, Item(L[v][j].d, v, L[v][j].fac), other)
    {
      PushedComesLater(q, L, it, e, v, j);
    }
  }

  lemma RelaxKeepsInv(q: Query, L: seq<seq<Label>>, heap: multiset<Item>, it: Item, e: int, heap': multiset<Item>)
    requires q.Valid() && Inv(q, L, heap, it.v, e) && IsLast(q, L, it) && q.g.InRow(it.v, e) && ArcDone(q, L, heap, it, e, heap')
    ensures Inv(q, L, heap', it.v, e + 1)
  {
    RelaxKeepsHeap(q, L, heap, it, e, heap');
    RelaxKeepsRelaxed(q, L, heap, it, e, heap');
  }

  // ---------------------------------------------------------------- an empty heap means the labels are the answer

  ghost predicate Done(q: Query, L: seq<seq<Label>>) {
    && q.Valid()
    && GoodLabels(q, L)
    && SeedsCovered(q, L, multiset{})
    && RelaxedBut(q, L, multiset{}, -1, 0)
  }

  // The heart of the pruning: a facility dropped at a full vertex cannot matter further on, because the k facilities that
  // filled the vertex all go on along the same arc, and together they fill the next vertex as well.
  lemma FullGoesOn(q: Query, L: seq<seq<Label>>, a: Arc, fac: nat, x: real)
    requires Done(q, L) && a.from < |L| && a.to < |L|
    requires |L[a.from]| == q.k && AllBefore(q.byNumber, L[a.from], Label(fac, x))
    requires forall j :: 0 <= j < q.k ==> Settled(q, L[a.to], L[a.from][j].fac, L[a.from][j].d + a.w)
    ensures Settled(q, L[a.to], fac, x + a.w)
  {
    var here, there := L[a.from], L[a.to];
    if j :| 0 <= j < q.k && |there| >= q.k && AllBefore(q.byNumber, there, Label(here[j].fac, here[j].d + a.w)) {
      assert Before(q.byNumber, here[j], Label(fac, x));
    } else {
      assert GoodRow(q, a.from, here) && GoodRow(q, a.to, there);
      forall j | 0 <= j < |here| ensures ListsWithin(there, here[j].fac, here[j].d + a.w) {
        assert Settled(q, there, here[j].fac, here[j].d + a.w);
      }
      SameFacilitiesGoOn(q.byNumber, here, there, q.k, a.w, Label(fac, x));
    }
  }

  ghost predicate ListsWithin(lab: seq<Label>, fac: nat, x: real) {
    exists j :: 0 <= j < |lab| && lab[j].fac == fac && lab[j].d <= x
  }

  lemma SameFacilitiesGoOn(byNumber: bool, here: seq<Label>, there: seq<Label>, k: nat, w: real, b: Label)
    requires Distinct(here) && Distinct(there) && |here| == k && |there| <= k
    requires AllBefore(byNumber, here, b)
    requires forall j :: 0 <= j < |here| ==> ListsWithin(there, here[j].fac, here[j].d + w)
    ensures |there| == k && AllBefore(byNumber, there, Label(b.fac, b.d + w))
  {
    forall s | s in Facs(here) ensures s in Facs(there) {
      var j :| 0 <= j < |here| && here[j].fac == s;
      assert ListsWithin(there, here[j].fac, here[j].d + w);
    }
    FacsSize(here);
    FacsSize(there);
    SubsetOfSameSize(Facs(here), Facs(there));
    forall i | 0 <= i < |there| ensures Before(byNumber, there[i], Label(b.fac, b.d + w)) {
      assert there[i].fac in Facs(here);
      var j :| 0 <= j < |here| && here[j].fac == there[i].fac;
      assert ListsWithin(there, here[j].fac, here[j].d + w);
      assert Before(byNumber, here[j], b);
    }
  }

  lemma RowOfArc(g: Csr, a: Arc) returns (e: nat)
    requires g.Valid() && a in g.Arcs()
    ensures g.InRow(a.from, e) && g.ArcAt(a.from, e) == a && a.from < g.N() && a.to < g.N()
  {
    var v, f :| 0 <= v < g.N() && 0 <= f < |g.ix| && g.InRow(v, f) && g.ArcAt(v, f) == a;
    e := f;
  }

  lemma LabelGoesOn(q: Query, L: seq<seq<Label>>, a: Arc, j: nat)
    requires Done(q, L) && a in q.g.Arcs() && a.from < |L| && j < |L[a.from]| && L[a.from][j].d + a.w <= q.limit
    ensures a.to < |L| && Settled(q, L[a.to], L[a.from][j].fac, L[a.from][j].d + a.w)
  {
    var e := RowOfArc(q.g, a);
    assert Relaxed(q, L, multiset{}, a.from, e, j);
  }

  lemma StepSettled(q: Query, L: seq<seq<Label>>, a: Arc, fac: nat, x: real)
    requires Done(q, L) && a in q.g.Arcs() && x + a.w <= q.limit
    requires a.from < |L| && Settled(q, L[a.from], fac, x)
    ensures a.to < |L| && Settled(q, L[a.to], fac, x + a.w)
  {
    var here := L[a.from];
    var e := RowOfArc(q.g, a);
    if j: nat :| j < |here| && here[j].fac == fac && here[j].d <= x {
      LabelGoesOn(q, L, a, j);
    } else {
      assert GoodRow(q, a.from, here);
      forall j: nat | j < q.k ensures Settled(q, L[a.to], here[j].fac, here[j].d + a.w) {
        assert Before(q.byNumber, here[j], Label(fac, x));
        LabelGoesOn(q, L, a, j);
      }
      FullGoesOn(q, L, a, fac, x);
    }
  }

  lemma {:induction false} WalkSettled(q: Query, L: seq<seq<Label>>, i: nat, p: Walk, v: nat)
    requires Done(q, L) && i < |q.seeds| && IsWalk(q.g.Arcs(), p, q.seeds[i].v, v)
    requires q.seeds[i].d + Length(p) <= q.limit
    ensures v < |L| && Settled(q, L[v], q.seeds[i].fac, q.seeds[i].d + Length(p))
  {
    match p
    case At(_) =>
    case Via(prev, a) =>
      WalkSettled(q, L, i, prev, a.from);
      StepSettled(q, L, a, q.seeds[i].fac, q.seeds[i].d + Length(prev));
  }

  lemma AttainedSettled(q: Query, L: seq<seq<Label>>, fac: nat, v: nat, x: real)
    requires Done(q, L) && Attains(q.g.Arcs(), q.seeds, fac, v, x) && x <= q.limit
    ensures v < |L| && Settled(q, L[v], fac, x)
  {
    var i, p :| Route(q.g.Arcs(), q.seeds, i, p, fac, v, x);
    WalkSettled(q, L, i, p, v);
  }

  lemma DoneIsNearest(q: Query, L: seq<seq<Label>>, v: nat)
    requires Done(q, L) && v < |L|
    ensures Nearest(q.g.Arcs(), q.seeds, q.k, q.limit, v, L[v], q.byNumber)
  {
    var lab := L[v];
    assert GoodRow(q, v, lab);
    forall j, x | 0 <= j < |lab| && Attains(q.g.Arcs(), q.seeds, lab[j].fac, v, x) ensures lab[j].d <= x {
      if x <= q.limit {
        AttainedSettled(q, L, lab[j].fac, v, x);
        if i :| 0 <= i < |lab| && lab[i].fac == lab[j].fac && lab[i].d <= x {
          assert i == j;
        }
      }
    }
    forall s, x | Attains(q.g.Arcs(), q.seeds, s, v, x) && x <= q.limit
      ensures Lists(lab, s) || (|lab| == q.k && AllBefore(q.byNumber, lab, Label(s, x)))
    {
      AttainedSettled(q, L, s, v, x);
    }
  }

  // ---------------------------------------------------------------- the search itself

  datatype Dist = Inf | Fin(m: real)

  // How many more labels can still be given.
  ghost function Room(L: seq<seq<Label>>, k: nat): nat {
    if L == [] then 0 else (if |L[0]| <= k then k - |L[0]| else 0) + Room(L[1..], k)
  }

  lemma {:induction false} RoomShrinks(L: seq<seq<Label>>, k: nat, v: nat, lab: seq<Label>)
    requires v < |L| && |L[v]| < k && |lab| == |L[v]| + 1
    ensures Room(L[v := lab], k) == Room(L, k) - 1
  {
    if v > 0 {
      assert L[v := lab][1..] == L[1..][v - 1 := lab];
      RoomShrinks(L[1..], k, v - 1, lab);
    } else {
      assert L[v := lab][1..] == L[1..];
    }
  }

  function Numbers(lab: seq<Label>): seq<nat> {
    seq(|lab|, j requires 0 <= j < |lab| => lab[j].fac)
  }

  lemma NumbersList(lab: seq<Label>, s: nat)
    ensures s in Numbers(lab) <==> Lists(lab, s)
  {
    if j :| 0 <= j < |lab| && lab[j].fac == s {
      assert Numbers(lab)[j] == s;
    }
  }

  // Row v of the two result arrays shows exactly the list lab, with -1 and infinity behind it.
  ghost predicate Shows(src: array2<int>, dist: array2<Dist>, v: nat, lab: seq<Label>)
    requires v < src.Length0 && v < dist.Length0 && src.Length1 == dist.Length1
    reads src, dist
  {
    && |lab| <= src.Length1
    && forall j :: 0 <= j < src.Length1 ==>
         if j < |lab| then src[v, j] == lab[j].fac && dist[v, j] == Fin(lab[j].d) else src[v, j] == -1 && dist[v, j] == Inf
  }

  method HeapPop(heap: multiset<Item>) returns (it: Item, rest: multiset<Item>)
    requires heap != multiset{}
    ensures Smallest(it, heap) && rest == heap - multiset{it}
  {
    SmallestExists(heap);
    it :| it in heap && forall other :: other in heap ==> ItemLe(it, other);
    rest := heap - multiset{it};
  }

  lemma {:induction false} SmallestExists(heap: multiset<Item>)
    requires heap != multiset{}
    ensures exists it :: Smallest(it, heap)
  {
    var x :| x in heap;
    var rest := heap - multiset{x};
    if rest == multiset{} {
      assert heap == multiset{x};
      assert Smallest(x, heap);
    } else {
      SmallestExists(rest);
      var y :| Smallest(y, rest);
      var z := if ItemLe(x, y) then x else y;
      SmallerOfTwo(heap, x, y, z);
      assert Smallest(z, heap);
    }
  }

  lemma SmallerOfTwo(heap: multiset<Item>, x: Item, y: Item, z: Item)
    requires x in heap && Smallest(y, heap - multiset{x})
    requires z == if ItemLe(x, y) then x else y
    ensures Smallest(z, heap)
  {
    forall other | other in heap ensures ItemLe(z, other) {
      if other != x {
        assert other in heap - multiset{x};
      }
    }
  }

  function StartHeap(seeds: seq<Seed>, limit: real): multiset<Item> {
    if seeds == [] then multiset{}
    else StartHeap(seeds[1..], limit)
         + if seeds[0].d <= limit then multiset{Item(seeds[0].d, seeds[0].v, seeds[0].fac)} else multiset{}
  }

  lemma {:induction false} StartHeapHolds(seeds: seq<Seed>, limit: real, it: Item)
    ensures it in StartHeap(seeds, limit)
            <==> exists i :: 0 <= i < |seeds| && seeds[i].d <= limit && it == Item(seeds[i].d, seeds[i].v, seeds[i].fac)
  {
    if seeds != [] {
      StartHeapHolds(seeds[1..], limit, it);
      if it in StartHeap(seeds[1..], limit) {
        var i :| 0 <= i < |seeds[1..]| && seeds[1..][i].d <= limit
                 && it == Item(seeds[1..][i].d, seeds[1..][i].v, seeds[1..][i].fac);
        assert seeds[i + 1] == seeds[1..][i];
      }
      forall i | 0 < i < |seeds| ensures seeds[i] == seeds[1..][i - 1] {
      }
    }
  }

  lemma StartInv(q: Query, L: seq<seq<Label>>)
    requires q.Valid() && |L| == q.g.N() && forall v :: 0 <= v < |L| ==> L[v] == []
    ensures Inv(q, L, StartHeap(q.seeds, q.limit), -1, 0)
  {
    var heap := StartHeap(q.seeds, q.limit);
    forall it | it in heap ensures GoodItem(q, it) {
      StartHeapHolds(q.seeds, q.limit, it);
      var i :| 0 <= i < |q.seeds| && q.seeds[i].d <= q.limit && it == Item(q.seeds[i].d, q.seeds[i].v, q.seeds[i].fac);
      AttainsSeed(q.g.Arcs(), q.seeds, i);
    }
    forall i | 0 <= i < |q.seeds| && q.seeds[i].d <= q.limit
      ensures Covered(q, L, heap, q.seeds[i].v, q.seeds[i].fac, q.seeds[i].d)
    {
      StartHeapHolds(q.seeds, q.limit, Item(q.seeds[i].d, q.seeds[i].v, q.seeds[i].fac));
    }
  }

  // The label lists of the program (here: no list yet is the empty list, which is the same for k >= 1).
  ghost predicate Mirrors(labels: array<seq<nat>>, src: array2<int>, dist: array2<Dist>, L: seq<seq<Label>>, k: nat)
    reads labels, src, dist
  {
    && labels.Length == |L| == src.Length0 == dist.Length0
    && src.Length1 == dist.Length1 == k
    && forall v :: 0 <= v < |L| ==> labels[v] == Numbers(L[v]) && Shows(src, dist, v, L[v])
  }

  lemma BlankMirrors(labels: array<seq<nat>>, src: array2<int>, dist: array2<Dist>, L: seq<seq<Label>>, k: nat)
    requires labels.Length == |L| == src.Length0 == dist.Length0 && src.Length1 == dist.Length1 == k
    requires forall v :: 0 <= v < |L| ==> L[v] == [] && labels[v] == []
    requires forall v, j :: 0 <= v < |L| && 0 <= j < k ==> src[v, j] == -1 && dist[v, j] == Inf
    ensures Mirrors(labels, src, dist, L, k)
  {
  }

  lemma MirrorsShow(labels: array<seq<nat>>, src: array2<int>, dist: array2<Dist>, L: seq<seq<Label>>, k: nat)
    requires Mirrors(labels, src, dist, L, k)
    ensures |L| == src.Length0 == dist.Length0 && k == src.Length1 == dist.Length1
    ensures forall v :: 0 <= v < |L| ==> Shows(src, dist, v, L[v])
  {
  }

  // With the heap used up every list is right.
  lemma EndIsNearest(q: Query, L: seq<seq<Label>>)
    requires q.Valid() && Inv(q, L, multiset{}, -1, 0)
    ensures |L| == q.g.N()
    ensures forall v :: 0 <= v < |L| ==> Nearest(q.g.Arcs(), q.seeds, q.k, q.limit, v, L[v], q.byNumber)
  {
    hide Nearest;
    forall v: nat | v < |L| ensures Nearest(q.g.Arcs(), q.seeds, q.k, q.limit, v, L[v], q.byNumber) {
      DoneIsNearest(q, L, v);
    }
  }

  method KNearest(g: Csr, seeds: seq<Seed>, k: nat, limit: real)
    returns (src: array2<int>, dist: array2<Dist>, ghost L: seq<seq<Label>>)
    requires g.Valid() && NonNegative(g.Arcs())
    requires k >= 1
    requires forall i :: 0 <= i < |seeds| ==> seeds[i].v < g.N()
    ensures |L| == g.N() == src.Length0 == dist.Length0 && k == src.Length1 == dist.Length1
    ensures forall v :: 0 <= v < g.N() ==> Shows(src, dist, v, L[v])
    ensures forall v :: 0 <= v < g.N() ==> Nearest(g.Arcs(), seeds, k, limit, v, L[v], Positive(g.Arcs()))
  {
    hide Inv, Mirrors, Nearest, Shows, Room, StartHeap, NonNegative, Positive, Csr.Arcs;
    var n := |g.ip| - 1;
    ghost var q := Query(g, seeds, k, limit, Positive(g.Arcs()));
    src := new int[n, k]((_, _) => -1);
    dist := new Dist[n, k]((_, _) => Inf);
    var labels := new seq<nat>[n](_ => []);
    L := seq(n, _ => []);
    var heap := StartHeap(seeds, limit);
    StartInv(q, L);
    BlankMirrors(labels, src, dist, L, k);
    while heap != multiset{}
      invariant Inv(q, L, heap, -1, 0)
      invariant Mirrors(labels, src, dist, L, k)
      invariant fresh(labels) && fresh(src) && fresh(dist)
      decreases Room(L, k), |heap|
    {
      heap, L := Expand(g, labels, src, dist, heap, k, limit, q, L);
    }
    MirrorsShow(labels, src, dist, L, k);
    EndIsNearest(q, L);
  }

  // One round of the loop: pop the nearest item, drop it or give its vertex the label and push the neighbours.
  method Expand(g: Csr, labels: array<seq<nat>>, src: array2<int>, dist: array2<Dist>, heap0: multiset<Item>, k: nat,
                limit: real, ghost q: Query, ghost L0: seq<seq<Label>>) returns (heap: multiset<Item>, ghost L: seq<seq<Label>>)
    requires q.Valid() && q.g == g && q.k == k && q.limit == limit
    requires Inv(q, L0, heap0, -1, 0) && heap0 != multiset{}
    requires Mirrors(labels, src, dist, L0, k)
    modifies labels, src, dist
    ensures Inv(q, L, heap, -1, 0)
    ensures Mirrors(labels, src, dist, L, k)
    ensures Room(L, k) < Room(L0, k) || (L == L0 && |heap| < |heap0|)
  {
    var it;
    it, heap := HeapPop(heap0);
    L := L0;
    assert GoodItem(q, it);
    NumbersList(L[it.v], it.s);
    if |labels[it.v]| >= k || it.s in labels[it.v] {
      SkipKeepsInv(q, L, heap0, it);
      return;
    }
    AcceptKeepsInv(q, L, heap0, it);
    RoomShrinks(L, k, it.v, L[it.v] + [Label(it.s, it.d)]);
    IsLastAfterAccept(q, L, heap0, it);
    Record(labels, src, dist, it, k, L);
    L := Appended(L, it);
    heap := PushNeighbours(g, labels, it, heap, k, limit, q, L);
  }

  // The label goes to the end of the vertex's list and into the next free column of its row.
  method Record(labels: array<seq<nat>>, src: array2<int>, dist: array2<Dist>, it: Item, k: nat, ghost L: seq<seq<Label>>)
    requires Mirrors(labels, src, dist, L, k) && it.v < |L| && |L[it.v]| < k
    modifies labels, src, dist
    ensures Mirrors(labels, src, dist, Appended(L, it), k)
  {
    var j := |labels[it.v]|;
    labels[it.v] := labels[it.v] + [it.s];
    src[it.v, j] := it.s;
    dist[it.v, j] := Fin(it.d);
    ghost var L' := Appended(L, it);
    forall v | 0 <= v < |L'| ensures labels[v] == Numbers(L'[v]) && Shows(src, dist, v, L'[v]) {
      if v != it.v {
        assert old(Shows(src, dist, v, L[v]));
      }
    }
  }

  lemma IsLastAfterAccept(q: Query, L: seq<seq<Label>>, heap: multiset<Item>, it: Item)
    requires q.Valid() && Inv(q, L, heap, -1, 0) && it in heap && it.v < |L|
    ensures IsLast(q, Appended(L, it), it)
  {
    var L': seq<seq<Label>> := Appended(L, it);
    forall v: nat, j: nat | v < |L'| && j < |L'[v]| ensures Under(q.byNumber, Item(L'[v][j].d, v, L'[v][j].fac), it) {
      if v != it.v || j < |L[v]| {
        assert L'[v][j] == L[v][j];
      }
    }
  }

  lemma InvShape(q: Query, L: seq<seq<Label>>, heap: multiset<Item>, v: int, e: int)
    requires q.Valid() && Inv(q, L, heap, v, e)
    ensures |L| == q.g.N()
  {
  }

  lemma RowRelaxed(q: Query, L: seq<seq<Label>>, heap: multiset<Item>, v: nat)
    requires q.Valid() && v < q.g.N() && Inv(q, L, heap, v, q.g.ip[v + 1])
    ensures Inv(q, L, heap, -1, 0)
  {
    hide GoodLabels, GoodHeap, LabelsFirst, SeedsCovered, Relaxed;
    InvShape(q, L, heap, v, q.g.ip[v + 1]);
    assert RelaxedBut(q, L, heap, -1, 0);
  }

  lemma PrunedAtList(q: Query, L: seq<seq<Label>>, lu: seq<nat>, u: nat, s: nat)
    requires u < |L| && lu == Numbers(L[u])
    ensures Pruned(q, L, u, s) <==> |lu| >= q.k || s in lu
  {
    NumbersList(L[u], s);
  }

  // The arcs of a freshly accepted label.
  method PushNeighbours(g: Csr, labels: array<seq<nat>>, it: Item, heap0: multiset<Item>, k: nat, limit: real,
                        ghost q: Query, ghost L: seq<seq<Label>>) returns (heap: multiset<Item>)
    requires q.Valid() && q.g == g && q.k == k && q.limit == limit
    requires |L| == labels.Length && forall v :: 0 <= v < |L| ==> labels[v] == Numbers(L[v])
    requires IsLast(q, L, it) && it.v < g.N()
    requires Inv(q, L, heap0, it.v, g.ip[it.v])
    ensures Inv(q, L, heap, -1, 0)
  {
    hide Inv, IsLast, Numbers, Pruned, Csr.Arcs, NonNegative, Positive;
    InvShape(q, L, heap0, it.v, g.ip[it.v]);
    heap := heap0;
    var e := g.ip[it.v];
    while e < g.ip[it.v + 1]
      invariant g.ip[it.v] <= e <= g.ip[it.v + 1]
      invariant Inv(q, L, heap, it.v, e)
    {
      ghost var before := heap;
      assert g.ip[it.v + 1] <= g.ip[|g.ip| - 1];
      assert g.InRow(it.v, e);
      var nd := it.d + g.wt[e];
      var u := g.ix[e];
      var lu := labels[u];
      if nd <= limit && !(|lu| >= k || it.s in lu) {
        heap := heap + multiset{Item(nd, u, it.s)};
      }
      PrunedAtList(q, L, lu, u, it.s);
      assert ArcDone(q, L, before, it, e, heap);
      RelaxKeepsInv(q, L, before, it, e, heap);
      e := e + 1;
    }
    RowRelaxed(q, L, heap, it.v);
  }
}
