// What the answer at one vertex must be: the list of the k nearest facilities, and why there is only one such list.
module NearestLists {
  import opened FiniteSets
  import opened Walks

  datatype Label = Label(fac: nat, d: real)

  // Nearer first; with byNumber, equally near facilities stand in the order of their numbers.
  ghost predicate Before(byNumber: bool, a: Label, b: Label) {
    a.d < b.d || (a.d == b.d && (byNumber ==> a.fac <= b.fac))
  }

  ghost predicate Lists(lab: seq<Label>, fac: nat) {
    exists j :: 0 <= j < |lab| && lab[j].fac == fac
  }

  ghost predicate Distinct(lab: seq<Label>) {
    forall i, j :: 0 <= i < j < |lab| ==> lab[i].fac != lab[j].fac
  }

  ghost predicate Sorted(byNumber: bool, lab: seq<Label>) {
    forall i, j :: 0 <= i < j < |lab| ==> Before(byNumber, lab[i], lab[j])
  }

  ghost predicate AllBefore(byNumber: bool, lab: seq<Label>, b: Label) {
    forall j :: 0 <= j < |lab| ==> Before(byNumber, lab[j], b)
  }

  // lab is the list of the (at most) k facilities nearest to v among those within the limit.
  ghost predicate Nearest(arcs: set<Arc>, seeds: seq<Seed>, k: nat, limit: real, v: nat, lab: seq<Label>, byNumber: bool) {
    && |lab| <= k
    && Distinct(lab)
    && Sorted(byNumber, lab)
    && (forall j :: 0 <= j < |lab| ==> lab[j].d <= limit && IsDistance(arcs, seeds, lab[j].fac, v, lab[j].d))
    && (forall s, x :: Attains(arcs, seeds, s, v, x) && x <= limit ==>
          Lists(lab, s) || (|lab| == k && AllBefore(byNumber, lab, Label(s, x))))
  }

  // ---------------------------------------------------------------- facilities of a list as a set

  ghost function Facs(lab: seq<Label>): set<nat> {
    set j | 0 <= j < |lab| :: lab[j].fac
  }

  lemma {:induction false} FacsSize(lab: seq<Label>)
    requires Distinct(lab)
    ensures |Facs(lab)| == |lab|
  {
    if |lab| > 0 {
      var n := |lab| - 1;
      FacsSize(lab[..n]);
      assert Facs(lab) == Facs(lab[..n]) + {lab[n].fac};
      assert lab[n].fac !in Facs(lab[..n]);
    }
  }

  // ---------------------------------------------------------------- how many labels there are

  ghost predicate IsWithin(arcs: set<Arc>, seeds: seq<Seed>, limit: real, v: nat, fac: nat) {
    exists d :: Attains(arcs, seeds, fac, v, d) && d <= limit
  }

  // The facilities that reach v within the limit.
  ghost function Within(arcs: set<Arc>, seeds: seq<Seed>, limit: real, v: nat): set<nat> {
    set i | 0 <= i < |seeds| && IsWithin(arcs, seeds, limit, v, seeds[i].fac) :: seeds[i].fac
  }

  // There are min(k, number of facilities within the limit) labels.
  lemma LabelCount(arcs: set<Arc>, seeds: seq<Seed>, k: nat, limit: real, v: nat, lab: seq<Label>, byNumber: bool)
    requires Nearest(arcs, seeds, k, limit, v, lab, byNumber)
    ensures |lab| == if |Within(arcs, seeds, limit, v)| < k then |Within(arcs, seeds, limit, v)| else k
  {
    var near := Within(arcs, seeds, limit, v);
    forall s | s in Facs(lab) ensures s in near {
      var j :| 0 <= j < |lab| && lab[j].fac == s;
      assert IsDistance(arcs, seeds, s, v, lab[j].d);
      var i, p :| Route(arcs, seeds, i, p, s, v, lab[j].d);
    }
    FacsSize(lab);
    SubsetIsSmaller(Facs(lab), near);
    if |lab| < k {
      forall s | s in near ensures s in Facs(lab) {
        var d :| Attains(arcs, seeds, s, v, d) && d <= limit;
        assert Lists(lab, s);
      }
      SubsetIsSmaller(near, Facs(lab));
    }
  }

  // ---------------------------------------------------------------- the answer is unique

  ghost predicate SameSeeds(seeds: seq<Seed>, seeds': seq<Seed>) {
    forall x :: x in seeds <==> x in seeds'
  }

  lemma AttainsSameSeeds(arcs: set<Arc>, seeds: seq<Seed>, seeds': seq<Seed>, s: nat, v: nat, x: real)
    requires SameSeeds(seeds, seeds') && Attains(arcs, seeds, s, v, x)
    ensures Attains(arcs, seeds', s, v, x)
  {
    var i, p :| Route(arcs, seeds, i, p, s, v, x);
    assert seeds[i] in seeds';
    var j :| 0 <= j < |seeds'| && seeds'[j] == seeds[i];
    assert Route(arcs, seeds', j, p, s, v, x);
  }

  lemma NearestSameSeeds(arcs: set<Arc>, seeds: seq<Seed>, seeds': seq<Seed>, k: nat, limit: real, v: nat, lab: seq<Label>,
                         byNumber: bool)
    requires SameSeeds(seeds, seeds') && Nearest(arcs, seeds, k, limit, v, lab, byNumber)
    ensures Nearest(arcs, seeds', k, limit, v, lab, byNumber)
  {
    forall s, x ensures Attains(arcs, seeds, s, v, x) <==> Attains(arcs, seeds', s, v, x) {
      if Attains(arcs, seeds, s, v, x) {
        AttainsSameSeeds(arcs, seeds, seeds', s, v, x);
      }
      if Attains(arcs, seeds', s, v, x) {
        AttainsSameSeeds(arcs, seeds', seeds, s, v, x);
      }
    }
  }

  lemma ListedAtSameDistance(arcs: set<Arc>, seeds: seq<Seed>, k: nat, limit: real, v: nat, a: seq<Label>, b: seq<Label>,
                             i: nat, byNumber: bool)
    requires Nearest(arcs, seeds, k, limit, v, a, byNumber) && Nearest(arcs, seeds, k, limit, v, b, byNumber)
    requires i < |a|
    ensures a[i] in b || (!Lists(b, a[i].fac) && |b| == k && AllBefore(byNumber, b, a[i]))
  {
    assert IsDistance(arcs, seeds, a[i].fac, v, a[i].d);
    if Lists(b, a[i].fac) {
      var m :| 0 <= m < |b| && b[m].fac == a[i].fac;
      assert IsDistance(arcs, seeds, b[m].fac, v, b[m].d);
      assert b[m] == a[i];
    }
  }

  // The j-th distance of one answer is not below the j-th distance of another: j + 1 facilities do not fit into j places.
  lemma NotCloser(arcs: set<Arc>, seeds: seq<Seed>, k: nat, limit: real, v: nat, a: seq<Label>, b: seq<Label>, j: nat)
    requires Nearest(arcs, seeds, k, limit, v, a, false) && Nearest(arcs, seeds, k, limit, v, b, false)
    requires j < |a|
    ensures j < |b| && b[j].d <= a[j].d
  {
    if i: nat :| i <= j && |b| == k && AllBefore(false, b, a[i]) {
      assert i == j || Before(false, a[i], a[j]);
    } else {
      forall i: nat | i <= j ensures a[i] in b {
        ListedAtSameDistance(arcs, seeds, k, limit, v, a, b, i, false);
      }
      AllFoundIsNotCloser(a, b, j);
    }
  }

  // More facilities than places: one of them is not among the few.
  lemma NotAmong(many: seq<Label>, few: seq<Label>) returns (i: nat)
    requires Distinct(many) && Distinct(few) && |many| > |few|
    ensures i < |many| && forall n :: 0 <= n < |few| ==> few[n].fac != many[i].fac
  {
    FacsSize(many);
    FacsSize(few);
    NotAllInside(Facs(many), Facs(few));
    var s :| s in Facs(many) && s !in Facs(few);
    i :| i < |many| && many[i].fac == s;
    assert forall n :: 0 <= n < |few| ==> few[n].fac in Facs(few);
  }

  lemma AllFoundIsNotCloser(a: seq<Label>, b: seq<Label>, j: nat)
    requires Distinct(a) && Sorted(false, a) && Distinct(b) && Sorted(false, b) && j < |a|
    requires forall i :: 0 <= i <= j ==> a[i] in b
    ensures j < |b| && b[j].d <= a[j].d
  {
    hide Facs;
    var few := if j < |b| then b[..j] else b;
    var i := NotAmong(a[..j + 1], few);
    assert a[i] in b;
    var m :| 0 <= m < |b| && b[m] == a[i];
    assert forall n :: 0 <= n < |few| ==> few[n] == b[n] && b[n].fac != a[i].fac;
    assert j == m || Before(false, b[j], b[m]);
    assert i == j || Before(false, a[i], a[j]);
  }

  lemma NearestIgnoringNumbers(arcs: set<Arc>, seeds: seq<Seed>, k: nat, limit: real, v: nat, a: seq<Label>, byNumber: bool)
    requires Nearest(arcs, seeds, k, limit, v, a, byNumber)
    ensures Nearest(arcs, seeds, k, limit, v, a, false)
  {
    forall s, x | Attains(arcs, seeds, s, v, x) && x <= limit
      ensures Lists(a, s) || (|a| == k && AllBefore(false, a, Label(s, x)))
    {
      assert forall j :: 0 <= j < |a| && Before(byNumber, a[j], Label(s, x)) ==> Before(false, a[j], Label(s, x));
    }
  }

  // However ties were broken, every right answer lists the same distances.
  lemma DistancesUnique(arcs: set<Arc>, seeds: seq<Seed>, k: nat, limit: real, v: nat, a: seq<Label>, aNumber: bool,
                        b: seq<Label>, bNumber: bool)
    requires Nearest(arcs, seeds, k, limit, v, a, aNumber) && Nearest(arcs, seeds, k, limit, v, b, bNumber)
    ensures |a| == |b| && forall j :: 0 <= j < |a| ==> a[j].d == b[j].d
  {
    NearestIgnoringNumbers(arcs, seeds, k, limit, v, a, aNumber);
    NearestIgnoringNumbers(arcs, seeds, k, limit, v, b, bNumber);
    forall j: nat | j < |a| ensures j < |b| && b[j].d <= a[j].d {
      NotCloser(arcs, seeds, k, limit, v, a, b, j);
    }
    if |a| > 0 {
      NotCloser(arcs, seeds, k, limit, v, a, b, |a| - 1);
    }
    forall j: nat | j < |b| ensures j < |a| && a[j].d <= b[j].d {
      NotCloser(arcs, seeds, k, limit, v, b, a, j);
    }
    if |b| > 0 {
      NotCloser(arcs, seeds, k, limit, v, b, a, |b| - 1);
    }
  }

  lemma SameFacilities(arcs: set<Arc>, seeds: seq<Seed>, k: nat, limit: real, v: nat, a: seq<Label>, b: seq<Label>, j: nat)
    requires Nearest(arcs, seeds, k, limit, v, a, true) && Nearest(arcs, seeds, k, limit, v, b, true)
    requires |a| == |b| && j < |a|
    ensures a[j] in b
  {
    ListedAtSameDistance(arcs, seeds, k, limit, v, a, b, j, true);
    if m: nat :| m < |b| && !Lists(a, b[m].fac) {
      ListedAtSameDistance(arcs, seeds, k, limit, v, b, a, m, true);
      assert Before(true, a[j], b[m]);
    } else {
      forall s | s in Facs(b) ensures s in Facs(a) {
        var m :| 0 <= m < |b| && b[m].fac == s;
        assert Lists(a, b[m].fac);
      }
      FacsSize(a);
      FacsSize(b);
      SubsetOfSameSize(Facs(b), Facs(a));
      assert a[j].fac in Facs(b);
    }
  }

  // With ties resolved by facility number there is only one answer, whatever the order of the seeds.
  lemma LabelsUnique(arcs: set<Arc>, seeds: seq<Seed>, seeds': seq<Seed>, k: nat, limit: real, v: nat, a: seq<Label>,
                     b: seq<Label>)
    requires SameSeeds(seeds, seeds')
    requires Nearest(arcs, seeds, k, limit, v, a, true) && Nearest(arcs, seeds', k, limit, v, b, true)
    ensures a == b
  {
    NearestSameSeeds(arcs, seeds', seeds, k, limit, v, b, true);
    DistancesUnique(arcs, seeds, k, limit, v, a, true, b, true);
    PrefixesEqual(arcs, seeds, k, limit, v, a, b, |a|);
    assert a == a[..|a|] && b == b[..|a|];
  }

  lemma {:induction false} PrefixesEqual(arcs: set<Arc>, seeds: seq<Seed>, k: nat, limit: real, v: nat, a: seq<Label>,
                                         b: seq<Label>, n: nat)
    requires Nearest(arcs, seeds, k, limit, v, a, true) && Nearest(arcs, seeds, k, limit, v, b, true)
    requires |a| == |b| && n <= |a|
    ensures a[..n] == b[..n]
  {
    if n > 0 {
      PrefixesEqual(arcs, seeds, k, limit, v, a, b, n - 1);
      SameFacilities(arcs, seeds, k, limit, v, a, b, n - 1);
      SameFacilities(arcs, seeds, k, limit, v, b, a, n - 1);
      NextEqual(a, b, n - 1);
      assert a[..n] == a[..n - 1] + [a[n - 1]];
      assert b[..n] == b[..n - 1] + [b[n - 1]];
    }
  }

  lemma NextEqual(a: seq<Label>, b: seq<Label>, j: nat)
    requires j < |a| == |b| && a[..j] == b[..j]
    requires Distinct(a) && Distinct(b) && Sorted(true, a) && Sorted(true, b)
    requires a[j] in b && b[j] in a
    ensures a[j] == b[j]
  {
    var m :| 0 <= m < |b| && b[m] == a[j];
    var i :| 0 <= i < |a| && a[i] == b[j];
    assert forall n :: 0 <= n < j ==> a[n] == a[..j][n] == b[..j][n] == b[n];
    assert m >= j && i >= j;
    NotAfter(b, j, m);
    NotAfter(a, j, i);
  }

  lemma NotAfter(lab: seq<Label>, j: nat, m: nat)
    requires Sorted(true, lab) && j <= m < |lab|
    ensures Before(true, lab[j], lab[m])
  {
  }
}
