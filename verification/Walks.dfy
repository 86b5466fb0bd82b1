// Walks in a weighted graph given as a set of arcs, and the distances a set of seeds attains along them.
// Distances are metres, modelled as reals.
module Walks {

  datatype Arc = Arc(from: nat, to: nat, w: real)

  // A walk grows at its far end: it stands at its first vertex, or goes on from a shorter walk by one arc.
  datatype Walk = At(v: nat) | Via(prev: Walk, arc: Arc)

  ghost predicate IsWalk(arcs: set<Arc>, p: Walk, x: nat, y: nat) {
    match p
    case At(v) => v == x && v == y
    case Via(q, a) => a in arcs && a.to == y && IsWalk(arcs, q, x, a.from)
  }

  ghost function Length(p: Walk): real {
    match p
    case At(_) => 0.0
    case Via(q, a) => Length(q) + a.w
  }

  ghost predicate NonNegative(arcs: set<Arc>) {
    forall a :: a in arcs ==> a.w >= 0.0
  }

  ghost predicate Positive(arcs: set<Arc>) {
    forall a :: a in arcs ==> a.w > 0.0
  }

  // A facility enters the graph at a vertex, already d metres away from it.
  datatype Seed = Seed(d: real, v: nat, fac: nat)

  ghost predicate Route(arcs: set<Arc>, seeds: seq<Seed>, i: int, p: Walk, fac: nat, v: nat, d: real) {
    && 0 <= i < |seeds|
    && seeds[i].fac == fac
    && IsWalk(arcs, p, seeds[i].v, v)
    && d == seeds[i].d + Length(p)
  }

  // Some seed of the facility reaches v after exactly d metres.
  ghost predicate Attains(arcs: set<Arc>, seeds: seq<Seed>, fac: nat, v: nat, d: real) {
    exists i, p :: Route(arcs, seeds, i, p, fac, v, d)
  }

  // d is the least distance at which the facility reaches v.
  ghost predicate IsDistance(arcs: set<Arc>, seeds: seq<Seed>, fac: nat, v: nat, d: real) {
    && Attains(arcs, seeds, fac, v, d)
    && forall x :: Attains(arcs, seeds, fac, v, x) ==> d <= x
  }

  lemma AttainsSeed(arcs: set<Arc>, seeds: seq<Seed>, i: nat)
    requires i < |seeds|
    ensures Attains(arcs, seeds, seeds[i].fac, seeds[i].v, seeds[i].d)
  {
    assert Route(arcs, seeds, i, At(seeds[i].v), seeds[i].fac, seeds[i].v, seeds[i].d);
  }

  lemma AttainsStep(arcs: set<Arc>, seeds: seq<Seed>, fac: nat, d: real, a: Arc)
    requires a in arcs && Attains(arcs, seeds, fac, a.from, d)
    ensures Attains(arcs, seeds, fac, a.to, d + a.w)
  {
    var i, p :| Route(arcs, seeds, i, p, fac, a.from, d);
    assert Route(arcs, seeds, i, Via(p, a), fac, a.to, d + a.w);
  }
}
