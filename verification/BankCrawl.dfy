// The exhaustive crawl: a stack of rectangles, split while the search service would cut a rectangle's answer short.
// Lengths are millionths of a degree, the precision the rectangles are rounded to and sent with.
module BankCrawl {
  import opened Options

  // None: neither branch nor cash machine, so not kept.
  datatype Sort = Branch | Atm

  datatype Place = Place(id: string, x: real, y: real, sort: Option<Sort>)

  datatype Tile = Tile(x1: int, y1: int, x2: int, y2: int)

  const KOREA: Tile := Tile(124_500_000, 33_000_000, 131_000_000, 38_700_000)
  const START_STEP: int := 500_000
  const MIN_SIDE: int := 2_000
  const PAGE_MAX: nat := 45
  const PAGE: nat := 15

  // ---------------------------------------------------------------- the search service

  // What the service answers for a rectangle before it is cut into pages, and whether it counts a place on an upper edge as inside.
  datatype Service = Service(places: set<Place>, listing: Tile -> seq<Place>, upperEdge: bool)
  {
    predicate Between(a: int, v: real, b: int) {
      a as real <= v && (v < b as real || (upperEdge && v == b as real))
    }

    predicate Inside(t: Tile, p: Place) {
      Between(t.x1, p.x, t.x2) && Between(t.y1, p.y, t.y2)
    }

    ghost predicate InSome(ts: seq<Tile>, p: Place) {
      exists i :: 0 <= i < |ts| && Inside(ts[i], p)
    }

    // The service has each place once and lists for a rectangle exactly the places inside it.
    ghost predicate Faithful() {
      && (forall p, q :: p in places && q in places && p.id == q.id ==> p == q)
      && (forall t, p :: p in listing(t) <==> p in places && Inside(t, p))
    }

    function Total(t: Tile): nat {
      |listing(t)|
    }

    // Page n of fifteen places, of the first three only.
    function Documents(t: Tile, n: nat): seq<Place>
      requires n >= 1
    {
      var all := listing(t);
      var end := Min(Min(n * 15, 45), |all|);
      all[Min((n - 1) * 15, end)..end]
    }
  }

  function Min(a: int, b: int): int {
    if a <= b then a else b
  }

  // ---------------------------------------------------------------- the starting grid

  ghost predicate PartOf(t: Tile, whole: Tile) {
    whole.x1 <= t.x1 <= t.x2 <= whole.x2 && whole.y1 <= t.y1 <= t.y2 <= whole.y2
  }

  // A full step wide and high, or as much as is left up to the edge of the box.
  ghost predicate IsStep(t: Tile, box: Tile, step: int) {
    && box.x1 <= t.x1 < box.x2 && t.x2 == (if t.x1 + step < box.x2 then t.x1 + step else box.x2)
    && box.y1 <= t.y1 < box.y2 && t.y2 == (if t.y1 + step < box.y2 then t.y1 + step else box.y2)
  }

  // No two have more than an edge in common.
  ghost predicate Apart(ts: seq<Tile>) {
    forall i, j :: 0 <= i < j < |ts| ==> ts[i].x2 <= ts[j].x1 || ts[i].y2 <= ts[j].y1
  }

  // Laid row by row: every tile so far is above the row, or in it and left of the place.
  ghost predicate Laid(ts: seq<Tile>, box: Tile, step: int, x: int, y: int) {
    && Apart(ts)
    && forall t :: t in ts ==> IsStep(t, box, step) && (t.y2 <= y || (t.y1 == y && t.x2 <= x))
  }

  lemma OneMoreLaid(ts: seq<Tile>, box: Tile, step: int, t: Tile)
    requires step > 0 && Laid(ts, box, step, t.x1, t.y1) && IsStep(t, box, step)
    ensures Laid(ts + [t], box, step, t.x1 + step, t.y1)
  {
  }

  lemma RowLaid(ts: seq<Tile>, box: Tile, step: int, x: int, y: int)
    requires step > 0 && Laid(ts, box, step, x, y)
    ensures Laid(ts, box, step, box.x1, y + step)
  {
  }

  // Every point of the box is in some tile of the grid, no two tiles overlap, and every tile is a step of the box.
  method Tiles(s: Service, box: Tile, step: int) returns (out: seq<Tile>)
    requires step > 0 && box.x1 < box.x2 && box.y1 < box.y2
    ensures forall p :: s.Inside(box, p) ==> s.InSome(out, p)
    ensures Apart(out) && forall t :: t in out ==> IsStep(t, box, step)
  {
    hide Laid, Apart;
    out := [];
    NothingLaid(box, step, box.x1, box.y1);
    var y := box.y1;
    while y < box.y2
      invariant box.y1 <= y
      invariant forall p :: y > box.y1 && s.Inside(box.(y2 := Min(y, box.y2)), p) ==> s.InSome(out, p)
      invariant Laid(out, box, step, box.x1, y)
    {
      ghost var above := out;
      var top := Min(y + step, box.y2);
      var x := box.x1;
      while x < box.x2
        invariant box.x1 <= x
        invariant above <= out
        invariant forall p :: x > box.x1 && s.Inside(Tile(box.x1, y, Min(x, box.x2), top), p) ==> s.InSome(out, p)
        invariant Laid(out, box, step, x, y)
      {
        var t := Tile(x, y, Min(x + step, box.x2), top);
        forall p | s.Inside(Tile(box.x1, y, Min(x + step, box.x2), top), p) ensures s.InSome(out + [t], p) {
          if x > box.x1 && s.Inside(Tile(box.x1, y, x, top), p) {
            InMore(s, out, [t], p);
          } else {
            assert s.Inside((out + [t])[|out|], p);
          }
        }
        OneMoreLaid(out, box, step, t);
        out := out + [t];
        x := x + step;
      }
      forall p | s.Inside(box.(y2 := top), p) ensures s.InSome(out, p) {
        if y > box.y1 && s.Inside(box.(y2 := y), p) {
          InMore(s, above, out[|above|..], p);
          assert above + out[|above|..] == out;
        } else {
          assert s.Inside(Tile(box.x1, y, box.x2, top), p);
        }
      }
      RowLaid(out, box, step, x, y);
      y := y + step;
    }
    LaidIsGrid(out, box, step, box.x1, y);
  }

  lemma NothingLaid(box: Tile, step: int, x: int, y: int)
    ensures Laid([], box, step, x, y)
  {
  }

  lemma LaidIsGrid(ts: seq<Tile>, box: Tile, step: int, x: int, y: int)
    requires Laid(ts, box, step, x, y)
    ensures Apart(ts) && forall t :: t in ts ==> IsStep(t, box, step)
  {
  }

  lemma InMore(s: Service, ts: seq<Tile>, more: seq<Tile>, p: Place)
    requires s.InSome(ts, p) || s.InSome(more, p)
    ensures s.InSome(ts + more, p)
  {
    if s.InSome(ts, p) {
      var i :| 0 <= i < |ts| && s.Inside(ts[i], p);
      assert (ts + more)[i] == ts[i];
    } else {
      var i :| 0 <= i < |more| && s.Inside(more[i], p);
      assert (ts + more)[|ts| + i] == more[i];
    }
  }

  // ---------------------------------------------------------------- splitting

  // The rounded middle: the exact one, or either neighbour of a half.
  predicate IsMiddle(m: int, a: int, b: int) {
    (a + b) / 2 <= m <= (a + b + 1) / 2
  }

  function Split4(t: Tile, mx: int, my: int): seq<Tile> {
    [Tile(t.x1, t.y1, mx, my), Tile(mx, t.y1, t.x2, my), Tile(t.x1, my, mx, t.y2), Tile(mx, my, t.x2, t.y2)]
  }

  // The four parts hold exactly the places of the whole and have no more than edges in common, wherever the middle is put.
  lemma SplitCovers(s: Service, t: Tile, mx: int, my: int, p: Place)
    requires t.x1 <= mx <= t.x2 && t.y1 <= my <= t.y2
    ensures s.Inside(t, p) <==> s.InSome(Split4(t, mx, my), p)
    ensures Apart(Split4(t, mx, my))
  {
    var parts := Split4(t, mx, my);
    if s.Inside(t, p) {
      var i := (if p.x < mx as real then 0 else 1) + (if p.y < my as real then 0 else 2);
      if p.x == mx as real && mx == t.x2 && p.y == my as real && my == t.y2 {
        assert s.Inside(parts[0], p);
      } else if p.x == mx as real && mx == t.x2 {
        assert s.Inside(parts[0], p) || s.Inside(parts[2], p);
      } else if p.y == my as real && my == t.y2 {
        assert s.Inside(parts[0], p) || s.Inside(parts[1], p);
      } else {
        assert s.Inside(parts[i], p);
      }
    }
  }

  // How many rectangles can at most be visited for one of this width.
  function Visits(width: int): (n: nat)
    ensures n >= 1
  {
    if width <= MIN_SIDE then 1 else 1 + 4 * Visits((width + 1) / 2)
  }

  lemma {:induction false} VisitsGrow(a: int, b: int)
    requires a <= b
    ensures Visits(a) <= Visits(b)
  {
    if a > MIN_SIDE {
      VisitsGrow((a + 1) / 2, (b + 1) / 2);
    }
  }

  function Potential(stack: seq<Tile>): nat {
    if stack == [] then 0
    else Potential(stack[..|stack| - 1]) + Visits(stack[|stack| - 1].x2 - stack[|stack| - 1].x1)
  }

  lemma PushFour(stack: seq<Tile>, a: Tile, b: Tile, c: Tile, d: Tile)
    ensures Potential(stack + [a, b, c, d])
            == Potential(stack) + Visits(a.x2 - a.x1) + Visits(b.x2 - b.x1) + Visits(c.x2 - c.x1) + Visits(d.x2 - d.x1)
  {
    Push(stack, a);
    Push(stack + [a], b);
    Push(stack + [a] + [b], c);
    Push(stack + [a] + [b] + [c], d);
    assert stack + [a, b, c, d] == stack + [a] + [b] + [c] + [d];
  }

  // A split makes the stack longer but leaves less to visit.
  lemma SplitLeavesLess(stack: seq<Tile>, t: Tile, mx: int, my: int)
    requires IsMiddle(mx, t.x1, t.x2) && t.x2 - t.x1 > MIN_SIDE
    ensures Potential(stack + Split4(t, mx, my)) < Potential(stack + [t])
  {
    hide Potential;
    Push(stack, t);
    PushFour(stack, Tile(t.x1, t.y1, mx, my), Tile(mx, t.y1, t.x2, my), Tile(t.x1, my, mx, t.y2), Tile(mx, my, t.x2, t.y2));
    VisitsGrow(mx - t.x1, (t.x2 - t.x1 + 1) / 2);
    VisitsGrow(t.x2 - mx, (t.x2 - t.x1 + 1) / 2);
  }

  lemma Push(stack: seq<Tile>, t: Tile)
    ensures Potential(stack + [t]) == Potential(stack) + Visits(t.x2 - t.x1)
  {
    assert (stack + [t])[..|stack|] == stack;
  }

  // ---------------------------------------------------------------- the pages of one rectangle

  function PagesRead(total: nat): nat {
    Min(3, (total + PAGE - 1) / PAGE)
  }

  // The pages up to n are the first n * 15 of the list, and when no more than 45 are listed the pages read are all of it.
  lemma {:induction false} PagesAreAll(s: Service, t: Tile, n: nat)
    requires 1 <= n <= 3
    ensures s.listing(t)[..Min((n - 1) * PAGE, s.Total(t))] + s.Documents(t, n) == s.listing(t)[..Min(n * PAGE, s.Total(t))]
    ensures s.Total(t) <= PAGE_MAX && n == PagesRead(s.Total(t)) ==> Min(n * PAGE, s.Total(t)) == s.Total(t)
  {
    var all := s.listing(t);
    assert s.Documents(t, n) == all[Min((n - 1) * PAGE, |all|)..Min(n * PAGE, |all|)];
  }

  // No page after the first, up to n, is without a place.
  ghost predicate HavePlaces(s: Service, t: Tile, n: nat) {
    forall m: nat :: 2 <= m <= n ==> s.Documents(t, m) != []
  }

  lemma OnePage(s: Service, t: Tile)
    ensures HavePlaces(s, t, 1)
  {
  }

  lemma OnePageMore(s: Service, t: Tile, n: nat)
    requires 2 <= n <= PagesRead(s.Total(t)) && HavePlaces(s, t, n - 1)
    ensures HavePlaces(s, t, n)
  {
    assert |s.Documents(t, n)| > 0;
  }

  lemma PagesFew(total: nat)
    requires total > 0
    ensures 1 <= PagesRead(total) <= 3 && Min(PagesRead(total) * PAGE, total) == Min(total, PAGE_MAX)
  {
  }

  // ---------------------------------------------------------------- the crawl

  // How a call ends: with an answer, with none (a status other than success), or with the quota used up or the key refused.
  datatype Fate = Answered | Refused | Halted

  datatype Outcome = Done | Partial

  // How many of the first n calls ended so.
  function Count(fates: nat -> Fate, n: nat, f: Fate): nat {
    if n == 0 then 0 else Count(fates, n - 1, f) + if fates(n - 1) == f then 1 else 0
  }

  ghost predicate AllAnswered(fates: nat -> Fate, from: nat, n: nat) {
    forall i :: from <= i < from + n ==> fates(i) == Answered
  }

  // Of n calls, the first of them call number from, as many were made as were answered and the first that was not, if any; to is
  // the next call's number and f how the last one ended.
  ghost predicate Called(fates: nat -> Fate, from: nat, n: nat, to: nat, f: Fate) {
    if f == Answered then to == from + n && AllAnswered(fates, from, n)
    else from < to <= from + n && fates(to - 1) == f && AllAnswered(fates, from, to - 1 - from)
  }

  lemma CalledTells(fates: nat -> Fate, from: nat, n: nat, to: nat, f: Fate)
    requires Called(fates, from, n, to, f)
    ensures f == Answered <==> AllAnswered(fates, from, n)
  {
    if f != Answered {
      assert fates(to - 1) != Answered;
    }
  }

  lemma CalledOneMore(fates: nat -> Fate, from: nat, n: nat, to: nat, f: Fate)
    requires n > 0 && fates(from) == Answered && Called(fates, from + 1, n - 1, to, f)
    ensures Called(fates, from, n, to, f)
  {
  }

  lemma {:induction false} AnsweredCounts(fates: nat -> Fate, from: nat, n: nat, g: Fate)
    requires AllAnswered(fates, from, n) && g != Answered
    ensures Count(fates, from + n, g) == Count(fates, from, g)
  {
    if n > 0 {
      AnsweredCounts(fates, from, n - 1, g);
      assert fates(from + n - 1) == Answered;
    }
  }

  lemma CalledCounts(fates: nat -> Fate, from: nat, n: nat, to: nat, f: Fate)
    requires Called(fates, from, n, to, f)
    ensures forall g :: g != Answered ==> Count(fates, to, g) == Count(fates, from, g) + if g == f then 1 else 0
  {
    forall g | g != Answered ensures Count(fates, to, g) == Count(fates, from, g) + if g == f then 1 else 0 {
      AnsweredCounts(fates, from, if f == Answered then n else to - 1 - from, g);
    }
  }

  lemma {:induction false} NoneCounted(fates: nat -> Fate, n: nat)
    ensures AllAnswered(fates, 0, n) <==> Count(fates, n, Refused) == 0 && Count(fates, n, Halted) == 0
  {
    if n > 0 {
      NoneCounted(fates, n - 1);
      assert AllAnswered(fates, 0, n) <==> AllAnswered(fates, 0, n - 1) && fates(n - 1) == Answered;
    }
  }

  // A row of the bank table, with the run that saw the place last.
  datatype Row = Row(place: Place, run: nat)

  ghost predicate Kept(passed: set<Place>, p: Place) {
    p in passed && p.sort.Some?
  }

  // The table is the one before with the banks among the places handed over written onto it.
  ghost predicate Written(passed: set<Place>, seen: set<string>, table: map<string, Row>, before: map<string, Row>, run: nat) {
    && (forall p :: Kept(passed, p) ==> p.id in seen && p.id in table && table[p.id] == Row(p, run))
    && (forall id :: id in seen ==> exists p :: Kept(passed, p) && p.id == id)
    && (forall id :: id !in seen ==> (id in table <==> id in before))
    && (forall id :: id !in seen && id in table ==> table[id] == before[id])
  }

  ghost function OfSort(ps: set<Place>, sort: Sort): set<Place> {
    set p | p in ps && p.sort == Some(sort)
  }

  lemma OneMoreOfSort(ps: set<Place>, p: Place, sort: Sort)
    requires p !in ps || p.sort != Some(sort)
    ensures |OfSort(ps + {p}, sort)| == |OfSort(ps, sort)| + if p.sort == Some(sort) then 1 else 0
  {
    assert OfSort(ps + {p}, sort) == OfSort(ps, sort) + if p.sort == Some(sort) then {p} else {};
  }

  // The entries that are neither branch nor cash machine, by their places in the list.
  ghost function Unsorted(docs: seq<Place>): set<nat> {
    set i: nat | i < |docs| && docs[i].sort.None?
  }

  lemma NoneUnsorted()
    ensures Unsorted([]) == {}
  {
  }

  lemma OneMoreUnsorted(docs: seq<Place>, i: nat)
    requires i < |docs|
    ensures |Unsorted(docs[..i + 1])| == |Unsorted(docs[..i])| + if docs[i].sort.None? then 1 else 0
  {
    assert Unsorted(docs[..i + 1]) == Unsorted(docs[..i]) + if docs[i].sort.None? then {i} else {};
  }

  lemma NotKept(passed: set<Place>, seen: set<string>, table: map<string, Row>, before: map<string, Row>, run: nat, p: Place)
    requires Written(passed, seen, table, before, run) && p.sort.None?
    ensures Written(passed + {p}, seen, table, before, run)
  {
    forall q ensures Kept(passed + {p}, q) <==> Kept(passed, q) {
    }
  }

  // A bank whose number was seen has been handed over before.
  lemma SeenBefore(s: Service, passed: set<Place>, seen: set<string>, table: map<string, Row>, before: map<string, Row>, run: nat,
                   p: Place)
    requires s.Faithful() && passed <= s.places && p in s.places
    requires Written(passed, seen, table, before, run) && p.id in seen
    ensures p in passed
  {
    var q :| Kept(passed, q) && q.id == p.id;
  }

  lemma NewToAll(passed: set<Place>, seen: set<string>, table: map<string, Row>, before: map<string, Row>, run: nat, p: Place)
    requires Written(passed, seen, table, before, run) && p.sort.Some? && p.id !in seen
    ensures p !in passed
  {
    assert p in passed ==> Kept(passed, p);
  }

  lemma NewRow(passed: set<Place>, seen: set<string>, table: map<string, Row>, before: map<string, Row>, run: nat, p: Place)
    requires Written(passed, seen, table, before, run) && p.sort.Some? && p.id !in seen
    ensures Written(passed + {p}, seen + {p.id}, table[p.id := Row(p, run)], before, run)
  {
    assert Kept(passed + {p}, p);
    forall id | id in seen ensures exists q :: Kept(passed + {p}, q) && q.id == id {
      var q :| Kept(passed, q) && q.id == id;
      assert Kept(passed + {p}, q);
    }
    forall q | Kept(passed + {p}, q) && q != p ensures Kept(passed, q) {
    }
  }

  lemma DocumentsInside(s: Service, t: Tile, n: nat)
    requires s.Faithful() && n >= 1
    ensures forall p :: p in s.Documents(t, n) ==> p in s.places && s.Inside(t, p)
  {
    assert forall p :: p in s.Documents(t, n) ==> p in s.listing(t);
  }

  ghost predicate GrownInside(s: Service, before: set<Place>, after: set<Place>, t: Tile) {
    before <= after && forall p :: p in after && p !in before ==> s.Inside(t, p)
  }

  lemma NotGrown(s: Service, passed: set<Place>, t: Tile)
    ensures GrownInside(s, passed, passed, t)
  {
  }

  lemma GrownByPage(s: Service, first: set<Place>, before: set<Place>, after: set<Place>, t: Tile, n: nat)
    requires s.Faithful() && n >= 1
    requires GrownInside(s, first, before, t) && after == before + set p | p in s.Documents(t, n)
    ensures GrownInside(s, first, after, t)
  {
    DocumentsInside(s, t, n);
  }

  ghost predicate AllPassed(s: Service, passed: set<Place>, t: Tile) {
    forall p :: p in s.places && s.Inside(t, p) ==> p in passed
  }

  lemma GrownTwice(s: Service, a: set<Place>, b: set<Place>, c: set<Place>, t: Tile)
    requires GrownInside(s, a, b, t) && GrownInside(s, b, c, t)
    ensures GrownInside(s, a, c, t)
  {
  }

  lemma WholeListPassed(s: Service, passed: set<Place>, t: Tile)
    requires s.Faithful() && s.Total(t) <= PAGE_MAX
    requires forall p :: p in s.listing(t)[..Min(s.Total(t), PAGE_MAX)] ==> p in passed
    ensures AllPassed(s, passed, t)
  {
    assert s.listing(t)[..Min(s.Total(t), PAGE_MAX)] == s.listing(t);
  }

  lemma LastIsLost(s: Service, lost: seq<Tile>, t: Tile)
    requires |lost| > 0 && lost[|lost| - 1] == t
    ensures forall p :: s.Inside(t, p) ==> s.InSome(lost, p)
  {
  }

  ghost predicate SplitOnto(stack: seq<Tile>, t: Tile, after: seq<Tile>) {
    t.x2 - t.x1 > 2_000
    && exists mx, my ::
      && (t.x1 + t.x2) / 2 <= mx <= (t.x1 + t.x2 + 1) / 2
      && (t.y1 + t.y2) / 2 <= my <= (t.y1 + t.y2 + 1) / 2
      && after == stack + [Tile(t.x1, t.y1, mx, my), Tile(mx, t.y1, t.x2, my), Tile(t.x1, my, mx, t.y2), Tile(mx, my, t.x2, t.y2)]
  }

  lemma IsSplit(stack: seq<Tile>, t: Tile, mx: int, my: int)
    requires t.x2 - t.x1 > MIN_SIDE && IsMiddle(mx, t.x1, t.x2) && IsMiddle(my, t.y1, t.y2)
    ensures SplitOnto(stack, t, stack + Split4(t, mx, my))
  {
  }

  lemma MiddleOf(stack: seq<Tile>, t: Tile, after: seq<Tile>) returns (mx: int, my: int)
    requires SplitOnto(stack, t, after)
    ensures IsMiddle(mx, t.x1, t.x2) && IsMiddle(my, t.y1, t.y2) && after == stack + Split4(t, mx, my)
  {
    mx, my :|
      && (t.x1 + t.x2) / 2 <= mx <= (t.x1 + t.x2 + 1) / 2
      && (t.y1 + t.y2) / 2 <= my <= (t.y1 + t.y2 + 1) / 2
      && after == stack + [Tile(t.x1, t.y1, mx, my), Tile(mx, t.y1, t.x2, my), Tile(t.x1, my, mx, t.y2), Tile(mx, my, t.x2, t.y2)];
  }

  // Everything the service has inside the box was handed over, or is in a rectangle still to come, or in one that was lost.
  ghost predicate Accounted(s: Service, box: Tile, passed: set<Place>, stack: seq<Tile>, lost: seq<Tile>) {
    forall p :: p in s.places && s.Inside(box, p) ==> p in passed || s.InSome(stack, p) || s.InSome(lost, p)
  }

  // Nothing comes from outside the box.
  ghost predicate Grounded(s: Service, box: Tile, passed: set<Place>, stack: seq<Tile>) {
    && (forall p :: p in passed ==> s.Inside(box, p))
    && (forall t :: t in stack ==> PartOf(t, box))
  }

  lemma AllInTiles(s: Service, box: Tile, stack: seq<Tile>)
    requires forall p :: s.Inside(box, p) ==> s.InSome(stack, p)
    requires forall t :: t in stack ==> PartOf(t, box)
    ensures Accounted(s, box, {}, stack, []) && Grounded(s, box, {}, stack)
  {
  }

  lemma InRestOrLast(s: Service, rest: seq<Tile>, t: Tile, p: Place)
    requires s.InSome(rest + [t], p)
    ensures s.InSome(rest, p) || s.Inside(t, p)
  {
    var i :| 0 <= i < |rest + [t]| && s.Inside((rest + [t])[i], p);
    if i < |rest| {
      assert s.Inside(rest[i], p);
    }
  }

  // A visit loses track of no place.
  lemma VisitAccounts(s: Service, box: Tile, rest: seq<Tile>, t: Tile, had: set<Place>, missed: seq<Tile>,
                      passed: set<Place>, stack: seq<Tile>, lost: seq<Tile>)
    requires PartOf(t, box) && Accounted(s, box, had, rest + [t], missed) && had <= passed
    requires || (stack == rest && lost == missed && AllPassed(s, passed, t))
             || (stack == rest && lost == missed + [t])
             || (SplitOnto(rest, t, stack) && lost == missed)
    ensures Accounted(s, box, passed, stack, lost)
  {
    forall p | p in s.places && s.Inside(box, p) ensures p in passed || s.InSome(stack, p) || s.InSome(lost, p) {
      if p !in had && s.InSome(rest + [t], p) {
        InRestOrLast(s, rest, t, p);
        if SplitOnto(rest, t, stack) && lost == missed {
          var mx, my := MiddleOf(rest, t, stack);
          if s.Inside(t, p) {
            SplitCovers(s, t, mx, my, p);
          }
          InMore(s, rest, Split4(t, mx, my), p);
        } else if s.Inside(t, p) && lost == missed + [t] {
          LastIsLost(s, lost, t);
        }
      } else if p !in had && lost == missed + [t] {
        InMore(s, missed, [t], p);
      }
    }
  }

  lemma VisitStaysInside(s: Service, box: Tile, rest: seq<Tile>, t: Tile, had: set<Place>, passed: set<Place>, stack: seq<Tile>)
    requires PartOf(t, box) && Grounded(s, box, had, rest + [t]) && GrownInside(s, had, passed, t)
    requires stack == rest || SplitOnto(rest, t, stack)
    ensures Grounded(s, box, passed, stack)
  {
    forall u | u in stack ensures PartOf(u, box) {
      if u in rest {
        assert u in rest + [t];
      }
    }
  }

  lemma VisitKeeps(s: Service, box: Tile, rest: seq<Tile>, t: Tile, had: set<Place>, missed: seq<Tile>,
                   passed: set<Place>, stack: seq<Tile>, lost: seq<Tile>)
    requires Accounted(s, box, had, rest + [t], missed) && Grounded(s, box, had, rest + [t]) && GrownInside(s, had, passed, t)
    requires || (stack == rest && lost == missed && AllPassed(s, passed, t))
             || (stack == rest && lost == missed + [t])
             || (SplitOnto(rest, t, stack) && lost == missed)
    ensures Accounted(s, box, passed, stack, lost) && Grounded(s, box, passed, stack)
    ensures Potential(stack) < Potential(rest + [t])
  {
    hide Accounted, AllPassed;
    assert t in rest + [t];
    VisitAccounts(s, box, rest, t, had, missed, passed, stack, lost);
    VisitStaysInside(s, box, rest, t, had, passed, stack);
    Push(rest, t);
    if SplitOnto(rest, t, stack) {
      var mx, my := MiddleOf(rest, t, stack);
      SplitLeavesLess(rest, t, mx, my);
    }
  }

  lemma NothingMissed(s: Service, box: Tile, passed: set<Place>, stack: seq<Tile>, lost: seq<Tile>)
    requires Accounted(s, box, passed, stack, lost) && Grounded(s, box, passed, stack)
    ensures forall p :: p in passed ==> s.Inside(box, p)
    ensures stack == [] && lost == [] ==> AllPassed(s, passed, box)
  {
  }

  ghost predicate IsSplitUp(s: Service, t: Tile) {
    |s.listing(t)| > 45 && t.x2 - t.x1 > 2_000
  }

  // n pages of the rectangle are asked for if all are answered: the first always, and of one that has places and is not split as
  // many as hold what the service gives out of it, none of them without a place.
  ghost predicate Asks(s: Service, t: Tile, n: nat) {
    if s.listing(t) == [] || IsSplitUp(s, t) then n == 1
    else 15 * (n - 1) < (if |s.listing(t)| < 45 then |s.listing(t)| else 45) <= 15 * n
  }

  lemma AsksPages(s: Service, t: Tile)
    ensures Asks(s, t, PagesAsked(s, t))
  {
  }

  ghost function PagesAsked(s: Service, t: Tile): nat {
    if s.Total(t) == 0 || IsSplitUp(s, t) then 1 else PagesRead(s.Total(t))
  }

  ghost predicate IsCut(s: Service, t: Tile) {
    |s.listing(t)| > 45 && t.x2 - t.x1 <= 2_000
  }

  ghost predicate HasCut(s: Service, lost: seq<Tile>) {
    exists t :: t in lost && IsCut(s, t)
  }

  lemma StillCut(s: Service, lost: seq<Tile>, t: Tile)
    ensures HasCut(s, lost) || IsCut(s, t) ==> HasCut(s, lost + [t])
  {
    if HasCut(s, lost) {
      var u :| u in lost && IsCut(s, u);
      assert u in lost + [t];
    } else if IsCut(s, t) {
      assert t in lost + [t];
    }
  }

  class Crawl {
    const s: Service
    const fates: nat -> Fate     // what becomes of the n-th call
    const run: nat

    var stack: seq<Tile>
    var seen: set<string>
    var table: map<string, Row>
    var tiles: nat
    var splits: nat
    var truncated: nat
    var emptyTiles: nat
    var failedTiles: nat
    var failedPages: nat
    var branches: nat
    var atms: nat
    var skipped: nat
    var stopped: bool
    var calls: nat

    ghost const before: map<string, Row>     // the table when the crawl began
    ghost var passed: set<Place>             // everything handed to Save
    ghost var lost: seq<Tile>                // rectangles whose answer was not received in full

    ghost predicate Valid()
      reads this
    {
      && s.Faithful()
      && passed <= s.places
      && Written(passed, seen, table, before, run)
      && branches == |OfSort(passed, Branch)|
      && atms == |OfSort(passed, Atm)|
      && (lost == [] <==> failedTiles == 0 && failedPages == 0 && truncated == 0 && !stopped)
    }

    // Every refused call is one failed rectangle or page, a halted call stops the crawl, and an answer is cut short only in a
    // rectangle that is not split any more.
    ghost predicate Tallied()
      reads this
    {
      && failedTiles + failedPages == Count(fates, calls, Refused)
      && (stopped <==> Count(fates, calls, Halted) > 0)
      && (truncated > 0 ==> HasCut(s, lost))
    }

    // The same while the outcome f of the last call is still to be noted.
    ghost predicate TalliedBut(f: Fate)
      reads this
    {
      && !stopped
      && failedTiles + failedPages + (if f == Refused then 1 else 0) == Count(fates, calls, Refused)
      && Count(fates, calls, Halted) == (if f == Halted then 1 else 0)
      && (truncated > 0 ==> HasCut(s, lost))
    }

    constructor (s: Service, fates: nat -> Fate, run: nat, table: map<string, Row>)
      requires s.Faithful()
      ensures Valid() && Tallied() && !stopped && this.s == s && this.fates == fates && this.run == run
      ensures this.table == table && before == table
      ensures passed == {} && seen == {} && stack == [] && lost == [] && tiles == 0 && calls == 0
    {
      this.s, this.fates, this.run, this.table, before := s, fates, run, table, table;
      stack, seen, passed, lost := [], {}, {}, [];
      tiles, splits, truncated, emptyTiles, failedTiles, failedPages := 0, 0, 0, 0, 0, 0;
      branches, atms, skipped, stopped, calls := 0, 0, 0, false, 0;
    }

    // Writes the places that are banks and were not written yet in this run.
    method Save(docs: seq<Place>)
      requires Valid() && forall p :: p in docs ==> p in s.places
      modifies this`seen, this`table, this`branches, this`atms, this`skipped, this`passed
      ensures Valid() && passed == old(passed) + (set p | p in docs)
      ensures skipped == old(skipped) + |Unsorted(docs)|
    {
      hide Written, OfSort, Service.Faithful, Unsorted;
      NoneUnsorted();
      var i := 0;
      while i < |docs|
        invariant 0 <= i <= |docs|
        invariant passed <= s.places && passed == old(passed) + (set p | p in docs[..i])
        invariant Written(passed, seen, table, before, run)
        invariant branches == |OfSort(passed, Branch)| && atms == |OfSort(passed, Atm)|
        invariant skipped == old(skipped) + |Unsorted(docs[..i])|
      {
        var p := docs[i];
        assert p in docs && docs[..i + 1] == docs[..i] + [p];
        OneMoreUnsorted(docs, i);
        if p.sort.None? {
          skipped := skipped + 1;
          NotKept(passed, seen, table, before, run, p);
          OneMoreOfSort(passed, p, Branch);
          OneMoreOfSort(passed, p, Atm);
        } else if p.id !in seen {
          NewToAll(passed, seen, table, before, run, p);
          OneMoreOfSort(passed, p, Branch);
          OneMoreOfSort(passed, p, Atm);
          NewRow(passed, seen, table, before, run, p);
          seen := seen + {p.id};
          table := table[p.id := Row(p, run)];
          if p.sort.value == Branch {
            branches := branches + 1;
          } else {
            atms := atms + 1;
          }
        } else {
          SeenBefore(s, passed, seen, table, before, run, p);
          assert passed + {p} == passed;
        }
        passed := passed + {p};
        i := i + 1;
      }
      assert docs[..i] == docs;
    }

    // One call for page n of a rectangle; an answer is handed to Save.
    method ReadPage(t: Tile, n: nat) returns (f: Fate)
      requires Valid() && n >= 1
      modifies this`seen, this`table, this`branches, this`atms, this`skipped, this`passed, this`calls
      ensures Valid() && calls == old(calls) + 1 && f == fates(old(calls))
      ensures passed == old(passed) + if f == Answered then set p | p in s.Documents(t, n) else {}
    {
      hide Written, OfSort, Service.Faithful;
      f := fates(calls);
      calls := calls + 1;
      if f == Answered {
        DocumentsInside(s, t, n);
        Save(s.Documents(t, n));
      }
    }

    // The second page and what follows, until one does not come; no page without a place is asked for.
    method ReadRest(t: Tile) returns (f: Fate)
      requires Valid() && s.Total(t) > 0
      requires forall p :: p in s.Documents(t, 1) ==> p in passed
      modifies this`seen, this`table, this`branches, this`atms, this`skipped, this`passed, this`calls
      ensures Valid() && GrownInside(s, old(passed), passed, t)
      ensures Called(fates, old(calls), PagesRead(s.Total(t)) - 1, calls, f)
      ensures HavePlaces(s, t, calls - old(calls) + 1)
      ensures f == Answered ==> forall p :: p in s.listing(t)[..Min(s.Total(t), PAGE_MAX)] ==> p in passed
    {
      hide GrownInside, Written, OfSort, Service.Faithful, Service.Documents, PagesRead, HavePlaces;
      var last := PagesRead(s.Total(t));
      PagesFew(s.Total(t));
      var n := 2;
      PagesAreAll(s, t, 1);
      NotGrown(s, passed, t);
      OnePage(s, t);
      while n <= last
        invariant 2 <= n <= last + 1 <= 4
        invariant Valid() && GrownInside(s, old(passed), passed, t)
        invariant calls == old(calls) + n - 2 && AllAnswered(fates, old(calls), n - 2)
        invariant HavePlaces(s, t, n - 1)
        invariant forall p :: p in s.listing(t)[..Min((n - 1) * PAGE, s.Total(t))] ==> p in passed
      {
        ghost var had := passed;
        f := ReadPage(t, n);
        OnePageMore(s, t, n);
        if f != Answered {
          assert passed == had;
          return;
        }
        PagesAreAll(s, t, n);
        GrownByPage(s, old(passed), had, passed, t, n);
        n := n + 1;
      }
      f := Answered;
    }

    // The places of the first page, which has come, and of the others.
    method ReadTile(t: Tile) returns (f: Fate)
      requires Valid() && s.Total(t) > 0
      modifies this`seen, this`table, this`branches, this`atms, this`skipped, this`passed, this`calls
      ensures Valid() && GrownInside(s, old(passed), passed, t)
      ensures Called(fates, old(calls), PagesRead(s.Total(t)) - 1, calls, f)
      ensures f == Answered && s.Total(t) <= PAGE_MAX ==> AllPassed(s, passed, t)
    {
      DocumentsInside(s, t, 1);
      NotGrown(s, passed, t);
      ghost var had := passed;
      Save(s.Documents(t, 1));
      GrownByPage(s, had, had, passed, t, 1);
      ghost var first := passed;
      f := ReadRest(t);
      GrownTwice(s, had, first, passed, t);
      if f == Answered && s.Total(t) <= PAGE_MAX {
        WholeListPassed(s, passed, t);
      }
    }

    // A rectangle that is not split, its first page come: what the service gives out of it is read, and it is lost if a page fails
    // or if that is not all.
    method ReadOrLose(t: Tile) returns (f: Fate)
      requires Valid() && Tallied() && !stopped && s.Total(t) > 0 && !IsSplitUp(s, t)
      modifies this
      ensures Valid() && Tallied() && stopped == (f == Halted) && tiles == old(tiles) && stack == old(stack)
      ensures Called(fates, old(calls), PagesRead(s.Total(t)) - 1, calls, f)
      ensures GrownInside(s, old(passed), passed, t)
      ensures lost == if f == Answered && !IsCut(s, t) then old(lost) else old(lost) + [t]
      ensures f == Answered && !IsCut(s, t) ==> AllPassed(s, passed, t)
      ensures truncated == old(truncated) + (if IsCut(s, t) then 1 else 0)
      ensures failedPages == old(failedPages) + (if f == Refused then 1 else 0)
      ensures splits == old(splits) && emptyTiles == old(emptyTiles) && failedTiles == old(failedTiles)
    {
      hide GrownInside, Written, OfSort, AllPassed, HasCut, Count, Called, Service.Faithful, PagesRead, Service.Documents;
      StillCut(s, lost, t);
      var cut := s.Total(t) > PAGE_MAX;
      if cut {
        truncated, lost := truncated + 1, lost + [t];
      }
      ghost var from := calls;
      f := ReadTile(t);
      PagesFew(s.Total(t));
      CalledCounts(fates, from, PagesRead(s.Total(t)) - 1, calls, f);
      if f != Answered {
        PageMissing(t, f, cut);
      }
    }

    // A later page has not come; a rectangle whose answer is cut short is lost already.
    method PageMissing(t: Tile, f: Fate, cut: bool)
      requires Valid() && TalliedBut(f) && f != Answered && (cut ==> lost != [])
      modifies this`stopped, this`failedPages, this`lost
      ensures Valid() && Tallied() && stopped == (f == Halted) && lost == if cut then old(lost) else old(lost) + [t]
      ensures failedPages == old(failedPages) + if f == Refused then 1 else 0
    {
      hide Written, OfSort, HasCut, Service.Faithful;
      StillCut(s, lost, t);
      if f == Halted {
        stopped := true;
      } else {
        failedPages := failedPages + 1;
      }
      lost := if cut then lost else lost + [t];
    }

    // The first call for a rectangle has brought nothing.
    method NoAnswer(t: Tile, f: Fate)
      requires Valid() && TalliedBut(f) && f != Answered
      modifies this`stopped, this`failedTiles, this`lost
      ensures Valid() && Tallied() && stopped == (f == Halted) && lost == old(lost) + [t]
      ensures failedTiles == old(failedTiles) + if f == Refused then 1 else 0
    {
      hide Written, OfSort, HasCut, Service.Faithful;
      StillCut(s, lost, t);
      if f == Halted {
        stopped := true;
      } else {
        failedTiles := failedTiles + 1;
      }
      lost := lost + [t];
    }

    method Divide(t: Tile)
      requires Valid() && Tallied() && t.x2 - t.x1 > MIN_SIDE
      modifies this`splits, this`stack
      ensures Valid() && Tallied() && SplitOnto(old(stack), t, stack) && splits == old(splits) + 1
    {
      hide Written, OfSort, HasCut, Service.Faithful, SplitOnto;
      assert IsMiddle((t.x1 + t.x2) / 2, t.x1, t.x2) && IsMiddle((t.y1 + t.y2) / 2, t.y1, t.y2);
      var mx :| IsMiddle(mx, t.x1, t.x2);
      var my :| IsMiddle(my, t.y1, t.y2);
      IsSplit(stack, t, mx, my);
      splits, stack := splits + 1, stack + Split4(t, mx, my);
    }

    method Call() returns (f: Fate)
      requires Tallied() && !stopped
      modifies this`calls
      ensures f == fates(old(calls)) && calls == old(calls) + 1 && TalliedBut(f)
      ensures f == Answered ==> Tallied()
    {
      f := fates(calls);
      calls := calls + 1;
    }

    // One rectangle taken off the stack: its pages are called for one after the other until one does not come, and it is lost if
    // one does not or if its answer is cut short; otherwise it is split, or everything in it has been handed over.
    method Visit(t: Tile) returns (f: Fate)
      requires Valid() && Tallied() && !stopped
      modifies this
      ensures Valid() && Tallied() && stopped == (f == Halted) && tiles == old(tiles) + 1
      ensures exists n :: Asks(s, t, n) && Called(fates, old(calls), n, calls, f)
      ensures GrownInside(s, old(passed), passed, t)
      ensures lost == if f == Answered && !IsCut(s, t) then old(lost) else old(lost) + [t]
      ensures if f == Answered && IsSplitUp(s, t) then SplitOnto(old(stack), t, stack) else stack == old(stack)
      ensures f == Answered && !IsCut(s, t) && !IsSplitUp(s, t) ==> AllPassed(s, passed, t)
      ensures var first := fates(old(calls));
              && splits == old(splits) + (if first == Answered && IsSplitUp(s, t) then 1 else 0)
              && emptyTiles == old(emptyTiles) + (if first == Answered && s.listing(t) == [] then 1 else 0)
              && truncated == old(truncated) + (if first == Answered && IsCut(s, t) then 1 else 0)
              && failedTiles == old(failedTiles) + (if first == Refused then 1 else 0)
              && failedPages == old(failedPages) + (if first == Answered && f == Refused then 1 else 0)
    {
      hide GrownInside, Written, OfSort, AllPassed, SplitOnto, HasCut, Service.Faithful, Visits, Potential, PartOf, Count, Asks;
      AsksPages(s, t);
      tiles := tiles + 1;
      NotGrown(s, passed, t);
      ghost var from := calls;
      f := Call();
      if f != Answered {
        NoAnswer(t, f);
        return;
      }
      var total := s.Total(t);
      if total == 0 {
        emptyTiles := emptyTiles + 1;
        WholeListPassed(s, passed, t);
        return;
      }
      if total > PAGE_MAX && t.x2 - t.x1 > MIN_SIDE {
        Divide(t);
        return;
      }
      f := ReadOrLose(t);
      CalledOneMore(fates, from, PagesAsked(s, t), calls, f);
    }

    // The whole crawl. DONE is the claim that nothing was missed.
    method CollectFull(box: Tile, step: int) returns (out: Outcome)
      requires Valid() && Tallied() && !stopped && passed == {} && lost == [] && stack == []
      requires step > 0 && box.x1 < box.x2 && box.y1 < box.y2
      modifies this
      ensures Valid() && Tallied() && Accounted(s, box, passed, stack, lost)
      ensures forall p :: p in passed ==> s.Inside(box, p)
      ensures out == Done <==> !stopped && failedTiles == 0 && failedPages == 0 && truncated == 0
      ensures out == Done <==> AllAnswered(fates, 0, calls) && truncated == 0
      ensures out == Done ==> AllPassed(s, passed, box)
    {
      hide GrownInside, Written, OfSort, AllPassed, Accounted, Grounded, Called, Count;
      stack := Tiles(s, box, step);
      AllInTiles(s, box, stack);
      while stack != []
        invariant Valid() && Tallied() && !stopped
        invariant Accounted(s, box, passed, stack, lost) && Grounded(s, box, passed, stack)
        decreases Potential(stack)
      {
        var n := |stack| - 1;
        var t := stack[n];
        ghost var was, had, missed := stack, passed, lost;
        stack := stack[..n];
        assert was == stack + [t];
        var f := Visit(t);
        VisitKeeps(s, box, was[..n], t, had, missed, passed, stack, lost);
        if f == Halted {
          break;
        }
      }
      out := if stopped || failedTiles > 0 || failedPages > 0 || truncated > 0 then Partial else Done;
      NoneCounted(fates, calls);
      NothingMissed(s, box, passed, stack, lost);
    }
  }

  // The rows a run has touched, when none bore its number before.
  ghost predicate IsReference(s: Service, box: Tile, table: map<string, Row>, run: nat) {
    && (forall p :: p in s.places && p.sort.Some? && s.Inside(box, p) ==> p.id in table && table[p.id] == Row(p, run))
    && NoStranger(s, box, table, run)
  }

  ghost predicate NoStranger(s: Service, box: Tile, table: map<string, Row>, run: nat) {
    forall id :: id in table && table[id].run == run ==>
      var p := table[id].place; p.id == id && p in s.places && p.sort.Some? && s.Inside(box, p)
  }

  lemma WrittenIsSound(s: Service, box: Tile, passed: set<Place>, seen: set<string>, table: map<string, Row>, before: map<string, Row>,
                       run: nat)
    requires passed <= s.places && Written(passed, seen, table, before, run)
    requires forall p :: p in passed ==> s.Inside(box, p)
    requires forall id :: id in before ==> before[id].run != run
    ensures NoStranger(s, box, table, run)
  {
    forall id | id in table && table[id].run == run
      ensures var p := table[id].place; p.id == id && p in s.places && p.sort.Some? && s.Inside(box, p)
    {
      assert id in seen;
      var p :| Kept(passed, p) && p.id == id;
    }
  }

  lemma WrittenIsReference(s: Service, box: Tile, passed: set<Place>, seen: set<string>, table: map<string, Row>,
                           before: map<string, Row>, run: nat)
    requires passed <= s.places && Written(passed, seen, table, before, run)
    requires forall p :: p in passed ==> s.Inside(box, p)
    requires forall id :: id in before ==> before[id].run != run
    requires AllPassed(s, passed, box)
    ensures IsReference(s, box, table, run)
  {
    WrittenIsSound(s, box, passed, seen, table, before, run);
    forall p | p in s.places && p.sort.Some? && s.Inside(box, p) ensures p.id in table && table[p.id] == Row(p, run) {
      assert Kept(passed, p);
    }
  }

  // The crawl of Korea. If it ends DONE the rows of this run are the banks inside the box, all of them and no others; if not,
  // they are still banks inside the box, and a place is missing only where the crawl was stopped, refused or cut short.
  method CollectBanksFull(s: Service, fates: nat -> Fate, run: nat, table: map<string, Row>) returns (c: Crawl, out: Outcome)
    requires s.Faithful() && forall id :: id in table ==> table[id].run != run
    ensures fresh(c) && c.Valid() && c.Tallied() && c.s == s && c.fates == fates && c.run == run
    ensures out == Done <==> !c.stopped && c.failedTiles == 0 && c.failedPages == 0 && c.truncated == 0
    ensures out == Done <==> AllAnswered(fates, 0, c.calls) && c.truncated == 0
    ensures out == Done ==> IsReference(s, Tile(124_500_000, 33_000_000, 131_000_000, 38_700_000), c.table, run)
    ensures NoStranger(s, Tile(124_500_000, 33_000_000, 131_000_000, 38_700_000), c.table, run) && table.Keys <= c.table.Keys
    ensures Accounted(s, Tile(124_500_000, 33_000_000, 131_000_000, 38_700_000), c.passed, c.stack, c.lost)
  {
    hide Accounted, AllPassed, IsReference, NoStranger, OfSort, AllAnswered, Count;
    c := new Crawl(s, fates, run, table);
    out := c.CollectFull(KOREA, START_STEP);
    WrittenIsSound(s, KOREA, c.passed, c.seen, c.table, table, run);
    if out == Done {
      WrittenIsReference(s, KOREA, c.passed, c.seen, c.table, table, run);
    }
  }
}
