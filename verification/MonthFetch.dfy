// Fetching a month page by page: pages complete in any order and may need a second try, and the month is taken only whole.
module MonthFetch {
  import opened MonthMoves
  import opened Options

  // What the service has for the month: its own count of rows, and the rows of each page.
  datatype Api = Api(total: nat, rows: nat -> seq<Item>)

  // How a call ends: with the page, without it, or with the quota used up.
  datatype Fate = Answered | Failed | Halted

  datatype Result =
    | Month(acc: map<Code, Unit>, rows: nat, skipped: nat, retried: nat, total: nat, pages: nat)
    | NotYet
    | Incomplete
    | Stopped

  // A hundred rows to a page.
  function Pages(api: Api): nat {
    (api.total + 99) / 100
  }

  // With n pages nothing is left over, and with one less something would be.
  ghost predicate FillsPages(total: nat, n: nat) {
    (n - 1) * 100 < total <= n * 100
  }

  lemma PagesFilled(api: Api, n: nat)
    requires FillsPages(api.total, n)
    ensures Pages(api) == n
  {
  }

  // The rows of the first n pages, in page order.
  ghost function Whole(api: Api, n: nat): seq<Item> {
    if n == 0 then [] else Whole(api, n - 1) + api.rows(n)
  }

  // ---------------------------------------------------------------- a list of rows without a repeated pair

  // No two rows of the month lead from one district into one other.
  ghost predicate NoRepeat(items: seq<Item>, ym: string) {
    forall i, j :: 0 <= i < j < |items| && items[i].Usable(ym) && items[j].Usable(ym) ==> items[i].Pair() != items[j].Pair()
  }

  ghost function Usables(items: seq<Item>, ym: string): seq<Move> {
    if items == [] then []
    else if Last(items).Usable(ym) then Usables(Init(items), ym) + [Last(items)]
    else Usables(Init(items), ym)
  }

  lemma NoRepeatOfMore(items: seq<Item>, ym: string)
    requires items != []
    ensures NoRepeat(items, ym) <==>
              NoRepeat(Init(items), ym) && (Last(items).Usable(ym) ==> Last(items).Pair() !in Pairs(Init(items), ym))
  {
    var rest, it := Init(items), Last(items);
    if NoRepeat(items, ym) && it.Usable(ym) {
      forall i | 0 <= i < |rest| && rest[i].Usable(ym) ensures rest[i].Pair() != it.Pair() {
        assert items[i] == rest[i];
      }
    }
    if NoRepeat(rest, ym) && (it.Usable(ym) ==> it.Pair() !in Pairs(rest, ym)) {
      forall i, j | 0 <= i < j < |items| && items[i].Usable(ym) && items[j].Usable(ym) ensures items[i].Pair() != items[j].Pair() {
        assert items[i] == rest[i];
        if j < |rest| {
          assert items[j] == rest[j];
        }
      }
    }
  }

  // Every row is kept or unusable exactly when no pair repeats; the rows kept are then all the usable ones.
  lemma {:induction false} KeptWhole(items: seq<Item>, ym: string)
    ensures |Kept(items, ym, {})| + Unusable(items, ym) <= |items|
    ensures |Kept(items, ym, {})| + Unusable(items, ym) == |items| <==> NoRepeat(items, ym)
    ensures NoRepeat(items, ym) ==> Kept(items, ym, {}) == Usables(items, ym)
  {
    if items != [] {
      hide NoRepeat, Pairs;
      KeptWhole(Init(items), ym);
      NoRepeatOfMore(items, ym);
    }
  }

  lemma CountedOfMore(items: seq<Item>, it: Item, ym: string, c: Code)
    ensures Counted(items + [it], ym, c) == if it.Usable(ym) then Counted(items, ym, c).Add(Share(it, c)) else Counted(items, ym, c)
  {
    assert (items + [it])[..|items|] == items;
  }

  ghost predicate Named(items: seq<Item>, ym: string, c: Code) {
    exists i :: 0 <= i < |items| && Names(items[i], ym, c)
  }

  lemma NamedOfMore(items: seq<Item>, it: Item, ym: string, c: Code)
    ensures Named(items + [it], ym, c) <==> Named(items, ym, c) || Names(it, ym, c)
  {
    hide Names;
    var all := items + [it];
    assert all[|items|] == it;
    assert forall i :: 0 <= i < |items| ==> all[i] == items[i];
  }

  lemma UsablesOfMore(items: seq<Item>, it: Item, ym: string)
    ensures Usables(items + [it], ym) == if it.Usable(ym) then Usables(items, ym) + [it] else Usables(items, ym)
  {
    assert Init(items + [it]) == items;
  }

  // Told row by row, from the list as it came: the sums of every district, and which districts there are.
  lemma {:induction false} SumsAreCounted(items: seq<Item>, ym: string, c: Code)
    ensures Get(Moves(Usables(items, ym)), c) == Counted(items, ym, c)
    ensures c in Moves(Usables(items, ym)) <==> Named(items, ym, c)
  {
    hide Moves, Plus, One, Get, Counted, Share, Named, Usables, Unit.Add;
    if items == [] {
      NothingCounted(ym, c);
    } else {
      var rest, it := Init(items), Last(items);
      assert items == rest + [it];
      SumsAreCounted(rest, ym, c);
      CountedOfMore(rest, it, ym, c);
      NamedOfMore(rest, it, ym, c);
      UsablesOfMore(rest, it, ym);
      if it.Usable(ym) {
        MovesOfMore(Usables(rest, ym), it);
        GetPlus(Moves(Usables(rest, ym)), One(it), c);
        OneIsShare(it, c);
      }
    }
  }

  lemma NothingCounted(ym: string, c: Code)
    ensures Usables([], ym) == [] && Moves([]) == map[] && Get(map[], c) == Counted([], ym, c) && !Named([], ym, c)
  {
  }

  lemma IdleOfMore(items: seq<Item>, it: Item, ym: string)
    ensures |Idle(items + [it], ym)| == |Idle(items, ym)| + if it.Usable(ym) then 0 else 1
  {
    var all := items + [it];
    assert forall i :: 0 <= i < |items| ==> all[i] == items[i];
    assert all[|items|] == it;
    if it.Usable(ym) {
      assert Idle(all, ym) == Idle(items, ym);
    } else {
      assert Idle(all, ym) == Idle(items, ym) + {|items|};
    }
  }

  // The rows left out are those of another month or without both codes.
  lemma {:induction false} UnusableAreIdle(items: seq<Item>, ym: string)
    ensures Unusable(items, ym) == |Idle(items, ym)|
  {
    if items != [] {
      hide Idle;
      UnusableAreIdle(Init(items), ym);
      assert items == Init(items) + [Last(items)];
      IdleOfMore(Init(items), Last(items), ym);
    }
  }

  lemma {:induction false} UsablesOfBoth(a: seq<Item>, b: seq<Item>, ym: string)
    ensures Usables(a + b, ym) == Usables(a, ym) + Usables(b, ym)
  {
    if b == [] {
      assert a + b == a;
    } else {
      assert Init(a + b) == a + Init(b);
      UsablesOfBoth(a, Init(b), ym);
    }
  }

  lemma {:induction false} UnusableOfBoth(a: seq<Item>, b: seq<Item>, ym: string)
    ensures Unusable(a + b, ym) == Unusable(a, ym) + Unusable(b, ym)
  {
    if b == [] {
      assert a + b == a;
    } else {
      assert Init(a + b) == a + Init(b);
      UnusableOfBoth(a, Init(b), ym);
    }
  }

  lemma {:induction false} PairsOfBoth(a: seq<Item>, b: seq<Item>, ym: string)
    ensures Pairs(a + b, ym) == Pairs(a, ym) + Pairs(b, ym)
  {
    if b == [] {
      assert a + b == a;
      NoPairs(ym);
    } else {
      hide Pairs;
      assert a + b == (a + Init(b)) + [Last(b)];
      assert b == Init(b) + [Last(b)];
      PairsOfBoth(a, Init(b), ym);
      PairsOfMore(a + Init(b), Last(b), ym);
      PairsOfMore(Init(b), Last(b), ym);
    }
  }

  lemma {:induction false} MovesOfBoth(a: seq<Move>, b: seq<Move>)
    ensures Moves(a + b) == Plus(Moves(a), Moves(b))
  {
    if b == [] {
      assert a + b == a;
      PlusNothing(Moves(a));
    } else {
      hide Plus, One;
      assert a + b == (a + Init(b)) + [Last(b)];
      MovesOfBoth(a, Init(b));
      MovesOfMore(a + Init(b), Last(b));
      PlusAssociates(Moves(a), Moves(Init(b)), One(Last(b)));
    }
  }

  lemma NoRepeatInParts(a: seq<Item>, b: seq<Item>, ym: string)
    requires NoRepeat(a + b, ym)
    ensures NoRepeat(a, ym) && NoRepeat(b, ym)
  {
    assert forall i :: 0 <= i < |a| ==> (a + b)[i] == a[i];
    assert forall i :: 0 <= i < |b| ==> (a + b)[|a| + i] == b[i];
  }

  // ---------------------------------------------------------------- partial sums

  // What one page, or several, come to. dup counts the repeats inside a page only.
  datatype Part = Part(acc: map<Code, Unit>, keys: set<Pair>, rows: nat, skipped: nat, dup: nat)

  ghost function Join(a: Part, b: Part): Part {
    Part(Plus(a.acc, b.acc), a.keys + b.keys, a.rows + b.rows, a.skipped + b.skipped, a.dup + b.dup)
  }

  ghost function PartOf(items: seq<Item>, ym: string): Part {
    KeptWhole(items, ym);
    var kept := Kept(items, ym, {});
    Part(Moves(kept), Pairs(items, ym), |kept|, Unusable(items, ym), |items| - |kept| - Unusable(items, ym))
  }

  ghost function Joined(api: Api, ym: string, pages: seq<nat>): Part {
    if pages == [] then Part(map[], {}, 0, 0, 0) else Join(Joined(api, ym, Init(pages)), PartOf(api.rows(Last(pages)), ym))
  }

  lemma JoinSwaps(a: Part, b: Part, c: Part)
    ensures Join(Join(a, b), c) == Join(Join(a, c), b)
  {
    hide Plus;
    PlusAssociates(a.acc, b.acc, c.acc);
    PlusCommutes(b.acc, c.acc);
    PlusAssociates(a.acc, c.acc, b.acc);
    assert a.keys + b.keys + c.keys == a.keys + c.keys + b.keys;
  }

  function Without(pages: seq<nat>, k: nat): seq<nat>
    requires k < |pages|
  {
    pages[..k] + pages[k + 1..]
  }

  // Any page may be taken as the last one.
  lemma {:induction false} AnyPageLast(api: Api, ym: string, pages: seq<nat>, k: nat)
    requires k < |pages|
    ensures Joined(api, ym, pages) == Join(Joined(api, ym, Without(pages, k)), PartOf(api.rows(pages[k]), ym))
  {
    hide Join, PartOf;
    if k == |pages| - 1 {
      assert Without(pages, k) == Init(pages);
    } else {
      AnyPageLast(api, ym, Init(pages), k);
      assert Without(pages, k) == Without(Init(pages), k) + [Last(pages)];
      assert Init(Without(pages, k)) == Without(Init(pages), k);
      JoinSwaps(Joined(api, ym, Without(Init(pages), k)), PartOf(api.rows(pages[k]), ym), PartOf(api.rows(Last(pages)), ym));
    }
  }

  ghost predicate Distinct(s: seq<nat>) {
    forall i, j :: 0 <= i < j < |s| ==> s[i] != s[j]
  }

  // s lists the pages 1 to n, each once.
  ghost predicate IsOrder(s: seq<nat>, n: nat) {
    Distinct(s) && forall p :: p in s <==> 1 <= p <= n
  }

  lemma WithoutOne(s: seq<nat>, n: nat, k: nat)
    requires n > 0 && IsOrder(s, n) && k < |s| && s[k] == n
    ensures IsOrder(Without(s, k), n - 1)
  {
    var t := Without(s, k);
    forall p | p in t ensures 1 <= p <= n - 1 {
      var i :| 0 <= i < |t| && t[i] == p;
      var j := if i < k then i else i + 1;
      assert s[j] == p && s[j] in s && s[j] != s[k];
    }
    forall p: nat | 1 <= p <= n - 1 ensures p in t {
      assert p in s;
      var i :| 0 <= i < |s| && s[i] == p;
      assert t[if i < k then i else i - 1] == p;
    }
    forall i, j | 0 <= i < j < |t| ensures t[i] != t[j] {
      assert t[i] == s[if i < k then i else i + 1] && t[j] == s[if j < k then j else j + 1];
    }
  }

  lemma PlaceOfLast(s: seq<nat>, n: nat) returns (k: nat)
    requires n > 0 && IsOrder(s, n)
    ensures k < |s| && s[k] == n
  {
    assert n in s;
    k :| k < |s| && s[k] == n;
  }

  ghost function InPageOrder(n: nat): seq<nat> {
    if n == 0 then [] else InPageOrder(n - 1) + [n]
  }

  // The sums do not depend on the order in which the pages were joined.
  lemma {:induction false} AnyOrder(api: Api, ym: string, s: seq<nat>, n: nat)
    requires IsOrder(s, n)
    ensures Joined(api, ym, s) == Joined(api, ym, InPageOrder(n))
  {
    hide Join, PartOf, Joined, IsOrder;
    if n == 0 {
      NoPages(s);
    } else {
      var k := PlaceOfLast(s, n);
      AnyPageLast(api, ym, s, k);
      WithoutOne(s, n, k);
      AnyOrder(api, ym, Without(s, k), n - 1);
      JoinedOfMore(api, ym, InPageOrder(n - 1), n);
    }
  }

  lemma NoPages(s: seq<nat>)
    requires IsOrder(s, 0)
    ensures s == []
  {
    FirstIsIn(s);
  }

  lemma FirstIsIn(s: seq<nat>)
    ensures s == [] || s[0] in s
  {
  }

  lemma JoinedOfMore(api: Api, ym: string, pages: seq<nat>, p: nat)
    ensures Joined(api, ym, pages + [p]) == Join(Joined(api, ym, pages), PartOf(api.rows(p), ym))
  {
    hide Join, PartOf;
    assert Init(pages + [p]) == pages;
  }

  // ---------------------------------------------------------------- all the pages and the list of all rows

  lemma PartFacts(items: seq<Item>, ym: string)
    ensures var p := PartOf(items, ym);
            && p.keys == Pairs(items, ym) && p.skipped == Unusable(items, ym) && p.rows + p.skipped + p.dup == |items|
            && p.acc == Moves(Kept(items, ym, {})) && p.rows == |Kept(items, ym, {})|
  {
    hide Kept, Moves, Pairs, Unusable;
  }

  lemma NothingJoined(api: Api, ym: string)
    ensures Joined(api, ym, InPageOrder(0)) == Part(map[], {}, 0, 0, 0) && Whole(api, 0) == []
    ensures Pairs([], ym) == {} && Unusable([], ym) == 0 && Usables([], ym) == [] && Moves([]) == map[]
  {
    hide PartOf;
    NoPairs(ym);
  }

  lemma {:induction false} JoinedKeys(api: Api, ym: string, n: nat)
    ensures Joined(api, ym, InPageOrder(n)).keys == Pairs(Whole(api, n), ym)
  {
    hide Joined, Pairs, PartOf, Plus, Unusable, Usables, Moves, Kept;
    if n == 0 {
      NothingJoined(api, ym);
    } else {
      JoinedKeys(api, ym, n - 1);
      JoinedOfMore(api, ym, InPageOrder(n - 1), n);
      PartFacts(api.rows(n), ym);
      PairsOfBoth(Whole(api, n - 1), api.rows(n), ym);
    }
  }

  lemma {:induction false} JoinedCounts(api: Api, ym: string, n: nat)
    ensures var j, w := Joined(api, ym, InPageOrder(n)), Whole(api, n);
            j.skipped == Unusable(w, ym) && j.rows + j.skipped + j.dup == |w|
  {
    hide Joined, Pairs, PartOf, Plus, Unusable, Usables, Moves, Kept;
    if n == 0 {
      NothingJoined(api, ym);
    } else {
      JoinedCounts(api, ym, n - 1);
      JoinedOfMore(api, ym, InPageOrder(n - 1), n);
      PartFacts(api.rows(n), ym);
      UnusableOfBoth(Whole(api, n - 1), api.rows(n), ym);
    }
  }

  lemma {:induction false} JoinedSums(api: Api, ym: string, n: nat)
    requires NoRepeat(Whole(api, n), ym)
    ensures var j, w := Joined(api, ym, InPageOrder(n)), Usables(Whole(api, n), ym);
            j.acc == Moves(w) && j.rows == |w|
  {
    hide Joined, NoRepeat, Kept, Moves, Plus, PartOf, Usables, Unusable, Pairs;
    if n == 0 {
      NothingJoined(api, ym);
    } else {
      var w, page := Whole(api, n - 1), api.rows(n);
      NoRepeatInParts(w, page, ym);
      JoinedSums(api, ym, n - 1);
      JoinedOfMore(api, ym, InPageOrder(n - 1), n);
      PartFacts(page, ym);
      KeptWhole(page, ym);
      UsablesOfBoth(w, page, ym);
      MovesOfBoth(Usables(w, ym), Usables(page, ym));
    }
  }

  // The repeats within pages and between them come to nothing exactly when no pair repeats in the whole list.
  lemma RepeatsTold(api: Api, ym: string, n: nat)
    ensures var j, w := Joined(api, ym, InPageOrder(n)), Whole(api, n);
            |j.keys| <= j.dup + j.rows && (|j.keys| == j.dup + j.rows <==> NoRepeat(w, ym))
  {
    hide Joined, NoRepeat, Kept, Pairs, Unusable;
    var w := Whole(api, n);
    JoinedKeys(api, ym, n);
    JoinedCounts(api, ym, n);
    KeptPerPair(w, ym, {});
    KeptWhole(w, ym);
    assert Pairs(w, ym) - {} == Pairs(w, ym);
  }

  // ---------------------------------------------------------------- fetching

  // The running totals against the joined pages: the repeats found so far, inside a page or against an earlier one, are the rows
  // beyond one for each pair.
  ghost predicate Holds(acc: map<Code, Unit>, seen: set<Pair>, st: Counts, j: Part) {
    acc == j.acc && seen == j.keys && st.rows == j.rows && st.skipped == j.skipped && st.dup + |j.keys| == j.dup + j.rows
  }

  lemma HoldsMore(acc: map<Code, Unit>, seen: set<Pair>, st: Counts, j: Part, part: Part)
    requires Holds(acc, seen, st, j) && |part.keys| == part.rows
    ensures Holds(Plus(acc, part.acc), seen + part.keys,
                  Counts(st.rows + part.rows, st.skipped + part.skipped, st.dup + part.dup + |part.keys * seen|), Join(j, part))
  {
    assert |j.keys + part.keys| == |j.keys| + |part.keys| - |part.keys * j.keys| by {
      assert part.keys * j.keys == j.keys * part.keys;
    }
  }

  lemma RowPerKey(items: seq<Item>, ym: string)
    ensures |PartOf(items, ym).keys| == PartOf(items, ym).rows
  {
    KeptPerPair(items, ym, {});
    assert Pairs(items, ym) - {} == Pairs(items, ym);
  }

  method Page(api: Api, ym: string, p: nat) returns (part: Part)
    ensures part == PartOf(api.rows(p), ym)
  {
    hide Kept, Moves, Pairs, Unusable, Plus;
    var t := new Tally();
    var st := t.AddRows(api.rows(p), ym);
    PlusCommutes(map[], Moves(Kept(api.rows(p), ym, {})));
    PlusNothing(Moves(Kept(api.rows(p), ym, {})));
    part := Part(t.acc, t.seen, st.rows, st.skipped, st.dup);
  }

  method Take(t: Tally, st: Counts, part: Part, ghost j: Part) returns (now: Counts)
    requires Holds(t.acc, t.seen, st, j) && |part.keys| == part.rows
    modifies t
    ensures Holds(t.acc, t.seen, now, Join(j, part))
  {
    hide Holds, Join, Plus;
    HoldsMore(t.acc, t.seen, st, j, part);
    now := Counts(st.rows + part.rows, st.skipped + part.skipped, st.dup + part.dup + |part.keys * t.seen|);
    t.seen := t.seen + part.keys;
    t.Merge(part.acc);
  }

  // ---------------------------------------------------------------- the fetch as a whole

  ghost predicate Arrives(p: nat, round1: nat -> Fate, round2: nat -> Fate) {
    round1(p) == Answered || (round1(p) == Failed && round2(p) == Answered)
  }

  ghost predicate AllArrive(n: nat, round1: nat -> Fate, round2: nat -> Fate) {
    forall p :: 2 <= p <= n ==> Arrives(p, round1, round2)
  }

  ghost predicate HaltsAtOnce(n: nat, round1: nat -> Fate) {
    exists p :: 2 <= p <= n && round1(p) == Halted
  }

  // The second tries go up by page number and end at the first that brings nothing.
  ghost predicate HaltsLater(n: nat, round1: nat -> Fate, round2: nat -> Fate) {
    exists p :: 2 <= p <= n && round1(p) == Failed && round2(p) == Halted
                && forall q :: 2 <= q < p ==> Arrives(q, round1, round2)
  }

  function FailedOnce(n: nat, round1: nat -> Fate): set<nat> {
    set p | 2 <= p <= n && round1(p) == Failed
  }

  // The pages joined so far are page 1 and those told by the condition.
  ghost predicate Joins(done: seq<nat>, pages: set<nat>) {
    Distinct(done) && forall p :: p in done <==> p == 1 || p in pages
  }

  lemma JoinsMore(done: seq<nat>, pages: set<nat>, p: nat)
    requires Joins(done, pages) && p != 1 && p !in pages
    ensures Joins(done + [p], pages + {p})
  {
    assert p !in done;
  }

  // When every page has been joined the sums are those of the whole list.
  lemma WholeJoined(api: Api, ym: string, done: seq<nat>, acc: map<Code, Unit>, seen: set<Pair>, st: Counts)
    requires IsOrder(done, Pages(api)) && Holds(acc, seen, st, Joined(api, ym, done))
    ensures var w := Whole(api, Pages(api));
            && (st.dup == 0 <==> NoRepeat(w, ym))
            && st.skipped == Unusable(w, ym)
            && (NoRepeat(w, ym) ==> acc == Moves(Usables(w, ym)) && st.rows == |Usables(w, ym)| && st.rows + st.skipped == |w|)
  {
    hide Joined, Whole, NoRepeat, Moves, Usables, Unusable, Plus, Kept, IsOrder, Pairs;
    var n := Pages(api);
    AnyOrder(api, ym, done, n);
    RepeatsTold(api, ym, n);
    JoinedCounts(api, ym, n);
    if NoRepeat(Whole(api, n), ym) {
      JoinedSums(api, ym, n);
      KeptWhole(Whole(api, n), ym);
    }
  }

  function Elems(s: seq<nat>): set<nat> {
    set p | p in s
  }

  // The pages after the first.
  function Later(n: nat): (s: set<nat>)
    ensures forall p :: p in s <==> 2 <= p <= n
  {
    if n < 2 then {} else Later(n - 1) + {n}
  }

  // The first round: the pages in the order they complete.
  method FirstRound(api: Api, ym: string, order: seq<nat>, round1: nat -> Fate, t: Tally, first: Counts)
    returns (st: Counts, failed: set<nat>, stopped: bool, ghost done: seq<nat>)
    requires IsOrder([1] + order, Pages(api)) && Holds(t.acc, t.seen, first, Joined(api, ym, [1]))
    modifies t
    ensures stopped <==> HaltsAtOnce(Pages(api), round1)
    ensures !stopped ==> failed == FailedOnce(Pages(api), round1)
    ensures !stopped ==> Holds(t.acc, t.seen, st, Joined(api, ym, done)) && Joins(done, Elems(order) - failed)
  {
    hide Holds, Joined, PartOf, IsOrder, Joins, Pages, Later;
    st, failed, stopped, done := first, {}, false, [1];
    var i := 0;
    OrderedPages(order, Pages(api));
    NoneJoined();
    assert Elems(order[..0]) - failed == {};
    while i < |order|
      invariant 0 <= i <= |order|
      invariant failed == (set p | p in order[..i] && round1(p) == Failed)
      invariant forall p :: p in order[..i] ==> round1(p) != Halted
      invariant Holds(t.acc, t.seen, st, Joined(api, ym, done))
      invariant Joins(done, Elems(order[..i]) - failed)
    {
      var p := order[i];
      assert order[..i + 1] == order[..i] + [p];
      assert p in order && p != 1 && p !in order[..i];
      var f := round1(p);
      if f == Halted {
        return st, failed, true, done;
      }
      ghost var had := Elems(order[..i]) - failed;
      if f == Failed {
        failed := failed + {p};
        assert had == Elems(order[..i + 1]) - failed;
      } else {
        var part := Page(api, ym, p);
        RowPerKey(api.rows(p), ym);
        st := Take(t, st, part, Joined(api, ym, done));
        JoinedOfMore(api, ym, done, p);
        JoinsMore(done, had, p);
        done := done + [p];
        assert had + {p} == Elems(order[..i + 1]) - failed;
      }
      i := i + 1;
    }
    assert order[..i] == order;
  }

  lemma NoneJoined()
    ensures Joins([1], {})
  {
  }

  lemma OrderedPages(order: seq<nat>, n: nat)
    requires IsOrder([1] + order, n)
    ensures forall p :: p in order <==> 2 <= p <= n
    ensures Distinct(order)
  {
    var s := [1] + order;
    forall i, j | 0 <= i < j < |order| ensures order[i] != order[j] {
      assert s[i + 1] == order[i] && s[j + 1] == order[j];
    }
    forall p | p in order ensures 2 <= p <= n {
      var i :| 0 <= i < |order| && order[i] == p;
      assert s[i + 1] == p && s[0] == 1 && p in s;
    }
    forall p: nat | 2 <= p <= n ensures p in order {
      assert p in s;
    }
  }

  // The second round: the failed pages once more, by page number.
  method SecondRound(api: Api, ym: string, round1: nat -> Fate, round2: nat -> Fate, failed: set<nat>, t: Tally, first: Counts,
                     ghost before: seq<nat>, ghost arrived: set<nat>)
    returns (st: Counts, f: Fate, ghost done: seq<nat>)
    requires failed == FailedOnce(Pages(api), round1) && !HaltsAtOnce(Pages(api), round1)
    requires arrived == Later(Pages(api)) - failed
    requires Holds(t.acc, t.seen, first, Joined(api, ym, before)) && Joins(before, arrived)
    modifies t
    ensures f == Answered <==> AllArrive(Pages(api), round1, round2)
    ensures f == Halted <==> HaltsLater(Pages(api), round1, round2)
    ensures f == Answered ==> Holds(t.acc, t.seen, st, Joined(api, ym, done)) && Joins(done, Later(Pages(api)))
  {
    hide Holds, Joined, PartOf, Joins, Later, Pages, Elems;
    st, f, done := first, Answered, before;
    var n := Pages(api);
    var p := 2;
    ghost var had := arrived;
    while p <= n
      invariant 2 <= p <= n + 1 || (n < 2 && p == 2)
      invariant f == Answered && forall q :: 2 <= q < p ==> Arrives(q, round1, round2)
      invariant had == arrived + (set q | q in failed && q < p)
      invariant Holds(t.acc, t.seen, st, Joined(api, ym, done)) && Joins(done, had)
    {
      if p in failed {
        f := round2(p);
        if f != Answered {
          EndsAt(n, round1, round2, p);
          return;
        }
        var part := Page(api, ym, p);
        RowPerKey(api.rows(p), ym);
        st := Take(t, st, part, Joined(api, ym, done));
        JoinedOfMore(api, ym, done, p);
        JoinsMore(done, had, p);
        done, had := done + [p], had + {p};
      }
      p := p + 1;
    }
    assert had == Later(n);
    AllCame(n, round1, round2);
  }

  lemma EndsAt(n: nat, round1: nat -> Fate, round2: nat -> Fate, p: nat)
    requires 2 <= p <= n && round1(p) == Failed && round2(p) != Answered
    requires forall q :: 2 <= q < p ==> Arrives(q, round1, round2)
    ensures !AllArrive(n, round1, round2)
    ensures HaltsLater(n, round1, round2) <==> round2(p) == Halted
  {
    assert !Arrives(p, round1, round2);
    forall q | 2 <= q <= n && round1(q) == Failed && round2(q) == Halted && q != p
      ensures !(forall o :: 2 <= o < q ==> Arrives(o, round1, round2))
    {
      assert !Arrives(q, round1, round2);
    }
  }

  lemma AllCame(n: nat, round1: nat -> Fate, round2: nat -> Fate)
    requires forall q :: 2 <= q <= n ==> Arrives(q, round1, round2)
    ensures AllArrive(n, round1, round2) && !HaltsLater(n, round1, round2)
  {
    forall p | 2 <= p <= n ensures !(round1(p) == Failed && round2(p) == Halted) {
      assert Arrives(p, round1, round2);
    }
  }

  lemma HaltIsNoArrival(n: nat, round1: nat -> Fate, round2: nat -> Fate)
    requires HaltsAtOnce(n, round1)
    ensures !AllArrive(n, round1, round2)
  {
    var p :| 2 <= p <= n && round1(p) == Halted;
    assert !Arrives(p, round1, round2);
  }

  // The month is taken exactly when every page arrives, no pair repeats and the rows are as many as the service counts; it is then
  // the sum of the usable rows of all pages in page order. Neither this nor any other result depends on the order of completion.
  // n is the number of pages the total fills, the last of them perhaps not to the end.
  method FetchMonth(api: Api, ym: string, newest: bool, opening: Fate, order: seq<nat>, round1: nat -> Fate, round2: nat -> Fate,
                    ghost n: nat)
    returns (r: Result)
    requires api.total > 0 ==> FillsPages(api.total, n) && IsOrder([1] + order, n)
    ensures r.Month? <==> && opening == Answered && api.total > 0 && AllArrive(n, round1, round2)
                          && NoRepeat(Whole(api, n), ym) && |Whole(api, n)| == api.total
    ensures r.Month? ==> r.pages == n && (r.pages - 1) * 100 < r.total <= r.pages * 100
    ensures r.Month? ==> r.total == api.total && r.retried == |FailedOnce(n, round1)|
    ensures r.Month? ==> r.acc == Moves(Usables(Whole(api, n), ym)) && r.rows == |Usables(Whole(api, n), ym)|
    ensures r.Month? ==> r.skipped == |Idle(Whole(api, n), ym)| && r.rows + r.skipped == r.total
    ensures r.Month? ==> forall c :: (if c in r.acc then r.acc[c] else Unit(0, 0, 0, 0, 0)) == Counted(Whole(api, n), ym, c)
    ensures r.Month? ==> forall c :: c in r.acc <==> Named(Whole(api, n), ym, c)
    ensures r.NotYet? <==> opening == Answered && api.total == 0 && newest
    ensures var later := opening == Answered && api.total > 0 && (HaltsAtOnce(n, round1) || HaltsLater(n, round1, round2));
            r.Stopped? <==> opening == Halted || later
  {
    hide Holds, Joined, PartOf, Moves, Usables, Unusable, NoRepeat, IsOrder, Joins, AllArrive, HaltsAtOnce, HaltsLater, Later, Arrives,
      Pages, Whole, Counted, Named, Idle;
    if opening == Halted {
      return Stopped;
    }
    if opening == Failed {
      return Incomplete;
    }
    if api.total == 0 {
      return if newest then NotYet else Incomplete;
    }
    PagesFilled(api, n);
    var t := new Tally();
    var st := t.AddRows(api.rows(1), ym);
    FirstHolds(api, ym, t.acc, t.seen, st);
    var failed, stopped, f;
    ghost var done;
    st, failed, stopped, done := FirstRound(api, ym, order, round1, t, st);
    if stopped {
      HaltIsNoArrival(Pages(api), round1, round2);
      return Stopped;
    }
    OrderedPages(order, Pages(api));
    assert Elems(order) == Later(Pages(api));
    st, f, done := SecondRound(api, ym, round1, round2, failed, t, st, done, Elems(order) - failed);
    if f == Halted {
      return Stopped;
    }
    if f == Failed {
      return Incomplete;
    }
    AllJoined(done, Pages(api));
    WholeJoined(api, ym, done, t.acc, t.seen, st);
    var got := st.rows + st.skipped + st.dup;
    if st.dup > 0 || got != api.total {
      return Incomplete;
    }
    forall c ensures (if c in t.acc then t.acc[c] else Unit(0, 0, 0, 0, 0)) == Counted(Whole(api, n), ym, c)
      ensures c in t.acc <==> Named(Whole(api, n), ym, c)
    {
      SumsAreCounted(Whole(api, n), ym, c);
    }
    UnusableAreIdle(Whole(api, n), ym);
    r := Month(t.acc, st.rows, st.skipped, |failed|, api.total, Pages(api));
  }

  lemma AllJoined(done: seq<nat>, n: nat)
    requires Joins(done, Later(n)) && n >= 1
    ensures IsOrder(done, n)
  {
  }

  lemma FirstHolds(api: Api, ym: string, acc: map<Code, Unit>, seen: set<Pair>, st: Counts)
    requires Added(acc, seen, st, api.rows(1), ym, map[], {})
    ensures Holds(acc, seen, st, Joined(api, ym, [1]))
  {
    hide Kept, Moves, Pairs, Unusable, Plus, PartOf;
    PartFacts(api.rows(1), ym);
    RowPerKey(api.rows(1), ym);
    assert Joined(api, ym, [1]) == Join(Joined(api, ym, []), PartOf(api.rows(1), ym)) by {
      assert Init([1]) == [];
    }
  }
}
