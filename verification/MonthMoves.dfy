// One month of moves between districts: rows summed by district, page by page.
module MonthMoves {
  import opened FiniteSets
  import opened Options

  type Code = string

  type Pair = (Code, Code)

  // A row of the answer, its codes already checked: None where the field is not a ten-digit code.
  datatype Item = Item(into: Option<Code>, from: Option<Code>, ym: string, people: int, aged: int)
  {
    // Both codes are there and the row is of the month asked for.
    ghost predicate Usable(month: string) {
      into.Some? && from.Some? && ym == month
    }

    ghost function Pair(): Pair
      requires into.Some? && from.Some?
    {
      (into.value, from.value)
    }
  }

  type Move = it: Item | it.into.Some? && it.from.Some? witness Item(Some(""), Some(""), "", 0, 0)

  datatype Unit = Unit(ins: int, outs: int, agedIn: int, agedOut: int, intra: int)
  {
    ghost function Add(u: Unit): Unit {
      Unit(ins + u.ins, outs + u.outs, agedIn + u.agedIn, agedOut + u.agedOut, intra + u.intra)
    }
  }

  const ZERO: Unit := Unit(0, 0, 0, 0, 0)

  ghost function Get(m: map<Code, Unit>, c: Code): Unit {
    if c in m then m[c] else ZERO
  }

  // Two sets of sums put together.
  ghost function Plus(a: map<Code, Unit>, b: map<Code, Unit>): map<Code, Unit> {
    map c | c in a.Keys + b.Keys :: Get(a, c).Add(Get(b, c))
  }

  lemma PlusCommutes(a: map<Code, Unit>, b: map<Code, Unit>)
    ensures Plus(a, b) == Plus(b, a)
  {
    assert forall c :: c in Plus(a, b) ==> Plus(a, b)[c] == Plus(b, a)[c];
  }

  lemma GetPlus(a: map<Code, Unit>, b: map<Code, Unit>, c: Code)
    ensures Get(Plus(a, b), c) == Get(a, c).Add(Get(b, c))
    ensures Plus(a, b).Keys == a.Keys + b.Keys
  {
    assert Plus(a, b).Keys == a.Keys + b.Keys;
    if c in a.Keys + b.Keys {
      hide Unit.Add;
      assert c in Plus(a, b) && Plus(a, b)[c] == Get(a, c).Add(Get(b, c));
    } else {
      assert ZERO.Add(ZERO) == ZERO;
    }
  }

  lemma SameSums(a: map<Code, Unit>, b: map<Code, Unit>)
    requires a.Keys == b.Keys && forall c :: Get(a, c) == Get(b, c)
    ensures a == b
  {
    assert forall c :: c in a ==> a[c] == Get(a, c) && b[c] == Get(b, c);
  }

  lemma PlusAssociates(a: map<Code, Unit>, b: map<Code, Unit>, c: map<Code, Unit>)
    ensures Plus(Plus(a, b), c) == Plus(a, Plus(b, c))
  {
    hide Plus, Get;
    forall x ensures Get(Plus(Plus(a, b), c), x) == Get(Plus(a, Plus(b, c)), x) {
      GetPlus(a, b, x);
      GetPlus(b, c, x);
      GetPlus(Plus(a, b), c, x);
      GetPlus(a, Plus(b, c), x);
    }
    GetPlus(a, b, "");
    GetPlus(b, c, "");
    GetPlus(Plus(a, b), c, "");
    GetPlus(a, Plus(b, c), "");
    SameSums(Plus(Plus(a, b), c), Plus(a, Plus(b, c)));
  }

  lemma PlusNothing(a: map<Code, Unit>)
    ensures Plus(a, map[]) == a
  {
    assert Plus(a, map[]).Keys == a.Keys;
  }

  // ---------------------------------------------------------------- which rows count, and for what

  function Last<T>(s: seq<T>): T
    requires s != []
  {
    s[|s| - 1]
  }

  function Init<T>(s: seq<T>): seq<T>
    requires s != []
  {
    s[..|s| - 1]
  }

  ghost function Pairs(items: seq<Item>, ym: string): set<Pair> {
    set i | 0 <= i < |items| && items[i].Usable(ym) :: items[i].Pair()
  }

  ghost function Unusable(items: seq<Item>, ym: string): nat {
    if items == [] then 0 else Unusable(Init(items), ym) + if Last(items).Usable(ym) then 0 else 1
  }

  // The usable rows whose pair was not seen before.
  ghost function Kept(items: seq<Item>, ym: string, seen: set<Pair>): seq<Move> {
    if items == [] then []
    else
      var rest, it := Kept(Init(items), ym, seen), Last(items);
      if it.Usable(ym) && it.Pair() !in seen + Pairs(Init(items), ym) then rest + [it] else rest
  }

  // A move inside a district is counted apart; any other counts for the district it leads into and for the one it leaves.
  ghost function One(it: Move): map<Code, Unit> {
    if it.into == it.from then map[it.into.value := Unit(0, 0, 0, 0, it.people)]
    else map[it.into.value := Unit(it.people, 0, it.aged, 0, 0), it.from.value := Unit(0, it.people, 0, it.aged, 0)]
  }

  ghost function Moves(items: seq<Move>): map<Code, Unit> {
    if items == [] then map[] else Plus(Moves(Init(items)), One(Last(items)))
  }

  lemma {:induction false} KeptAreUsable(items: seq<Item>, ym: string, seen: set<Pair>)
    ensures forall it :: it in Kept(items, ym, seen) ==> it.Usable(ym) && it in items
  {
    if items != [] {
      KeptAreUsable(Init(items), ym, seen);
    }
  }

  lemma PairsOfMore(items: seq<Item>, it: Item, ym: string)
    ensures Pairs(items + [it], ym) == Pairs(items, ym) + if it.Usable(ym) then {it.Pair()} else {}
  {
    var all := items + [it];
    forall p | p in Pairs(items, ym) ensures p in Pairs(all, ym) {
      var i :| 0 <= i < |items| && items[i].Usable(ym) && items[i].Pair() == p;
      assert all[i] == items[i];
    }
    if it.Usable(ym) {
      assert all[|items|] == it;
    }
  }

  lemma KeptOfMore(items: seq<Item>, it: Item, ym: string, seen: set<Pair>)
    ensures Kept(items + [it], ym, seen)
            == if it.Usable(ym) && it.Pair() !in seen + Pairs(items, ym) then Kept(items, ym, seen) + [it] else Kept(items, ym, seen)
    ensures Unusable(items + [it], ym) == Unusable(items, ym) + if it.Usable(ym) then 0 else 1
  {
    assert Init(items + [it]) == items;
  }

  lemma MovesOfMore(items: seq<Move>, it: Move)
    ensures Moves(items + [it]) == Plus(Moves(items), One(it))
  {
    assert Init(items + [it]) == items;
  }

  lemma OnePairMore(pairs: set<Pair>, seen: set<Pair>, p: Pair)
    ensures |(pairs + {p}) - seen| == |pairs - seen| + if p in seen + pairs then 0 else 1
  {
    if p in seen + pairs {
      assert (pairs + {p}) - seen == pairs - seen;
    } else {
      assert (pairs + {p}) - seen == (pairs - seen) + {p};
    }
  }

  lemma NoPairs(ym: string)
    ensures Pairs([], ym) == {}
  {
  }

  lemma NoneKept(ym: string, seen: set<Pair>)
    ensures Kept([], ym, seen) == []
  {
  }

  // One row is kept for each pair that is new.
  lemma {:induction false} KeptPerPair(items: seq<Item>, ym: string, seen: set<Pair>)
    ensures |Kept(items, ym, seen)| == |Pairs(items, ym) - seen|
  {
    hide Pairs, Kept;
    if items == [] {
      NoPairs(ym);
      NoneKept(ym, seen);
      assert {} - seen == {};
    } else {
      var it, rest := Last(items), Init(items);
      KeptPerPair(rest, ym, seen);
      assert items == rest + [it];
      PairsOfMore(rest, it, ym);
      KeptOfMore(rest, it, ym, seen);
      if it.Usable(ym) {
        OnePairMore(Pairs(rest, ym), seen, it.Pair());
      } else {
        assert Pairs(rest, ym) + {} == Pairs(rest, ym);
      }
    }
  }

  // ---------------------------------------------------------------- adding rows and merging sums

  datatype Counts = Counts(rows: nat, skipped: nat, dup: nat)

  // What the counts of a list of rows are: kept, unusable, and the rest, which repeat a pair.
  ghost predicate CountsAre(st: Counts, items: seq<Item>, ym: string, seen: set<Pair>) {
    && st.rows == |Kept(items, ym, seen)|
    && st.skipped == Unusable(items, ym)
    && st.rows + st.skipped + st.dup == |items|
  }

  lemma CountsOfMore(st: Counts, items: seq<Item>, it: Item, ym: string, seen: set<Pair>, now: set<Pair>)
    requires CountsAre(st, items, ym, seen) && now == seen + Pairs(items, ym)
    ensures CountsAre(if !it.Usable(ym) then st.(skipped := st.skipped + 1)
                      else if it.Pair() in now then st.(dup := st.dup + 1)
                      else st.(rows := st.rows + 1), items + [it], ym, seen)
  {
    hide Kept, Pairs, Unusable;
    KeptOfMore(items, it, ym, seen);
  }

  lemma SumsOfMore(first: map<Code, Unit>, items: seq<Item>, it: Item, ym: string, seen: set<Pair>, acc: map<Code, Unit>)
    requires acc == Plus(first, Moves(Kept(items, ym, seen)))
    ensures var after := Plus(first, Moves(Kept(items + [it], ym, seen)));
            after == if it.Usable(ym) && it.Pair() !in seen + Pairs(items, ym) then Plus(acc, One(it)) else acc
  {
    hide Kept, Pairs, Plus, Moves, One;
    KeptOfMore(items, it, ym, seen);
    if it.Usable(ym) && it.Pair() !in seen + Pairs(items, ym) {
      MovesOfMore(Kept(items, ym, seen), it);
      PlusAssociates(first, Moves(Kept(items, ym, seen)), One(it));
    }
  }

  lemma SeenOfMore(items: seq<Item>, it: Item, ym: string, seen: set<Pair>, now: set<Pair>)
    requires now == seen + Pairs(items, ym)
    ensures seen + Pairs(items + [it], ym) == if it.Usable(ym) then now + {it.Pair()} else now
  {
    hide Pairs;
    PairsOfMore(items, it, ym);
  }

  // The sums, pairs and counts are those of the rows added to what was there first.
  ghost predicate Added(acc: map<Code, Unit>, seen: set<Pair>, st: Counts, items: seq<Item>, ym: string,
                        first: map<Code, Unit>, before: set<Pair>) {
    && acc == Plus(first, Moves(Kept(items, ym, before)))
    && seen == before + Pairs(items, ym)
    && CountsAre(st, items, ym, before)
  }

  lemma NoneAdded(acc: map<Code, Unit>, seen: set<Pair>, ym: string)
    ensures Added(acc, seen, Counts(0, 0, 0), [], ym, acc, seen)
  {
    PlusNothing(acc);
    NoPairs(ym);
  }

  lemma OneMoreAdded(acc: map<Code, Unit>, seen: set<Pair>, st: Counts, items: seq<Item>, ym: string,
                     first: map<Code, Unit>, before: set<Pair>, it: Item)
    requires Added(acc, seen, st, items, ym, first, before)
    ensures !it.Usable(ym) ==> Added(acc, seen, st.(skipped := st.skipped + 1), items + [it], ym, first, before)
    ensures it.Usable(ym) && it.Pair() in seen ==> Added(acc, seen, st.(dup := st.dup + 1), items + [it], ym, first, before)
    ensures it.Usable(ym) && it.Pair() !in seen ==>
              Added(Plus(acc, One(it)), seen + {it.Pair()}, st.(rows := st.rows + 1), items + [it], ym, first, before)
  {
    hide Kept, Pairs, Unusable, Plus, Moves, One, CountsAre;
    CountsOfMore(st, items, it, ym, before, seen);
    SumsOfMore(first, items, it, ym, before, acc);
    SeenOfMore(items, it, ym, before, seen);
  }

  // The sums after one move, in the fields of the districts it names.
  ghost predicate Moved(before: map<Code, Unit>, it: Move, after: map<Code, Unit>) {
    var u, v := Get(before, it.into.value), Get(before, it.from.value);
    if it.into == it.from then after == before[it.into.value := u.(intra := u.intra + it.people)]
    else
      after == before[it.into.value := u.(ins := u.ins + it.people, agedIn := u.agedIn + it.aged)]
                     [it.from.value := v.(outs := v.outs + it.people, agedOut := v.agedOut + it.aged)]
  }

  lemma MovedAt(before: map<Code, Unit>, it: Move, after: map<Code, Unit>, c: Code)
    requires Moved(before, it, after)
    ensures Get(after, c) == Get(before, c).Add(Get(One(it), c))
    ensures c in after <==> c in before || c in One(it)
  {
  }

  lemma MovedIsPlus(before: map<Code, Unit>, it: Move, after: map<Code, Unit>)
    requires Moved(before, it, after)
    ensures after == Plus(before, One(it))
  {
    hide Moved, One, Get, Unit.Add, Plus;
    forall c ensures Get(after, c) == Get(Plus(before, One(it)), c) && (c in after <==> c in Plus(before, One(it))) {
      MovedAt(before, it, after, c);
      GetPlus(before, One(it), c);
    }
    SameSums(after, Plus(before, One(it)));
  }

  class Tally {
    var acc: map<Code, Unit>
    var seen: set<Pair>

    constructor ()
      ensures acc == map[] && seen == {}
    {
      acc, seen := map[], {};
    }

    method AddRows(items: seq<Item>, ym: string) returns (st: Counts)
      modifies this
      ensures Added(acc, seen, st, items, ym, old(acc), old(seen))
    {
      hide Added, Plus, Moves, Kept, Pairs, One, CountsAre;
      st := Counts(0, 0, 0);
      NoneAdded(acc, seen, ym);
      var i := 0;
      while i < |items|
        invariant 0 <= i <= |items|
        invariant Added(acc, seen, st, items[..i], ym, old(acc), old(seen))
      {
        var it := items[i];
        assert items[..i + 1] == items[..i] + [it];
        OneMoreAdded(acc, seen, st, items[..i], ym, old(acc), old(seen), it);
        if it.into.None? || it.from.None? || it.ym != ym {
          st := st.(skipped := st.skipped + 1);
        } else if (it.into.value, it.from.value) in seen {
          st := st.(dup := st.dup + 1);
        } else {
          seen := seen + {(it.into.value, it.from.value)};
          AddMove(it);
          st := st.(rows := st.rows + 1);
        }
        i := i + 1;
      }
      assert items[..i] == items;
    }

    method AddMove(it: Move)
      modifies this`acc
      ensures acc == Plus(old(acc), One(it))
    {
      hide Plus, One, Unit.Add;
      var into, from := it.into.value, it.from.value;
      var dst := if into in acc then acc[into] else ZERO;
      var src := if from in acc then acc[from] else ZERO;
      if into == from {
        acc := acc[into := dst.(intra := dst.intra + it.people)];
      } else {
        acc := acc[into := dst.(ins := dst.ins + it.people, agedIn := dst.agedIn + it.aged)];
        acc := acc[from := src.(outs := src.outs + it.people, agedOut := src.agedOut + it.aged)];
      }
      MovedIsPlus(old(acc), it, acc);
    }

    // In whatever order the districts of the part are taken.
    method Merge(part: map<Code, Unit>)
      modifies this`acc
      ensures acc == Plus(old(acc), part)
    {
      var left := part.Keys;
      while left != {}
        invariant left <= part.Keys
        invariant acc.Keys == old(acc).Keys + (part.Keys - left)
        invariant forall c :: c in acc ==> acc[c] == if c in left then Get(old(acc), c) else Get(old(acc), c).Add(Get(part, c))
      {
        var c :| c in left;
        var a, b := if c in acc then acc[c] else ZERO, part[c];
        acc := acc[c := Unit(a.ins + b.ins, a.outs + b.outs, a.agedIn + b.agedIn, a.agedOut + b.agedOut, a.intra + b.intra)];
        left := left - {c};
      }
      assert acc.Keys == Plus(old(acc), part).Keys;
    }
  }

  // ---------------------------------------------------------------- what the sums mean

  // What one row brings to a district.
  ghost function Share(it: Move, c: Code): Unit {
    var into, from := it.into.value == c, it.from.value == c;
    Unit(if into && !from then it.people else 0, if from && !into then it.people else 0,
         if into && !from then it.aged else 0, if from && !into then it.aged else 0,
         if into && from then it.people else 0)
  }

  ghost function Shares(items: seq<Move>, c: Code): Unit {
    if items == [] then ZERO else Shares(Init(items), c).Add(Share(Last(items), c))
  }

  lemma OneIsShare(it: Move, c: Code)
    ensures Get(One(it), c) == Share(it, c)
    ensures c in One(it) <==> it.into.value == c || it.from.value == c
  {
  }

  // Every district gets its share of every row.
  lemma {:induction false} MovesAreShares(items: seq<Move>, c: Code)
    ensures Get(Moves(items), c) == Shares(items, c)
  {
    if items != [] {
      hide Plus, One, Share, Get;
      MovesAreShares(Init(items), c);
      OneIsShare(Last(items), c);
      GetPlus(Moves(Init(items)), One(Last(items)), c);
    }
  }

  ghost predicate Touches(it: Move, c: Code) {
    it.into.value == c || it.from.value == c
  }

  // There is a district for every row and no district without one.
  lemma {:induction false} DistrictsOfMoves(items: seq<Move>, c: Code)
    ensures c in Moves(items) <==> exists it :: it in items && Touches(it, c)
  {
    if items != [] {
      hide One, Get;
      var rest, it := Init(items), Last(items);
      DistrictsOfMoves(rest, c);
      OneIsShare(it, c);
      assert c in Moves(items) <==> c in Moves(rest) || Touches(it, c);
      assert items == rest + [it];
    }
  }

  // What the rows come to for one district, told row by row: a row of another month or without both codes brings nothing, a move
  // inside the district is counted apart, any other where it leads and where it leaves.
  ghost function Counted(items: seq<Item>, ym: string, c: Code): Unit {
    if items == [] then Unit(0, 0, 0, 0, 0)
    else
      var u, it := Counted(items[..|items| - 1], ym, c), items[|items| - 1];
      if it.ym != ym || it.into.None? || it.from.None? then u
      else if it.into.value == c && it.from.value == c then u.(intra := u.intra + it.people)
      else if it.into.value == c then u.(ins := u.ins + it.people, agedIn := u.agedIn + it.aged)
      else if it.from.value == c then u.(outs := u.outs + it.people, agedOut := u.agedOut + it.aged)
      else u
  }

  ghost predicate Names(it: Item, ym: string, c: Code) {
    it.ym == ym && it.into.Some? && it.from.Some? && (it.into.value == c || it.from.value == c)
  }

  // The rows that bring nothing to any district.
  ghost function Idle(items: seq<Item>, ym: string): set<nat> {
    set i: nat | i < |items| && (items[i].ym != ym || items[i].into.None? || items[i].from.None?)
  }

  // ---------------------------------------------------------------- what comes in somewhere has left somewhere

  datatype Field = Ins | Outs | AgedIn | AgedOut

  ghost function Of(u: Unit, f: Field): int {
    match f
    case Ins => u.ins
    case Outs => u.outs
    case AgedIn => u.agedIn
    case AgedOut => u.agedOut
  }

  ghost function SumOver(codes: set<Code>, m: map<Code, Unit>, f: Field): int {
    if codes == {} then 0
    else Of(Get(m, Any(codes)), f) + SumOver(codes - {Any(codes)}, m, f)
  }

  lemma {:induction false} SumOfPlus(codes: set<Code>, a: map<Code, Unit>, b: map<Code, Unit>, f: Field)
    ensures SumOver(codes, Plus(a, b), f) == SumOver(codes, a, f) + SumOver(codes, b, f)
  {
    hide Plus, Get, Of, Any;
    if codes != {} {
      var c := Any(codes);
      SumOfPlus(codes - {c}, a, b, f);
      GetPlus(a, b, c);
      OfAdd(Get(a, c), Get(b, c), f);
    }
  }

  lemma OfAdd(u: Unit, v: Unit, f: Field)
    ensures Of(u.Add(v), f) == Of(u, f) + Of(v, f)
  {
  }

  // Only one district has anything.
  lemma {:induction false} SumOfSingle(codes: set<Code>, m: map<Code, Unit>, f: Field, x: Code)
    requires forall c :: c != x ==> Of(Get(m, c), f) == 0
    ensures SumOver(codes, m, f) == if x in codes then Of(Get(m, x), f) else 0
  {
    hide Get, Of, Any;
    if codes != {} {
      var c := Any(codes);
      SumOfSingle(codes - {c}, m, f, x);
    }
  }

  lemma OneBalances(codes: set<Code>, it: Move)
    requires it.into.value in codes && it.from.value in codes
    ensures SumOver(codes, One(it), Ins) == SumOver(codes, One(it), Outs)
    ensures SumOver(codes, One(it), AgedIn) == SumOver(codes, One(it), AgedOut)
  {
    hide SumOver;
    SumOfSingle(codes, One(it), Ins, it.into.value);
    SumOfSingle(codes, One(it), Outs, it.from.value);
    SumOfSingle(codes, One(it), AgedIn, it.into.value);
    SumOfSingle(codes, One(it), AgedOut, it.from.value);
  }

  lemma {:induction false} NothingSums(codes: set<Code>, f: Field)
    ensures SumOver(codes, map[], f) == 0
  {
    SumOfSingle(codes, map[], f, "");
  }

  lemma {:induction false} MovesBalanceOver(codes: set<Code>, items: seq<Move>)
    requires forall i :: 0 <= i < |items| ==> items[i].into.value in codes && items[i].from.value in codes
    ensures SumOver(codes, Moves(items), Ins) == SumOver(codes, Moves(items), Outs)
    ensures SumOver(codes, Moves(items), AgedIn) == SumOver(codes, Moves(items), AgedOut)
  {
    hide Plus, One, SumOver;
    if items == [] {
      NothingSums(codes, Ins);
      NothingSums(codes, Outs);
      NothingSums(codes, AgedIn);
      NothingSums(codes, AgedOut);
    } else {
      var rest, it := Init(items), Last(items);
      MovesBalanceOver(codes, rest);
      OneBalances(codes, it);
      SumOfPlus(codes, Moves(rest), One(it), Ins);
      SumOfPlus(codes, Moves(rest), One(it), Outs);
      SumOfPlus(codes, Moves(rest), One(it), AgedIn);
      SumOfPlus(codes, Moves(rest), One(it), AgedOut);
    }
  }

  // Arrivals and departures are equal in total, for everyone and for the old.
  lemma MovesBalance(items: seq<Move>)
    ensures var m := Moves(items);
            && SumOver(m.Keys, m, Ins) == SumOver(m.Keys, m, Outs)
            && SumOver(m.Keys, m, AgedIn) == SumOver(m.Keys, m, AgedOut)
  {
    forall i | 0 <= i < |items| ensures items[i].into.value in Moves(items).Keys && items[i].from.value in Moves(items).Keys {
      assert Touches(items[i], items[i].into.value) && Touches(items[i], items[i].from.value);
      DistrictsOfMoves(items, items[i].into.value);
      DistrictsOfMoves(items, items[i].from.value);
    }
    MovesBalanceOver(Moves(items).Keys, items);
  }
}
