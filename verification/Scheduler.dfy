// When scheduled jobs fall due. Times are microseconds of local time since the Monday on which day 0 began; the zone has no clock
// changes, so every day is 24 hours.
module Scheduler {
  import opened Options

  const MINUTE: int := 60_000_000
  const DAY: int := 24 * 60 * MINUTE
  const WINDOW: int := 30 * MINUTE

  // times are (hour, minute); no weekdays means every day.
  datatype Entry = Entry(kind: string, times: seq<(nat, nat)>, weekdays: Option<set<int>>) {
    ghost predicate Valid() {
      forall i :: 0 <= i < |times| ==> times[i].0 < 24 && times[i].1 < 60
    }
  }

  // A slot names the kind and the minute; a job is enqueued at most once for it.
  datatype Slot = Slot(kind: string, at: int)

  function DayOf(t: int): int {
    t / DAY
  }

  function Weekday(day: int): int {
    day % 7
  }

  predicate RunsOn(e: Entry, day: int) {
    e.weekdays.None? || Weekday(day) in e.weekdays.value
  }

  function At(day: int, hm: (nat, nat)): int {
    day * DAY + (hm.0 * 60 + hm.1) * MINUTE
  }

  function Occurrences(e: Entry, day: int): seq<int> {
    if RunsOn(e, day) then seq(|e.times|, i requires 0 <= i < |e.times| => At(day, e.times[i])) else []
  }

  // The entry runs on the weekday, day 0 being a Monday, and t is one of its times, to the minute.
  ghost predicate OccursOn(e: Entry, day: int, t: int) {
    && (e.weekdays.Some? ==> day % 7 in e.weekdays.value)
    && exists i :: 0 <= i < |e.times|
                   && t == 86_400_000_000 * day + 3_600_000_000 * e.times[i].0 + 60_000_000 * e.times[i].1
  }

  // Over all days.
  ghost predicate Occurs(e: Entry, t: int) {
    exists day: int :: OccursOn(e, day, t)
  }

  lemma OccurrencesAreListed(e: Entry, day: int, t: int)
    ensures t in Occurrences(e, day) <==> OccursOn(e, day, t)
  {
    if OccursOn(e, day, t) {
      var i :| 0 <= i < |e.times| && t == 86_400_000_000 * day + 3_600_000_000 * e.times[i].0 + 60_000_000 * e.times[i].1;
      assert Occurrences(e, day)[i] == t;
    }
  }

  lemma OccurrenceDay(e: Entry, day: int, t: int)
    requires e.Valid() && t in Occurrences(e, day)
    ensures day * DAY <= t < (day + 1) * DAY && DayOf(t) == day
  {
    hide DayOf;
    var i :| 0 <= i < |Occurrences(e, day)| && Occurrences(e, day)[i] == t;
    WithinDay(day, e.times[i].0, e.times[i].1);
  }

  lemma WithinDay(day: int, h: nat, m: nat)
    requires h < 24 && m < 60
    ensures day * DAY <= At(day, (h, m)) < (day + 1) * DAY && DayOf(At(day, (h, m))) == day
  {
    var rest := (h * 60 + m) * MINUTE;
    assert 0 <= rest < DAY;
    assert At(day, (h, m)) == day * DAY + rest;
  }

  // For thirty minutes from its time on.
  ghost predicate IsDue(now: int, t: int) {
    t <= now < t + 1_800_000_000
  }

  // The window is shorter than a day, so yesterday and today are enough, also just after midnight.
  lemma TwoDaysAreEnough(e: Entry, now: int, t: int)
    requires e.Valid() && Occurs(e, t) && IsDue(now, t)
    ensures OccursOn(e, now / 86_400_000_000 - 1, t) || OccursOn(e, now / 86_400_000_000, t)
  {
    hide OccursOn, Occurrences;
    var day: int :| OccursOn(e, day, t);
    OccurrencesAreListed(e, day, t);
    OccurrenceDay(e, day, t);
    assert now / DAY == day || now / DAY == day + 1;
  }

  // Exactly the slots whose time has come and whose window is still open.
  method Due(now: int, entries: seq<Entry>) returns (out: seq<Slot>)
    requires forall e :: e in entries ==> e.Valid()
    ensures forall s :: s in out <==> exists e :: e in entries && e.kind == s.kind && Occurs(e, s.at) && IsDue(now, s.at)
  {
    out := [];
    var i := 0;
    while i < |entries|
      invariant 0 <= i <= |entries|
      invariant forall s :: s in out <==> exists e :: e in entries[..i] && e.kind == s.kind && Occurs(e, s.at) && IsDue(now, s.at)
    {
      var e := entries[i];
      ghost var before := out;
      var a := DueOn(now, e, DayOf(now) - 1);
      var b := DueOn(now, e, DayOf(now));
      out := out + a + b;
      assert entries[..i + 1] == entries[..i] + [e];
      forall s: Slot ensures s in a + b <==> e.kind == s.kind && Occurs(e, s.at) && IsDue(now, s.at) {
        OccurrencesAreListed(e, DayOf(now) - 1, s.at);
        OccurrencesAreListed(e, DayOf(now), s.at);
        if e.kind == s.kind && Occurs(e, s.at) && IsDue(now, s.at) {
          TwoDaysAreEnough(e, now, s.at);
        }
      }
      i := i + 1;
    }
    assert entries[..i] == entries;
  }

  method DueOn(now: int, e: Entry, day: int) returns (out: seq<Slot>)
    ensures forall s :: s in out <==> e.kind == s.kind && s.at in Occurrences(e, day) && IsDue(now, s.at)
  {
    out := [];
    var ts := Occurrences(e, day);
    var j := 0;
    while j < |ts|
      invariant 0 <= j <= |ts|
      invariant forall s :: s in out <==> e.kind == s.kind && s.at in ts[..j] && IsDue(now, s.at)
    {
      assert ts[..j + 1] == ts[..j] + [ts[j]];
      if ts[j] <= now < ts[j] + WINDOW {
        out := out + [Slot(e.kind, ts[j])];
      }
      j := j + 1;
    }
    assert ts[..j] == ts;
  }

  // Ticks no further apart than the window miss nothing that comes between the first and the last.
  lemma {:induction false} NothingMissed(ticks: seq<int>, t: int)
    requires |ticks| > 0 && ticks[0] <= t <= ticks[|ticks| - 1]
    requires forall i :: 0 <= i < |ticks| - 1 ==> ticks[i] <= ticks[i + 1] <= ticks[i] + 1_800_000_000
    ensures exists i :: 0 <= i < |ticks| && IsDue(ticks[i], t)
  {
    var n := |ticks| - 1;
    if n > 0 && t <= ticks[n - 1] {
      NothingMissed(ticks[..n], t);
      var i :| 0 <= i < n && IsDue(ticks[..n][i], t);
      assert IsDue(ticks[i], t);
    } else {
      assert IsDue(ticks[n], t);
    }
  }

  // ---------------------------------------------------------------- the next run

  ghost predicate IsNext(e: Entry, now: int, t: int) {
    Occurs(e, t) && t > now && forall u :: Occurs(e, u) && u > now ==> t <= u
  }

  ghost predicate IsEmpty(e: Entry) {
    e.times == [] || (e.weekdays.Some? && forall w :: 0 <= w < 7 ==> w !in e.weekdays.value)
  }

  lemma LaterDaysAreLater(e: Entry, d: int, t: int, u: int, day: int)
    requires e.Valid() && t in Occurrences(e, d) && u in Occurrences(e, day) && d < day
    ensures t < u
  {
    OccurrenceDay(e, d, t);
    OccurrenceDay(e, day, u);
  }

  lemma EmptyNeverOccurs(e: Entry, t: int)
    requires IsEmpty(e)
    ensures !Occurs(e, t)
  {
    forall day: int ensures !OccursOn(e, day, t) {
      assert 0 <= day % 7 < 7;
    }
  }

  ghost predicate HasLater(e: Entry, now: int, day: int) {
    exists t :: t in Occurrences(e, day) && t > now
  }

  // How many days until the weekday comes, a week if it is today.
  function DaysUntil(day: int, w: int): (d: int)
    requires 0 <= w < 7
    ensures 1 <= d <= 7 && Weekday(day + d) == w
  {
    if (w - day) % 7 == 0 then 7 else (w - day) % 7
  }

  lemma LaterDayHasLater(e: Entry, now: int, d: int)
    requires e.Valid() && e.times != [] && d >= 1 && RunsOn(e, DayOf(now) + d)
    ensures HasLater(e, now, DayOf(now) + d)
  {
    var day := DayOf(now) + d;
    assert Occurrences(e, day)[0] == At(day, e.times[0]);
    OccurrenceDay(e, day, At(day, e.times[0]));
  }

  // Some day of the next seven has a time, and all its times are after now.
  lemma SomeDayComes(e: Entry, now: int) returns (d: int)
    requires e.Valid() && !IsEmpty(e)
    ensures 1 <= d <= 7
    ensures HasLater(e, now, DayOf(now) + d)
  {
    hide DayOf, Weekday, DaysUntil, HasLater;
    d := 1;
    if e.weekdays.Some? {
      var w: int :| 0 <= w < 7 && w in e.weekdays.value;
      d := DaysUntil(DayOf(now), w);
    }
    LaterDayHasLater(e, now, d);
  }

  // The first of a day's times, in their order, that comes after now.
  method FirstAfter(now: int, ts: seq<int>) returns (r: Option<int>)
    ensures r.None? <==> forall t :: t in ts ==> t <= now
    ensures r.Some? ==> IsFirstAfter(now, ts, r.value)
  {
    r := None;
    var j := 0;
    while j < |ts|
      invariant 0 <= j <= |ts|
      invariant r.None? ==> forall t :: t in ts[..j] ==> t <= now
      invariant r.Some? ==> IsFirstAfter(now, ts[..j], r.value)
    {
      assert ts[..j + 1] == ts[..j] + [ts[j]];
      if ts[j] > now && (r.None? || ts[j] < r.value) {
        r := Some(ts[j]);
      }
      j := j + 1;
    }
    assert ts[..j] == ts;
  }

  ghost predicate IsFirstAfter(now: int, ts: seq<int>, t: int) {
    t in ts && t > now && forall u :: u in ts && u > now ==> t <= u
  }

  ghost predicate OverBefore(e: Entry, now: int, day: int) {
    forall d: int, t: int :: d < day && t in Occurrences(e, d) ==> t <= now
  }

  lemma EarlierDaysAreOver(e: Entry, now: int)
    requires e.Valid()
    ensures OverBefore(e, now, DayOf(now))
  {
    forall d: int, t: int | d < DayOf(now) && t in Occurrences(e, d) ensures t <= now {
      OccurrenceDay(e, d, t);
    }
  }

  lemma NextFound(e: Entry, now: int, day: int, t: int)
    requires e.Valid() && OverBefore(e, now, day) && IsFirstAfter(now, Occurrences(e, day), t)
    ensures IsNext(e, now, t) && !IsEmpty(e)
  {
    OccurrencesAreListed(e, day, t);
    assert Occurs(e, t);
    if IsEmpty(e) {
      EmptyNeverOccurs(e, t);
    }
    forall u | Occurs(e, u) && u > now ensures t <= u {
      var d: int :| OccursOn(e, d, u);
      OccurrencesAreListed(e, d, u);
      if d > day {
        LaterDaysAreLater(e, day, t, u, d);
      }
    }
  }

  // The earliest occurrence after now. Eight days are looked at, for the one weekday may be today and its time over.
  method NextRun(now: int, e: Entry) returns (r: Option<int>)
    requires e.Valid()
    ensures r.Some? ==> IsNext(e, now, r.value)
    ensures r.None? <==> IsEmpty(e)
  {
    hide Occurrences, Occurs, IsEmpty;
    r := None;
    ghost var d := 8;
    if !IsEmpty(e) {
      d := SomeDayComes(e, now);
    }
    EarlierDaysAreOver(e, now);
    var i := 0;
    while i < 8
      invariant 0 <= i <= 8 && r.None?
      invariant OverBefore(e, now, DayOf(now) + i)
      invariant !IsEmpty(e) ==> i <= d
    {
      r := FirstAfter(now, Occurrences(e, DayOf(now) + i));
      if r.Some? {
        NextFound(e, now, DayOf(now) + i, r.value);
        return;
      }
      i := i + 1;
    }
  }
}
