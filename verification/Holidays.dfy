// Days on which the counters are closed, and the run of such days around a given one.
module Holidays {
  import opened FiniteSets
  import opened Options

  // Day 1 is a Monday. 0 is Monday, 6 Sunday.
  function Weekday(d: int): int {
    (d + 6) % 7
  }

  const WEEKDAYS: string := "월화수목금토일"

  datatype Status = Status(closed: bool, reason: Option<string>)

  // Day 6 is a Saturday and day 7 a Sunday. A holiday without a name does not count as one.
  ghost predicate Closed(d: int, holidays: map<int, string>) {
    d % 7 == 6 || d % 7 == 0 || Named(d, holidays)
  }

  ghost predicate Named(d: int, holidays: map<int, string>) {
    d in holidays && holidays[d] != ""
  }

  // The holiday's name comes first as the reason, then the weekend.
  function DayStatus(d: int, holidays: map<int, string>): (s: Status)
    ensures s.closed <==> Closed(d, holidays)
    ensures Named(d, holidays) ==> s.reason == Some(holidays[d])
    ensures !Named(d, holidays) && d % 7 == 6 ==> s.reason == Some("토요일")
    ensures !Named(d, holidays) && d % 7 == 0 ==> s.reason == Some("일요일")
    ensures s.reason.Some? <==> s.closed
  {
    assert [WEEKDAYS[5]] + "요일" == "토요일" && [WEEKDAYS[6]] + "요일" == "일요일";
    var weekend := Weekday(d) >= 5;
    if d in holidays && holidays[d] != "" then Status(true, Some(holidays[d]))
    else Status(weekend, if weekend then Some([WEEKDAYS[Weekday(d)]] + "요일") else None)
  }

  // From a to b every day is closed, and the days before and after are not.
  ghost predicate IsRun(a: int, b: int, holidays: map<int, string>) {
    && a <= b
    && (forall e :: a <= e <= b ==> Closed(e, holidays))
    && !Closed(a - 1, holidays) && !Closed(b + 1, holidays)
  }

  ghost predicate AllClosed(a: int, b: int, holidays: map<int, string>) {
    forall e :: a <= e <= b ==> Closed(e, holidays)
  }

  // The longest run has room for every other stretch of closed days it meets.
  lemma RunIsMaximal(a: int, b: int, lo: int, hi: int, d: int, holidays: map<int, string>)
    requires IsRun(lo, hi, holidays) && AllClosed(a, b, holidays)
    requires lo <= d <= hi && a <= d <= b
    ensures lo <= a && b <= hi
  {
  }

  // So two days of one run have the same run.
  lemma RunIsUnique(a: int, b: int, lo: int, hi: int, d: int, holidays: map<int, string>)
    requires IsRun(lo, hi, holidays) && IsRun(a, b, holidays)
    requires lo <= d <= hi && a <= d <= b
    ensures a == lo && b == hi
  {
    RunIsMaximal(a, b, lo, hi, d, holidays);
    RunIsMaximal(lo, hi, a, b, d, holidays);
  }

  // Past every entry of the table.
  ghost function Beyond(keys: set<int>, d: int): (m: int)
    ensures m >= d && forall k :: k in keys ==> k <= m
  {
    if keys == {} then d
    else
      var k := Any(keys);
      var m := Beyond(keys - {k}, d);
      assert forall j :: j in keys ==> j == k || j in keys - {k};
      if k > m then k else m
  }

  ghost function Before(keys: set<int>, d: int): (m: int)
    ensures m <= d && forall k :: k in keys ==> m <= k
  {
    if keys == {} then d
    else
      var k := Any(keys);
      var m := Before(keys - {k}, d);
      assert forall j :: j in keys ==> j == k || j in keys - {k};
      if k < m then k else m
  }

  // The table ends somewhere, and of three days in a row one is no weekend.
  lemma OpenLater(d: int, holidays: map<int, string>) returns (e: int)
    ensures e > d && !Closed(e, holidays)
  {
    var m := Beyond(holidays.Keys, d);
    e := if Weekday(m + 1) < 5 then m + 1 else if Weekday(m + 2) < 5 then m + 2 else m + 3;
  }

  lemma OpenEarlier(d: int, holidays: map<int, string>) returns (e: int)
    ensures e < d && !Closed(e, holidays)
  {
    var m := Before(holidays.Keys, d);
    e := if Weekday(m - 1) < 5 then m - 1 else if Weekday(m - 2) < 5 then m - 2 else m - 3;
  }

  // The closed days around d, all of them; none if d is open.
  method HolidayRun(d: int, holidays: map<int, string>) returns (run: seq<int>)
    ensures run == [] <==> !Closed(d, holidays)
    ensures run != [] ==> IsRun(run[0], run[|run| - 1], holidays) && run[0] <= d <= run[|run| - 1]
    ensures forall i :: 0 <= i < |run| ==> run[i] == run[0] + i
  {
    if !DayStatus(d, holidays).closed {
      return [];
    }
    var lo, hi := d, d;
    ghost var first := OpenEarlier(d, holidays);
    while DayStatus(lo - 1, holidays).closed
      invariant first < lo <= d && AllClosed(lo, d, holidays)
      decreases lo - first
    {
      lo := lo - 1;
    }
    ghost var last := OpenLater(d, holidays);
    while DayStatus(hi + 1, holidays).closed
      invariant d <= hi < last && AllClosed(lo, hi, holidays)
      decreases last - hi
    {
      hi := hi + 1;
    }
    run := seq(hi - lo + 1, i => lo + i);
  }
}
