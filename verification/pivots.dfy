/** Classic floor pivots from the bars of other days (app.js:87-99). */
module Pivots {
  import opened Wrappers
  import opened Market
  import opened Indicators

  const SecondsPerDay: int := 86400
  /** How many of the other-day bars are kept: about one day of 1-minute bars. */
  const DayWindow: nat := 1440

  /** The UTC date of epoch second `t`, as whole days since 1970-01-01. */
  function UtcDay(t: int): int {
    t / SecondsPerDay
  }

  /** `new Date(t*1000).getUTCDate()`: the day of the month, in UTC, of epoch
      second `t`. */
  function UtcDayOfMonth(t: int): int {
    DayOfMonth(UtcDay(t))
  }

  /** The day of the month of a day count since 1970-01-01 (civil-from-days
      on the proleptic Gregorian calendar). */
  function DayOfMonth(days: int): (d: int)
    ensures 1 <= d <= 31
  {
    var z := days + 719468;
    var era := z / 146097;
    var doe := z - era * 146097;
    var yoe := (doe - doe / 1460 + doe / 36524 - doe / 146096) / 365;
    var doy := doe - (365 * yoe + yoe / 4 - yoe / 100);
    var mp := (5 * doy + 2) / 153;
    doy - (153 * mp + 2) / 5 + 1
  }

  /** 1970-01-01 is the 1st. */
  lemma DayOfMonthEpoch()
    ensures DayOfMonth(0) == 1
  {
    assert 719468 / 146097 == 4;
    assert 135080 / 1460 == 92 && 135080 / 36524 == 3 && 135080 / 146096 == 0;
    assert 134991 / 365 == 369;
    assert 369 / 4 == 92 && 369 / 100 == 3;
    assert 1532 / 153 == 10;
    assert 1532 / 5 == 306;
  }

  /** 1969-12-31, the day before the epoch, is the 31st. */
  lemma DayOfMonthBeforeEpoch()
    ensures DayOfMonth(-1) == 31
  {
    assert 719467 / 146097 == 4;
    assert 135079 / 1460 == 92 && 135079 / 36524 == 3 && 135079 / 146096 == 0;
    assert 134990 / 365 == 369;
    assert 369 / 4 == 92 && 369 / 100 == 3;
    assert 1527 / 153 == 9;
    assert 1379 / 5 == 275;
  }

  /** 2000-02-29 exists: 2000 is a leap year. */
  lemma DayOfMonthLeapDay()
    ensures DayOfMonth(11016) == 29
  {
    assert 730484 / 146097 == 4;
    assert 146096 / 1460 == 100 && 146096 / 36524 == 4 && 146096 / 146096 == 1;
    assert 145999 / 365 == 399;
    assert 399 / 4 == 99 && 399 / 100 == 3;
    assert 1827 / 153 == 11;
    assert 1685 / 5 == 337;
  }

  /** 2023-11-14 is the 14th. */
  lemma DayOfMonthRecent()
    ensures DayOfMonth(19675) == 14
  {
    assert 739143 / 146097 == 5;
    assert 8658 / 1460 == 5 && 8658 / 36524 == 0 && 8658 / 146096 == 0;
    assert 8653 / 365 == 23;
    assert 23 / 4 == 5 && 23 / 100 == 0;
    assert 1292 / 153 == 8;
    assert 1226 / 5 == 245;
  }

  /** 2100 is not a leap year: the day after 2100-02-28 is 2100-03-01. */
  lemma DayOfMonthCentury()
    ensures DayOfMonth(47541) == 1
  {
    assert 767009 / 146097 == 5;
    assert 36524 / 1460 == 25 && 36524 / 36524 == 1 && 36524 / 146096 == 0;
    assert 36500 / 365 == 100;
    assert 100 / 4 == 25 && 100 / 100 == 1;
    assert 2 / 153 == 0;
    assert 2 / 5 == 0;
  }

  /** Epoch second 1700000000 is 2023-11-14T22:13:20Z: it and the last second
      of that day fall on the 14th, and the next second starts a new UTC date. */
  lemma UtcDayOfMonthExample()
    ensures UtcDayOfMonth(1700000000) == 14
    ensures UtcDayOfMonth(1700006399) == 14
    ensures UtcDay(1700006400) == UtcDay(1700000000) + 1
  {
    assert 1700000000 / SecondsPerDay == 19675;
    assert 1700006399 / SecondsPerDay == 19675;
    assert 1700006400 / SecondsPerDay == 19676;
    DayOfMonthRecent();
  }

  /** The levels returned by `pivotsClassic`. */
  datatype Levels = Levels(p: real, r1: real, s1: real)

  /** `P = (H+L+C)/3`, `R1 = 2P - L`, `S1 = 2P - H`. */
  function LevelsOf(h: real, l: real, c: real): (v: Levels)
    ensures v.r1 - v.s1 == h - l
    ensures v.r1 - v.p == v.p - l
    ensures v.p - v.s1 == h - v.p
    ensures 3.0 * v.p == h + l + c
  {
    var p := (h + l + c) / 3.0;
    Levels(p, 2.0 * p - l, 2.0 * p - h)
  }

  /** With the close inside the bar's range, the pivot sits between the
      extremes and support never exceeds resistance. */
  lemma LevelsOrdered(h: real, l: real, c: real)
    requires l <= c <= h
    ensures var v := LevelsOf(h, l, c);
            l <= v.p <= h && v.s1 <= v.p <= v.r1
  {
  }

  /** The classic textbook case: H=110, L=90, C=100 gives P=100, R1=110, S1=90. */
  lemma LevelsExample()
    ensures LevelsOf(110.0, 90.0, 100.0) == Levels(100.0, 110.0, 90.0)
  {
  }

  // ---------------------------------------------------------------------------
  // `Array.prototype.filter`, for any test
  // ---------------------------------------------------------------------------

  /** The entries of `s` that pass `keep`, in their order. */
  function Filter<T>(s: seq<T>, keep: T -> bool): (r: seq<T>)
    ensures |r| <= |s|
    ensures forall j :: 0 <= j < |r| ==> keep(r[j])
    decreases |s|
  {
    if |s| == 0 then []
    else
      var init := Filter(s[..|s| - 1], keep);
      if keep(s[|s| - 1]) then init + [s[|s| - 1]] else init
  }

  /** The filter keeps every entry that passes and nothing else. */
  lemma {:induction false} FilterMembers<T>(s: seq<T>, keep: T -> bool)
    ensures forall x :: x in Filter(s, keep) <==> x in s && keep(x)
    decreases |s|
  {
    if |s| > 0 {
      var n := |s|;
      FilterMembers(s[..n - 1], keep);
      assert s == s[..n - 1] + [s[n - 1]];
    }
  }

  /** The filter is empty exactly when no entry passes. */
  lemma FilterEmpty<T>(s: seq<T>, keep: T -> bool)
    ensures |Filter(s, keep)| == 0 <==> forall j :: 0 <= j < |s| ==> !keep(s[j])
  {
    var r := Filter(s, keep);
    FilterMembers(s, keep);
    if |r| > 0 {
      assert r[0] in r;
    } else {
      forall j | 0 <= j < |s|
        ensures !keep(s[j])
      {
        assert s[j] in s;
      }
    }
  }

  /** `x` is the last entry of `s` that passes `keep`. */
  ghost predicate LastKept<T>(s: seq<T>, keep: T -> bool, x: T) {
    exists k :: 0 <= k < |s| && s[k] == x && keep(x) && NoneKeptAfter(s, keep, k)
  }

  /** No entry after index `k` passes `keep`. */
  ghost predicate NoneKeptAfter<T>(s: seq<T>, keep: T -> bool, k: nat) {
    forall j :: k < j < |s| ==> !keep(s[j])
  }

  /** A nonempty filter ends with the last entry that passes. */
  lemma {:induction false} FilterLast<T>(s: seq<T>, keep: T -> bool)
    ensures var r := Filter(s, keep);
            |r| > 0 ==> LastKept(s, keep, r[|r| - 1])
    decreases |s|
  {
    var r := Filter(s, keep);
    if |s| > 0 && |r| > 0 {
      var n := |s|;
      var init := s[..n - 1];
      if keep(s[n - 1]) {
        assert NoneKeptAfter(s, keep, n - 1);
      } else {
        FilterLast(init, keep);
        var k :| 0 <= k < n - 1 && init[k] == r[|r| - 1] && keep(init[k]) && NoneKeptAfter(init, keep, k);
        assert s[k] == init[k];
        forall j | k < j < n
          ensures !keep(s[j])
        {
          if j < n - 1 {
            assert s[j] == init[j];
          }
        }
        assert NoneKeptAfter(s, keep, k);
      }
    }
  }

  /** One more entry extends the filter by that entry when it passes. */
  lemma FilterSnoc<T>(s: seq<T>, x: T, keep: T -> bool)
    ensures Filter(s + [x], keep) == Filter(s, keep) + (if keep(x) then [x] else [])
  {
    var t := s + [x];
    assert t[..|t| - 1] == s;
  }

  /** Filtering keeps the order of the entries: the filter of a concatenation
      is the concatenation of the filters. */
  lemma {:induction false} FilterAppend<T>(a: seq<T>, b: seq<T>, keep: T -> bool)
    ensures Filter(a + b, keep) == Filter(a, keep) + Filter(b, keep)
    decreases |b|
  {
    var n := |b|;
    if n == 0 {
      assert a + b == a;
    } else {
      var front := b[..n - 1];
      var x := b[n - 1];
      var last := if keep(x) then [x] else [];
      assert b == front + [x];
      assert a + b == (a + front) + [x];
      calc {
        Filter(a + b, keep);
        Filter((a + front) + [x], keep);
        { FilterSnoc(a + front, x, keep); }
        Filter(a + front, keep) + last;
        { FilterAppend(a, front, keep); }
        (Filter(a, keep) + Filter(front, keep)) + last;
        Filter(a, keep) + (Filter(front, keep) + last);
        { FilterSnoc(front, x, keep); }
        Filter(a, keep) + Filter(b, keep);
      }
    }
  }

  // ---------------------------------------------------------------------------
  // The bars of other days
  // ---------------------------------------------------------------------------

  /** The test of `prev = arr.filter(...)`: a day of month other than `day`. */
  function NotOn(day: int): Candle -> bool {
    (c: Candle) => UtcDayOfMonth(c.time) != day
  }

  /** The bars whose UTC day of month differs from `day`, in their order. */
  function OtherDays(cs: seq<Candle>, day: int): (r: seq<Candle>)
    ensures |r| <= |cs|
    ensures forall j :: 0 <= j < |r| ==> UtcDayOfMonth(r[j].time) != day
  {
    Filter(cs, NotOn(day))
  }

  /** The filter keeps every bar of another day and nothing else. */
  lemma OtherDaysMembers(cs: seq<Candle>, day: int)
    ensures forall c :: c in OtherDays(cs, day) <==> c in cs && UtcDayOfMonth(c.time) != day
  {
    FilterMembers(cs, NotOn(day));
  }

  /** It keeps them in their order. */
  lemma OtherDaysAppend(a: seq<Candle>, b: seq<Candle>, day: int)
    ensures OtherDays(a + b, day) == OtherDays(a, day) + OtherDays(b, day)
  {
    FilterAppend(a, b, NotOn(day));
  }

  /** `s.slice(-n)`: the last `n` entries, or all of them when there are fewer. */
  function TakeLast<T>(s: seq<T>, n: nat): (r: seq<T>)
    ensures |r| == if |s| <= n then |s| else n
    ensures r == s[|s| - |r|..]
  {
    if |s| <= n then s else s[|s| - n..]
  }

  /** The last `n` entries that pass `keep` pass it and come from `s`. */
  lemma KeptTailFrom<T>(s: seq<T>, keep: T -> bool, n: nat)
    ensures var w := TakeLast(Filter(s, keep), n);
            forall j :: 0 <= j < |w| ==> keep(w[j]) && w[j] in s
  {
    var o := Filter(s, keep);
    var w := TakeLast(o, n);
    FilterMembers(s, keep);
    forall j | 0 <= j < |w|
      ensures keep(w[j]) && w[j] in s
    {
      var i := |o| - |w| + j;
      assert w[j] == o[i];
      assert o[i] in o;
    }
  }

  /** Some of the last `n > 0` entries that pass `keep` remain exactly when
      some entry passes. */
  lemma KeptTailEmpty<T>(s: seq<T>, keep: T -> bool, n: nat)
    requires n > 0
    ensures |TakeLast(Filter(s, keep), n)| == 0 <==> forall j :: 0 <= j < |s| ==> !keep(s[j])
  {
    FilterEmpty(s, keep);
  }

  /** The last of the last `n` entries that pass `keep` is the last entry of
      `s` that passes. */
  lemma KeptTailLast<T>(s: seq<T>, keep: T -> bool, n: nat)
    ensures var w := TakeLast(Filter(s, keep), n);
            |w| > 0 ==> LastKept(s, keep, w[|w| - 1])
  {
    var o := Filter(s, keep);
    var w := TakeLast(o, n);
    FilterLast(s, keep);
    if |w| > 0 {
      assert w[|w| - 1] == o[|o| - 1];
    }
  }

  /** `Math.max(...day.map(o => o.high))`: the largest high of nonempty bars. */
  function HighOf(cs: seq<Candle>): (h: real)
    requires |cs| > 0
    ensures forall j :: 0 <= j < |cs| ==> cs[j].high <= h
    ensures exists j :: 0 <= j < |cs| && cs[j].high == h
  {
    var xs := Highs(cs);
    var h := Hi(xs);
    assert exists j :: 0 <= j < |cs| && cs[j].high == h by {
      var j :| 0 <= j < |xs| && xs[j] == h;
      assert cs[j].high == h;
    }
    h
  }

  /** `Math.min(...day.map(o => o.low))`: the smallest low of nonempty bars. */
  function LowOf(cs: seq<Candle>): (l: real)
    requires |cs| > 0
    ensures forall j :: 0 <= j < |cs| ==> l <= cs[j].low
    ensures exists j :: 0 <= j < |cs| && cs[j].low == l
  {
    var xs := Lows(cs);
    var l := Lo(xs);
    assert exists j :: 0 <= j < |cs| && cs[j].low == l by {
      var j :| 0 <= j < |xs| && xs[j] == l;
      assert cs[j].low == l;
    }
    l
  }

  /** The bars `pivotsClassic` reads: the last `DayWindow` bars of days other
      than the last bar's. */
  function Retained(cs: seq<Candle>): (w: seq<Candle>)
    requires |cs| > 0
    ensures var o := OtherDays(cs, UtcDayOfMonth(cs[|cs| - 1].time));
            |w| == (if |o| <= DayWindow then |o| else DayWindow) && w == o[|o| - |w|..]
    ensures forall j :: 0 <= j < |w| ==>
              UtcDayOfMonth(w[j].time) != UtcDayOfMonth(cs[|cs| - 1].time) && w[j] in cs
    ensures |w| == 0 <==>
              forall j :: 0 <= j < |cs| ==> UtcDayOfMonth(cs[j].time) == UtcDayOfMonth(cs[|cs| - 1].time)
  {
    var keep := NotOn(UtcDayOfMonth(cs[|cs| - 1].time));
    KeptTailFrom(cs, keep, DayWindow);
    KeptTailEmpty(cs, keep, DayWindow);
    TakeLast(Filter(cs, keep), DayWindow)
  }

  /** The retained bars end with the last bar of another day. */
  lemma RetainedEndsWithLastOtherDay(cs: seq<Candle>)
    requires |cs| > 0
    ensures var w := Retained(cs);
            |w| > 0 ==> LastKept(cs, NotOn(UtcDayOfMonth(cs[|cs| - 1].time)), w[|w| - 1])
  {
    var keep := NotOn(UtcDayOfMonth(cs[|cs| - 1].time));
    KeptTailLast(cs, keep, DayWindow);
    assert Retained(cs) == TakeLast(Filter(cs, keep), DayWindow);
  }

  /** `pivotsClassic(arr)`: `None` for fewer than two bars or when every bar
      falls on the last bar's day of month; otherwise the levels of the
      retained bars' highest high, lowest low and last close. */
  function PivotsClassic(cs: seq<Candle>): (r: Option<Levels>)
    ensures |cs| < 2 ==> r.None?
    ensures |cs| >= 2 ==>
              (r.None? <==> forall j :: 0 <= j < |cs| ==>
                 UtcDayOfMonth(cs[j].time) == UtcDayOfMonth(cs[|cs| - 1].time))
    ensures r.Some? ==>
              var w := Retained(cs);
              && |w| > 0
              && r.value.r1 - r.value.s1 == HighOf(w) - LowOf(w)
              && r.value.r1 - r.value.p == r.value.p - LowOf(w)
              && 3.0 * r.value.p == HighOf(w) + LowOf(w) + w[|w| - 1].close
  {
    if |cs| < 2 then None
    else
      var day := Retained(cs);
      if |day| == 0 then None
      else Some(LevelsOf(HighOf(day), LowOf(day), day[|day| - 1].close))
  }

  /** On bars whose low does not exceed their high, resistance is never
      below support. */
  lemma PivotsSupportBelowResistance(cs: seq<Candle>)
    requires AllSane(cs)
    ensures PivotsClassic(cs).Some? ==> PivotsClassic(cs).value.s1 <= PivotsClassic(cs).value.r1
  {
    if PivotsClassic(cs).Some? {
      var w := Retained(cs);
      var c := w[0];
      assert c in cs;
      assert Sane(c);
      assert LowOf(w) <= c.low <= c.high <= HighOf(w);
    }
  }

  /** On bars whose close lies within their range, `S1 <= P <= R1`. */
  lemma PivotsOrdered(cs: seq<Candle>)
    requires forall j :: 0 <= j < |cs| ==> cs[j].low <= cs[j].close <= cs[j].high
    ensures PivotsClassic(cs).Some? ==>
              PivotsClassic(cs).value.s1 <= PivotsClassic(cs).value.p <= PivotsClassic(cs).value.r1
  {
    if PivotsClassic(cs).Some? {
      var w := Retained(cs);
      var c := w[|w| - 1];
      assert c in cs;
      assert LowOf(w) <= c.low <= c.close <= c.high <= HighOf(w);
      LevelsOrdered(HighOf(w), LowOf(w), c.close);
    }
  }

  /** Only the date of the last bar matters, not its prices: two windows that
      agree before the last bar and whose last bars fall on the same UTC date
      have the same pivots. */
  lemma PivotsIgnoreFormingBar(cs: seq<Candle>, ds: seq<Candle>)
    requires |cs| == |ds| && |cs| > 0
    requires cs[..|cs| - 1] == ds[..|ds| - 1]
    requires UtcDay(cs[|cs| - 1].time) == UtcDay(ds[|ds| - 1].time)
    ensures PivotsClassic(cs) == PivotsClassic(ds)
  {
    var day := UtcDayOfMonth(cs[|cs| - 1].time);
    assert OtherDays(cs, day) == OtherDays(cs[..|cs| - 1], day);
    assert OtherDays(ds, day) == OtherDays(ds[..|ds| - 1], day);
    assert Retained(cs) == Retained(ds);
  }
}
