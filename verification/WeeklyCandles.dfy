/**
 Weekly OHLCV candles from daily ones: the single-pass aggregator with its outlier filter, and the request that feeds
 it. The aggregator's loop is proved against the runs of equal weeks; the theorems then say what the runs are.
 */
module WeeklyCandles {
  import opened Wrappers
  import opened JsNumbers
  import opened Sequences

  datatype Candle = Candle(time: int, open: real, high: real, low: real, close: real, volume: real)

  const WEEK_IN_SECONDS := 604800
  const DAY_IN_SECONDS := 86400
  const HOUR_IN_SECONDS := 3600

  /** Start of the fixed seven-day bucket a time falls into; the source floors, as Dafny's `/` does here. */
  function WeekStart(time: int): int {
    time / WEEK_IN_SECONDS * WEEK_IN_SECONDS
  }

  // ----- The filter -----

  function Active(cs: seq<Candle>): seq<Candle> {
    if cs == [] then []
    else if cs[0].volume > 0.0 then [cs[0]] + Active(cs[1..])
    else Active(cs[1..])
  }

  function Closes(cs: seq<Candle>): seq<real> {
    seq(|cs|, i requires 0 <= i < |cs| => cs[i].close)
  }

  ghost predicate Ascending(xs: seq<real>) {
    forall i, j :: 0 <= i < j < |xs| ==> xs[i] <= xs[j]
  }

  function Insert(x: real, xs: seq<real>): seq<real> {
    if xs == [] then [x]
    else if x <= xs[0] then [x] + xs
    else [xs[0]] + Insert(x, xs[1..])
  }

  function SortAscending(xs: seq<real>): seq<real> {
    if xs == [] then [] else Insert(xs[0], SortAscending(xs[1..]))
  }

  lemma InsertMembers(x: real, xs: seq<real>)
    ensures forall y :: y in Insert(x, xs) <==> y == x || y in xs
  {
  }

  lemma {:induction false} InsertKeepsElements(x: real, xs: seq<real>)
    ensures multiset(Insert(x, xs)) == multiset(xs) + multiset{x}
  {
    if xs != [] && x > xs[0] {
      InsertKeepsElements(x, xs[1..]);
      assert [xs[0]] + xs[1..] == xs;
    }
  }

  lemma {:induction false} InsertKeepsSorted(x: real, xs: seq<real>)
    requires Ascending(xs)
    ensures Ascending(Insert(x, xs))
  {
    if xs != [] && x > xs[0] {
      var rest := Insert(x, xs[1..]);
      InsertKeepsSorted(x, xs[1..]);
      InsertMembers(x, xs[1..]);
      forall i | 0 <= i < |rest| ensures xs[0] <= rest[i] {
        assert rest[i] in rest;
      }
    }
  }

  lemma {:induction false} SortSorts(xs: seq<real>)
    ensures Ascending(SortAscending(xs)) && multiset(SortAscending(xs)) == multiset(xs)
    ensures |SortAscending(xs)| == |xs|
  {
    if xs != [] {
      SortSorts(xs[1..]);
      InsertKeepsSorted(xs[0], SortAscending(xs[1..]));
      InsertKeepsElements(xs[0], SortAscending(xs[1..]));
      assert [xs[0]] + xs[1..] == xs;
      assert |multiset(SortAscending(xs))| == |multiset(xs)|;
    }
  }

  /** The element the source picks: position floor(n / 2) of the sorted closes. */
  function Median(cs: seq<Candle>): real
    requires cs != []
  {
    SortSorts(Closes(cs));
    SortAscending(Closes(cs))[|cs| / 2]
  }

  /** How many of the numbers are below a bound. */
  ghost function Below(xs: seq<real>, bound: real): nat {
    if xs == [] then 0 else (if xs[0] < bound then 1 else 0) + Below(xs[1..], bound)
  }

  ghost function AtMost(xs: seq<real>, bound: real): nat {
    if xs == [] then 0 else (if xs[0] <= bound then 1 else 0) + AtMost(xs[1..], bound)
  }

  lemma {:induction false} InsertCounts(x: real, xs: seq<real>, bound: real)
    ensures Below(Insert(x, xs), bound) == Below([x], bound) + Below(xs, bound)
    ensures AtMost(Insert(x, xs), bound) == AtMost([x], bound) + AtMost(xs, bound)
  {
    assert [x][1..] == [];
    if xs != [] && x > xs[0] {
      InsertCounts(x, xs[1..], bound);
      assert Insert(x, xs)[1..] == Insert(x, xs[1..]);
    } else {
      assert ([x] + xs)[1..] == xs;
    }
  }

  lemma {:induction false} SortCounts(xs: seq<real>, bound: real)
    ensures Below(SortAscending(xs), bound) == Below(xs, bound)
    ensures AtMost(SortAscending(xs), bound) == AtMost(xs, bound)
  {
    if xs != [] {
      SortCounts(xs[1..], bound);
      InsertCounts(xs[0], SortAscending(xs[1..]), bound);
      assert [xs[0]][1..] == [];
    }
  }

  lemma {:induction false} NoneBelow(xs: seq<real>, bound: real)
    requires forall i :: 0 <= i < |xs| ==> bound <= xs[i]
    ensures Below(xs, bound) == 0
  {
    if xs != [] {
      NoneBelow(xs[1..], bound);
    }
  }

  /** Position and rank in an ascending list. */
  lemma {:induction false} RankOf(xs: seq<real>, k: nat)
    requires Ascending(xs) && k < |xs|
    ensures Below(xs, xs[k]) <= k < AtMost(xs, xs[k])
  {
    if k == 0 {
      NoneBelow(xs, xs[0]);
    } else {
      RankOf(xs[1..], k - 1);
    }
  }

  /** The median is a close, with at most half of them below it and more than half at most equal to it. */
  lemma MedianSplitsCloses(cs: seq<Candle>)
    requires cs != []
    ensures exists i :: 0 <= i < |cs| && Median(cs) == cs[i].close
    ensures Below(Closes(cs), Median(cs)) <= |cs| / 2 < AtMost(Closes(cs), Median(cs))
  {
    MedianIsAClose(cs);
    SortSorts(Closes(cs));
    RankOf(SortAscending(Closes(cs)), |cs| / 2);
    SortCounts(Closes(cs), Median(cs));
  }

  /** The outlier test, with JavaScript's division and maximum. */
  predicate Kept(c: Candle, median: real) {
    Less(Max(Div(c.high, median), Div(median, c.low)), 10.0)
  }

  function KeepTypical(cs: seq<Candle>, median: real): seq<Candle> {
    if cs == [] then []
    else if Kept(cs[0], median) then [cs[0]] + KeepTypical(cs[1..], median)
    else KeepTypical(cs[1..], median)
  }

  /** The candles that survive both filters, in order. */
  function Surviving(daily: seq<Candle>): seq<Candle> {
    var active := Active(daily);
    if active == [] then [] else KeepTypical(active, Median(active))
  }

  /** For a positive median the test means: high below ten times the median, and low above a tenth of it or negative.
      (A zero low is always dropped, a negative one never.) */
  lemma KeptMeans(c: Candle, median: real)
    requires median > 0.0
    ensures Kept(c, median) <==> c.high < 10.0 * median && (c.low > median / 10.0 || c.low < 0.0)
  {
    var up, down := Div(c.high, median), Div(median, c.low);
    QuotientBelow(c.high, median, 10.0);
    if c.low > 0.0 {
      QuotientBelow(median, c.low, 10.0);
    } else if c.low < 0.0 {
      NegativeQuotient(median, c.low);
    }
  }

  lemma QuotientBelow(a: real, b: real, k: real)
    requires b > 0.0
    ensures a / b < k <==> a < k * b
  {
    assert a / b * b == a;
    if a / b < k {
      ProductGrows(a / b, k, b);
    } else if a / b > k {
      ProductGrows(k, a / b, b);
    }
  }

  lemma ProductGrows(x: real, y: real, b: real)
    requires x < y && b > 0.0
    ensures x * b < y * b
  {
  }

  lemma NegativeQuotient(a: real, b: real)
    requires a > 0.0 && b < 0.0
    ensures a / b < 0.0
  {
  }

  // ----- Runs of equal weeks and their summaries -----

  /** The week of a group of candles: that of its first. */
  function WeekOf(run: seq<Candle>): int
    requires run != []
  {
    WeekStart(run[0].time)
  }

  predicate NonEmpty(runs: seq<seq<Candle>>) {
    forall k :: 0 <= k < |runs| ==> runs[k] != []
  }

  /** The maximal runs of consecutive candles of one week, in order. */
  function Runs(cs: seq<Candle>): (r: seq<seq<Candle>>)
    ensures NonEmpty(r) && (cs != [] ==> r != [])
  {
    if cs == [] then [] else Extend(Runs(Init(cs)), Last(cs))
  }

  function Extend(runs: seq<seq<Candle>>, c: Candle): (r: seq<seq<Candle>>)
    requires NonEmpty(runs)
    ensures NonEmpty(r) && r != []
  {
    if runs != [] && WeekOf(Last(runs)) == WeekStart(c.time)
    then Init(runs) + [Last(runs) + [c]]
    else runs + [[c]]
  }

  function MaxHigh(cs: seq<Candle>): real
    requires cs != []
  {
    if |cs| == 1 then cs[0].high
    else if cs[0].high >= MaxHigh(cs[1..]) then cs[0].high
    else MaxHigh(cs[1..])
  }

  function MinLow(cs: seq<Candle>): real
    requires cs != []
  {
    if |cs| == 1 then cs[0].low
    else if cs[0].low <= MinLow(cs[1..]) then cs[0].low
    else MinLow(cs[1..])
  }

  lemma {:induction false} ExtremesAreReached(cs: seq<Candle>)
    requires cs != []
    ensures forall i :: 0 <= i < |cs| ==> MinLow(cs) <= cs[i].low && cs[i].high <= MaxHigh(cs)
    ensures exists i :: 0 <= i < |cs| && cs[i].high == MaxHigh(cs)
    ensures exists i :: 0 <= i < |cs| && cs[i].low == MinLow(cs)
  {
    if |cs| == 1 {
      assert cs[0].high == MaxHigh(cs) && cs[0].low == MinLow(cs);
    } else {
      var rest := cs[1..];
      ExtremesAreReached(rest);
      var i :| 0 <= i < |rest| && rest[i].high == MaxHigh(rest);
      var j :| 0 <= j < |rest| && rest[j].low == MinLow(rest);
      assert cs[i + 1].high == MaxHigh(rest) && cs[j + 1].low == MinLow(rest);
      assert cs[0].high == cs[0].high && cs[0].low == cs[0].low;
      forall k | 0 <= k < |cs| ensures MinLow(cs) <= cs[k].low && cs[k].high <= MaxHigh(cs) {
        if k > 0 {
          assert cs[k] == rest[k - 1];
        }
      }
    }
  }

  function TotalVolume(cs: seq<Candle>): real {
    if cs == [] then 0.0 else TotalVolume(Init(cs)) + Last(cs).volume
  }

  /** One weekly candle out of the candles of a week. */
  function Summary(week: int, cs: seq<Candle>): Candle
    requires cs != []
  {
    Candle(week, cs[0].open, MaxHigh(cs), MinLow(cs), Last(cs).close, TotalVolume(cs))
  }

  function Summaries(runs: seq<seq<Candle>>): seq<Candle>
    requires NonEmpty(runs)
  {
    seq(|runs|, k requires 0 <= k < |runs| => Summary(WeekOf(runs[k]), runs[k]))
  }

  // ----- The aggregator -----

  method AggregateDailyToWeekly(daily: seq<Candle>) returns (weekly: seq<Candle>)
    ensures weekly == Summaries(Runs(Surviving(daily)))
  {
    weekly := [];
    if |daily| == 0 {
      return;
    }
    var active := Active(daily);
    if |active| == 0 {
      return;
    }
    var median := Median(active);
    var filtered := KeepTypical(active, median);
    if |filtered| == 0 {
      return;
    }
    var weekStart := WeekStart(filtered[0].time);
    var weekCandles: seq<Candle> := [];
    ghost var closed: seq<seq<Candle>> := [];
    for i := 0 to |filtered|
      invariant Grouped(filtered, i, closed, weekCandles, weekStart)
      invariant weekly == Summaries(closed)
    {
      var candle := filtered[i];
      var candleWeekStart := WeekStart(candle.time);
      GroupedNext(filtered, i, closed, weekCandles, weekStart);
      if candleWeekStart == weekStart {
        weekCandles := weekCandles + [candle];
      } else {
        if |weekCandles| > 0 {
          SummariesNext(closed, weekCandles);
          weekly := weekly + [Summary(weekStart, weekCandles)];
          closed := closed + [weekCandles];
        }
        weekStart := candleWeekStart;
        weekCandles := [candle];
      }
    }
    assert filtered[..|filtered|] == filtered;
    if |weekCandles| > 0 {
      SummariesNext(closed, weekCandles);
      weekly := weekly + [Summary(weekStart, weekCandles)];
    }
  }

  /** The loop's state before candle `i`: the finished runs, and the one still growing. */
  ghost predicate Grouped(cs: seq<Candle>, i: nat, closed: seq<seq<Candle>>, open: seq<Candle>, week: int)
    requires i <= |cs|
  {
    && NonEmpty(closed)
    && if i == 0 then open == [] && closed == [] && (cs != [] ==> week == WeekStart(cs[0].time))
       else open != [] && week == WeekOf(open) && Runs(cs[..i]) == closed + [open]
  }

  lemma SummariesNext(closed: seq<seq<Candle>>, open: seq<Candle>)
    requires NonEmpty(closed) && open != []
    ensures Summaries(closed + [open]) == Summaries(closed) + [Summary(WeekOf(open), open)]
  {
  }

  lemma GroupedNext(cs: seq<Candle>, i: nat, closed: seq<seq<Candle>>, open: seq<Candle>, week: int)
    requires i < |cs| && Grouped(cs, i, closed, open, week)
    ensures var c := cs[i];
            if WeekStart(c.time) == week then Grouped(cs, i + 1, closed, open + [c], week)
            else open != [] && Grouped(cs, i + 1, closed + [open], [c], WeekStart(c.time))
  {
    assert Init(cs[..i + 1]) == cs[..i] && Last(cs[..i + 1]) == cs[i];
    if i == 0 {
      assert cs[..0] == [];
      assert open + [cs[0]] == [cs[0]];
      assert closed + [open + [cs[0]]] == [[cs[0]]];
    } else {
      assert Init(closed + [open]) == closed;
    }
  }

  // ----- What the runs are -----

  ghost predicate InTimeOrder(cs: seq<Candle>) {
    forall i, j :: 0 <= i < j < |cs| ==> cs[i].time <= cs[j].time
  }

  /** The declarative group: all candles of one week, in order. */
  function InWeek(cs: seq<Candle>, week: int): seq<Candle> {
    if cs == [] then []
    else InWeek(Init(cs), week) + if WeekStart(Last(cs).time) == week then [Last(cs)] else []
  }

  /** Runs as groups: run `k` is exactly the group of its week, weeks increase, and every candle's week has a run. */
  ghost predicate GroupsByWeek(runs: seq<seq<Candle>>, cs: seq<Candle>) {
    && NonEmpty(runs)
    && (forall k :: 0 <= k < |runs| ==> runs[k] == InWeek(cs, WeekOf(runs[k])))
    && (forall j, k :: 0 <= j < k < |runs| ==> WeekOf(runs[j]) < WeekOf(runs[k]))
    && (forall c :: c in cs ==> HasRun(runs, WeekStart(c.time)))
  }

  ghost predicate HasRun(runs: seq<seq<Candle>>, week: int)
    requires NonEmpty(runs)
  {
    exists k :: 0 <= k < |runs| && WeekOf(runs[k]) == week
  }

  lemma WeekStartMonotone(s: int, t: int)
    requires s <= t
    ensures WeekStart(s) <= WeekStart(t)
  {
  }

  lemma InWeekMembers(cs: seq<Candle>, week: int)
    ensures forall c :: c in InWeek(cs, week) ==> c in cs && WeekStart(c.time) == week
    ensures forall c :: c in cs && WeekStart(c.time) == week ==> c in InWeek(cs, week)
  {
  }

  lemma {:induction false} RunsGroupByWeek(cs: seq<Candle>)
    requires InTimeOrder(cs)
    ensures GroupsByWeek(Runs(cs), cs)
  {
    if cs != [] {
      var init, c := Init(cs), Last(cs);
      RunsGroupByWeek(init);
      ExtendGroups(Runs(init), init, c);
      assert init + [c] == cs;
    }
  }

  lemma InWeekSnoc(init: seq<Candle>, c: Candle, week: int)
    ensures InWeek(init + [c], week) == InWeek(init, week) + if WeekStart(c.time) == week then [c] else []
  {
    assert Init(init + [c]) == init && Last(init + [c]) == c;
  }

  /** A candle that comes last in time belongs to the last run's week or to a later one. */
  lemma LastComesLast(runs: seq<seq<Candle>>, init: seq<Candle>, c: Candle, k: nat)
    requires GroupsByWeek(runs, init) && InTimeOrder(init + [c]) && k < |runs|
    ensures WeekOf(runs[k]) <= WeekStart(c.time)
  {
    InWeekMembers(init, WeekOf(runs[k]));
    assert runs[k][0] in init;
    var i :| 0 <= i < |init| && init[i] == runs[k][0];
    assert (init + [c])[i].time <= (init + [c])[|init|].time;
    WeekStartMonotone(runs[k][0].time, c.time);
  }

  lemma GroupHasRun(runs: seq<seq<Candle>>, cs: seq<Candle>, week: int)
    requires GroupsByWeek(runs, cs) && InWeek(cs, week) != []
    ensures HasRun(runs, week)
  {
    InWeekMembers(cs, week);
    assert InWeek(cs, week)[0] in cs;
  }

  lemma ExtendGroups(runs: seq<seq<Candle>>, init: seq<Candle>, c: Candle)
    requires GroupsByWeek(runs, init) && InTimeOrder(init + [c])
    ensures GroupsByWeek(Extend(runs, c), init + [c])
  {
    var week := WeekStart(c.time);
    if runs != [] && WeekOf(Last(runs)) == week {
      GrowLastGroup(runs, init, c);
    } else {
      forall k | 0 <= k < |runs| ensures WeekOf(runs[k]) < week {
        LastComesLast(runs, init, c, k);
        LastComesLast(runs, init, c, |runs| - 1);
      }
      AddGroup(runs, init, c);
    }
  }

  /** The runs keep covering the weeks when they keep their weeks and the new candle's week is among them. */
  lemma CoversNext(runs: seq<seq<Candle>>, next: seq<seq<Candle>>, init: seq<Candle>, c: Candle)
    requires NonEmpty(runs) && NonEmpty(next) && |runs| <= |next|
    requires forall k :: 0 <= k < |runs| ==> WeekOf(next[k]) == WeekOf(runs[k])
    requires forall d :: d in init ==> HasRun(runs, WeekStart(d.time))
    requires HasRun(next, WeekStart(c.time))
    ensures forall d :: d in init + [c] ==> HasRun(next, WeekStart(d.time))
  {
    forall d | d in init ensures HasRun(next, WeekStart(d.time)) {
      var k :| 0 <= k < |runs| && WeekOf(runs[k]) == WeekStart(d.time);
      assert WeekOf(next[k]) == WeekStart(d.time);
    }
  }

  lemma GrowLastGroup(runs: seq<seq<Candle>>, init: seq<Candle>, c: Candle)
    requires GroupsByWeek(runs, init) && runs != [] && WeekOf(Last(runs)) == WeekStart(c.time)
    ensures GroupsByWeek(Init(runs) + [Last(runs) + [c]], init + [c])
  {
    var next := Init(runs) + [Last(runs) + [c]];
    forall k | 0 <= k < |next|
      ensures next[k] != [] && WeekOf(next[k]) == WeekOf(runs[k]) && next[k] == InWeek(init + [c], WeekOf(next[k]))
    {
      InWeekSnoc(init, c, WeekOf(runs[k]));
    }
    assert WeekOf(next[|runs| - 1]) == WeekStart(c.time);
    CoversNext(runs, next, init, c);
  }

  lemma AddGroup(runs: seq<seq<Candle>>, init: seq<Candle>, c: Candle)
    requires GroupsByWeek(runs, init)
    requires forall k :: 0 <= k < |runs| ==> WeekOf(runs[k]) < WeekStart(c.time)
    ensures GroupsByWeek(runs + [[c]], init + [c])
  {
    var next, week := runs + [[c]], WeekStart(c.time);
    NewWeekIsEmpty(runs, init, week);
    forall k | 0 <= k < |next| ensures next[k] == InWeek(init + [c], WeekOf(next[k])) {
      InWeekSnoc(init, c, WeekOf(next[k]));
    }
    assert WeekOf(next[|runs|]) == week;
    CoversNext(runs, next, init, c);
  }

  lemma NewWeekIsEmpty(runs: seq<seq<Candle>>, cs: seq<Candle>, week: int)
    requires GroupsByWeek(runs, cs)
    requires forall k :: 0 <= k < |runs| ==> WeekOf(runs[k]) < week
    ensures InWeek(cs, week) == []
  {
    if InWeek(cs, week) != [] {
      GroupHasRun(runs, cs, week);
    }
  }

  ghost predicate SummarizesItsWeek(w: Candle, cs: seq<Candle>) {
    var group := InWeek(cs, w.time);
    && w.time % 604800 == 0
    && group != [] && w == Summary(w.time, group)
  }

  lemma SummaryOfRun(runs: seq<seq<Candle>>, cs: seq<Candle>, k: nat)
    requires GroupsByWeek(runs, cs) && k < |runs|
    ensures Summaries(runs)[k].time == WeekOf(runs[k]) && SummarizesItsWeek(Summaries(runs)[k], cs)
  {
  }

  lemma WeeklySummarizes(cs: seq<Candle>)
    requires InTimeOrder(cs)
    ensures var weekly := Summaries(Runs(cs));
            && (forall k :: 0 <= k < |weekly| ==> SummarizesItsWeek(weekly[k], cs))
            && (forall j, k :: 0 <= j < k < |weekly| ==> weekly[j].time < weekly[k].time)
            && (forall c :: c in cs ==> exists k :: 0 <= k < |weekly| && weekly[k].time == WeekStart(c.time))
  {
    RunsGroupByWeek(cs);
    var runs: seq<seq<Candle>> := Runs(cs);
    var weekly := Summaries(runs);
    forall k | 0 <= k < |weekly| ensures weekly[k].time == WeekOf(runs[k]) && SummarizesItsWeek(weekly[k], cs) {
      SummaryOfRun(runs, cs, k);
    }
    forall c | c in cs ensures exists k :: 0 <= k < |weekly| && weekly[k].time == WeekStart(c.time) {
      WeekHasSummary(runs, WeekStart(c.time));
    }
  }

  /** The candle falls into the seven days from `week` on. */
  ghost predicate InWindow(c: Candle, week: int) {
    week <= c.time < week + 604800
  }

  ghost function WindowVolume(cs: seq<Candle>, week: int): real {
    if cs == [] then 0.0 else WindowVolume(Init(cs), week) + if InWindow(Last(cs), week) then Last(cs).volume else 0.0
  }

  /** Field by field: a week on the grid that holds candles; the open of its first candle and the close of its last, the
      highest high and the lowest low among them, and their volumes added up. */
  ghost predicate HoldsItsWeek(w: Candle, cs: seq<Candle>) {
    && w.time % 604800 == 0
    && (exists f :: 0 <= f < |cs| && InWindow(cs[f], w.time) && w.open == cs[f].open
                    && forall i :: 0 <= i < f ==> !InWindow(cs[i], w.time))
    && (exists l :: 0 <= l < |cs| && InWindow(cs[l], w.time) && w.close == cs[l].close
                    && forall i :: l < i < |cs| ==> !InWindow(cs[i], w.time))
    && (forall i :: 0 <= i < |cs| && InWindow(cs[i], w.time) ==> w.low <= cs[i].low && cs[i].high <= w.high)
    && (exists i :: 0 <= i < |cs| && InWindow(cs[i], w.time) && cs[i].high == w.high)
    && (exists i :: 0 <= i < |cs| && InWindow(cs[i], w.time) && cs[i].low == w.low)
    && w.volume == WindowVolume(cs, w.time)
  }

  lemma WindowIsWeek(c: Candle, week: int)
    requires week % WEEK_IN_SECONDS == 0
    ensures InWindow(c, week) <==> WeekStart(c.time) == week
  {
  }

  lemma {:induction false} GroupEnds(cs: seq<Candle>, week: int) returns (f: nat, l: nat)
    requires week % WEEK_IN_SECONDS == 0 && InWeek(cs, week) != []
    ensures f < |cs| && InWindow(cs[f], week) && InWeek(cs, week)[0] == cs[f]
    ensures forall i :: 0 <= i < f ==> !InWindow(cs[i], week)
    ensures l < |cs| && InWindow(cs[l], week) && Last(InWeek(cs, week)) == cs[l]
    ensures forall i :: l < i < |cs| ==> !InWindow(cs[i], week)
  {
    var init, c := Init(cs), Last(cs);
    WindowIsWeek(c, week);
    f, l := |init|, |init|;
    if InWeek(init, week) != [] {
      var last;
      f, last := GroupEnds(init, week);
      if !InWindow(c, week) {
        l := last;
      }
    } else {
      InWeekMembers(init, week);
      forall i | 0 <= i < |init| ensures !InWindow(cs[i], week) {
        assert cs[i] in init;
        WindowIsWeek(cs[i], week);
      }
    }
  }

  lemma {:induction false} GroupVolume(cs: seq<Candle>, week: int)
    requires week % WEEK_IN_SECONDS == 0
    ensures TotalVolume(InWeek(cs, week)) == WindowVolume(cs, week)
  {
    if cs != [] {
      GroupVolume(Init(cs), week);
      WindowIsWeek(Last(cs), week);
      var before := InWeek(Init(cs), week);
      assert Init(before + [Last(cs)]) == before && before + [] == before;
    }
  }

  lemma GroupExtremes(cs: seq<Candle>, week: int)
    requires week % WEEK_IN_SECONDS == 0 && InWeek(cs, week) != []
    ensures forall i :: 0 <= i < |cs| && InWindow(cs[i], week) ==>
              MinLow(InWeek(cs, week)) <= cs[i].low && cs[i].high <= MaxHigh(InWeek(cs, week))
    ensures exists i :: 0 <= i < |cs| && InWindow(cs[i], week) && cs[i].high == MaxHigh(InWeek(cs, week))
    ensures exists i :: 0 <= i < |cs| && InWindow(cs[i], week) && cs[i].low == MinLow(InWeek(cs, week))
  {
    var group := InWeek(cs, week);
    ExtremesAreReached(group);
    InWeekMembers(cs, week);
    forall i | 0 <= i < |cs| && InWindow(cs[i], week)
      ensures MinLow(group) <= cs[i].low && cs[i].high <= MaxHigh(group)
    {
      WindowIsWeek(cs[i], week);
      assert cs[i] in group;
    }
    var h :| 0 <= h < |group| && group[h].high == MaxHigh(group);
    var l :| 0 <= l < |group| && group[l].low == MinLow(group);
    assert group[h] in cs && group[l] in cs;
    WindowIsWeek(group[h], week);
    WindowIsWeek(group[l], week);
  }

  lemma SummaryHoldsItsWeek(w: Candle, cs: seq<Candle>)
    requires SummarizesItsWeek(w, cs)
    ensures HoldsItsWeek(w, cs)
  {
    var f, l := GroupEnds(cs, w.time);
    GroupVolume(cs, w.time);
    GroupExtremes(cs, w.time);
  }

  /** The single pass refines group-by: for candles in time order there is one weekly candle per non-empty week, in
      strictly increasing order, and each holds its week field by field. */
  lemma WeeklyIsGroupBy(cs: seq<Candle>)
    requires InTimeOrder(cs)
    ensures var weekly := Summaries(Runs(cs));
            && (forall k :: 0 <= k < |weekly| ==> HoldsItsWeek(weekly[k], cs))
            && (forall j, k :: 0 <= j < k < |weekly| ==> weekly[j].time < weekly[k].time)
            && (forall c :: c in cs ==> exists k :: 0 <= k < |weekly| && InWindow(c, weekly[k].time))
  {
    var weekly := Summaries(Runs(cs));
    WeeklySummarizes(cs);
    forall k | 0 <= k < |weekly| ensures HoldsItsWeek(weekly[k], cs) {
      SummaryHoldsItsWeek(weekly[k], cs);
    }
    forall c | c in cs ensures exists k :: 0 <= k < |weekly| && InWindow(c, weekly[k].time) {
      var k :| 0 <= k < |weekly| && weekly[k].time == WeekStart(c.time);
      WindowIsWeek(c, weekly[k].time);
    }
  }

  lemma WeekHasSummary(runs: seq<seq<Candle>>, week: int)
    requires NonEmpty(runs) && HasRun(runs, week)
    ensures exists k :: 0 <= k < |runs| && Summaries(runs)[k].time == week
  {
    var k :| 0 <= k < |runs| && WeekOf(runs[k]) == week;
    assert Summaries(runs)[k].time == week;
  }

  // ----- What aggregation keeps, in any order of times -----

  function Flatten(runs: seq<seq<Candle>>): seq<Candle> {
    if runs == [] then [] else Flatten(Init(runs)) + Last(runs)
  }

  lemma FlattenNext(runs: seq<seq<Candle>>, run: seq<Candle>)
    ensures Flatten(runs + [run]) == Flatten(runs) + run
  {
    assert Init(runs + [run]) == runs;
  }

  lemma FlattenLonger(runs: seq<seq<Candle>>, c: Candle)
    requires runs != []
    ensures Flatten(Init(runs) + [Last(runs) + [c]]) == Flatten(runs) + [c]
  {
    FlattenNext(Init(runs), Last(runs) + [c]);
  }

  /** No candle is lost, repeated or moved: the runs put end to end are the input. */
  lemma {:induction false} RunsLoseNothing(cs: seq<Candle>)
    ensures Flatten(Runs(cs)) == cs
  {
    if cs != [] {
      var runs: seq<seq<Candle>> := Runs(Init(cs));
      RunsLoseNothing(Init(cs));
      if runs != [] {
        FlattenLonger(runs, Last(cs));
      }
      FlattenNext(runs, [Last(cs)]);
      assert Init(cs) + [Last(cs)] == cs;
    }
  }

  lemma VolumeAppend(a: seq<Candle>, b: seq<Candle>)
    ensures TotalVolume(a + b) == TotalVolume(a) + TotalVolume(b)
  {
    if b == [] {
      assert a + b == a;
    } else {
      VolumeAppend(a, Init(b));
      assert Init(a + b) == a + Init(b) && Last(a + b) == Last(b);
    }
  }

  lemma {:induction false} SummariesKeepVolume(runs: seq<seq<Candle>>)
    requires NonEmpty(runs)
    ensures TotalVolume(Summaries(runs)) == TotalVolume(Flatten(runs))
  {
    if runs != [] {
      SummariesKeepVolume(Init(runs));
      assert Init(Summaries(runs)) == Summaries(Init(runs));
      VolumeAppend(Flatten(Init(runs)), Last(runs));
    }
  }

  /** Weekly aggregation conserves the total volume of the candles it is given, whatever their times. */
  lemma WeeklyKeepsVolume(cs: seq<Candle>)
    ensures TotalVolume(Summaries(Runs(cs))) == TotalVolume(cs)
  {
    SummariesKeepVolume(Runs(cs));
    RunsLoseNothing(cs);
  }

  lemma FlattenMembers(runs: seq<seq<Candle>>, k: nat)
    requires k < |runs|
    ensures forall c :: c in runs[k] ==> c in Flatten(runs)
  {
    if k < |runs| - 1 {
      FlattenMembers(Init(runs), k);
    }
  }

  ghost predicate WellFormed(c: Candle) {
    c.low <= c.open <= c.high && c.low <= c.close <= c.high
  }

  /** Every weekly candle's high and low are those of surviving daily candles, and it is well formed if they are. */
  lemma WeeklyStaysWellFormed(cs: seq<Candle>, k: nat)
    requires k < |Summaries(Runs(cs))|
    ensures var w := Summaries(Runs(cs))[k];
            && (exists c :: c in cs && c.high == w.high) && (exists c :: c in cs && c.low == w.low)
            && ((forall c :: c in cs ==> WellFormed(c)) ==> WellFormed(w))
  {
    var run := Runs(cs)[k];
    RunsLoseNothing(cs);
    FlattenMembers(Runs(cs), k);
    ExtremesAreReached(run);
    var i :| 0 <= i < |run| && run[i].high == MaxHigh(run);
    var j :| 0 <= j < |run| && run[j].low == MinLow(run);
    assert run[i] in cs && run[j] in cs && run[0] in cs && Last(run) in cs;
  }

  /** With positive closes and lows, no weekly candle strays an order of magnitude from the median close. */
  lemma WeeklyStaysNearMedian(daily: seq<Candle>, k: nat)
    requires forall c :: c in daily ==> c.close > 0.0 && c.low > 0.0
    requires k < |Summaries(Runs(Surviving(daily)))|
    ensures var w, m := Summaries(Runs(Surviving(daily)))[k], Median(Active(daily));
            m > 0.0 && w.high < 10.0 * m && w.low > m / 10.0
  {
    var active, cs := Active(daily), Surviving(daily);
    var m := Median(active);
    MedianIsAClose(active);
    WeeklyStaysWellFormed(cs, k);
    TypicalAreKept(active, m);
    ActiveAreInput(daily);
    forall c | c in cs ensures c.high < 10.0 * m && c.low > m / 10.0 {
      KeptMeans(c, m);
    }
  }

  lemma {:induction false} ActiveSnoc(cs: seq<Candle>, c: Candle)
    ensures Active(cs + [c]) == Active(cs) + if c.volume > 0.0 then [c] else []
  {
    if cs == [] {
      assert [] + [c] == [c] && [c][1..] == [];
    } else {
      assert (cs + [c])[1..] == cs[1..] + [c];
      ActiveSnoc(cs[1..], c);
    }
  }

  lemma {:induction false} TypicalSnoc(cs: seq<Candle>, c: Candle, median: real)
    ensures KeepTypical(cs + [c], median) == KeepTypical(cs, median) + if Kept(c, median) then [c] else []
  {
    if cs == [] {
      assert [] + [c] == [c] && [c][1..] == [];
    } else {
      assert (cs + [c])[1..] == cs[1..] + [c];
      TypicalSnoc(cs[1..], c, median);
    }
  }

  ghost predicate ActiveAt(kept: seq<Candle>, cs: seq<Candle>, at: seq<nat>) {
    Picks(kept, cs, at) && forall i :: 0 <= i < |cs| ==> (i in at <==> cs[i].volume > 0.0)
  }

  lemma ActiveAtNext(kept: seq<Candle>, init: seq<Candle>, at: seq<nat>, c: Candle)
    requires ActiveAt(kept, init, at)
    ensures if c.volume > 0.0 then ActiveAt(kept + [c], init + [c], at + [|init|]) else ActiveAt(kept, init + [c], at)
  {
    PicksNext(kept, init, at, c);
  }

  lemma {:induction false} ActivePicks(cs: seq<Candle>) returns (at: seq<nat>)
    ensures ActiveAt(Active(cs), cs, at)
  {
    at := [];
    if cs != [] {
      var init, c := Init(cs), Last(cs);
      at := ActivePicks(init);
      assert init + [c] == cs;
      ActiveAtNext(Active(init), init, at, c);
      ActiveSnoc(init, c);
      assert Active(init) + [] == Active(init);
      at := if c.volume > 0.0 then at + [|init|] else at;
    }
  }

  ghost predicate TypicalAt(kept: seq<Candle>, cs: seq<Candle>, at: seq<nat>, median: real) {
    Picks(kept, cs, at) && forall i :: 0 <= i < |cs| ==> (i in at <==> Kept(cs[i], median))
  }

  lemma TypicalAtNext(kept: seq<Candle>, init: seq<Candle>, at: seq<nat>, c: Candle, median: real)
    requires TypicalAt(kept, init, at, median)
    ensures if Kept(c, median) then TypicalAt(kept + [c], init + [c], at + [|init|], median)
            else TypicalAt(kept, init + [c], at, median)
  {
    PicksNext(kept, init, at, c);
  }

  lemma {:induction false} TypicalPicks(cs: seq<Candle>, median: real) returns (at: seq<nat>)
    ensures TypicalAt(KeepTypical(cs, median), cs, at, median)
  {
    at := [];
    if cs != [] {
      var init, c := Init(cs), Last(cs);
      at := TypicalPicks(init, median);
      assert init + [c] == cs;
      TypicalAtNext(KeepTypical(init, median), init, at, c, median);
      TypicalSnoc(init, c, median);
      assert KeepTypical(init, median) + [] == KeepTypical(init, median);
      at := if Kept(c, median) then at + [|init|] else at;
    }
  }

  /** The survivors are the candles with a volume that pass the outlier test against the median of all those, each
      once and in order. */
  lemma SurvivorsArePicked(daily: seq<Candle>) returns (at: seq<nat>)
    ensures Picks(Surviving(daily), daily, at)
    ensures forall i :: 0 <= i < |daily| ==>
              (i in at <==> daily[i].volume > 0.0 && Active(daily) != [] && Kept(daily[i], Median(Active(daily))))
  {
    var active := Active(daily);
    var inDaily := ActivePicks(daily);
    if active == [] {
      at := [];
      assert forall i :: 0 <= i < |daily| ==> i !in inDaily;
    } else {
      var inActive := TypicalPicks(active, Median(active));
      at := PicksCompose(Surviving(daily), active, daily, inActive, inDaily);
      forall i | 0 <= i < |daily|
        ensures i in at <==> daily[i].volume > 0.0 && Kept(daily[i], Median(active))
      {
        PickedTwice(active, daily, inActive, inDaily, at, Median(active), i);
      }
    }
  }

  lemma PickedTwice(active: seq<Candle>, daily: seq<Candle>, inActive: seq<nat>, inDaily: seq<nat>, at: seq<nat>,
                    median: real, i: nat)
    requires i < |daily| && Picks(active, daily, inDaily)
    requires forall k :: 0 <= k < |daily| ==> (k in inDaily <==> daily[k].volume > 0.0)
    requires forall k :: 0 <= k < |active| ==> (k in inActive <==> Kept(active[k], median))
    requires forall k :: k in at <==> exists j :: j in inActive && j < |inDaily| && inDaily[j] == k
    ensures i in at <==> daily[i].volume > 0.0 && Kept(daily[i], median)
  {
    if i in at {
      var j :| j in inActive && j < |inDaily| && inDaily[j] == i;
      assert i in inDaily && active[j] == daily[i];
    }
    if daily[i].volume > 0.0 && Kept(daily[i], median) {
      var j :| 0 <= j < |inDaily| && inDaily[j] == i;
      assert active[j] == daily[i] && j in inActive;
    }
  }

  lemma ActiveAreInput(cs: seq<Candle>)
    ensures forall c :: c in Active(cs) <==> c in cs && c.volume > 0.0
  {
  }

  lemma TypicalAreKept(cs: seq<Candle>, median: real)
    ensures forall c :: c in KeepTypical(cs, median) <==> c in cs && Kept(c, median)
  {
  }

  lemma MedianIsAClose(cs: seq<Candle>)
    requires cs != []
    ensures exists i :: 0 <= i < |cs| && Median(cs) == cs[i].close
  {
    var sorted := SortAscending(Closes(cs));
    SortSorts(Closes(cs));
    assert sorted[|cs| / 2] in multiset(sorted);
    assert Median(cs) in multiset(Closes(cs));
    assert Median(cs) in Closes(cs);
    var i :| 0 <= i < |Closes(cs)| && Closes(cs)[i] == Median(cs);
    assert cs[i].close == Median(cs);
  }

  // ----- The request -----

  datatype Interval = Hourly | Daily | Weekly | Unsupported

  // A data point as the charts API returns it: without a time.
  datatype Point = Point(open: real, high: real, low: real, close: real, volume: real)

  function PeriodSeconds(interval: Interval): int {
    if interval == Hourly then HOUR_IN_SECONDS else DAY_IN_SECONDS  // weekly candles are made of daily ones
  }

  /** Start of the requested range; 0 and undefined both mean the last 365 days. */
  function RequestFrom(to: int, interval: Interval, numIntervals: Option<nat>): int {
    if numIntervals.Some? && numIntervals.value != 0 then
      to - numIntervals.value * PeriodSeconds(interval) * (if interval == Weekly then 7 else 1)
    else to - 365 * 24 * 60 * 60
  }

  function Stamp(from: int, period: int, data: seq<Point>): seq<Candle> {
    seq(|data|, i requires 0 <= i < |data| =>
      Candle(from + i * period, data[i].open, data[i].high, data[i].low, data[i].close, data[i].volume))
  }

  /** Candles stamped at regular intervals: everything but the time is the data point's. */
  ghost predicate StampedFrom(cs: seq<Candle>, from: int, period: int, data: seq<Point>) {
    && |cs| == |data|
    && forall i :: 0 <= i < |cs| ==>
         && cs[i].time == from + i * period
         && cs[i].open == data[i].open && cs[i].high == data[i].high && cs[i].low == data[i].low
         && cs[i].close == data[i].close && cs[i].volume == data[i].volume
  }

  /** The series built from a successful answer at time `to`: hourly or daily points stamped from the start of the range
      on, which by default is a year ago; for weeks, daily points over seven days for each, aggregated. */
  method BuildSeries(interval: Interval, numIntervals: Option<nat>, to: int, data: seq<Point>)
    returns (series: Option<seq<Candle>>)
    ensures series.None? <==> interval == Unsupported || data == []
    ensures series.Some? ==>
              var period := if interval == Hourly then 3600 else 86400;
              var span := if interval == Weekly then 604800 else period;
              var from := if numIntervals.Some? && numIntervals.value > 0 then to - numIntervals.value * span
                          else to - 31536000;
              if interval != Weekly then StampedFrom(series.value, from, period, data)
              else
                exists daily ::
                  StampedFrom(daily, from, period, data) && series.value == Summaries(Runs(Surviving(daily)))
  {
    if interval == Unsupported || |data| == 0 {
      return None;
    }
    var candles := Stamp(RequestFrom(to, interval, numIntervals), PeriodSeconds(interval), data);
    if interval == Weekly {
      ghost var daily := candles;
      candles := AggregateDailyToWeekly(candles);
      assert StampedFrom(daily, RequestFrom(to, interval, numIntervals), DAY_IN_SECONDS, data);
    }
    return Some(candles);
  }

  lemma OrderCons(c: Candle, rest: seq<Candle>)
    requires InTimeOrder(rest) && forall d :: d in rest ==> c.time <= d.time
    ensures InTimeOrder([c] + rest)
  {
  }

  lemma {:induction false} ActiveKeepsOrder(cs: seq<Candle>)
    requires InTimeOrder(cs)
    ensures InTimeOrder(Active(cs))
  {
    if cs != [] {
      ActiveKeepsOrder(cs[1..]);
      ActiveAreInput(cs[1..]);
      OrderCons(cs[0], Active(cs[1..]));
    }
  }

  lemma {:induction false} TypicalKeepsOrder(cs: seq<Candle>, median: real)
    requires InTimeOrder(cs)
    ensures InTimeOrder(KeepTypical(cs, median))
  {
    if cs != [] {
      TypicalKeepsOrder(cs[1..], median);
      TypicalAreKept(cs[1..], median);
      OrderCons(cs[0], KeepTypical(cs[1..], median));
    }
  }

  lemma SurvivingKeepsOrder(daily: seq<Candle>)
    requires InTimeOrder(daily)
    ensures InTimeOrder(Surviving(daily))
    ensures forall c :: c in Surviving(daily) ==> c in daily
  {
    ActiveKeepsOrder(daily);
    ActiveAreInput(daily);
    if Active(daily) != [] {
      TypicalKeepsOrder(Active(daily), Median(Active(daily)));
      TypicalAreKept(Active(daily), Median(Active(daily)));
    }
  }

  /** Strictly increasing weeks between `first` and `last` are at most as many as the weeks there are. */
  lemma {:induction false} WeeksFit(weekly: seq<Candle>, first: int, last: int)
    requires forall k :: 0 <= k < |weekly| ==> weekly[k].time % WEEK_IN_SECONDS == 0 && first <= weekly[k].time <= last
    requires forall j, k :: 0 <= j < k < |weekly| ==> weekly[j].time < weekly[k].time
    requires first % WEEK_IN_SECONDS == 0
    ensures |weekly| > 0 ==> first + (|weekly| - 1) * WEEK_IN_SECONDS <= Last(weekly).time
  {
    if |weekly| > 1 {
      WeeksFit(Init(weekly), first, last);
      var a, b := weekly[|weekly| - 2].time, Last(weekly).time;
      assert b - a >= WEEK_IN_SECONDS;
    }
  }

  /** A weekly request for `n` intervals, answered with at most 7n daily points, gives at most n + 1 weekly candles
      wherever the request time falls in the week, and at most n when it falls on the grid. */
  lemma WeeklyRequestIsBounded(to: int, n: nat, data: seq<Point>)
    requires n > 0 && |data| <= 7 * n
    ensures var from := RequestFrom(to, Weekly, Some(n));
            var weekly := Summaries(Runs(Surviving(Stamp(from, DAY_IN_SECONDS, data))));
            |weekly| <= n + 1 && (to % WEEK_IN_SECONDS == 0 ==> |weekly| <= n)
  {
    var daily := Stamp(RequestFrom(to, Weekly, Some(n)), DAY_IN_SECONDS, data);
    var cs := Surviving(daily);
    StampedTimes(to, n, data);
    SurvivingKeepsOrder(daily);
    WeeklySpan(daily, cs, to - n * WEEK_IN_SECONDS, to - 1);
    if |Runs(cs)| > 0 {
      CountWeeks(to, n, |Runs(cs)|, Last(Summaries(Runs(cs))).time);
    }
  }

  lemma WeeklySpan(daily: seq<Candle>, cs: seq<Candle>, first: int, last: int)
    requires InTimeOrder(cs) && forall c :: c in cs ==> c in daily
    requires forall i :: 0 <= i < |daily| ==> first <= daily[i].time <= last
    ensures var weekly := Summaries(Runs(cs));
            |weekly| > 0 ==>
              WeekStart(first) + (|weekly| - 1) * WEEK_IN_SECONDS <= Last(weekly).time <= WeekStart(last)
  {
    var weekly := Summaries(Runs(cs));
    WeeklySummarizes(cs);
    forall k | 0 <= k < |weekly|
      ensures WeekStart(first) <= weekly[k].time <= WeekStart(last) && weekly[k].time % WEEK_IN_SECONDS == 0
    {
      assert SummarizesItsWeek(weekly[k], cs);
      GroupLiesInRange(daily, cs, weekly[k].time, first, last);
    }
    WeeksFit(weekly, WeekStart(first), WeekStart(last));
  }

  lemma CountWeeks(to: int, n: nat, count: nat, latest: int)
    requires var from := to - n * WEEK_IN_SECONDS;
             WeekStart(from) + (count - 1) * WEEK_IN_SECONDS <= latest <= WeekStart(to - 1)
    ensures count <= n + 1 && (to % WEEK_IN_SECONDS == 0 ==> count <= n)
  {
    var from := to - n * WEEK_IN_SECONDS;
    assert from / WEEK_IN_SECONDS == to / WEEK_IN_SECONDS - n;
  }

  lemma StampedTimes(to: int, n: nat, data: seq<Point>)
    requires n > 0 && |data| <= 7 * n
    ensures var from := RequestFrom(to, Weekly, Some(n));
            var daily := Stamp(from, DAY_IN_SECONDS, data);
            && from == to - n * WEEK_IN_SECONDS
            && InTimeOrder(daily)
            && forall i :: 0 <= i < |daily| ==> from <= daily[i].time <= to - 1
  {
  }

  lemma GroupLiesInRange(daily: seq<Candle>, cs: seq<Candle>, week: int, first: int, last: int)
    requires forall c :: c in cs ==> c in daily
    requires forall i :: 0 <= i < |daily| ==> first <= daily[i].time <= last
    requires InWeek(cs, week) != []
    ensures WeekStart(first) <= week <= WeekStart(last)
  {
    InWeekMembers(cs, week);
    var c := InWeek(cs, week)[0];
    assert c in daily;
    WeekStartMonotone(first, c.time);
    WeekStartMonotone(c.time, last);
  }
}
