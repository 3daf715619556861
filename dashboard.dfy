/**
 * The daily cost table of the dashboard: the Duration and Invocations datapoints of the
 * last two weeks are merged into one JavaScript Map keyed by calendar day, each day's cost
 * is derived from its summed duration, and the rows are sorted newest first.
 *
 * A Map key is `Timestamp.toISOString().split('T')[0]`, the UTC day of the timestamp; for a
 * millisecond timestamp that is `t / 86400000` rounded down, which DayKey computes (Dafny's
 * `/` rounds down for a positive divisor). The map's entries are plain objects that nothing
 * else refers to, so changing `entry.invocations` in place is modelled as replacing the
 * value at that key with one whose `invocations` differs.
 */
module Dashboard {
  import opened Wrappers
  import Sorting

  /** A `GetMetricStatistics` datapoint with the "Sum" statistic. */
  datatype MetricDatapoint = MetricDatapoint(timestamp: Option<int>, sum: Option<real>)

  /** A value of `dailyStatsMap`: `date` is the timestamp (ms) of the point that created or replaced it. */
  datatype DailyStat = DailyStat(date: int, sumMs: real, invocations: real)

  /** A row of the table: the stat with its cost. */
  datatype DailyCost = DailyCost(date: int, sumMs: real, invocations: real, costUSD: real)

  const MsPerDay := 86400000
  const CostPerGbSecond: real := 0.0000166667
  const MemorySizeGb: real := 2.0

  function DayKey(t: int): int {
    t / MsPerDay
  }

  /** `point.Sum || 0`. */
  function SumOrZero(p: MetricDatapoint): real {
    p.sum.GetOr(0.0)
  }

  /** `(sumMs / 1000) * costPerGBSecond * memorySizeGB`. */
  function Cost(sumMs: real): real {
    (sumMs / 1000.0) * CostPerGbSecond * MemorySizeGb
  }

  /** Every entry sits under the day of its own date. */
  ghost predicate WellKeyed(m: map<int, DailyStat>) {
    forall k :: k in m ==> DayKey(m[k].date) == k
  }

  ghost predicate Distinct(s: seq<int>) {
    forall i, j :: 0 <= i < j < |s| ==> s[i] != s[j]
  }

  // ---------------------------------------------------------------------------
  // The two passes as functions (left folds over the datapoints)

  /** Duration pass: a timestamped point replaces its day's entry, with no invocations. */
  function DurationStep(m: map<int, DailyStat>, p: MetricDatapoint): map<int, DailyStat> {
    if p.timestamp.Some? then
      m[DayKey(p.timestamp.value) := DailyStat(p.timestamp.value, SumOrZero(p), 0.0)]
    else m
  }

  /**
   * Invocations pass: a timestamped point sets the invocations of its day's entry, or creates
   * the entry with no duration.
   */
  function InvocationStep(m: map<int, DailyStat>, p: MetricDatapoint): map<int, DailyStat> {
    if p.timestamp.Some? then
      var k := DayKey(p.timestamp.value);
      if k in m then m[k := m[k].(invocations := SumOrZero(p))]
      else m[k := DailyStat(p.timestamp.value, 0.0, SumOrZero(p))]
    else m
  }

  function DurationFold(m: map<int, DailyStat>, ps: seq<MetricDatapoint>): map<int, DailyStat>
    decreases |ps|
  {
    if |ps| == 0 then m else DurationStep(DurationFold(m, ps[..|ps| - 1]), ps[|ps| - 1])
  }

  function InvocationFold(m: map<int, DailyStat>, ps: seq<MetricDatapoint>): map<int, DailyStat>
    decreases |ps|
  {
    if |ps| == 0 then m else InvocationStep(InvocationFold(m, ps[..|ps| - 1]), ps[|ps| - 1])
  }

  /** Map insertion order: a day is appended the first time a timestamped point names it. */
  function NewKeys(order: seq<int>, ps: seq<MetricDatapoint>): seq<int>
    decreases |ps|
  {
    if |ps| == 0 then order
    else
      var o := NewKeys(order, ps[..|ps| - 1]);
      var p := ps[|ps| - 1];
      if p.timestamp.Some? && DayKey(p.timestamp.value) !in o then o + [DayKey(p.timestamp.value)] else o
  }

  /** The merged map after both passes. */
  function Merged(durations: seq<MetricDatapoint>, invocations: seq<MetricDatapoint>): map<int, DailyStat> {
    InvocationFold(DurationFold(map[], durations), invocations)
  }

  /** Its keys in insertion order. */
  function MergedOrder(durations: seq<MetricDatapoint>, invocations: seq<MetricDatapoint>): seq<int> {
    NewKeys(NewKeys([], durations), invocations)
  }

  function WithCost(s: DailyStat): DailyCost {
    DailyCost(s.date, s.sumMs, s.invocations, Cost(s.sumMs))
  }

  /** `Array.from(map.values()).map(...)`: the values in insertion order, with their cost. */
  function Rows(order: seq<int>, m: map<int, DailyStat>): (rows: seq<DailyCost>)
    requires forall i :: 0 <= i < |order| ==> order[i] in m
    ensures |rows| == |order|
    ensures forall i :: 0 <= i < |order| ==> rows[i] == WithCost(m[order[i]])
  {
    if |order| == 0 then [] else [WithCost(m[order[0]])] + Rows(order[1..], m)
  }

  function RowDate(r: DailyCost): int {
    r.date
  }

  /** The days that a series' timestamped points fall on. */
  function DaysOf(ps: seq<MetricDatapoint>): set<int> {
    set i | 0 <= i < |ps| && ps[i].timestamp.Some? :: DayKey(ps[i].timestamp.value)
  }

  // ---------------------------------------------------------------------------
  // Facts about the folds

  lemma DaysOfSnoc(ps: seq<MetricDatapoint>)
    requires |ps| > 0
    ensures DaysOf(ps) == DaysOf(ps[..|ps| - 1]) +
      (if ps[|ps| - 1].timestamp.Some? then {DayKey(ps[|ps| - 1].timestamp.value)} else {})
  {
    var init := ps[..|ps| - 1];
    forall k | k in DaysOf(ps)
      ensures k in DaysOf(init) || (ps[|ps| - 1].timestamp.Some? && k == DayKey(ps[|ps| - 1].timestamp.value))
    {
      var i :| 0 <= i < |ps| && ps[i].timestamp.Some? && k == DayKey(ps[i].timestamp.value);
      if i < |ps| - 1 {
        assert init[i] == ps[i];
      }
    }
    forall k | k in DaysOf(init)
      ensures k in DaysOf(ps)
    {
      var i :| 0 <= i < |init| && init[i].timestamp.Some? && k == DayKey(init[i].timestamp.value);
      assert ps[i] == init[i];
    }
  }

  /** Insertion order lists each key once and exactly the keys of the map. */
  lemma {:induction false} NewKeysFacts(order: seq<int>, ps: seq<MetricDatapoint>)
    requires Distinct(order)
    ensures Distinct(NewKeys(order, ps))
    ensures forall k :: k in NewKeys(order, ps) <==> k in order || k in DaysOf(ps)
    decreases |ps|
  {
    if |ps| > 0 {
      NewKeysFacts(order, ps[..|ps| - 1]);
      DaysOfSnoc(ps);
    }
  }

  lemma {:induction false} DurationFoldFacts(m: map<int, DailyStat>, ps: seq<MetricDatapoint>)
    requires WellKeyed(m)
    ensures WellKeyed(DurationFold(m, ps))
    ensures forall k :: k in DurationFold(m, ps) <==> k in m || k in DaysOf(ps)
    decreases |ps|
  {
    if |ps| > 0 {
      DurationFoldFacts(m, ps[..|ps| - 1]);
      DaysOfSnoc(ps);
    }
  }

  lemma {:induction false} InvocationFoldFacts(m: map<int, DailyStat>, ps: seq<MetricDatapoint>)
    requires WellKeyed(m)
    ensures WellKeyed(InvocationFold(m, ps))
    ensures forall k :: k in InvocationFold(m, ps) <==> k in m || k in DaysOf(ps)
    decreases |ps|
  {
    if |ps| > 0 {
      InvocationFoldFacts(m, ps[..|ps| - 1]);
      DaysOfSnoc(ps);
    }
  }

  /** A point whose Timestamp is absent changes neither the map nor the order in either pass. */
  lemma UntimedPointIgnored(m: map<int, DailyStat>, order: seq<int>, ps: seq<MetricDatapoint>, p: MetricDatapoint)
    requires p.timestamp.None?
    ensures DurationFold(m, ps + [p]) == DurationFold(m, ps)
    ensures InvocationFold(m, ps + [p]) == InvocationFold(m, ps)
    ensures NewKeys(order, ps + [p]) == NewKeys(order, ps)
  {
    assert (ps + [p])[..|ps|] == ps;
  }

  /** The last timestamped point of `ps` on day `k`, if any. */
  function LastOnDay(ps: seq<MetricDatapoint>, k: int): (r: Option<MetricDatapoint>)
    ensures r.Some? ==> r.value.timestamp.Some? && DayKey(r.value.timestamp.value) == k
    decreases |ps|
  {
    if |ps| == 0 then None
    else
      var p := ps[|ps| - 1];
      if p.timestamp.Some? && DayKey(p.timestamp.value) == k then Some(p) else LastOnDay(ps[..|ps| - 1], k)
  }

  /** The first timestamped point of `ps` on day `k`, if any. */
  function FirstOnDay(ps: seq<MetricDatapoint>, k: int): (r: Option<MetricDatapoint>)
    ensures r.Some? ==> r.value.timestamp.Some? && DayKey(r.value.timestamp.value) == k
    decreases |ps|
  {
    if |ps| == 0 then None
    else
      var p := ps[0];
      if p.timestamp.Some? && DayKey(p.timestamp.value) == k then Some(p) else FirstOnDay(ps[1..], k)
  }

  lemma FirstOnDaySnoc(ps: seq<MetricDatapoint>, k: int)
    requires |ps| > 0 && FirstOnDay(ps[..|ps| - 1], k).Some?
    ensures FirstOnDay(ps, k) == FirstOnDay(ps[..|ps| - 1], k)
    decreases |ps|
  {
    if |ps| > 1 {
      var p := ps[0];
      if !(p.timestamp.Some? && DayKey(p.timestamp.value) == k) {
        assert ps[1..][..|ps[1..]| - 1] == ps[..|ps| - 1][1..];
        FirstOnDaySnoc(ps[1..], k);
      }
    }
  }

  lemma FirstOnDayLast(ps: seq<MetricDatapoint>, k: int)
    requires |ps| > 0 && FirstOnDay(ps[..|ps| - 1], k).None?
    requires ps[|ps| - 1].timestamp.Some? && DayKey(ps[|ps| - 1].timestamp.value) == k
    ensures FirstOnDay(ps, k) == Some(ps[|ps| - 1])
    decreases |ps|
  {
    if |ps| > 1 {
      assert ps[1..][..|ps[1..]| - 1] == ps[..|ps| - 1][1..];
      FirstOnDayLast(ps[1..], k);
    }
  }

  lemma LastOnDayDays(ps: seq<MetricDatapoint>, k: int)
    ensures LastOnDay(ps, k).Some? <==> k in DaysOf(ps)
    decreases |ps|
  {
    if |ps| > 0 {
      LastOnDayDays(ps[..|ps| - 1], k);
      DaysOfSnoc(ps);
    }
  }

  /** After the duration pass a day's entry comes wholly from the last duration point of that day. */
  lemma {:induction false} DurationFoldLookup(m: map<int, DailyStat>, ps: seq<MetricDatapoint>, k: int)
    ensures LastOnDay(ps, k).None? ==> (k in DurationFold(m, ps) <==> k in m)
    ensures LastOnDay(ps, k).None? && k in m ==> DurationFold(m, ps)[k] == m[k]
    ensures LastOnDay(ps, k).Some? ==>
      k in DurationFold(m, ps) &&
      DurationFold(m, ps)[k] == DailyStat(LastOnDay(ps, k).value.timestamp.value, SumOrZero(LastOnDay(ps, k).value), 0.0)
    decreases |ps|
  {
    if |ps| > 0 {
      DurationFoldLookup(m, ps[..|ps| - 1], k);
    }
  }

  /**
   * After the invocations pass: a day the pass does not name keeps its entry; an existing
   * entry gets the invocations of the day's last point and keeps its date and duration; a new
   * entry takes its date from the day's first point, its invocations from the last, and no
   * duration.
   */
  lemma {:induction false} InvocationFoldLookup(m: map<int, DailyStat>, ps: seq<MetricDatapoint>, k: int)
    ensures LastOnDay(ps, k).None? ==> (k in InvocationFold(m, ps) <==> k in m)
    ensures LastOnDay(ps, k).None? && k in m ==> InvocationFold(m, ps)[k] == m[k]
    ensures LastOnDay(ps, k).Some? && k in m ==>
      k in InvocationFold(m, ps) &&
      InvocationFold(m, ps)[k] == m[k].(invocations := SumOrZero(LastOnDay(ps, k).value))
    ensures LastOnDay(ps, k).Some? && k !in m ==>
      k in InvocationFold(m, ps) && FirstOnDay(ps, k).Some? &&
      InvocationFold(m, ps)[k] ==
        DailyStat(FirstOnDay(ps, k).value.timestamp.value, 0.0, SumOrZero(LastOnDay(ps, k).value))
    decreases |ps|
  {
    if |ps| > 0 {
      var init := ps[..|ps| - 1];
      var p := ps[|ps| - 1];
      InvocationFoldLookup(m, init, k);
      if p.timestamp.Some? && DayKey(p.timestamp.value) == k && k !in m {
        if LastOnDay(init, k).Some? {
          FirstOnDaySnoc(ps, k);
        } else {
          LastOnDayNone(init, k);
          FirstOnDayLast(ps, k);
        }
      } else if LastOnDay(init, k).Some? && k !in m {
        FirstOnDaySnoc(ps, k);
      }
    }
  }

  lemma DaysOfCons(ps: seq<MetricDatapoint>)
    requires |ps| > 0
    ensures DaysOf(ps) == DaysOf(ps[1..]) + (if ps[0].timestamp.Some? then {DayKey(ps[0].timestamp.value)} else {})
  {
    var tail := ps[1..];
    forall k | k in DaysOf(ps)
      ensures k in DaysOf(tail) || (ps[0].timestamp.Some? && k == DayKey(ps[0].timestamp.value))
    {
      var i :| 0 <= i < |ps| && ps[i].timestamp.Some? && k == DayKey(ps[i].timestamp.value);
      if i > 0 {
        assert tail[i - 1] == ps[i];
      }
    }
    forall k | k in DaysOf(tail)
      ensures k in DaysOf(ps)
    {
      var i :| 0 <= i < |tail| && tail[i].timestamp.Some? && k == DayKey(tail[i].timestamp.value);
      assert ps[i + 1] == tail[i];
    }
  }

  lemma {:induction false} FirstOnDayDays(ps: seq<MetricDatapoint>, k: int)
    ensures FirstOnDay(ps, k).Some? <==> k in DaysOf(ps)
    decreases |ps|
  {
    if |ps| > 0 {
      FirstOnDayDays(ps[1..], k);
      DaysOfCons(ps);
    }
  }

  lemma LastOnDayNone(ps: seq<MetricDatapoint>, k: int)
    requires LastOnDay(ps, k).None?
    ensures FirstOnDay(ps, k).None?
  {
    LastOnDayDays(ps, k);
    FirstOnDayDays(ps, k);
  }

  /**
   * A day's merged entry: a day only in the duration series has no invocations, a day only in
   * the invocations series has no duration, and a day in both has the duration (and date) of
   * its last duration point and the invocations of its last invocations point.
   */
  lemma MergedEntry(durations: seq<MetricDatapoint>, invocations: seq<MetricDatapoint>, k: int)
    ensures LastOnDay(durations, k).Some? <==> k in DaysOf(durations)
    ensures LastOnDay(invocations, k).Some? <==> k in DaysOf(invocations)
    ensures k in Merged(durations, invocations) <==> k in DaysOf(durations) || k in DaysOf(invocations)
    ensures k in DaysOf(durations) && k !in DaysOf(invocations) ==>
      Merged(durations, invocations)[k] ==
        DailyStat(LastOnDay(durations, k).value.timestamp.value, SumOrZero(LastOnDay(durations, k).value), 0.0)
    ensures k !in DaysOf(durations) && k in DaysOf(invocations) ==>
      Merged(durations, invocations)[k].sumMs == 0.0 &&
      Merged(durations, invocations)[k].invocations == SumOrZero(LastOnDay(invocations, k).value)
    ensures k in DaysOf(durations) && k in DaysOf(invocations) ==>
      Merged(durations, invocations)[k] ==
        DailyStat(LastOnDay(durations, k).value.timestamp.value,
                  SumOrZero(LastOnDay(durations, k).value),
                  SumOrZero(LastOnDay(invocations, k).value))
  {
    var m := DurationFold(map[], durations);
    LastOnDayDays(durations, k);
    LastOnDayDays(invocations, k);
    DurationFoldLookup(map[], durations, k);
    InvocationFoldLookup(m, invocations, k);
  }

  // ---------------------------------------------------------------------------
  // The table

  /** The rows the dashboard shows, as a function of the two series. */
  function DailyRows(durations: seq<MetricDatapoint>, invocations: seq<MetricDatapoint>): seq<DailyCost> {
    var m := Merged(durations, invocations);
    var order := MergedOrder(durations, invocations);
    MergedOrderFacts(durations, invocations);
    Sorting.SortDesc(Rows(order, m), RowDate)
  }

  lemma MergedOrderFacts(durations: seq<MetricDatapoint>, invocations: seq<MetricDatapoint>)
    ensures Distinct(MergedOrder(durations, invocations))
    ensures WellKeyed(Merged(durations, invocations))
    ensures forall k :: k in MergedOrder(durations, invocations) <==> k in Merged(durations, invocations)
    ensures forall i :: 0 <= i < |MergedOrder(durations, invocations)| ==>
      MergedOrder(durations, invocations)[i] in Merged(durations, invocations)
  {
    NewKeysFacts([], durations);
    NewKeysFacts(NewKeys([], durations), invocations);
    DurationFoldFacts(map[], durations);
    InvocationFoldFacts(DurationFold(map[], durations), invocations);
  }

  /** In a sequence whose elements have pairwise different days, an element occurs once. */
  lemma OccursOnce(s: seq<DailyCost>, j: nat)
    requires j < |s|
    requires forall a, b :: 0 <= a < b < |s| ==> DayKey(s[a].date) != DayKey(s[b].date)
    ensures multiset(s)[s[j]] == 1
  {
    var x := s[j];
    assert s == s[..j] + [x] + s[j + 1..];
    forall a | 0 <= a < j
      ensures s[..j][a] != x
    {
      assert DayKey(s[a].date) != DayKey(s[j].date);
    }
    var tail := s[j + 1..];
    forall b | 0 <= b < |tail|
      ensures tail[b] != x
    {
      assert tail[b] == s[j + 1 + b];
      assert DayKey(s[j].date) != DayKey(s[j + 1 + b].date);
    }
    assert multiset(s[..j])[x] == 0;
    assert multiset(s[j + 1..])[x] == 0;
  }

  /** Two equal entries at different places make a multiplicity of at least two. */
  lemma TwiceInMultiset(t: seq<DailyCost>, a: nat, b: nat)
    requires a < b < |t|
    ensures t[a] == t[b] ==> multiset(t)[t[b]] >= 2
  {
    assert t == t[..b] + [t[b]] + t[b + 1..];
    assert t[..b][a] == t[a];
    assert multiset(t) == multiset(t[..b]) + multiset{t[b]} + multiset(t[b + 1..]);
  }

  /** Pairwise different days survive a permutation. */
  lemma DistinctDaysPermutation(s: seq<DailyCost>, t: seq<DailyCost>)
    requires multiset(s) == multiset(t)
    requires forall a, b :: 0 <= a < b < |s| ==> DayKey(s[a].date) != DayKey(s[b].date)
    ensures forall a, b :: 0 <= a < b < |t| ==> DayKey(t[a].date) != DayKey(t[b].date)
  {
    forall a, b | 0 <= a < b < |t|
      ensures DayKey(t[a].date) != DayKey(t[b].date)
    {
      assert t[a] in multiset(s) && t[b] in multiset(s);
      var i :| 0 <= i < |s| && s[i] == t[a];
      var j :| 0 <= j < |s| && s[j] == t[b];
      OccursOnce(s, j);
      TwiceInMultiset(t, a, b);
      assert t[a] != t[b];
      if i < j {
        assert DayKey(s[i].date) != DayKey(s[j].date);
      } else {
        assert DayKey(s[j].date) != DayKey(s[i].date);
      }
    }
  }

  /**
   * One row per day: the rows' days are exactly the days either series names, no two rows
   * share a day, rows are ordered by date, newest first, and every row is the merged stat of
   * its day with the cost of its own duration.
   */
  lemma DailyRowsFacts(durations: seq<MetricDatapoint>, invocations: seq<MetricDatapoint>)
    ensures var rows := DailyRows(durations, invocations);
      (forall k :: (exists j :: 0 <= j < |rows| && DayKey(rows[j].date) == k) <==>
                   k in DaysOf(durations) || k in DaysOf(invocations))
      && (forall a, b :: 0 <= a < b < |rows| ==> DayKey(rows[a].date) != DayKey(rows[b].date))
      && (forall a, b :: 0 <= a < b < |rows| ==> rows[a].date >= rows[b].date)
      && (forall j :: 0 <= j < |rows| ==> rows[j].costUSD == Cost(rows[j].sumMs))
      && (forall j :: 0 <= j < |rows| ==>
            var m := Merged(durations, invocations);
            DayKey(rows[j].date) in m && rows[j] == WithCost(m[DayKey(rows[j].date)]))
  {
    DailyRowsDays(durations, invocations);
    DailyRowsNewestFirst(durations, invocations);
    DailyRowsValues(durations, invocations);
  }

  /** The unsorted rows: one per merged day, in insertion order, each with its own cost. */
  lemma DailyRowsUnsorted(durations: seq<MetricDatapoint>, invocations: seq<MetricDatapoint>)
    ensures var m, order := Merged(durations, invocations), MergedOrder(durations, invocations);
      (forall i :: 0 <= i < |order| ==> order[i] in m)
      && var unsorted := Rows(order, m);
      |unsorted| == |order| && Distinct(order)
      && multiset(unsorted) == multiset(DailyRows(durations, invocations))
      && (forall j :: 0 <= j < |order| ==> DayKey(unsorted[j].date) == order[j])
      && (forall j :: 0 <= j < |order| ==> unsorted[j].costUSD == Cost(unsorted[j].sumMs))
      && (forall k :: k in order <==> k in DaysOf(durations) || k in DaysOf(invocations))
  {
    var m := Merged(durations, invocations);
    var order := MergedOrder(durations, invocations);
    MergedOrderFacts(durations, invocations);
    MergedDays(durations, invocations);
    KeyedRows(order, m);
    Sorting.SortDescFacts(Rows(order, m), RowDate);
  }

  /** The rows' days are the days either series names, each on one row only. */
  lemma DailyRowsDays(durations: seq<MetricDatapoint>, invocations: seq<MetricDatapoint>)
    ensures var rows := DailyRows(durations, invocations);
      (forall k :: (exists j :: 0 <= j < |rows| && DayKey(rows[j].date) == k) <==>
                   k in DaysOf(durations) || k in DaysOf(invocations))
      && (forall a, b :: 0 <= a < b < |rows| ==> DayKey(rows[a].date) != DayKey(rows[b].date))
      && (forall j :: 0 <= j < |rows| ==> rows[j].costUSD == Cost(rows[j].sumMs))
  {
    DailyRowsUnsorted(durations, invocations);
    var order := MergedOrder(durations, invocations);
    PermutedRows(Rows(order, Merged(durations, invocations)), DailyRows(durations, invocations), order);
  }

  /** The rows are ordered by date, newest first. */
  lemma DailyRowsNewestFirst(durations: seq<MetricDatapoint>, invocations: seq<MetricDatapoint>)
    ensures var rows := DailyRows(durations, invocations);
      forall a, b :: 0 <= a < b < |rows| ==> rows[a].date >= rows[b].date
  {
    MergedOrderFacts(durations, invocations);
    var unsorted := Rows(MergedOrder(durations, invocations), Merged(durations, invocations));
    Sorting.SortDescFacts(unsorted, RowDate);
    var rows := DailyRows(durations, invocations);
    assert rows == Sorting.SortDesc(unsorted, RowDate);
    forall a, b | 0 <= a < b < |rows|
      ensures rows[a].date >= rows[b].date
    {
      assert RowDate(rows[a]) >= RowDate(rows[b]);
    }
  }

  /** Every row is the merged stat of its own day, with its cost. */
  lemma DailyRowsValues(durations: seq<MetricDatapoint>, invocations: seq<MetricDatapoint>)
    ensures var rows, m := DailyRows(durations, invocations), Merged(durations, invocations);
      forall j :: 0 <= j < |rows| ==> DayKey(rows[j].date) in m && rows[j] == WithCost(m[DayKey(rows[j].date)])
  {
    DailyRowsUnsorted(durations, invocations);
    var rows, m := DailyRows(durations, invocations), Merged(durations, invocations);
    var order := MergedOrder(durations, invocations);
    var unsorted := Rows(order, m);
    forall j | 0 <= j < |rows|
      ensures DayKey(rows[j].date) in m && rows[j] == WithCost(m[DayKey(rows[j].date)])
    {
      assert rows[j] in multiset(unsorted);
      var i :| 0 <= i < |unsorted| && unsorted[i] == rows[j];
      assert unsorted[i] == WithCost(m[order[i]]) && DayKey(unsorted[i].date) == order[i];
    }
  }

  /** The merged map has a key for each day either series names, and no other. */
  lemma MergedDays(durations: seq<MetricDatapoint>, invocations: seq<MetricDatapoint>)
    ensures forall k :: k in Merged(durations, invocations) <==> k in DaysOf(durations) || k in DaysOf(invocations)
  {
    DurationFoldFacts(map[], durations);
    InvocationFoldFacts(DurationFold(map[], durations), invocations);
  }

  /** The rows of a well-keyed map, in the order of its keys, fall on those keys' days. */
  lemma KeyedRows(order: seq<int>, m: map<int, DailyStat>)
    requires forall i :: 0 <= i < |order| ==> order[i] in m
    requires WellKeyed(m)
    ensures forall j :: 0 <= j < |order| ==> DayKey(Rows(order, m)[j].date) == order[j]
    ensures forall j :: 0 <= j < |order| ==> Rows(order, m)[j].costUSD == Cost(Rows(order, m)[j].sumMs)
  {
  }

  /** A permutation of rows keyed by distinct days keeps their days and their costs. */
  lemma PermutedRows(unsorted: seq<DailyCost>, rows: seq<DailyCost>, order: seq<int>)
    requires multiset(unsorted) == multiset(rows) && |unsorted| == |order| && Distinct(order)
    requires forall j :: 0 <= j < |order| ==> DayKey(unsorted[j].date) == order[j]
    requires forall j :: 0 <= j < |order| ==> unsorted[j].costUSD == Cost(unsorted[j].sumMs)
    ensures forall k :: (exists j :: 0 <= j < |rows| && DayKey(rows[j].date) == k) <==> k in order
    ensures forall a, b :: 0 <= a < b < |rows| ==> DayKey(rows[a].date) != DayKey(rows[b].date)
    ensures forall j :: 0 <= j < |rows| ==> rows[j].costUSD == Cost(rows[j].sumMs)
  {
    DistinctDaysPermutation(unsorted, rows);
    forall k
      ensures (exists j :: 0 <= j < |rows| && DayKey(rows[j].date) == k) <==> k in order
    {
      if exists j :: 0 <= j < |rows| && DayKey(rows[j].date) == k {
        var j :| 0 <= j < |rows| && DayKey(rows[j].date) == k;
        assert rows[j] in multiset(unsorted);
        var i :| 0 <= i < |unsorted| && unsorted[i] == rows[j];
        assert order[i] == k;
      }
      if k in order {
        var i :| 0 <= i < |order| && order[i] == k;
        assert unsorted[i] in multiset(rows);
        var j :| 0 <= j < |rows| && rows[j] == unsorted[i];
        assert DayKey(rows[j].date) == k;
      }
    }
    forall j | 0 <= j < |rows|
      ensures rows[j].costUSD == Cost(rows[j].sumMs)
    {
      assert rows[j] in multiset(unsorted);
    }
  }

  /** No duration costs nothing, and more duration never costs less. */
  lemma CostFacts(a: real, b: real)
    ensures Cost(a) == 0.0 <==> a == 0.0
    ensures a <= b ==> Cost(a) <= Cost(b)
  {
  }

  // ---------------------------------------------------------------------------
  // The imperative code

  /** `dailyStatsMap`: a Map from day to stat, with its insertion order. */
  class DailyStatsMap {
    var entries: map<int, DailyStat>
    var order: seq<int>

    ghost predicate Valid()
      reads this
    {
      (forall k :: k in entries <==> k in order) && Distinct(order) && WellKeyed(entries)
      && (forall i :: 0 <= i < |order| ==> order[i] in entries)
    }

    constructor ()
      ensures Valid() && entries == map[] && order == []
    {
      entries, order := map[], [];
    }

    /** `map.set(key, stat)`: a new key goes to the end of the order; an existing one keeps its place. */
    method Set(key: int, stat: DailyStat)
      requires Valid() && DayKey(stat.date) == key
      modifies this
      ensures Valid()
      ensures entries == old(entries)[key := stat]
      ensures order == if key in old(order) then old(order) else old(order) + [key]
    {
      if key !in entries {
        order := order + [key];
      }
      entries := entries[key := stat];
    }

    /** `entry.invocations = value` on the entry at `key`: nothing else changes. */
    method SetInvocations(key: int, value: real)
      requires Valid() && key in entries
      modifies this
      ensures Valid() && order == old(order)
      ensures entries == old(entries)[key := old(entries)[key].(invocations := value)]
    {
      entries := entries[key := entries[key].(invocations := value)];
    }

    /** The first `forEach`, over the Duration datapoints. */
    method AddDurations(points: seq<MetricDatapoint>)
      requires Valid()
      modifies this
      ensures Valid()
      ensures entries == DurationFold(old(entries), points)
      ensures order == NewKeys(old(order), points)
    {
      var j := 0;
      while j < |points|
        invariant 0 <= j <= |points| && Valid()
        invariant entries == DurationFold(old(entries), points[..j])
        invariant order == NewKeys(old(order), points[..j])
      {
        var p := points[j];
        if p.timestamp.Some? {
          Set(DayKey(p.timestamp.value), DailyStat(p.timestamp.value, SumOrZero(p), 0.0));
        }
        assert points[..j + 1][..j] == points[..j];
        j := j + 1;
      }
      assert points[..j] == points;
    }

    /** The second `forEach`, over the Invocations datapoints. */
    method AddInvocations(points: seq<MetricDatapoint>)
      requires Valid()
      modifies this
      ensures Valid()
      ensures entries == InvocationFold(old(entries), points)
      ensures order == NewKeys(old(order), points)
    {
      var j := 0;
      while j < |points|
        invariant 0 <= j <= |points| && Valid()
        invariant entries == InvocationFold(old(entries), points[..j])
        invariant order == NewKeys(old(order), points[..j])
      {
        var p := points[j];
        if p.timestamp.Some? {
          var key := DayKey(p.timestamp.value);
          if key in entries {
            SetInvocations(key, SumOrZero(p));
          } else {
            Set(key, DailyStat(p.timestamp.value, 0.0, SumOrZero(p)));
          }
        }
        assert points[..j + 1][..j] == points[..j];
        j := j + 1;
      }
      assert points[..j] == points;
    }

    /** `Array.from(map.values()).map(stat => ({...stat, costUSD}))`. */
    method ValuesWithCost() returns (a: array<DailyCost>)
      requires Valid()
      ensures fresh(a) && a[..] == Rows(order, entries)
    {
      a := new DailyCost[|order|];
      var j := 0;
      while j < |order|
        invariant 0 <= j <= |order|
        invariant forall i :: 0 <= i < j ==> a[i] == WithCost(entries[order[i]])
      {
        a[j] := WithCost(entries[order[j]]);
        j := j + 1;
      }
    }
  }

  /**
   * The daily-statistics part of `fetchMetrics`, from the two `Datapoints` arrays to the
   * rows handed to `setLambdaDailyStats`.
   */
  method FetchDailyStats(durations: seq<MetricDatapoint>, invocations: seq<MetricDatapoint>)
      returns (rows: seq<DailyCost>)
    ensures rows == DailyRows(durations, invocations)
  {
    var stats := new DailyStatsMap();
    stats.AddDurations(durations);
    stats.AddInvocations(invocations);
    var withCost := stats.ValuesWithCost();
    Sorting.SortInPlace(withCost, RowDate);
    rows := withCost[..];
  }
}
