/**
 * The browser-side helpers in front of the AWS SDK: the chart ceiling, the choice of the
 * newest published version of the search function and the error envelope around its
 * invocation, the newest-first object listing, and the duration aggregation. Every SDK
 * call is a parameter (an oracle) or the array it returns.
 */
module AwsClient {
  import opened Wrappers
  import opened Text
  import opened Documents
  import opened RetrievalEnvelope
  import Sorting

  // ---------------------------------------------------------------------------
  // Sums and maxima over a sequence

  /** `s.reduce((sum, x) => sum + f(x), 0)`. */
  function SumBy<T>(s: seq<T>, f: T -> real): real
    decreases |s|
  {
    if |s| == 0 then 0.0 else SumBy(s[..|s| - 1], f) + f(s[|s| - 1])
  }

  /** `Math.max(...s.map(f))`, with None standing for the -Infinity of an empty spread. */
  function MaxBy<T>(s: seq<T>, f: T -> real): (m: Option<real>)
    ensures m.None? <==> |s| == 0
    ensures m.Some? ==> forall i :: 0 <= i < |s| ==> f(s[i]) <= m.value
    ensures m.Some? ==> exists i :: 0 <= i < |s| && f(s[i]) == m.value
    decreases |s|
  {
    if |s| == 0 then None
    else
      var rest := MaxBy(s[..|s| - 1], f);
      var x := f(s[|s| - 1]);
      if rest.None? || rest.value <= x then Some(x) else rest
  }

  lemma {:induction false} SumByAppend<T>(a: seq<T>, b: seq<T>, f: T -> real)
    ensures SumBy(a + b, f) == SumBy(a, f) + SumBy(b, f)
    decreases |b|
  {
    if |b| == 0 {
      assert a + b == a;
    } else {
      assert (a + b)[..|a + b| - 1] == a + b[..|b| - 1];
      SumByAppend(a, b[..|b| - 1], f);
    }
  }

  lemma SumBySingle<T>(x: T, f: T -> real)
    ensures SumBy([x], f) == f(x)
  {
    assert [x][..0] == [];
  }

  lemma SplitAround<T>(t: seq<T>, i: nat)
    requires i < |t|
    ensures t == t[..i] + ([t[i]] + t[i + 1..])
  {
  }

  /** Removing one element from a sum. */
  lemma SumByRemove<T>(t: seq<T>, i: nat, f: T -> real)
    requires i < |t|
    ensures SumBy(t, f) == SumBy(t[..i] + t[i + 1..], f) + f(t[i])
  {
    var a, x, b := t[..i], t[i], t[i + 1..];
    SplitAround(t, i);
    SumByAppend(a, [x] + b, f);
    SumByAppend([x], b, f);
    SumByAppend(a, b, f);
    SumBySingle(x, f);
  }

  /** The multiset of a sequence with its i-th element removed. */
  lemma MultisetRemove<T>(t: seq<T>, i: nat)
    requires i < |t|
    ensures multiset(t[..i] + t[i + 1..]) == multiset(t) - multiset{t[i]}
  {
    SplitAround(t, i);
    assert multiset(t) == multiset(t[..i]) + multiset([t[i]] + t[i + 1..]);
    assert multiset([t[i]] + t[i + 1..]) == multiset{t[i]} + multiset(t[i + 1..]);
  }

  /** Where the last element of a sequence sits in a permutation of it, and what is left. */
  lemma MatchLast<T>(s: seq<T>, t: seq<T>) returns (i: nat)
    requires |s| > 0 && multiset(s) == multiset(t)
    ensures i < |t| && t[i] == s[|s| - 1]
    ensures multiset(s[..|s| - 1]) == multiset(t[..i] + t[i + 1..])
  {
    assert s[|s| - 1] in multiset(t);
    i :| 0 <= i < |t| && t[i] == s[|s| - 1];
    MultisetRemove(s, |s| - 1);
    MultisetRemove(t, i);
    assert s[..|s| - 1] + s[|s|..] == s[..|s| - 1];
  }

  /** A sum does not depend on the order of its terms. */
  lemma {:induction false} SumByPermutation<T>(s: seq<T>, t: seq<T>, f: T -> real)
    requires multiset(s) == multiset(t)
    ensures SumBy(s, f) == SumBy(t, f)
    decreases |s|
  {
    if |s| == 0 {
      assert |t| == |multiset(t)| == 0;
    } else {
      var i := MatchLast(s, t);
      SumByPermutation(s[..|s| - 1], t[..i] + t[i + 1..], f);
      SumByRemove(t, i, f);
    }
  }

  /** A maximum does not depend on the order of the values. */
  lemma MaxByPermutation<T>(s: seq<T>, t: seq<T>, f: T -> real)
    requires multiset(s) == multiset(t)
    ensures MaxBy(s, f) == MaxBy(t, f)
  {
    assert |s| == |multiset(s)| == |multiset(t)| == |t|;
    var ms, mt := MaxBy(s, f), MaxBy(t, f);
    if ms.Some? {
      var i :| 0 <= i < |s| && f(s[i]) == ms.value;
      var j :| 0 <= j < |t| && f(t[j]) == mt.value;
      assert s[i] in multiset(t);
      assert t[j] in multiset(s);
      var i' :| 0 <= i' < |t| && t[i'] == s[i];
      var j' :| 0 <= j' < |s| && s[j'] == t[j];
      assert ms.value <= mt.value && mt.value <= ms.value;
    }
  }

  // ---------------------------------------------------------------------------
  // calculateChartHeight

  datatype ChartPoint = ChartPoint(x: int, y: real)

  const DefaultChartHeight: real := 50.0
  const ZeroChartHeight: real := 5.0
  const DefaultMargin: real := 0.1

  function PointY(p: ChartPoint): real {
    p.y
  }

  /** `value * (1 + margin)`. */
  function Scaled(value: real, margin: real): real {
    value * (1.0 + margin)
  }

  /**
   * The y-axis ceiling: 50 without data, 5 when the largest value is 0, and otherwise the
   * largest value scaled by `1 + margin` (also when it is negative).
   */
  function CalculateChartHeight(data: Option<seq<ChartPoint>>, margin: real): (h: real)
    ensures data.None? || |data.value| == 0 ==> h == DefaultChartHeight
    ensures data.Some? && |data.value| > 0 ==>
      var maxValue := MaxBy(data.value, PointY).value;
      h == if maxValue == 0.0 then ZeroChartHeight else Scaled(maxValue, margin)
  {
    if data.None? || |data.value| == 0 then DefaultChartHeight
    else
      var maxValue := MaxBy(data.value, PointY).value;
      if maxValue == 0.0 then ZeroChartHeight else Scaled(maxValue, margin)
  }

  /** With a positive maximum and a non-negative margin the ceiling is above every value. */
  lemma ChartHeightCoversData(data: seq<ChartPoint>, margin: real)
    requires |data| > 0 && MaxBy(data, PointY).value > 0.0 && margin >= 0.0
    ensures forall i :: 0 <= i < |data| ==> data[i].y <= CalculateChartHeight(Some(data), margin)
    ensures CalculateChartHeight(Some(data), margin) == Scaled(MaxBy(data, PointY).value, margin)
  {
    var m := MaxBy(data, PointY).value;
    var h := CalculateChartHeight(Some(data), margin);
    assert m <= h by {
      ScaledIsLarger(m, margin);
    }
    forall i | 0 <= i < |data|
      ensures data[i].y <= h
    {
      assert PointY(data[i]) <= m;
    }
  }

  lemma ScaledIsLarger(m: real, margin: real)
    requires m > 0.0 && margin >= 0.0
    ensures m <= Scaled(m, margin)
  {
    assert m * (1.0 + margin) == m + m * margin;
  }

  /**
   * Data whose largest value is 0 (no value above 0 and some value equal to it, such as
   * [-1, 0]) gives the fixed ceiling 5, whatever the margin.
   */
  lemma ChartHeightOfZeros(data: seq<ChartPoint>, margin: real)
    requires forall i :: 0 <= i < |data| ==> data[i].y <= 0.0
    requires exists i :: 0 <= i < |data| && data[i].y == 0.0
    ensures CalculateChartHeight(Some(data), margin) == ZeroChartHeight
  {
    var j :| 0 <= j < |data| && data[j].y == 0.0;
    var m := MaxBy(data, PointY).value;
    assert PointY(data[j]) <= m;
    var i :| 0 <= i < |data| && PointY(data[i]) == m;
  }

  /**
   * The dashboard's charts use the default margin 0.1: with a positive maximum the ceiling
   * is 1.1 times it, and every value lies strictly below the ceiling.
   */
  lemma DefaultMarginHeadroom(data: seq<ChartPoint>)
    requires |data| > 0 && MaxBy(data, PointY).value > 0.0
    ensures CalculateChartHeight(Some(data), DefaultMargin) == MaxBy(data, PointY).value * 1.1
    ensures forall i :: 0 <= i < |data| ==> data[i].y < CalculateChartHeight(Some(data), DefaultMargin)
  {
    var m := MaxBy(data, PointY).value;
    var h := CalculateChartHeight(Some(data), DefaultMargin);
    assert h == m * 1.1;
    forall i | 0 <= i < |data|
      ensures data[i].y < h
    {
      assert PointY(data[i]) <= m;
    }
  }

  // ---------------------------------------------------------------------------
  // Choosing the newest published version

  /** An entry of `ListVersionsByFunction`: its `Version`, which may be absent. */
  datatype FunctionVersion = FunctionVersion(version: Option<string>)

  const LatestQualifier := "$LATEST"

  /** Kept by `filter(v => v.Version !== '$LATEST')` (an absent Version is kept). */
  predicate Numbered(v: FunctionVersion) {
    v.version != Some(LatestQualifier)
  }

  /** `parseInt(v.Version || '0')`. */
  function VersionNumber(v: FunctionVersion): JsNumber {
    ParseInt(if v.version.None? || v.version.value == "" then "0" else v.version.value)
  }

  /** `s.filter(keep).map(f)`. */
  function FilterMap<T, U>(s: seq<T>, keep: T -> bool, f: T -> U): seq<U>
    decreases |s|
  {
    if |s| == 0 then []
    else (if keep(s[0]) then [f(s[0])] else []) + FilterMap(s[1..], keep, f)
  }

  /** The filter-then-map pipeline. */
  function VersionNumbers(vs: seq<FunctionVersion>): seq<JsNumber> {
    FilterMap(vs, Numbered, VersionNumber)
  }

  /** `Math.max(a, b)`: NaN if either is NaN. */
  function JsMax(a: JsNumber, b: JsNumber): JsNumber {
    if a.NaN? || b.NaN? then NaN else Num(if a.value >= b.value then a.value else b.value)
  }

  /** `ns.reduce((max, current) => Math.max(max, current), acc)`. */
  function ReduceMax(acc: JsNumber, ns: seq<JsNumber>): (r: JsNumber)
    ensures acc.NaN? ==> r.NaN?
    ensures acc.Num? && r.Num? ==> r.value >= acc.value
    decreases |ns|
  {
    if |ns| == 0 then acc else ReduceMax(JsMax(acc, ns[0]), ns[1..])
  }

  /**
   * The version to invoke: the numeric maximum of the non-$LATEST versions, starting from 0;
   * a NaN anywhere, or a missing list, gives 0 (`|| 0`).
   */
  function LatestVersion(versions: Option<seq<FunctionVersion>>): nat {
    if versions.None? then 0
    else match ReduceMax(Num(0), VersionNumbers(versions.value))
      case NaN => 0
      case Num(v) => v
  }

  lemma VersionNumbersMembers(vs: seq<FunctionVersion>, n: JsNumber)
    ensures n in VersionNumbers(vs) <==> exists i :: 0 <= i < |vs| && Numbered(vs[i]) && VersionNumber(vs[i]) == n
  {
    if n in VersionNumbers(vs) {
      var _ := FilterMapFrom(vs, Numbered, VersionNumber, n);
    }
    if exists i :: 0 <= i < |vs| && Numbered(vs[i]) && VersionNumber(vs[i]) == n {
      var i :| 0 <= i < |vs| && Numbered(vs[i]) && VersionNumber(vs[i]) == n;
      FilterMapOf(vs, Numbered, VersionNumber, i);
    }
  }

  /** Every value the pipeline yields is the image of a kept element. */
  lemma {:induction false} FilterMapFrom<T, U>(s: seq<T>, keep: T -> bool, f: T -> U, n: U) returns (i: nat)
    requires n in FilterMap(s, keep, f)
    ensures i < |s| && keep(s[i]) && f(s[i]) == n
    decreases |s|
  {
    if keep(s[0]) && f(s[0]) == n {
      i := 0;
    } else {
      var k := FilterMapFrom(s[1..], keep, f, n);
      i := k + 1;
    }
  }

  /** Every kept element contributes its image. */
  lemma {:induction false} FilterMapOf<T, U>(s: seq<T>, keep: T -> bool, f: T -> U, i: nat)
    requires i < |s| && keep(s[i])
    ensures f(s[i]) in FilterMap(s, keep, f)
    decreases |s|
  {
    if i > 0 {
      FilterMapOf(s[1..], keep, f, i - 1);
    }
  }

  /** Without NaN the fold is the maximum of the start value and every element. */
  lemma {:induction false} ReduceMaxIsMaximum(acc: int, ns: seq<JsNumber>)
    requires forall i :: 0 <= i < |ns| ==> ns[i].Num?
    ensures ReduceMax(Num(acc), ns).Num?
    ensures forall i :: 0 <= i < |ns| ==> ns[i].value <= ReduceMax(Num(acc), ns).value
    ensures ReduceMax(Num(acc), ns).value == acc
         || exists i :: 0 <= i < |ns| && ns[i].value == ReduceMax(Num(acc), ns).value
    decreases |ns|
  {
    if |ns| > 0 {
      var next := JsMax(Num(acc), ns[0]);
      ReduceMaxIsMaximum(next.value, ns[1..]);
      var r := ReduceMax(Num(acc), ns);
      assert r == ReduceMax(Num(next.value), ns[1..]);
      forall i | 0 <= i < |ns|
        ensures ns[i].value <= r.value
      {
        if i > 0 {
          assert ns[1..][i - 1] == ns[i];
        }
      }
      if r.value != acc && r.value != ns[0].value {
        var i :| 0 <= i < |ns[1..]| && ns[1..][i].value == r.value;
        assert ns[i + 1] == ns[1..][i];
      }
    }
  }

  /** One NaN makes the whole fold NaN. */
  lemma {:induction false} ReduceMaxNaN(acc: JsNumber, ns: seq<JsNumber>)
    requires acc.NaN? || NaN in ns
    ensures ReduceMax(acc, ns).NaN?
    decreases |ns|
  {
    if |ns| > 0 {
      if acc.NaN? || ns[0].NaN? {
        assert JsMax(acc, ns[0]).NaN?;
      } else {
        assert NaN in ns[1..];
      }
      ReduceMaxNaN(JsMax(acc, ns[0]), ns[1..]);
    }
  }

  /**
   * When every non-$LATEST version parses, the chosen version is at least each of them, and
   * a positive choice is one of them.
   */
  lemma LatestVersionIsMaximum(vs: seq<FunctionVersion>)
    requires forall i :: 0 <= i < |vs| && Numbered(vs[i]) ==> VersionNumber(vs[i]).Num?
    ensures forall i :: 0 <= i < |vs| && Numbered(vs[i]) ==> VersionNumber(vs[i]).value <= LatestVersion(Some(vs))
    ensures LatestVersion(Some(vs)) > 0 ==>
      exists i :: 0 <= i < |vs| && Numbered(vs[i]) && VersionNumber(vs[i]) == Num(LatestVersion(Some(vs)))
  {
    var ns := VersionNumbers(vs);
    forall i | 0 <= i < |ns|
      ensures ns[i].Num?
    {
      VersionNumbersMembers(vs, ns[i]);
    }
    ReduceMaxIsMaximum(0, ns);
    var r := ReduceMax(Num(0), ns);
    forall i | 0 <= i < |vs| && Numbered(vs[i])
      ensures VersionNumber(vs[i]).value <= LatestVersion(Some(vs))
    {
      VersionNumbersMembers(vs, VersionNumber(vs[i]));
      var k :| 0 <= k < |ns| && ns[k] == VersionNumber(vs[i]);
    }
    if r.value > 0 {
      var k :| 0 <= k < |ns| && ns[k].value == r.value;
      VersionNumbersMembers(vs, ns[k]);
    }
  }

  /** Without any numbered version, or with one that does not parse, version 0 is chosen. */
  lemma LatestVersionFallsBack(vs: seq<FunctionVersion>)
    requires (forall i :: 0 <= i < |vs| ==> !Numbered(vs[i]))
          || (exists i :: 0 <= i < |vs| && Numbered(vs[i]) && VersionNumber(vs[i]).NaN?)
    ensures LatestVersion(Some(vs)) == 0
  {
    if exists i :: 0 <= i < |vs| && Numbered(vs[i]) && VersionNumber(vs[i]).NaN? {
      var i :| 0 <= i < |vs| && Numbered(vs[i]) && VersionNumber(vs[i]).NaN?;
      VersionNumbersMembers(vs, NaN);
      ReduceMaxNaN(Num(0), VersionNumbers(vs));
    } else {
      LatestVersionIsMaximum(vs);
    }
  }

  /** The function name, qualified `name:N` when a version above 0 was chosen. */
  function QualifiedName(functionName: string, version: nat): string {
    if version > 0 then functionName + ":" + NatToString(version) else functionName
  }

  /** The qualifier is the version itself: it parses back to N, and there is none for 0. */
  lemma QualifiedNameCarriesVersion(functionName: string, version: nat)
    ensures version == 0 ==> QualifiedName(functionName, version) == functionName
    ensures version > 0 ==>
      var q := QualifiedName(functionName, version);
      StartsWith(q, functionName + ":") && ParseInt(q[|functionName| + 1..]) == Num(version)
  {
    if version > 0 {
      var q := QualifiedName(functionName, version);
      assert q[|functionName| + 1..] == NatToString(version);
      ParseIntNatToString(version);
    }
  }

  // ---------------------------------------------------------------------------
  // invokeSearchLambda

  /**
   * What the search invocation depends on: the credentials lookup, the resolved function
   * name, and the two Lambda API calls, each of which may throw.
   */
  datatype LambdaClientEnv = LambdaClientEnv(
    session: Result<()>,
    functionName: string,
    listVersions: string -> Result<Option<seq<FunctionVersion>>>,
    invoke: (string, string) -> Result<InvokeOutcome>)

  /** The SyntaxError of `JSON.parse(undefined)`, raised when the payload has no "body". */
  const MissingBodyMessage := "\"undefined\" is not valid JSON"

  /** The name the invocation targets, once the version listing has come back. */
  function TargetName(env: LambdaClientEnv, versions: Option<seq<FunctionVersion>>): string {
    QualifiedName(env.functionName, LatestVersion(versions))
  }

  /** The body of the `try` block: every step that can throw, in order. */
  function SearchCall(question: string, env: LambdaClientEnv): (r: Result<AnswerBody>)
    ensures r.Success? <==>
      env.session.Success? && env.listVersions(env.functionName).Success?
      && env.invoke(TargetName(env, env.listVersions(env.functionName).value), question).Success?
      && env.invoke(TargetName(env, env.listVersions(env.functionName).value), question).value.Returned?
    ensures r.Success? ==>
      r.value == env.invoke(TargetName(env, env.listVersions(env.functionName).value), question).value.response.body
  {
    var _ :- env.session;
    var versions :- env.listVersions(env.functionName);
    var outcome :- env.invoke(TargetName(env, versions), question);
    match outcome
    case Returned(resp) => Success(resp.body)
    case FunctionError(_) => Failure(MissingBodyMessage)
  }

  /** The `catch`: a thrown error becomes `{result: error.message, references: []}`. */
  function InvokeSearchLambda(question: string, env: LambdaClientEnv): (r: AnswerBody)
    ensures SearchCall(question, env).Success? ==> r == SearchCall(question, env).value
    ensures SearchCall(question, env).Failure? ==> r == AnswerBody(SearchCall(question, env).message, [])
  {
    match SearchCall(question, env)
    case Success(body) => body
    case Failure(message) => AnswerBody(message, [])
  }

  /** An answer that carries references came from a returned handler response. */
  lemma ReferencesOnlyFromHandler(question: string, env: LambdaClientEnv)
    requires InvokeSearchLambda(question, env).references != []
    ensures env.session.Success? && env.listVersions(env.functionName).Success?
    ensures var out := env.invoke(TargetName(env, env.listVersions(env.functionName).value), question);
      out.Success? && out.value.Returned? && out.value.response.body == InvokeSearchLambda(question, env)
  {
  }

  // ---------------------------------------------------------------------------
  // listObject

  /** An entry of `ListObjectsV2` `Contents`: its key and `LastModified` in milliseconds. */
  datatype S3Object = S3Object(key: string, lastModified: int)

  function LastModifiedMs(o: S3Object): int {
    o.lastModified
  }

  /**
   * Sorts `Contents` in place, newest first, and returns it; an absent `Contents` gives [].
   * Sorting.SortDescFacts gives the order and that nothing is added or lost.
   */
  method ListObject(contents: array?<S3Object>) returns (keys: seq<S3Object>)
    modifies contents
    ensures contents == null ==> keys == []
    ensures contents != null ==> keys == contents[..] && keys == Sorting.SortDesc(old(contents[..]), LastModifiedMs)
  {
    if contents == null {
      return [];
    }
    Sorting.SortInPlace(contents, LastModifiedMs);
    keys := contents[..];
  }

  // ---------------------------------------------------------------------------
  // getLambdaDurationMetrics

  /** A `GetMetricStatistics` datapoint; every statistic may be absent. */
  datatype Datapoint = Datapoint(timestamp: Option<int>, sum: Option<real>, average: Option<real>, maximum: Option<real>)

  datatype DailyDuration = DailyDuration(date: Option<int>, sumMs: real, avgMs: real, maxMs: real)

  /** `maxDurationMs` is None for the -Infinity of `Math.max()` over no datapoints. */
  datatype DurationMetrics = DurationMetrics(
    totalDurationMs: real,
    averageDurationMs: real,
    maxDurationMs: Option<real>,
    dailyData: seq<DailyDuration>)

  function TimestampOrZero(p: Datapoint): int {
    p.timestamp.GetOr(0)
  }

  /** The ascending comparator `(a, b) => ts(a) - ts(b)` is the descending one on `-ts`. */
  function EarliestFirst(p: Datapoint): int {
    -TimestampOrZero(p)
  }

  function SumOrZero(p: Datapoint): real {
    p.sum.GetOr(0.0)
  }

  function AverageOrZero(p: Datapoint): real {
    p.average.GetOr(0.0)
  }

  function MaximumOrZero(p: Datapoint): real {
    p.maximum.GetOr(0.0)
  }

  function Daily(p: Datapoint): DailyDuration {
    DailyDuration(p.timestamp, SumOrZero(p), AverageOrZero(p), MaximumOrZero(p))
  }

  function DailyAll(ps: seq<Datapoint>): (ds: seq<DailyDuration>)
    ensures |ds| == |ps| && forall i :: 0 <= i < |ps| ==> ds[i] == Daily(ps[i])
  {
    seq(|ps|, i requires 0 <= i < |ps| => Daily(ps[i]))
  }

  /**
   * The metrics of a set of datapoints: the total of the sums, the mean of the averages (0
   * without datapoints), the largest maximum, and one daily row per datapoint in ascending
   * timestamp order (a missing timestamp as 0). The aggregates are those of the datapoints
   * as they arrived.
   */
  function MetricsOf(ps: seq<Datapoint>): (m: DurationMetrics)
    ensures m.totalDurationMs == SumBy(ps, SumOrZero)
    ensures m.averageDurationMs == if |ps| == 0 then 0.0 else SumBy(ps, AverageOrZero) / |ps| as real
    ensures m.maxDurationMs == MaxBy(ps, MaximumOrZero)
    ensures |m.dailyData| == |ps|
    ensures multiset(m.dailyData) == multiset(DailyAll(ps))
    ensures forall i, j :: 0 <= i < j < |m.dailyData| ==> m.dailyData[i].date.GetOr(0) <= m.dailyData[j].date.GetOr(0)
  {
    var sorted := Sorting.SortDesc(ps, EarliestFirst);
    SortedAggregates(ps);
    DatesAscending(sorted);
    DailyAllPermutation(sorted, ps);
    DurationMetrics(
      SumBy(sorted, SumOrZero),
      if |ps| > 0 then SumBy(sorted, AverageOrZero) / |ps| as real else 0.0,
      MaxBy(sorted, MaximumOrZero),
      DailyAll(sorted))
  }

  /**
   * `getLambdaDurationMetrics`: sorts the datapoints in place by ascending timestamp (a
   * missing one as 0), then aggregates them.
   */
  method GetLambdaDurationMetrics(datapoints: array<Datapoint>) returns (m: DurationMetrics)
    modifies datapoints
    ensures datapoints[..] == Sorting.SortDesc(old(datapoints[..]), EarliestFirst)
    ensures m == MetricsOf(old(datapoints[..]))
    ensures forall i :: 0 <= i < datapoints.Length ==> m.dailyData[i] == Daily(datapoints[i])
  {
    Sorting.SortInPlace(datapoints, EarliestFirst);
    var sorted := datapoints[..];
    var total := SumBy(sorted, SumOrZero);
    var average := if datapoints.Length > 0 then SumBy(sorted, AverageOrZero) / datapoints.Length as real else 0.0;
    m := DurationMetrics(total, average, MaxBy(sorted, MaximumOrZero), DailyAll(sorted));
  }

  /** Sorting the datapoints keeps their aggregates and orders them by descending key. */
  lemma SortedAggregates(ps: seq<Datapoint>)
    ensures |Sorting.SortDesc(ps, EarliestFirst)| == |ps|
    ensures multiset(Sorting.SortDesc(ps, EarliestFirst)) == multiset(ps)
    ensures SumBy(Sorting.SortDesc(ps, EarliestFirst), SumOrZero) == SumBy(ps, SumOrZero)
    ensures SumBy(Sorting.SortDesc(ps, EarliestFirst), AverageOrZero) == SumBy(ps, AverageOrZero)
    ensures MaxBy(Sorting.SortDesc(ps, EarliestFirst), MaximumOrZero) == MaxBy(ps, MaximumOrZero)
    ensures Sorting.SortedDesc(Sorting.SortDesc(ps, EarliestFirst), EarliestFirst)
  {
    var sorted := Sorting.SortDesc(ps, EarliestFirst);
    Sorting.SortDescFacts(ps, EarliestFirst);
    SumByPermutation(sorted, ps, SumOrZero);
    SumByPermutation(sorted, ps, AverageOrZero);
    MaxByPermutation(sorted, ps, MaximumOrZero);
  }

  lemma DatesAscending(sorted: seq<Datapoint>)
    requires Sorting.SortedDesc(sorted, EarliestFirst)
    ensures forall i, j :: 0 <= i < j < |sorted| ==> DailyAll(sorted)[i].date.GetOr(0) <= DailyAll(sorted)[j].date.GetOr(0)
  {
    var ds := DailyAll(sorted);
    forall i, j | 0 <= i < j < |ds|
      ensures ds[i].date.GetOr(0) <= ds[j].date.GetOr(0)
    {
      assert EarliestFirst(sorted[i]) >= EarliestFirst(sorted[j]);
    }
  }

  /** The rows of a sequence with one datapoint removed lack exactly that datapoint's row. */
  lemma DailyRemove(t: seq<Datapoint>, i: nat)
    requires i < |t|
    ensures multiset(DailyAll(t)) == multiset(DailyAll(t[..i] + t[i + 1..])) + multiset{Daily(t[i])}
  {
    var a, b := DailyAll(t[..i]), DailyAll(t[i + 1..]);
    DailySplit(t, i);
    assert multiset(a + [Daily(t[i])] + b) == multiset(a) + multiset{Daily(t[i])} + multiset(b);
  }

  lemma DailySplit(t: seq<Datapoint>, i: nat)
    requires i < |t|
    ensures DailyAll(t) == DailyAll(t[..i]) + [Daily(t[i])] + DailyAll(t[i + 1..])
    ensures DailyAll(t[..i] + t[i + 1..]) == DailyAll(t[..i]) + DailyAll(t[i + 1..])
  {
  }

  /** Datapoints that are a permutation of each other have rows that are too. */
  lemma {:induction false} DailyAllPermutation(s: seq<Datapoint>, t: seq<Datapoint>)
    requires multiset(s) == multiset(t)
    ensures multiset(DailyAll(s)) == multiset(DailyAll(t))
    decreases |s|
  {
    if |s| == 0 {
      assert |t| == |multiset(t)| == 0;
    } else {
      var i := MatchLast(s, t);
      DailyAllPermutation(s[..|s| - 1], t[..i] + t[i + 1..]);
      DailyRemove(s, |s| - 1);
      DailyRemove(t, i);
      assert s[..|s| - 1] + s[|s|..] == s[..|s| - 1];
    }
  }

  /** The daily rows of the sorted datapoints add up to the reported total. */
  lemma DailyRowsAddUpToTotal(ps: seq<Datapoint>)
    ensures SumBy(DailyAll(Sorting.SortDesc(ps, EarliestFirst)), (d: DailyDuration) => d.sumMs) == SumBy(ps, SumOrZero)
  {
    var sorted := Sorting.SortDesc(ps, EarliestFirst);
    Sorting.SortDescFacts(ps, EarliestFirst);
    SumByPermutation(sorted, ps, SumOrZero);
    SumOfDaily(sorted);
  }

  lemma {:induction false} SumOfDaily(ps: seq<Datapoint>)
    ensures SumBy(DailyAll(ps), (d: DailyDuration) => d.sumMs) == SumBy(ps, SumOrZero)
    decreases |ps|
  {
    if |ps| > 0 {
      var init := ps[..|ps| - 1];
      SumOfDaily(init);
      var ds := DailyAll(ps);
      assert ds[..|ds| - 1] == DailyAll(init);
    }
  }
}
