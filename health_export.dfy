/**
 * scripts/parse_apple_hr.py, `parse_health_export`: group the export's `Record`
 * entries by calendar date and category, then summarise each date.
 *
 * The XML tree is given as the sequence of its `Record` elements' attributes;
 * `pd.to_datetime(...).strftime("%Y-%m-%d")` and `float(...)` are parameters that
 * either give a value or fail (the ValueError/AttributeError the loop catches);
 * `round(x, 1)` is a parameter too. Floats are modelled as reals.
 */
module HealthExport {
  import opened Wrappers

  /** The `type`, `startDate` and `value` attributes of one `Record` element. */
  datatype RawRecord = RawRecord(recordType: Option<string>, startDate: Option<string>, value: Option<string>)

  /** The two parsers the loop calls; `None` stands for the exception it catches. */
  datatype Parsers = Parsers(dateOf: string -> Option<string>, number: string -> Option<real>)

  datatype Category = RestingHr | HeartRate | Hrv | StepCount | ActiveEnergy

  /** The `HKQuantityTypeIdentifier...` name the export uses for each category. */
  function TypeName(c: Category): string {
    match c
    case RestingHr => "HKQuantityTypeIdentifierRestingHeartRate"
    case HeartRate => "HKQuantityTypeIdentifierHeartRate"
    case Hrv => "HKQuantityTypeIdentifierHeartRateVariabilitySDNN"
    case StepCount => "HKQuantityTypeIdentifierStepCount"
    case ActiveEnergy => "HKQuantityTypeIdentifierActiveEnergyBurned"
  }

  /** The type names the loop keeps, each to its own category; every other type is skipped. */
  function CategoryOf(recordType: string): (c: Option<Category>)
    ensures c.Some? ==> TypeName(c.value) == recordType
    ensures c.None? ==> forall cat :: TypeName(cat) != recordType
  {
    if recordType == "HKQuantityTypeIdentifierRestingHeartRate" then Some(RestingHr)
    else if recordType == "HKQuantityTypeIdentifierHeartRate" then Some(HeartRate)
    else if recordType == "HKQuantityTypeIdentifierHeartRateVariabilitySDNN" then Some(Hrv)
    else if recordType == "HKQuantityTypeIdentifierStepCount" then Some(StepCount)
    else if recordType == "HKQuantityTypeIdentifierActiveEnergyBurned" then Some(ActiveEnergy)
    else None
  }

  /** One reading filed under a date and a category. */
  datatype Reading = Reading(date: string, category: Category, value: real)

  /** What one record adds to the grouping, if anything. */
  function Contribution(r: RawRecord, p: Parsers): (c: Option<Reading>)
    ensures c.Some? ==>
              && Truthy(r.recordType) && Truthy(r.startDate) && Truthy(r.value)
              && Some(c.value.date) == p.dateOf(r.startDate.value)
              && Some(c.value.value) == p.number(r.value.value)
              && Some(c.value.category) == CategoryOf(r.recordType.value)
  {
    if !(Truthy(r.recordType) && Truthy(r.startDate) && Truthy(r.value)) then None
    else
      var date, number := p.dateOf(r.startDate.value), p.number(r.value.value);
      if date.None? || number.None? then None
      else match CategoryOf(r.recordType.value)
        case None => None
        case Some(c) => Some(Reading(date.value, c, number.value))
  }

  /**
   * The three ways a record is passed over: an attribute missing or empty, a date or
   * value that does not parse, a type outside the five known ones. Otherwise it files
   * its parsed value under its parsed date and its category.
   */
  lemma ContributionCases(r: RawRecord, p: Parsers)
    ensures !Truthy(r.recordType) || !Truthy(r.startDate) || !Truthy(r.value) ==> Contribution(r, p).None?
    ensures Truthy(r.startDate) && p.dateOf(r.startDate.value).None? ==> Contribution(r, p).None?
    ensures Truthy(r.value) && p.number(r.value.value).None? ==> Contribution(r, p).None?
    ensures Truthy(r.recordType) && CategoryOf(r.recordType.value).None? ==> Contribution(r, p).None?
    ensures Contribution(r, p).Some? ==>
              && Truthy(r.recordType) && Truthy(r.startDate) && Truthy(r.value)
              && Some(Contribution(r, p).value.date) == p.dateOf(r.startDate.value)
              && Some(Contribution(r, p).value.value) == p.number(r.value.value)
              && Some(Contribution(r, p).value.category) == CategoryOf(r.recordType.value)
  {
  }

  /** The five lists `daily_data` holds for one date. */
  datatype DayLists = DayLists(
    restingHr: seq<real>, heartRate: seq<real>, hrv: seq<real>,
    stepCount: seq<real>, activeEnergy: seq<real>)

  const EmptyDay := DayLists([], [], [], [], [])

  function Readings(day: DayLists, c: Category): seq<real> {
    match c
    case RestingHr => day.restingHr
    case HeartRate => day.heartRate
    case Hrv => day.hrv
    case StepCount => day.stepCount
    case ActiveEnergy => day.activeEnergy
  }

  function Append(day: DayLists, c: Category, v: real): (r: DayLists)
    ensures Readings(r, c) == Readings(day, c) + [v]
    ensures forall c' :: c' != c ==> Readings(r, c') == Readings(day, c')
  {
    match c
    case RestingHr => day.(restingHr := day.restingHr + [v])
    case HeartRate => day.(heartRate := day.heartRate + [v])
    case Hrv => day.(hrv := day.hrv + [v])
    case StepCount => day.(stepCount := day.stepCount + [v])
    case ActiveEnergy => day.(activeEnergy := day.activeEnergy + [v])
  }

  predicate HasReadings(day: DayLists) {
    day.restingHr != [] || day.heartRate != [] || day.hrv != [] || day.stepCount != [] || day.activeEnergy != []
  }

  /** The first loop: `daily_data` after the given records. */
  function Group(records: seq<RawRecord>, p: Parsers): map<string, DayLists> {
    if records == [] then map[]
    else
      var daily := Group(records[..|records| - 1], p);
      match Contribution(records[|records| - 1], p)
      case None => daily
      case Some(rd) =>
        var day := if rd.date in daily then daily[rd.date] else EmptyDay;
        daily[rd.date := Append(day, rd.category, rd.value)]
  }

  // ---------------------------------------------------------------------------
  // Reference definition of the grouping: filter the records directly.

  /** The value one record files under `date` and `c`, if any. */
  function ValueOf(r: RawRecord, p: Parsers, date: string, c: Category): seq<real> {
    match Contribution(r, p)
    case Some(rd) => if rd.date == date && rd.category == c then [rd.value] else []
    case None => []
  }

  /** The values, in record order, of the records filed under `date` and `c`. */
  function ValuesOn(records: seq<RawRecord>, p: Parsers, date: string, c: Category): seq<real> {
    if records == [] then []
    else ValuesOn(records[..|records| - 1], p, date, c) + ValueOf(records[|records| - 1], p, date, c)
  }

  function DayOf(records: seq<RawRecord>, p: Parsers, date: string): (day: DayLists)
    ensures forall c :: Readings(day, c) == ValuesOn(records, p, date, c)
  {
    DayLists(ValuesOn(records, p, date, RestingHr), ValuesOn(records, p, date, HeartRate),
             ValuesOn(records, p, date, Hrv), ValuesOn(records, p, date, StepCount),
             ValuesOn(records, p, date, ActiveEnergy))
  }

  /**
   * The grouping loop files every contributing record under its date and category,
   * in order, and creates a date entry exactly when some record contributes to it.
   */
  lemma {:induction false} GroupIsFilter(records: seq<RawRecord>, p: Parsers, date: string)
    ensures date in Group(records, p) <==> HasReadings(DayOf(records, p, date))
    ensures date in Group(records, p) ==> Group(records, p)[date] == DayOf(records, p, date)
  {
    if records != [] {
      var init, last := records[..|records| - 1], records[|records| - 1];
      GroupIsFilter(init, p, date);
      var day := DayOf(records, p, date);
      var before := DayOf(init, p, date);
      match Contribution(last, p)
      case None =>
        SameReadingsSameDay(day, before);
      case Some(rd) =>
        if rd.date == date {
          var daily := Group(init, p);
          var prev := if date in daily then daily[date] else EmptyDay;
          SameReadingsSameDay(prev, before);
          SameReadingsSameDay(Append(prev, rd.category, rd.value), day);
        } else {
          SameReadingsSameDay(day, before);
        }
    }
  }

  /** Two days with the same readings in every category are the same. */
  lemma SameReadingsSameDay(x: DayLists, y: DayLists)
    requires Readings(x, RestingHr) == Readings(y, RestingHr) && Readings(x, HeartRate) == Readings(y, HeartRate)
    requires Readings(x, Hrv) == Readings(y, Hrv) && Readings(x, StepCount) == Readings(y, StepCount)
    requires Readings(x, ActiveEnergy) == Readings(y, ActiveEnergy)
    ensures x == y
  {
  }

  lemma {:induction false} ValuesOnConcat(a: seq<RawRecord>, b: seq<RawRecord>, p: Parsers, date: string, c: Category)
    ensures ValuesOn(a + b, p, date, c) == ValuesOn(a, p, date, c) + ValuesOn(b, p, date, c)
  {
    if b != [] {
      var ab, init, last := a + b, b[..|b| - 1], b[|b| - 1];
      assert ab[..|ab| - 1] == a + init;
      assert ab[|ab| - 1] == last;
      ValuesOnConcat(a, init, p, date, c);
      var va, vi, vl := ValuesOn(a, p, date, c), ValuesOn(init, p, date, c), ValueOf(last, p, date, c);
      assert ValuesOn(ab, p, date, c) == (va + vi) + vl;
      assert ValuesOn(b, p, date, c) == vi + vl;
      assert (va + vi) + vl == va + (vi + vl);
    } else {
      assert a + b == a;
    }
  }

  // ---------------------------------------------------------------------------
  // The second loop: aggregation.

  function Sum(s: seq<real>): real {
    if s == [] then 0.0 else s[0] + Sum(s[1..])
  }

  function Mean(s: seq<real>): real
    requires s != []
  {
    Sum(s) / |s| as real
  }

  function Min(s: seq<real>): (m: real)
    requires s != []
    ensures m in s && forall i :: 0 <= i < |s| ==> m <= s[i]
  {
    if |s| == 1 then s[0]
    else
      var rest := Min(s[1..]);
      if s[0] <= rest then s[0] else rest
  }

  function Max(s: seq<real>): (m: real)
    requires s != []
    ensures m in s && forall i :: 0 <= i < |s| ==> s[i] <= m
  {
    if |s| == 1 then s[0]
    else
      var rest := Max(s[1..]);
      if rest <= s[0] then s[0] else rest
  }

  /** Python's `int(x)` on a float: truncation toward zero. */
  function Truncate(x: real): (i: int)
    ensures 0.0 <= x ==> i as real <= x < i as real + 1.0
    ensures x < 0.0 ==> i as real - 1.0 < x <= i as real
  {
    if 0.0 <= x then x.Floor else -((-x).Floor)
  }

  datatype Metric = RealMetric(r: real) | IntMetric(i: int)

  const MetricKeys := {"resting_hr", "avg_hr", "min_hr", "max_hr", "hrv", "step_count", "active_energy_kcal"}

  /** `agg` for one date: a key for every category that has readings, and no other key. */
  function Aggregate(day: DayLists, round1: real -> real): (agg: map<string, Metric>)
    ensures agg.Keys <= MetricKeys
    ensures "resting_hr" in agg <==> day.restingHr != []
    ensures "avg_hr" in agg <==> day.heartRate != []
    ensures "min_hr" in agg <==> day.heartRate != []
    ensures "max_hr" in agg <==> day.heartRate != []
    ensures "hrv" in agg <==> day.hrv != []
    ensures "step_count" in agg <==> day.stepCount != []
    ensures "active_energy_kcal" in agg <==> day.activeEnergy != []
    ensures agg != map[] <==> HasReadings(day)
  {
    var a0: map<string, Metric> := map[];
    var a1 := if day.restingHr == [] then a0
              else a0["resting_hr" := RealMetric(round1(Mean(day.restingHr)))];
    var a2 := if day.heartRate == [] then a1
              else a1["avg_hr" := RealMetric(round1(Mean(day.heartRate)))]
                     ["min_hr" := RealMetric(round1(Min(day.heartRate)))]
                     ["max_hr" := RealMetric(round1(Max(day.heartRate)))];
    var a3 := if day.hrv == [] then a2 else a2["hrv" := RealMetric(round1(Mean(day.hrv)))];
    var a4 := if day.stepCount == [] then a3 else a3["step_count" := IntMetric(Truncate(Sum(day.stepCount)))];
    var a5 := if day.activeEnergy == [] then a4
              else a4["active_energy_kcal" := RealMetric(round1(Sum(day.activeEnergy)))];
    assert day.restingHr != [] ==> "resting_hr" in a5;
    assert day.heartRate != [] ==> "avg_hr" in a5;
    assert day.hrv != [] ==> "hrv" in a5;
    assert day.stepCount != [] ==> "step_count" in a5;
    assert day.activeEnergy != [] ==> "active_energy_kcal" in a5;
    a5
  }

  /** `summary`: the aggregate of every date whose aggregate is non-empty. */
  function Summarize(daily: map<string, DayLists>, round1: real -> real): map<string, map<string, Metric>> {
    map d | d in daily && Aggregate(daily[d], round1) != map[] :: Aggregate(daily[d], round1)
  }

  /** `parse_health_export` without the XML parsing: the grouping loop, then the aggregation loop. */
  method ParseHealthExport(records: seq<RawRecord>, p: Parsers, round1: real -> real)
    returns (summary: map<string, map<string, Metric>>)
    ensures summary == Summarize(Group(records, p), round1)
  {
    var daily := GroupRecords(records, p);
    summary := SummarizeDays(daily, round1);
  }

  /** The first loop of `parse_health_export`, filling `daily_data`. */
  method GroupRecords(records: seq<RawRecord>, p: Parsers) returns (daily: map<string, DayLists>)
    ensures daily == Group(records, p)
  {
    daily := map[];
    var i := 0;
    while i < |records|
      invariant 0 <= i <= |records|
      invariant daily == Group(records[..i], p)
    {
      var record := records[i];
      assert records[..i + 1][..i] == records[..i];
      if Truthy(record.recordType) && Truthy(record.startDate) && Truthy(record.value) {
        var date := p.dateOf(record.startDate.value);
        var number := p.number(record.value.value);
        if date.Some? && number.Some? {
          var category := CategoryOf(record.recordType.value);
          if category.Some? {
            var day := if date.value in daily then daily[date.value] else EmptyDay;
            daily := daily[date.value := Append(day, category.value, number.value)];
          }
        }
      }
      i := i + 1;
    }
    assert records[..i] == records;
  }

  /** The body of the second loop: `agg` for one date. */
  method AggregateDay(metrics: DayLists, round1: real -> real) returns (agg: map<string, Metric>)
    ensures agg == Aggregate(metrics, round1)
  {
    agg := map[];
    if metrics.restingHr != [] {
      agg := agg["resting_hr" := RealMetric(round1(Mean(metrics.restingHr)))];
    }
    if metrics.heartRate != [] {
      agg := agg["avg_hr" := RealMetric(round1(Mean(metrics.heartRate)))];
      agg := agg["min_hr" := RealMetric(round1(Min(metrics.heartRate)))];
      agg := agg["max_hr" := RealMetric(round1(Max(metrics.heartRate)))];
    }
    if metrics.hrv != [] {
      agg := agg["hrv" := RealMetric(round1(Mean(metrics.hrv)))];
    }
    if metrics.stepCount != [] {
      agg := agg["step_count" := IntMetric(Truncate(Sum(metrics.stepCount)))];
    }
    if metrics.activeEnergy != [] {
      agg := agg["active_energy_kcal" := RealMetric(round1(Sum(metrics.activeEnergy)))];
    }
  }

  /** Summarizing one more date adds its entry when it has one. */
  lemma SummarizeOneMoreDate(daily: map<string, DayLists>, todo: set<string>, date: string, round1: real -> real)
    requires date in todo && todo <= daily.Keys
    ensures var agg := Aggregate(daily[date], round1);
      Summarize(daily - (todo - {date}), round1)
      == if agg != map[] then Summarize(daily - todo, round1)[date := agg] else Summarize(daily - todo, round1)
  {
    assert daily - (todo - {date}) == (daily - todo)[date := daily[date]];
  }

  /** The second loop of `parse_health_export`, filling `summary`. */
  method SummarizeDays(daily: map<string, DayLists>, round1: real -> real)
    returns (summary: map<string, map<string, Metric>>)
    ensures summary == Summarize(daily, round1)
  {
    summary := map[];
    var todo := daily.Keys;
    while todo != {}
      invariant todo <= daily.Keys
      invariant summary == Summarize(daily - todo, round1)
      decreases todo
    {
      var date :| date in todo;
      SummarizeOneMoreDate(daily, todo, date, round1);
      var agg := AggregateDay(daily[date], round1);
      if agg != map[] {
        summary := summary[date := agg];
      }
      todo := todo - {date};
    }
    assert daily - todo == daily;
  }

  // ---------------------------------------------------------------------------
  // Properties of the summary.

  /**
   * The summary, date by date, from the records themselves: a date is present exactly
   * when some record contributes to it, and its entry aggregates exactly the values
   * filed under it.
   */
  lemma SummaryFromRecords(records: seq<RawRecord>, p: Parsers, round1: real -> real, date: string)
    ensures date in Summarize(Group(records, p), round1) <==> HasReadings(DayOf(records, p, date))
    ensures date in Summarize(Group(records, p), round1) ==>
              Summarize(Group(records, p), round1)[date] == Aggregate(DayOf(records, p, date), round1)
  {
    GroupIsFilter(records, p, date);
  }

  /** Every date in the summary has at least one metric, all of them among the seven known keys. */
  lemma SummaryEntriesWellFormed(records: seq<RawRecord>, p: Parsers, round1: real -> real, date: string)
    requires date in Summarize(Group(records, p), round1)
    ensures Summarize(Group(records, p), round1)[date] != map[]
    ensures Summarize(Group(records, p), round1)[date].Keys <= MetricKeys
  {
  }

  /** A key is present for a date exactly when some record of that category fell on it. */
  lemma MetricPresentIffReadings(records: seq<RawRecord>, p: Parsers, round1: real -> real, date: string)
    ensures var s := Summarize(Group(records, p), round1);
      && (date in s && "resting_hr" in s[date] <==> ValuesOn(records, p, date, RestingHr) != [])
      && (date in s && "avg_hr" in s[date] <==> ValuesOn(records, p, date, HeartRate) != [])
      && (date in s && "min_hr" in s[date] <==> ValuesOn(records, p, date, HeartRate) != [])
      && (date in s && "max_hr" in s[date] <==> ValuesOn(records, p, date, HeartRate) != [])
      && (date in s && "hrv" in s[date] <==> ValuesOn(records, p, date, Hrv) != [])
      && (date in s && "step_count" in s[date] <==> ValuesOn(records, p, date, StepCount) != [])
      && (date in s && "active_energy_kcal" in s[date] <==> ValuesOn(records, p, date, ActiveEnergy) != [])
  {
    SummaryFromRecords(records, p, round1, date);
  }

  /** `step_count` is the truncated sum of the date's step values. */
  lemma StepCountIsTruncatedSum(records: seq<RawRecord>, p: Parsers, round1: real -> real, date: string)
    ensures var s := Summarize(Group(records, p), round1);
      date in s && "step_count" in s[date] ==>
        s[date]["step_count"] == IntMetric(Truncate(Sum(ValuesOn(records, p, date, StepCount))))
  {
    SummaryFromRecords(records, p, round1, date);
  }

  /** A lower bound of every element bounds the sum from below, scaled by the length. */
  lemma {:induction false} SumAtLeast(s: seq<real>, lo: real)
    requires forall i :: 0 <= i < |s| ==> lo <= s[i]
    ensures lo * |s| as real <= Sum(s)
  {
    if s != [] {
      var k := (|s| - 1) as real;
      SumAtLeast(s[1..], lo);
      assert lo * (k + 1.0) == lo * k + lo;
    }
  }

  /** An upper bound of every element bounds the sum from above, scaled by the length. */
  lemma {:induction false} SumAtMost(s: seq<real>, hi: real)
    requires forall i :: 0 <= i < |s| ==> s[i] <= hi
    ensures Sum(s) <= hi * |s| as real
  {
    if s != [] {
      var k := (|s| - 1) as real;
      SumAtMost(s[1..], hi);
      assert hi * (k + 1.0) == hi * k + hi;
    }
  }

  lemma DivideBounds(lo: real, x: real, hi: real, n: real)
    requires 0.0 < n && lo * n <= x <= hi * n
    ensures lo <= x / n <= hi
  {
  }

  /** The mean lies within any bounds of the elements. */
  lemma MeanWithin(s: seq<real>, lo: real, hi: real)
    requires s != []
    requires forall i :: 0 <= i < |s| ==> lo <= s[i] <= hi
    ensures lo <= Mean(s) <= hi
  {
    SumAtLeast(s, lo);
    SumAtMost(s, hi);
    DivideBounds(lo, Sum(s), hi, |s| as real);
  }

  lemma MeanBetweenMinAndMax(s: seq<real>)
    requires s != []
    ensures Min(s) <= Mean(s) <= Max(s)
  {
    MeanWithin(s, Min(s), Max(s));
  }

  /** With a monotone rounding, `min_hr <= avg_hr <= max_hr` wherever they are present. */
  lemma HeartRateOrdered(day: DayLists, round1: real -> real)
    requires forall a, b :: a <= b ==> round1(a) <= round1(b)
    requires day.heartRate != []
    ensures var agg := Aggregate(day, round1);
      agg["min_hr"].r <= agg["avg_hr"].r <= agg["max_hr"].r
  {
    MeanBetweenMinAndMax(day.heartRate);
  }

  lemma SkippedRecordValues(before: seq<RawRecord>, r: RawRecord, after: seq<RawRecord>,
                             p: Parsers, date: string, c: Category)
    requires Contribution(r, p).None?
    ensures ValuesOn(before + [r] + after, p, date, c) == ValuesOn(before + after, p, date, c)
  {
    ValuesOnConcat(before + [r], after, p, date, c);
    ValuesOnConcat(before, [r], p, date, c);
    ValuesOnConcat(before, after, p, date, c);
    SkippedRecordAlone(r, p, date, c);
  }

  lemma SkippedRecordAlone(r: RawRecord, p: Parsers, date: string, c: Category)
    requires Contribution(r, p).None?
    ensures ValuesOn([r], p, date, c) == []
  {
    assert [r][..0] == [];
  }

  /**
   * A record that contributes nothing (an attribute missing or empty, a date or value
   * that fails to parse, an unknown type) can be dropped without changing the summary,
   * wherever it stands: the run does not stop at it.
   */
  lemma SkippedRecordChangesNothing(before: seq<RawRecord>, r: RawRecord, after: seq<RawRecord>,
                                    p: Parsers, round1: real -> real)
    requires Contribution(r, p).None?
    ensures Summarize(Group(before + [r] + after, p), round1) == Summarize(Group(before + after, p), round1)
  {
    var withR, without := before + [r] + after, before + after;
    forall date, c
      ensures ValuesOn(withR, p, date, c) == ValuesOn(without, p, date, c)
    {
      SkippedRecordValues(before, r, after, p, date, c);
    }
    var s1, s2 := Summarize(Group(withR, p), round1), Summarize(Group(without, p), round1);
    forall date
      ensures date in s1 <==> date in s2
      ensures date in s1 ==> s1[date] == s2[date]
    {
      assert DayOf(withR, p, date) == DayOf(without, p, date);
      SummaryFromRecords(withR, p, round1, date);
      SummaryFromRecords(without, p, round1, date);
    }
  }
}
