/**
 Precipitation over the hours before a given time, read from the time series of a location.
 The searches pass a provider and a from time along, as `ValueLookup` describes.
 */
module PrecipitationSeries {
  import opened Times
  import opened NestedMaps
  import opened PointData
  import opened Providers
  import opened ValueLookup
  import opened Precipitation

  const MEAN: Field := "PRECIP_MEAN"
  const MIN: Field := "PRECIP_MIN"
  const MAX: Field := "PRECIP_MAX"
  const PROBABILITY: Field := "PRECIP_PROBABILITY"
  const ACCUMULATED: Field := "PRECIP_ACCUMULATED"

  function Plus(t: PTime, seconds: int): (r: PTime) {
    if t.At? then At(t.seconds + seconds) else t
  }

  /** The to-times of the series from `start`, if it has data for that time, to `stop`. */
  function Window(ts: TimeSerie, start: PTime, stop: PTime): (r: seq<PTime>) {
    if start in ts then UpTo(From(Ordered(ts.Keys), start), stop) else []
  }

  function From(keys: seq<PTime>, start: PTime): (r: seq<PTime>) {
    if keys == [] || keys[0] == start then keys else From(keys[1..], start)
  }

  function UpTo(keys: seq<PTime>, stop: PTime): (r: seq<PTime>) {
    if keys == [] || stop.Before(keys[0]) then [] else [keys[0]] + UpTo(keys[1..], stop)
  }

  // ---------------------------------------------------------------- hourly means

  /** What the loops over the hours carry along. */
  datatype Cursor = Cursor(fromTime: PTime, isEqual: bool, provider: string, tryHard: bool)

  /** The cursor for the hour that starts where the given one ends. */
  function Next(c: Cursor, it: PTime): (r: Cursor) {
    c.(fromTime := it, tryHard := false)
  }

  /** The mean of one hour: stored from the hour before, or with from time equal to to-time.
      Once the second form is seen it is expected for the rest of the period. */
  function ReadMean(ts: TimeSerie, priority: seq<ProviderItem>, it: PTime, c: Cursor): (r: (Option<real>, Cursor))
  {
    var fs := Get(ts, it, map[]);
    var first := GetValueOf(fs, MEAN, priority, if c.isEqual then it else c.fromTime, c.provider, c.tryHard, false);
    if first.value.None? && !c.isEqual then
      var second := GetValueOf(fs, MEAN, priority, it, first.provider, c.tryHard, false);
      (second.value, Cursor(second.fromTime, true, second.provider, c.tryHard))
    else
      (first.value, Cursor(first.fromTime, c.isEqual, first.provider, c.tryHard))
  }

  /** The means of all hours, or nothing when one is missing; and the provider afterwards. */
  function Means(ts: TimeSerie, priority: seq<ProviderItem>, window: seq<PTime>,
                 c: Cursor): (r: (Option<seq<real>>, string))
    ensures r.0.Some? ==> |r.0.value| == |window|
  {
    if window == [] then (Some([]), c.provider)
    else
      var (v, c1) := ReadMean(ts, priority, window[0], c);
      if v.None? then (None, c1.provider)
      else
        var (rest, p) := Means(ts, priority, window[1..], Next(c1, window[0]));
        (if rest.Some? then Some([v.value] + rest.value) else None, p)
  }

  // ---------------------------------------------------------------- hourly rows

  datatype Hour = Hour(min: real, max: real, mean: real, prob: Option<real>)

  /** Least, greatest and probability of an hour whose mean is known. */
  function ReadRest(fs: FromTimeSerie, priority: seq<ProviderItem>, mean: real,
                    c1: Cursor): (r: (Option<Hour>, Cursor)) {
    var min := GetValueOf(fs, MIN, priority, c1.fromTime, c1.provider, false, false);
    var c2 := c1.(fromTime := min.fromTime, provider := min.provider);
    if min.value.None? then (None, c2)
    else
      var max := GetValueOf(fs, MAX, priority, c2.fromTime, c2.provider, false, false);
      var c3 := c2.(fromTime := max.fromTime, provider := max.provider);
      if max.value.None? then (None, c3)
      else
        var prob := GetValueOf(fs, PROBABILITY, priority, c3.fromTime, c3.provider, false, false);
        (Some(Hour(min.value.value, max.value.value, mean, prob.value)),
         c3.(fromTime := prob.fromTime, provider := prob.provider))
  }

  /** Mean, least, greatest and probability of one hour. */
  function ReadHour(ts: TimeSerie, priority: seq<ProviderItem>, it: PTime, c: Cursor): (r: (Option<Hour>, Cursor))
  {
    var (mean, c1) := ReadMean(ts, priority, it, c);
    if mean.None? then (None, c1) else ReadRest(Get(ts, it, map[]), priority, mean.value, c1)
  }

  function Hours(ts: TimeSerie, priority: seq<ProviderItem>, window: seq<PTime>,
                 c: Cursor): (r: (Option<seq<Hour>>, string))
    ensures r.0.Some? ==> |r.0.value| == |window|
  {
    if window == [] then (Some([]), c.provider)
    else
      var (h, c1) := ReadHour(ts, priority, window[0], c);
      if h.None? then (None, c1.provider)
      else
        var (rest, p) := Hours(ts, priority, window[1..], Next(c1, window[0]));
        (if rest.Some? then Some([h.value] + rest.value) else None, p)
  }

  function MeansOf(hours: seq<Hour>): (r: seq<real>)
    ensures |r| == |hours| && forall i | 0 <= i < |hours| :: r[i] == hours[i].mean
  {
    seq(|hours|, i requires 0 <= i < |hours| => hours[i].mean)
  }

  function MinsOf(hours: seq<Hour>): (r: seq<real>)
    ensures |r| == |hours| && forall i | 0 <= i < |hours| :: r[i] == hours[i].min
  {
    seq(|hours|, i requires 0 <= i < |hours| => hours[i].min)
  }

  function MaxsOf(hours: seq<Hour>): (r: seq<real>)
    ensures |r| == |hours| && forall i | 0 <= i < |hours| :: r[i] == hours[i].max
  {
    seq(|hours|, i requires 0 <= i < |hours| => hours[i].max)
  }

  function ProbsOf(hours: seq<Hour>): (r: seq<Option<real>>)
    ensures |r| == |hours| && forall i | 0 <= i < |hours| :: r[i] == hours[i].prob
  {
    seq(|hours|, i requires 0 <= i < |hours| => hours[i].prob)
  }

  /** The accumulated mean: negative hours count as dry. */
  function SumOfRain(v: seq<real>): (s: real) {
    if v == [] then 0.0 else SumOfRain(v[..|v| - 1]) + Max(0.0, v[|v| - 1])
  }

  // ---------------------------------------------------------------- the two mean algorithms agree

  /** A search with provider and from time given, and without trying hard, keeps both. */
  lemma SearchKeeps(fs: FromTimeSerie, field: Field, priority: seq<ProviderItem>, fromTime: PTime, provider: string)
    requires provider != "" && fromTime.At?
    ensures var r := GetValueOf(fs, field, priority, fromTime, provider, false, false);
            r.provider == provider && r.fromTime == fromTime
  {
  }

  /** A successful search leaves a provider and a from time behind. */
  lemma SearchFinds(fs: FromTimeSerie, field: Field, priority: seq<ProviderItem>, fromTime: PTime, provider: string,
                    tryHard: bool)
    requires NamesGiven(priority) && fromTime.At?
    ensures var r := GetValueOf(fs, field, priority, fromTime, provider, tryHard, false);
            (r.value.Some? ==> r.provider != "") && r.fromTime == fromTime
  {
    FirstHitIs(fs, field, FromsFor(fs, fromTime), ProvidersFor(priority, ""));
    FirstHitIs(fs, field, FromsFor(fs, fromTime), ProvidersFor(priority, provider));
  }

  /** Reading the other three values of an hour disturbs nothing. */
  lemma RestKeeps(fs: FromTimeSerie, priority: seq<ProviderItem>, mean: real, c: Cursor)
    requires c.provider != "" && c.fromTime.At?
    ensures var (h, c1) := ReadRest(fs, priority, mean, c);
            h.Some? ==> h.value.mean == mean && c1 == c
  {
    SearchKeeps(fs, MIN, priority, c.fromTime, c.provider);
    SearchKeeps(fs, MAX, priority, c.fromTime, c.provider);
    SearchKeeps(fs, PROBABILITY, priority, c.fromTime, c.provider);
  }

  /** A mean that was found leaves a provider and a from time behind. */
  lemma MeanFinds(ts: TimeSerie, priority: seq<ProviderItem>, it: PTime, c: Cursor)
    requires NamesGiven(priority) && it.At? && c.fromTime.At?
    ensures var (mean, c1) := ReadMean(ts, priority, it, c);
            mean.Some? ==> c1.provider != "" && c1.fromTime.At?
  {
    var fs := Get(ts, it, map[]);
    var from := if c.isEqual then it else c.fromTime;
    SearchFinds(fs, MEAN, priority, from, c.provider, c.tryHard);
    SearchFinds(fs, MEAN, priority, it, GetValueOf(fs, MEAN, priority, from, c.provider, c.tryHard, false).provider,
      c.tryHard);
  }

  lemma HourReadsMean(ts: TimeSerie, priority: seq<ProviderItem>, it: PTime, c: Cursor)
    requires NamesGiven(priority) && it.At? && c.fromTime.At?
    requires ReadHour(ts, priority, it, c).0.Some?
    ensures var (h, c1) := ReadHour(ts, priority, it, c);
            ReadMean(ts, priority, it, c) == (Some(h.value.mean), c1)
  {
    MeanFinds(ts, priority, it, c);
    var (mean, c1) := ReadMean(ts, priority, it, c);
    RestKeeps(Get(ts, it, map[]), priority, mean.value, c1);
  }

  lemma MeansStep(ts: TimeSerie, priority: seq<ProviderItem>, window: seq<PTime>, c: Cursor, v: real, c1: Cursor)
    requires window != [] && ReadMean(ts, priority, window[0], c) == (Some(v), c1)
    ensures var (rest, p) := Means(ts, priority, window[1..], Next(c1, window[0]));
            Means(ts, priority, window, c) == (if rest.Some? then Some([v] + rest.value) else None, p)
  {
  }

  lemma HoursStep(ts: TimeSerie, priority: seq<ProviderItem>, window: seq<PTime>, c: Cursor)
    requires window != [] && Hours(ts, priority, window, c).0.Some?
    ensures var (h, c1) := ReadHour(ts, priority, window[0], c);
            var (rest, p) := Hours(ts, priority, window[1..], Next(c1, window[0]));
            h.Some? && rest.Some? && Hours(ts, priority, window, c) == (Some([h.value] + rest.value), p)
  {
  }

  /** When all hours can be read, the means alone can be read, they are the same, and the
      provider afterwards is the same. */
  lemma {:induction false} SameMeans(ts: TimeSerie, priority: seq<ProviderItem>, window: seq<PTime>, c: Cursor)
    requires NamesGiven(priority) && c.fromTime.At? && forall i | 0 <= i < |window| :: window[i].At?
    requires Hours(ts, priority, window, c).0.Some?
    ensures Means(ts, priority, window, c) ==
            (Some(MeansOf(Hours(ts, priority, window, c).0.value)), Hours(ts, priority, window, c).1)
    decreases |window|
  {
    if window == [] {
    } else {
      HoursStep(ts, priority, window, c);
      HourReadsMean(ts, priority, window[0], c);
      var (h, c1) := ReadHour(ts, priority, window[0], c);
      var next := Next(c1, window[0]);
      SameMeans(ts, priority, window[1..], next);
      MeansStep(ts, priority, window, c, h.value.mean, c1);
      MeansOfCons(h.value, Hours(ts, priority, window[1..], next).0.value);
    }
  }

  lemma MeansOfCons(h: Hour, rest: seq<Hour>)
    ensures MeansOf([h] + rest) == [h.mean] + MeansOf(rest)
  {
  }

  lemma {:induction false} RainIsSum(v: seq<real>)
    requires forall i | 0 <= i < |v| :: v[i] >= 0.0
    ensures SumOfRain(v) == Sum(v) && Sum(v) >= 0.0
  {
    if v == [] {
    } else {
      RainIsSum(v[..|v| - 1]);
    }
  }

  // ---------------------------------------------------------------- a period

  datatype MeanResult = MeanResult(sum: Option<real>, backTime: PTime, provider: string)

  function PeriodStart(t: PTime, hoursBack: int): (r: PTime) {
    Plus(t, -hoursBack * HOUR)
  }

  function PeriodWindow(ts: TimeSerie, t: PTime, hoursBack: int): (r: seq<PTime>) {
    Window(ts, Plus(PeriodStart(t, hoursBack), HOUR), t)
  }

  function StartCursor(t: PTime, hoursBack: int, provider: string, tryHard: bool): (r: Cursor) {
    Cursor(PeriodStart(t, hoursBack), false, provider, tryHard)
  }

  /** `PRECIP_MEAN`. */
  function PeriodMean(ts: TimeSerie, priority: seq<ProviderItem>, t: PTime, hoursBack: int, provider: string,
                      tryHard: bool)
    : (r: MeanResult)
  {
    var window := PeriodWindow(ts, t, hoursBack);
    var (means, p) := Means(ts, priority, window, StartCursor(t, hoursBack, provider, tryHard));
    if means.None? || window == [] then MeanResult(None, NotADateTime, p)
    else MeanResult(Some(Max(0.0, SumOfRain(means.value))), PeriodStart(t, hoursBack), p)
  }

  /** The hourly values that `PRECIP_MIN_MAX_MEAN` collects. */
  function PeriodHours(ts: TimeSerie, priority: seq<ProviderItem>, t: PTime, hoursBack: int, provider: string,
                       tryHard: bool)
    : (r: (Option<seq<Hour>>, string))
  {
    if Plus(PeriodStart(t, hoursBack), HOUR) !in ts then (None, provider)
    else Hours(ts, priority, PeriodWindow(ts, t, hoursBack), StartCursor(t, hoursBack, provider, tryHard))
  }

  /** Its result fits the collected hours. */
  ghost predicate IsPeriodAggregate(r: Precip, hoursBack: int, hours: seq<Hour>) {
    && (hoursBack == 1 ==> hours != [])
    && IsAggregate(r, hoursBack, MinsOf(hours), MaxsOf(hours), MeansOf(hours), ProbsOf(hours))
  }

  ghost predicate Increasing(keys: seq<PTime>) {
    forall i, j | 0 <= i < j < |keys| :: keys[i].Before(keys[j])
  }

  lemma {:induction false} FromHolds(keys: seq<PTime>, start: PTime, t: PTime)
    requires Increasing(keys) && start in keys
    ensures var f := From(keys, start); Increasing(f) && f != [] && f[0] == start
    ensures t in From(keys, start) <==> t in keys && !t.Before(start)
  {
    if keys[0] != start {
      FromHolds(keys[1..], start, t);
      assert keys[0].Before(start);
    } else if t in keys && t != start {
      assert start.Before(t);
    }
  }

  lemma {:induction false} UpToHolds(keys: seq<PTime>, stop: PTime, t: PTime)
    requires Increasing(keys)
    ensures Increasing(UpTo(keys, stop))
    ensures UpTo(keys, stop) != [] ==> keys != [] && UpTo(keys, stop)[0] == keys[0]
    ensures t in UpTo(keys, stop) <==> t in keys && !stop.Before(t)
  {
    if keys == [] {
    } else {
      if stop.Before(keys[0]) {
        assert t in keys ==> t == keys[0] || keys[0].Before(t);
      } else {
        UpToHolds(keys[1..], stop, t);
        UpToFollows(keys, stop);
      }
    }
  }

  lemma UpToFollows(keys: seq<PTime>, stop: PTime)
    requires Increasing(keys) && keys != [] && !stop.Before(keys[0]) && Increasing(UpTo(keys[1..], stop))
    requires UpTo(keys[1..], stop) != [] ==> |keys| > 1 && UpTo(keys[1..], stop)[0] == keys[1]
    ensures Increasing(UpTo(keys, stop))
  {
    var rest := UpTo(keys[1..], stop);
    forall i, j | 0 <= i < j < |UpTo(keys, stop)|
      ensures UpTo(keys, stop)[i].Before(UpTo(keys, stop)[j])
    {
      assert UpTo(keys, stop) == [keys[0]] + rest;
      if i == 0 {
        assert keys[0].Before(keys[1]);
        assert j > 1 ==> rest[0].Before(rest[j - 1]);
      }
    }
  }

  /** The window lists in order exactly the to-times of the series from start to stop. */
  lemma WindowHolds(ts: TimeSerie, start: PTime, stop: PTime, t: PTime)
    requires start in ts
    ensures Increasing(Window(ts, start, stop))
    ensures t in Window(ts, start, stop) <==> t in ts && !t.Before(start) && !stop.Before(t)
  {
    var keys := Ordered(ts.Keys);
    OrderedIs(ts.Keys);
    FromHolds(keys, start, t);
    UpToHolds(From(keys, start), stop, t);
  }

  lemma WindowIsFinite(ts: TimeSerie, start: PTime, stop: PTime)
    requires start.At? && stop.At?
    ensures forall i | 0 <= i < |Window(ts, start, stop)| :: Window(ts, start, stop)[i].At?
  {
    forall i | 0 <= i < |Window(ts, start, stop)|
      ensures Window(ts, start, stop)[i].At?
    {
      WindowHolds(ts, start, stop, Window(ts, start, stop)[i]);
    }
  }

  lemma FirstTwoDiffer(keys: seq<PTime>)
    requires Increasing(keys) && |keys| > 1
    ensures keys[0] != keys[1]
  {
    assert keys[0].Before(keys[1]);
  }

  lemma OneHourWindow(ts: TimeSerie, t: PTime)
    requires t.At? && t in ts
    ensures |Window(ts, t, t)| == 1
  {
    var w := Window(ts, t, t);
    WindowHolds(ts, t, t, t);
    forall i | 0 <= i < |w|
      ensures w[i] == t
    {
      WindowHolds(ts, t, t, w[i]);
    }
    if |w| > 1 {
      FirstTwoDiffer(w);
    }
  }

  /** The two ways to accumulate the mean agree: from the same state, when the hourly means
      are not negative, `PRECIP_MEAN` succeeds whenever `PRECIP_MIN_MAX_MEAN` does for a
      period with at least one hour, and gives the same mean, start time and provider. */
  lemma MeansAgree(ts: TimeSerie, priority: seq<ProviderItem>, t: PTime, hoursBack: int, provider: string,
                   tryHard: bool, r: Precip)
    requires NamesGiven(priority) && t.At?
    requires PeriodHours(ts, priority, t, hoursBack, provider, tryHard).0.Some?
    requires var hours := PeriodHours(ts, priority, t, hoursBack, provider, tryHard).0.value;
             && hours != [] && IsPeriodAggregate(r, hoursBack, hours)
             && forall i | 0 <= i < |hours| :: hours[i].mean >= 0.0
    ensures PeriodMean(ts, priority, t, hoursBack, provider, tryHard)
         == MeanResult(Some(r.mean), PeriodStart(t, hoursBack),
           PeriodHours(ts, priority, t, hoursBack, provider, tryHard).1)
  {
    var (hours, p) := PeriodHours(ts, priority, t, hoursBack, provider, tryHard);
    var window, c := PeriodWindow(ts, t, hoursBack), StartCursor(t, hoursBack, provider, tryHard);
    WindowIsFinite(ts, Plus(PeriodStart(t, hoursBack), HOUR), t);
    SameMeans(ts, priority, window, c);
    HoursPerWindow(ts, priority, t, hoursBack, provider, tryHard);
    MeanOfPeriod(r, hoursBack, hours.value);
    MeansOfWindow(ts, priority, t, hoursBack, provider, tryHard, MeansOf(hours.value), p);
  }

  lemma HoursPerWindow(ts: TimeSerie, priority: seq<ProviderItem>, t: PTime, hoursBack: int, provider: string,
                       tryHard: bool)
    requires t.At? && PeriodHours(ts, priority, t, hoursBack, provider, tryHard).0.Some?
    ensures var hours := PeriodHours(ts, priority, t, hoursBack, provider, tryHard);
            && hours ==
               Hours(ts, priority, PeriodWindow(ts, t, hoursBack), StartCursor(t, hoursBack, provider, tryHard))
            && (hoursBack == 1 ==> |hours.0.value| == 1)
  {
    if hoursBack == 1 {
      OneHourWindow(ts, t);
    }
  }

  lemma MeansOfWindow(ts: TimeSerie, priority: seq<ProviderItem>, t: PTime, hoursBack: int, provider: string,
                      tryHard: bool,
                      means: seq<real>, p: string)
    requires means != []
    requires Means(ts, priority, PeriodWindow(ts, t, hoursBack), StartCursor(t, hoursBack, provider, tryHard))
             == (Some(means), p)
    ensures PeriodMean(ts, priority, t, hoursBack, provider, tryHard)
         == MeanResult(Some(Max(0.0, SumOfRain(means))), PeriodStart(t, hoursBack), p)
  {
  }

  lemma MeanOfPeriod(r: Precip, hoursBack: int, hours: seq<Hour>)
    requires hours != [] && IsPeriodAggregate(r, hoursBack, hours)
    requires hoursBack == 1 ==> |hours| == 1
    requires forall i | 0 <= i < |hours| :: hours[i].mean >= 0.0
    ensures r.mean == Max(0.0, SumOfRain(MeansOf(hours)))
  {
    RainIsSum(MeansOf(hours));
    if hoursBack == 1 {
      OneHour(MeansOf(hours));
    }
  }

  lemma OneHour(v: seq<real>)
    requires |v| == 1
    ensures Sum(v) == v[0]
  {
    assert v[..0] == [];
  }

  /** The bounds of the aggregated spread for a period of two to six hours. */
  lemma PeriodBounds(hours: seq<Hour>, hoursBack: int, r: Precip)
    requires 2 <= hoursBack <= 6 && |hours| <= |COEFFICIENTS| && IsPeriodAggregate(r, hoursBack, hours)
    requires forall i | 0 <= i < |hours| :: 0.0 <= hours[i].min <= hours[i].mean <= hours[i].max
    ensures r.min.Some? && r.max.Some?
    ensures Sum(MinsOf(hours)) <= r.min.value <= r.mean <= r.max.value && r.mean == Sum(MeansOf(hours))
    ensures forall i | 0 <= i < |hours| :: hours[i].max <= r.max.value
    ensures r.max.value - r.min.value <= Sum(MaxsOf(hours)) - Sum(MinsOf(hours))
  {
    RainIsSum(MeansOf(hours));
    SpreadBounds(MinsOf(hours), MaxsOf(hours), MeansOf(hours), r.min.value, r.max.value);
    forall i | 0 <= i < |hours|
      ensures hours[i].max <= r.max.value
    {
      assert MaxsOf(hours)[i] <= r.max.value;
    }
  }
}
