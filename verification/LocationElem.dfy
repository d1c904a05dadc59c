/**
 The values of one location at one time: `getValue`, and precipitation accumulated over the
 hours before that time.
 */
module LocationElem {
  import opened Times
  import opened NestedMaps
  import opened PointData
  import opened Providers
  import opened ValueLookup
  import opened Precipitation
  import opened PrecipitationSeries
  import opened AccumulatedPrecipitation

  class LocationElem {
    const timeSerie: TimeSerie
    // The priority list from the provider where searches start.
    const priority: seq<ProviderItem>
    var itTimeSerie: PTime
    var forecastProvider: string
    var lastUsedProvider: string

    constructor (timeSerie: TimeSerie, priority: seq<ProviderItem>, itTimeSerie: PTime, forecastProvider: string)
      ensures this.timeSerie == timeSerie && this.priority == priority
      ensures this.itTimeSerie == itTimeSerie && this.forecastProvider == forecastProvider
    {
      this.timeSerie, this.priority := timeSerie, priority;
      this.itTimeSerie, this.forecastProvider := itTimeSerie, forecastProvider;
      lastUsedProvider := "";
    }

    method GetValueImpl(field: Field, fs: FromTimeSerie, fromTime0: PTime, provider0: string)
      returns (value: Option<real>, fromTime: PTime, provider: string)
      modifies this`lastUsedProvider
      ensures var h := Search(fs, field, priority, fromTime0, provider0);
              && value == ValueOf(h) && fromTime == FromAfter(h, fromTime0) && provider == ProviderAfter(h, provider0)
              && lastUsedProvider == UsedAfterSearch(fs, field, priority, fromTime0, provider0, old(lastUsedProvider))
    {
      value, fromTime, provider := None, fromTime0, provider0;
      var h: Option<Hit> := None;
      if !fromTime.IsSpecial() {
        if fromTime !in fs {
          return;
        }
        OneFromTime(fs, field, fromTime, ProvidersFor(priority, provider));
        if provider == "" {
          h := FindProvider(field, fs, fromTime);
        } else {
          SingleProvider(fs, field, fromTime, provider);
          if provider !in fs[fromTime] {
            return;
          }
          lastUsedProvider := provider;
          value := ValueAt(fs, fromTime, provider, field);
          return;
        }
      } else if provider == "" {
        h := FindInAllFroms(field, fs, Ordered(fs.Keys));
      } else {
        h := FindOneInAllFroms(field, fs, Ordered(fs.Keys), provider);
      }
      if h.Some? {
        if provider == "" {
          provider := h.value.provider;
        }
        lastUsedProvider := h.value.provider;
        if fromTime.IsSpecial() {
          fromTime := h.value.from;
        }
        value := Some(h.value.value);
      }
    }

    /** The loop over the from times when neither of the two is given. */
    method FindInAllFroms(field: Field, fs: FromTimeSerie, froms: seq<PTime>) returns (h: Option<Hit>)
      ensures h == FirstHit(fs, field, froms, Names(priority))
    {
      var i := 0;
      while i < |froms|
        invariant 0 <= i <= |froms|
        invariant FirstHit(fs, field, froms, Names(priority)) == FirstHit(fs, field, froms[i..], Names(priority))
      {
        assert froms[i..][1..] == froms[i + 1..];
        h := FindProvider(field, fs, froms[i]);
        if h.Some? {
          return;
        }
        i := i + 1;
      }
      return None;
    }

    /** The loop over the from times for one provider. */
    method FindOneInAllFroms(field: Field, fs: FromTimeSerie, froms: seq<PTime>, provider: string)
      returns (h: Option<Hit>)
      ensures h == FirstHit(fs, field, froms, [provider])
    {
      var i := 0;
      while i < |froms|
        invariant 0 <= i <= |froms|
        invariant FirstHit(fs, field, froms, [provider]) == FirstHit(fs, field, froms[i..], [provider])
      {
        SingleProvider(fs, field, froms[i], provider);
        assert froms[i..][1..] == froms[i + 1..];
        var v := ValueAt(fs, froms[i], provider, field);
        if v.Some? {
          return Some(Hit(v.value, froms[i], provider));
        }
        i := i + 1;
      }
      return None;
    }

    /** The innermost loop of the search over the priority list. */
    method FindProvider(field: Field, fs: FromTimeSerie, from: PTime) returns (h: Option<Hit>)
      ensures h == FirstProvider(fs, field, from, Names(priority))
    {
      var names := Names(priority);
      var i := 0;
      while i < |priority|
        invariant 0 <= i <= |priority|
        invariant FirstProvider(fs, field, from, names) == FirstProvider(fs, field, from, names[i..])
      {
        assert names[i..][1..] == names[i + 1..];
        var v := ValueAt(fs, from, priority[i].Name(), field);
        if v.Some? {
          return Some(Hit(v.value, from, priority[i].Name()));
        }
        i := i + 1;
      }
      return None;
    }

    method GetValue(field: Field, fs: FromTimeSerie, fromTime0: PTime, provider0: string,
                    cleanProvider: bool, cleanFromTime: bool)
      returns (value: Option<real>, fromTime: PTime, provider: string)
      modifies this`lastUsedProvider
      ensures Found(value, fromTime, provider)
           == GetValueOf(fs, field, priority, fromTime0, provider0, cleanProvider, cleanFromTime)
      ensures lastUsedProvider
           == UsedAfter(fs, field, priority, fromTime0, provider0, cleanProvider, cleanFromTime, old(lastUsedProvider))
    {
      value, fromTime, provider := GetValueImpl(field, fs, fromTime0, provider0);
      if value.None? && provider != "" && !cleanProvider {
        value, fromTime := TrySameName(field, fs, fromTime, Prefix(provider));
      }
      if value.None? {
        var retry := false;
        if provider != "" && cleanProvider {
          provider := "";
          retry := true;
        }
        if cleanFromTime {
          fromTime := NotADateTime;
          retry := true;
        }
        if retry {
          value, fromTime, provider := GetValueImpl(field, fs, fromTime, provider);
        }
      }
    }

    /** The loop of `getValue` over the providers with the same name. */
    method TrySameName(field: Field, fs: FromTimeSerie, fromTime0: PTime, prefix: string)
      returns (value: Option<real>, fromTime: PTime)
      modifies this`lastUsedProvider
      ensures var h := SearchSameName(fs, field, priority, priority, prefix, fromTime0);
              value == ValueOf(h) && fromTime == FromAfter(h, fromTime0)
      ensures lastUsedProvider
              == UsedAfterSameName(fs, field, priority, priority, prefix, fromTime0, old(lastUsedProvider))
    {
      value, fromTime := None, fromTime0;
      var i := 0;
      while i < |priority|
        invariant 0 <= i <= |priority|
        invariant value.None? && fromTime == fromTime0
        invariant SearchSameName(fs, field, priority, priority, prefix, fromTime0)
               == SearchSameName(fs, field, priority, priority[i..], prefix, fromTime0)
        invariant UsedAfterSameName(fs, field, priority, priority, prefix, fromTime0, old(lastUsedProvider))
               == UsedAfterSameName(fs, field, priority, priority[i..], prefix, fromTime0, lastUsedProvider)
      {
        SameNameStep(fs, field, priority, i, prefix, fromTime0, lastUsedProvider);
        if priority[i].provider == prefix {
          var tmpProvider;
          value, fromTime, tmpProvider := GetValueImpl(field, fs, fromTime, priority[i].Name());
          if value.Some? {
            return;
          }
        }
        i := i + 1;
      }
    }

    /** A search in the data of another to-time for the forecast provider. */
    method GetForecast(field: Field, it: PTime, fromTime0: PTime, cleanProvider: bool, cleanFromTime: bool)
      returns (value: Option<real>, fromTime: PTime)
      modifies this`lastUsedProvider, this`forecastProvider
      ensures Found(value, fromTime, forecastProvider)
           == GetValueOf(Get(timeSerie, it, map[]), field, priority, fromTime0, old(forecastProvider), cleanProvider,
             cleanFromTime)
    {
      var provider;
      value, fromTime, provider :=
        GetValue(field, Get(timeSerie, it, map[]), fromTime0, forecastProvider, cleanProvider, cleanFromTime);
      forecastProvider := provider;
    }

    /** The mean of one hour, as both loops read it. */
    method ReadMeanOfHour(it: PTime, fromTime0: PTime, isEqual0: bool, tryHard: bool)
      returns (value: Option<real>, fromTime: PTime, isEqual: bool)
      modifies this`lastUsedProvider, this`forecastProvider
      ensures (value, Cursor(fromTime, isEqual, forecastProvider, tryHard))
           == ReadMean(timeSerie, priority, it, Cursor(fromTime0, isEqual0, old(forecastProvider), tryHard))
    {
      fromTime, isEqual := fromTime0, isEqual0;
      if isEqual {
        fromTime := it;
      }
      value, fromTime := GetForecast(MEAN, it, fromTime, tryHard, false);
      if value.None? && !isEqual {
        isEqual := true;
        fromTime := it;
        value, fromTime := GetForecast(MEAN, it, fromTime, tryHard, false);
      }
    }

    /** The loop of `PRECIP_MEAN` over the hours of the period. */
    method AccumulateMeans(window: seq<PTime>, fromTime0: PTime, tryHard: bool)
      returns (ok: bool, sumPrecip: real, count: nat)
      modifies this`lastUsedProvider, this`forecastProvider
      ensures var (means, p) := Means(timeSerie, priority, window,
              Cursor(fromTime0, false, old(forecastProvider), tryHard));
              && forecastProvider == p && ok == means.Some?
              && (ok ==> sumPrecip == SumOfRain(means.value) && count == |window|)
    {
      sumPrecip, count := 0.0, 0;
      var fromTime, isEqual, myTryHard := fromTime0, false, tryHard;
      ghost var c := Cursor(fromTime, isEqual, forecastProvider, myTryHard);
      ghost var all := Means(timeSerie, priority, window, c);
      ghost var done: seq<real> := [];
      assert window[0..] == window;
      AfterEnds(done, all);
      for i := 0 to |window|
        invariant count == i && sumPrecip == SumOfRain(done)
        invariant c == Cursor(fromTime, isEqual, forecastProvider, myTryHard)
        invariant all == After(done, Means(timeSerie, priority, window[i..], c))
      {
        var it := window[i];
        MeansAfter(timeSerie, priority, window, i, c, done);
        var precipNow;
        precipNow, fromTime, isEqual := ReadMeanOfHour(it, fromTime, isEqual, myTryHard);
        fromTime := it;
        if precipNow.None? {
          return false, sumPrecip, count;
        }
        myTryHard := false;
        sumPrecip := sumPrecip + Max(0.0, precipNow.value);
        count := count + 1;
        RainOfOneMore(done, precipNow.value);
        done := done + [precipNow.value];
        c := Cursor(fromTime, isEqual, forecastProvider, myTryHard);
      }
      AfterEnds(done, (Some([]), c.provider));
      ok := true;
    }

    method PrecipMean(hoursBack: int, tryHard: bool) returns (precip: Option<real>, backTime: PTime)
      modifies this`lastUsedProvider, this`forecastProvider
      ensures MeanResult(precip, backTime, forecastProvider)
           == PeriodMean(timeSerie, priority, itTimeSerie, hoursBack, old(forecastProvider), tryHard)
    {
      var fromTime := PeriodStart(itTimeSerie, hoursBack);
      var ok, sumPrecip, count := AccumulateMeans(PeriodWindow(timeSerie, itTimeSerie, hoursBack), fromTime, tryHard);
      if !ok || count == 0 {
        return None, NotADateTime;
      }
      backTime := fromTime;
      precip := Some(Max(0.0, sumPrecip));
    }

    /** The other three values of an hour. */
    method ReadRestOfHour(it: PTime, fromTime0: PTime, mean: real, ghost c: Cursor)
      returns (h: Option<Hour>, fromTime: PTime)
      requires c.fromTime == fromTime0 && c.provider == forecastProvider
      modifies this`lastUsedProvider, this`forecastProvider
      ensures (h, c.(fromTime := fromTime, provider := forecastProvider))
           == ReadRest(Get(timeSerie, it, map[]), priority, mean, c)
    {
      var precipMin, precipMax, precipProb;
      precipMin, fromTime := GetForecast(MIN, it, fromTime0, false, false);
      if precipMin.None? {
        return None, fromTime;
      }
      precipMax, fromTime := GetForecast(MAX, it, fromTime, false, false);
      if precipMax.None? {
        return None, fromTime;
      }
      precipProb, fromTime := GetForecast(PROBABILITY, it, fromTime, false, false);
      h := Some(Hour(precipMin.value, precipMax.value, mean, precipProb));
    }

    /** All four values of an hour. */
    method ReadValuesOfHour(it: PTime, fromTime0: PTime, isEqual0: bool, tryHard: bool)
      returns (h: Option<Hour>, fromTime: PTime, isEqual: bool)
      modifies this`lastUsedProvider, this`forecastProvider
      ensures (h, Cursor(fromTime, isEqual, forecastProvider, tryHard))
           == ReadHour(timeSerie, priority, it, Cursor(fromTime0, isEqual0, old(forecastProvider), tryHard))
    {
      var precipMean;
      precipMean, fromTime, isEqual := ReadMeanOfHour(it, fromTime0, isEqual0, tryHard);
      if precipMean.None? {
        return None, fromTime, isEqual;
      }
      h, fromTime := ReadRestOfHour(it, fromTime, precipMean.value,
                                    Cursor(fromTime, isEqual, forecastProvider, tryHard));
    }

    /** The loop of `PRECIP_MIN_MAX_MEAN` over the hours of the period. */
    method CollectHours(window: seq<PTime>, fromTime0: PTime, tryHard: bool)
      returns (ok: bool, min: seq<real>, max: seq<real>, mean: seq<real>, prob: seq<Option<real>>)
      modifies this`lastUsedProvider, this`forecastProvider
      ensures var (hours, p) := Hours(timeSerie, priority, window,
              Cursor(fromTime0, false, old(forecastProvider), tryHard));
              && forecastProvider == p && ok == hours.Some?
              && (ok ==> Columns(hours.value, min, max, mean, prob))
    {
      min, max, mean, prob := [], [], [], [];
      var fromTime, isEqual, myTryHard := fromTime0, false, tryHard;
      ghost var c := Cursor(fromTime, isEqual, forecastProvider, myTryHard);
      ghost var all := Hours(timeSerie, priority, window, c);
      ghost var done: seq<Hour> := [];
      assert window[0..] == window;
      AfterEnds(done, all);
      for i := 0 to |window|
        invariant Columns(done, min, max, mean, prob)
        invariant c == Cursor(fromTime, isEqual, forecastProvider, myTryHard)
        invariant all == After(done, Hours(timeSerie, priority, window[i..], c))
      {
        var it := window[i];
        HoursAfter(timeSerie, priority, window, i, c, done);
        var h;
        h, fromTime, isEqual := ReadValuesOfHour(it, fromTime, isEqual, myTryHard);
        if h.None? {
          ok := false;
          return;
        }
        fromTime, myTryHard := it, false;
        ColumnsOneMore(done, h.value, min, max, mean, prob);
        min, max, mean, prob := min + [h.value.min], max + [h.value.max], mean + [h.value.mean], prob + [h.value.prob];
        done := done + [h.value];
        c := Cursor(fromTime, isEqual, forecastProvider, myTryHard);
      }
      AfterEnds(done, (Some([]), c.provider));
      ok := true;
    }

    method PrecipMinMaxMean(hoursBack: int, tryHard: bool) returns (ok: bool, backTime: PTime, r: Precip)
      requires itTimeSerie.At?
      modifies this`lastUsedProvider, this`forecastProvider
      ensures var (hours, p) := PeriodHours(timeSerie, priority, itTimeSerie, hoursBack, old(forecastProvider),
              tryHard);
              && forecastProvider == p && ok == hours.Some?
              && backTime == (if ok then PeriodStart(itTimeSerie, hoursBack) else NotADateTime)
              && (ok ==> IsPeriodAggregate(r, hoursBack, hours.value))
    {
      backTime, r := NotADateTime, Precip(None, None, 0.0, None);
      var fromTime := PeriodStart(itTimeSerie, hoursBack);
      var startTime := Plus(fromTime, HOUR);
      if startTime !in timeSerie {
        return false, backTime, r;
      }
      if hoursBack == 1 {
        OneHourWindow(timeSerie, itTimeSerie);
      }
      var min, max, mean, prob;
      ok, min, max, mean, prob := CollectHours(PeriodWindow(timeSerie, itTimeSerie, hoursBack), fromTime, tryHard);
      if ok {
        backTime := fromTime;
        ghost var hours := PeriodHours(timeSerie, priority, itTimeSerie, hoursBack, old(forecastProvider),
          tryHard).0.value;
        r := AggregateColumns(hoursBack, hours, min, max, mean, prob);
      }
    }

    method PrecipN(hoursBack: int, tryHard: bool) returns (precip: Option<real>, backTime: PTime)
      requires itTimeSerie.At? && itTimeSerie in timeSerie
      modifies this`lastUsedProvider, this`forecastProvider
      ensures MeanResult(precip, backTime, forecastProvider)
           == PeriodAmount(timeSerie, priority, itTimeSerie, hoursBack, old(forecastProvider), tryHard)
    {
      var precipNow, fromTime := GetForecast(ACCUMULATED, itTimeSerie, NotADateTime, tryHard, true);
      if precipNow.None? || fromTime.IsSpecial() {
        return None, NotADateTime;
      }
      precip, backTime := DifferenceFrom(hoursBack, tryHard, precipNow.value, fromTime);
    }

    /** `PRECIP_N` after the search for the accumulated value. */
    method DifferenceFrom(hoursBack: int, tryHard: bool, precipNow: real, fromTime0: PTime)
      returns (precip: Option<real>, backTime: PTime)
      requires itTimeSerie.At? && itTimeSerie in timeSerie && fromTime0.At?
      modifies this`lastUsedProvider, this`forecastProvider
      ensures MeanResult(precip, backTime, forecastProvider)
           == Since(timeSerie, priority, itTimeSerie, hoursBack, precipNow, fromTime0, old(forecastProvider), tryHard)
    {
      var back := PeriodStart(itTimeSerie, hoursBack);
      var fromTime, precipBack := fromTime0, None;
      if fromTime == itTimeSerie {
        OrderedIs(timeSerie.Keys);
        var keys := Ordered(timeSerie.Keys);
        BehindTheFirst(timeSerie, Position(keys, itTimeSerie), hoursBack);
        var found := WalkBack(keys, Position(keys, itTimeSerie), back);
        if !found {
          return None, NotADateTime;
        }
        precipBack, fromTime := GetForecast(ACCUMULATED, back, NotADateTime, tryHard, false);
      } else if HoursBetween(itTimeSerie, fromTime) == hoursBack {
        return Some(Max(0.0, precipNow)), back;
      } else {
        if back !in timeSerie {
          return None, NotADateTime;
        }
        precipBack, fromTime := GetForecast(ACCUMULATED, back, fromTime, tryHard, false);
      }
      if precipBack.None? {
        return None, NotADateTime;
      }
      return Some(Max(0.0, Max(0.0, precipNow) - Max(0.0, precipBack.value))), back;
    }
  }

  /** The walk of `PRECIP_N` back through the time series. */
  method WalkBack(keys: seq<PTime>, start: nat, backTime: PTime) returns (found: bool)
    requires forall j, k | 0 <= j < k < |keys| :: keys[j].Before(keys[k])
    requires start < |keys|
    ensures found == exists b | 0 < b <= start :: keys[b] == backTime
  {
    var i := start;
    while i != 0 && backTime.Before(keys[i])
      invariant 0 <= i <= start
      invariant forall k | i < k <= start :: backTime.Before(keys[k])
    {
      i := i - 1;
    }
    WalkBackFinds(keys, start, i, backTime);
    found := i != 0 && keys[i] == backTime;
  }

  function Position(keys: seq<PTime>, t: PTime): (i: nat)
    requires t in keys
    ensures i < |keys| && keys[i] == t
  {
    if keys[0] == t then 0 else 1 + Position(keys[1..], t)
  }

  /** The walk stops at the time looked for, if that is behind the first time. */
  lemma WalkBackFinds(keys: seq<PTime>, start: nat, i: nat, backTime: PTime)
    requires forall j, k | 0 <= j < k < |keys| :: keys[j].Before(keys[k])
    requires i <= start < |keys|
    requires forall k | i < k <= start :: backTime.Before(keys[k])
    requires i != 0 ==> !backTime.Before(keys[i])
    ensures i != 0 && keys[i] == backTime <==> exists b | 0 < b <= start :: keys[b] == backTime
  {
    if b :| 0 < b <= start && keys[b] == backTime {
      assert b <= i;
    }
  }

  lemma PositionsOrdered(keys: seq<PTime>, a: nat, b: nat)
    requires forall j, k | 0 <= j < k < |keys| :: keys[j].Before(keys[k])
    requires a < |keys| && b < |keys|
    ensures keys[a].Before(keys[b]) <==> a < b
  {
    if b < a {
      assert keys[b].Before(keys[a]);
    }
  }

  lemma BehindTheFirst(ts: TimeSerie, start: nat, hoursBack: int)
    requires start < |Ordered(ts.Keys)| && Ordered(ts.Keys)[start].At?
    ensures var keys := Ordered(ts.Keys);
            var backTime := PeriodStart(keys[start], hoursBack);
            StartsAt(ts, backTime, hoursBack) <==> exists b | 0 < b <= start :: keys[b] == backTime
  {
    var keys := Ordered(ts.Keys);
    var backTime := PeriodStart(keys[start], hoursBack);
    OrderedIs(ts.Keys);
    if StartsAt(ts, backTime, hoursBack) {
      var u :| u in ts && u.Before(backTime);
      var a, b := Position(keys, u), Position(keys, backTime);
      PositionsOrdered(keys, a, b);
      PositionsOrdered(keys, start, b);
      assert 0 < b <= start && keys[b] == backTime;
    }
    if b :| 0 < b <= start && keys[b] == backTime {
      PositionsOrdered(keys, 0, b);
      PositionsOrdered(keys, start, b);
      assert keys[0] in keys && keys[b] in keys;
    }
  }

  lemma SameNameStep(fs: FromTimeSerie, field: Field, priority: seq<ProviderItem>, i: nat, prefix: string,
                     fromTime: PTime,
                     last: string)
    requires i < |priority|
    ensures var h := Search(fs, field, priority, fromTime, priority[i].Name());
            var used := UsedAfterSearch(fs, field, priority, fromTime, priority[i].Name(), last);
            && SearchSameName(fs, field, priority, priority[i..], prefix, fromTime)
               == (if priority[i].provider == prefix && h.Some? then h
                   else SearchSameName(fs, field, priority, priority[i + 1..], prefix, fromTime))
            && UsedAfterSameName(fs, field, priority, priority[i..], prefix, fromTime, last)
               == (if priority[i].provider != prefix
                   then UsedAfterSameName(fs, field, priority, priority[i + 1..], prefix, fromTime, last)
                   else if h.Some? then used
                   else UsedAfterSameName(fs, field, priority, priority[i + 1..], prefix, fromTime, used))
  {
    assert priority[i..][0] == priority[i] && priority[i..][1..] == priority[i + 1..];
  }

  method AggregateColumns(hoursBack: int, ghost hours: seq<Hour>, min: seq<real>, max: seq<real>, mean: seq<real>,
                          prob: seq<Option<real>>)
    returns (r: Precip)
    requires Columns(hours, min, max, mean, prob)
    requires hoursBack == 1 ==> hours != []
    ensures IsPeriodAggregate(r, hoursBack, hours)
  {
    r := Aggregate(hoursBack, min, max, mean, prob);
  }

  /** What has been collected, followed by what the rest gives. */
  ghost function After<T>(done: seq<T>, rest: (Option<seq<T>>, string)): (r: (Option<seq<T>>, string)) {
    (if rest.0.Some? then Some(done + rest.0.value) else None, rest.1)
  }

  lemma AfterEnds<T>(done: seq<T>, rest: (Option<seq<T>>, string))
    ensures After([], rest) == rest
    ensures rest.0 == Some([]) ==> After(done, rest).0 == Some(done)
  {
    if rest.0.Some? {
      assert [] + rest.0.value == rest.0.value;
      assert rest.0.value == [] ==> done + rest.0.value == done;
    }
  }

  lemma AfterOneMore<T>(done: seq<T>, v: T, rest: (Option<seq<T>>, string))
    ensures After(done, (if rest.0.Some? then Some([v] + rest.0.value) else None, rest.1)) == After(done + [v], rest)
  {
    if rest.0.Some? {
      assert done + [v] + rest.0.value == done + ([v] + rest.0.value);
    }
  }

  /** One pass of the loop in `PRECIP_MEAN`. */
  lemma MeansAfter(ts: TimeSerie, priority: seq<ProviderItem>, window: seq<PTime>, i: nat, c: Cursor, done: seq<real>)
    requires i < |window|
    ensures var (v, c1) := ReadMean(ts, priority, window[i], c);
            After(done, Means(ts, priority, window[i..], c)) ==
            if v.None? then (None, c1.provider)
            else After(done + [v.value], Means(ts, priority, window[i + 1..], Next(c1, window[i])))
  {
    var (v, c1) := ReadMean(ts, priority, window[i], c);
    assert window[i..][1..] == window[i + 1..];
    if v.Some? {
      MeansStep(ts, priority, window[i..], c, v.value, c1);
      AfterOneMore(done, v.value, Means(ts, priority, window[i + 1..], Next(c1, window[i])));
    }
  }

  lemma RainOfOneMore(done: seq<real>, v: real)
    ensures SumOfRain(done + [v]) == SumOfRain(done) + Max(0.0, v)
  {
    assert (done + [v])[..|done|] == done;
  }

  /** One pass of the loop in `PRECIP_MIN_MAX_MEAN`. */
  lemma HoursAfter(ts: TimeSerie, priority: seq<ProviderItem>, window: seq<PTime>, i: nat, c: Cursor, done: seq<Hour>)
    requires i < |window|
    ensures var (h, c1) := ReadHour(ts, priority, window[i], c);
            After(done, Hours(ts, priority, window[i..], c)) ==
            if h.None? then (None, c1.provider)
            else After(done + [h.value], Hours(ts, priority, window[i + 1..], Next(c1, window[i])))
  {
    var (h, c1) := ReadHour(ts, priority, window[i], c);
    assert window[i..][1..] == window[i + 1..];
    if h.Some? {
      AfterOneMore(done, h.value, Hours(ts, priority, window[i + 1..], Next(c1, window[i])));
    }
  }

  /** The four vectors hold the columns of the collected hours. */
  ghost predicate Columns(done: seq<Hour>, min: seq<real>, max: seq<real>, mean: seq<real>, prob: seq<Option<real>>) {
    min == MinsOf(done) && max == MaxsOf(done) && mean == MeansOf(done) && prob == ProbsOf(done)
  }

  lemma ColumnsOneMore(done: seq<Hour>, h: Hour, min: seq<real>, max: seq<real>, mean: seq<real>,
                       prob: seq<Option<real>>)
    requires Columns(done, min, max, mean, prob)
    ensures Columns(done + [h], min + [h.min], max + [h.max], mean + [h.mean], prob + [h.prob])
  {
  }
}
