/**
 What the precipitation over a period is read from, hour by hour: values stored from the
 to-time before, and from some hour on values stored with from time equal to to-time.
 */
module HourlyValues {
  import opened Times
  import opened NestedMaps
  import opened PointData
  import opened Providers
  import opened ValueLookup
  import opened Precipitation
  import opened PrecipitationSeries

  // ---------------------------------------------------------------- one value

  /** The value of the first provider of the given name in the list. */
  function NamesakeValue(fs: FromTimeSerie, field: Field, items: seq<ProviderItem>, from: PTime,
                         provider: string): (r: Option<real>)
  {
    if items == [] then None
    else if items[0].provider == provider && ValueAt(fs, from, items[0].Name(), field).Some?
    then ValueAt(fs, from, items[0].Name(), field)
    else NamesakeValue(fs, field, items[1..], from, provider)
  }

  /** The value stored for the provider at this from time; if there is none, that of the first
      provider in the list that differs in the place only. */
  function Stored(fs: FromTimeSerie, field: Field, priority: seq<ProviderItem>, from: PTime,
                  item: ProviderItem): (r: Option<real>)
  {
    var own := ValueAt(fs, from, item.Name(), field);
    if own.Some? then own else NamesakeValue(fs, field, priority, from, item.provider)
  }

  lemma HasAt(fs: FromTimeSerie, field: Field, from: PTime, provider: string)
    requires from.At?
    ensures Has(fs, field, from, provider) <==> ValueAt(fs, from, provider, field).Some?
  {
    if ValueAt(fs, from, provider, field).Some? {
      assert from in fs && LooksAt(fs, from, from);
    }
  }

  lemma {:induction false} NamesakesMissAt(fs: FromTimeSerie, field: Field, items: seq<ProviderItem>, from: PTime,
                                           provider: string)
    requires from.At? && NamesakesMiss(fs, field, from, items, provider)
    ensures NamesakeValue(fs, field, items, from, provider) == None
  {
    if items == [] {
    } else {
      HasAt(fs, field, from, items[0].Name());
      assert forall i | 0 <= i < |items[1..]| :: items[1..][i] == items[i + 1];
      NamesakesMissAt(fs, field, items[1..], from, provider);
    }
  }

  lemma {:induction false} FirstNamesakeAt(fs: FromTimeSerie, field: Field, items: seq<ProviderItem>, from: PTime,
                                           provider: string, i: nat)
    requires from.At? && IsFirstNamesake(fs, field, from, items, provider, i)
    ensures NamesakeValue(fs, field, items, from, provider) == ValueAt(fs, from, items[i].Name(), field)
  {
    HasAt(fs, field, from, items[0].Name());
    if i > 0 {
      assert forall k | 0 <= k < |items[1..]| :: items[1..][k] == items[k + 1];
      FirstNamesakeAt(fs, field, items[1..], from, provider, i - 1);
    }
  }

  /** The providers of the priority list can be told from their names. */
  predicate IsGiven(item: ProviderItem, priority: seq<ProviderItem>) {
    IsNormal(item) && item.Name() != "" && NamesGiven(priority)
  }

  /** A search that is given a provider and a from time gives the stored value, and leaves both
      as they are. */
  lemma ReadGiven(fs: FromTimeSerie, field: Field, priority: seq<ProviderItem>, from: PTime, item: ProviderItem)
    requires IsGiven(item, priority) && from.At?
    ensures GetValueOf(fs, field, priority, from, item.Name(), false, false)
         == Found(Stored(fs, field, priority, from, item), from, item.Name())
  {
    GivenProvider(fs, field, priority, from, item, false);
    HasAt(fs, field, from, item.Name());
    if !Has(fs, field, from, item.Name()) {
      if NamesakesMiss(fs, field, from, priority, item.provider) {
        NamesakesMissAt(fs, field, priority, from, item.provider);
      } else {
        var i: nat :| IsFirstNamesake(fs, field, from, priority, item.provider, i)
                      && IsFound(fs, field, from, priority[i].Name(),
                                 GetValueOf(fs, field, priority, from, item.Name(), false, false));
        FirstNamesakeAt(fs, field, priority, from, item.provider, i);
      }
    }
  }

  // ---------------------------------------------------------------- the hours of a period

  /** What the values of a period are read for. */
  datatype Reading = Reading(ts: TimeSerie, priority: seq<ProviderItem>, item: ProviderItem, window: seq<PTime>,
                             start: PTime)
  {
    /** The to-time before hour i. */
    function Before(i: nat): (t: PTime)
      requires i < |window|
    {
      if i == 0 then start else window[i - 1]
    }

    function Value(field: Field, i: nat, from: PTime): (r: Option<real>)
      requires i < |window|
    {
      Stored(Get(ts, window[i], map[]), field, priority, from, item)
    }

    /** The from times of the values: the to-times before, and from hour k on the own ones. */
    function From(k: nat, i: nat): (t: PTime)
      requires i < |window|
    {
      if i < k then Before(i) else window[i]
    }

    /** k is the first hour whose mean is not stored from the to-time before. */
    predicate IsSwitch(k: nat) {
      && k <= |window|
      && (forall i: nat | i < k :: Value(MEAN, i, Before(i)).Some?)
      && (k < |window| ==> Value(MEAN, k, Before(k)).None?)
    }

    predicate AllThere(k: nat) {
      forall i: nat | i < |window| :: Value(MEAN, i, From(k, i)).Some?
    }

    function ReadMeans(k: nat): (r: seq<real>)
      requires AllThere(k)
    {
      seq(|window|, i requires 0 <= i < |window| => Value(MEAN, i, From(k, i)).value)
    }

    function HourAt(k: nat, i: nat): (r: Option<Hour>)
      requires i < |window|
    {
      var from := From(k, i);
      var mean, min, max := Value(MEAN, i, from), Value(MIN, i, from), Value(MAX, i, from);
      if mean.None? || min.None? || max.None? then None
      else Some(Hour(min.value, max.value, mean.value, Value(PROBABILITY, i, from)))
    }

    predicate AllHoursThere(k: nat) {
      forall i: nat | i < |window| :: HourAt(k, i).Some?
    }

    function ReadHours(k: nat): (r: seq<Hour>)
      requires AllHoursThere(k)
    {
      seq(|window|, i requires 0 <= i < |window| => HourAt(k, i).value)
    }

    /** The same without the first hour. */
    function Tail(): (r: Reading)
      requires window != []
    {
      this.(window := window[1..], start := window[0])
    }

    predicate Given() {
      IsGiven(item, priority) && start.At? && forall i | 0 <= i < |window| :: window[i].At?
    }
  }

  lemma TailIs(r: Reading, k: nat, j: nat)
    requires r.window != [] && (if k == 0 then j == 0 else j == k - 1)
    ensures forall i: nat, field, from | i < |r.Tail().window| ::
              r.Tail().Value(field, i, from) == r.Value(field, i + 1, from)
    ensures forall i: nat | i < |r.Tail().window| :: r.Tail().Before(i) == r.Before(i + 1)
    ensures forall i: nat | i < |r.Tail().window| :: r.Tail().From(j, i) == r.From(k, i + 1)
    ensures forall i: nat | i < |r.Tail().window| :: r.Tail().HourAt(j, i) == r.HourAt(k, i + 1)
  {
  }

  /** The first hour of the period that is not stored from the to-time before. */
  function SwitchAt(r: Reading, i: nat): (k: nat)
    requires i <= |r.window| && forall j: nat | j < i :: r.Value(MEAN, j, r.Before(j)).Some?
    ensures r.IsSwitch(k)
    decreases |r.window| - i
  {
    if i == |r.window| || r.Value(MEAN, i, r.Before(i)).None? then i else SwitchAt(r, i + 1)
  }

  function CursorOf(r: Reading, isEqual: bool): (c: Cursor) {
    Cursor(r.start, isEqual, r.item.Name(), false)
  }

  /** The mean of the first hour. */
  lemma FirstMean(r: Reading, isEqual: bool, k: nat)
    requires r.Given() && r.window != [] && (if isEqual then k == 0 else r.IsSwitch(k))
    ensures ReadMean(r.ts, r.priority, r.window[0], CursorOf(r, isEqual))
         == (r.Value(MEAN, 0, r.From(k, 0)), Cursor(r.From(k, 0), isEqual || k == 0, r.item.Name(), false))
  {
    var fs := Get(r.ts, r.window[0], map[]);
    ReadGiven(fs, MEAN, r.priority, r.start, r.item);
    ReadGiven(fs, MEAN, r.priority, r.window[0], r.item);
    assert k > 0 ==> r.Value(MEAN, 0, r.Before(0)).Some?;
  }

  lemma TailSwitch(r: Reading, isEqual: bool, k: nat)
    requires r.Given() && r.window != [] && (if isEqual then k == 0 else r.IsSwitch(k))
    ensures r.Tail().Given()
    ensures k > 0 ==> r.Tail().IsSwitch(k - 1)
  {
    TailIs(r, k, if k == 0 then 0 else k - 1);
    assert forall i: nat | 0 < i < |r.window| :: r.window[i] == r.window[1..][i - 1];
  }

  lemma TailThere(r: Reading, k: nat, j: nat)
    requires r.window != [] && (if k == 0 then j == 0 else j == k - 1)
    ensures r.AllThere(k) <==> r.Value(MEAN, 0, r.From(k, 0)).Some? && r.Tail().AllThere(j)
  {
    TailIs(r, k, j);
    if r.Value(MEAN, 0, r.From(k, 0)).Some? && r.Tail().AllThere(j) {
      forall i: nat | i < |r.window|
        ensures r.Value(MEAN, i, r.From(k, i)).Some?
      {
        assert i > 0 ==> r.Tail().Value(MEAN, i - 1, r.Tail().From(j, i - 1)).Some?;
      }
    }
    if r.AllThere(k) {
      forall i: nat | i < |r.Tail().window|
        ensures r.Tail().Value(MEAN, i, r.Tail().From(j, i)).Some?
      {
        assert r.Value(MEAN, i + 1, r.From(k, i + 1)).Some?;
      }
    }
  }

  lemma TailHoursThere(r: Reading, k: nat, j: nat)
    requires r.window != [] && (if k == 0 then j == 0 else j == k - 1)
    ensures r.AllHoursThere(k) <==> r.HourAt(k, 0).Some? && r.Tail().AllHoursThere(j)
  {
    TailIs(r, k, j);
    if r.HourAt(k, 0).Some? && r.Tail().AllHoursThere(j) {
      forall i: nat | i < |r.window|
        ensures r.HourAt(k, i).Some?
      {
        assert i > 0 ==> r.Tail().HourAt(j, i - 1).Some?;
      }
    }
    if r.AllHoursThere(k) {
      forall i: nat | i < |r.Tail().window|
        ensures r.Tail().HourAt(j, i).Some?
      {
        assert r.HourAt(k, i + 1).Some?;
      }
    }
  }

  lemma ConsMeans(r: Reading, k: nat, j: nat)
    requires r.window != [] && (if k == 0 then j == 0 else j == k - 1) && r.AllThere(k) && r.Tail().AllThere(j)
    ensures r.ReadMeans(k) == [r.Value(MEAN, 0, r.From(k, 0)).value] + r.Tail().ReadMeans(j)
  {
    TailIs(r, k, j);
    var v := r.Value(MEAN, 0, r.From(k, 0)).value;
    forall i | 0 <= i < |r.window|
      ensures r.ReadMeans(k)[i] == ([v] + r.Tail().ReadMeans(j))[i]
    {
      assert i > 0 ==> r.Tail().Value(MEAN, i - 1, r.Tail().From(j, i - 1)) == r.Value(MEAN, i, r.From(k, i));
    }
  }

  lemma ConsHours(r: Reading, k: nat, j: nat)
    requires r.window != [] && (if k == 0 then j == 0 else j == k - 1)
    requires r.AllHoursThere(k) && r.Tail().AllHoursThere(j)
    ensures r.ReadHours(k) == [r.HourAt(k, 0).value] + r.Tail().ReadHours(j)
  {
    TailIs(r, k, j);
    var h := r.HourAt(k, 0).value;
    forall i | 0 <= i < |r.window|
      ensures r.ReadHours(k)[i] == ([h] + r.Tail().ReadHours(j))[i]
    {
      assert i > 0 ==> r.Tail().HourAt(j, i - 1) == r.HourAt(k, i);
    }
  }

  lemma NextCursor(r: Reading, isEqual: bool, from: PTime)
    requires r.window != []
    ensures Next(Cursor(from, isEqual, r.item.Name(), false), r.window[0]) == CursorOf(r.Tail(), isEqual)
  {
  }

  /** The means that the loop collects. */
  lemma {:induction false} MeansAre(r: Reading, isEqual: bool, k: nat)
    requires r.Given() && (if isEqual then k == 0 else r.IsSwitch(k))
    ensures Means(r.ts, r.priority, r.window, CursorOf(r, isEqual)).0
         == if r.AllThere(k) then Some(r.ReadMeans(k)) else None
    ensures Means(r.ts, r.priority, r.window, CursorOf(r, isEqual)).1 == r.item.Name()
    decreases |r.window|
  {
    if r.window == [] {
      assert r.AllThere(k) && r.ReadMeans(k) == [];
    } else {
      var j := if k == 0 then 0 else k - 1;
      FirstMean(r, isEqual, k);
      TailSwitch(r, isEqual, k);
      TailThere(r, k, j);
      NextCursor(r, isEqual || k == 0, r.From(k, 0));
      MeansAre(r.Tail(), isEqual || k == 0, j);
      if r.AllThere(k) {
        ConsMeans(r, k, j);
      }
    }
  }

  /** All values of the first hour. */
  lemma FirstHour(r: Reading, isEqual: bool, k: nat)
    requires r.Given() && r.window != [] && (if isEqual then k == 0 else r.IsSwitch(k))
    ensures ReadHour(r.ts, r.priority, r.window[0], CursorOf(r, isEqual))
         == (r.HourAt(k, 0), Cursor(r.From(k, 0), isEqual || k == 0, r.item.Name(), false))
  {
    var fs, from := Get(r.ts, r.window[0], map[]), r.From(k, 0);
    FirstMean(r, isEqual, k);
    ReadGiven(fs, MIN, r.priority, from, r.item);
    ReadGiven(fs, MAX, r.priority, from, r.item);
    ReadGiven(fs, PROBABILITY, r.priority, from, r.item);
  }

  /** The hours that the loop collects. */
  lemma {:induction false} HoursAre(r: Reading, isEqual: bool, k: nat)
    requires r.Given() && (if isEqual then k == 0 else r.IsSwitch(k))
    ensures Hours(r.ts, r.priority, r.window, CursorOf(r, isEqual)).0
         == if r.AllHoursThere(k) then Some(r.ReadHours(k)) else None
    ensures Hours(r.ts, r.priority, r.window, CursorOf(r, isEqual)).1 == r.item.Name()
    decreases |r.window|
  {
    if r.window == [] {
      assert r.AllHoursThere(k) && r.ReadHours(k) == [];
    } else {
      var j := if k == 0 then 0 else k - 1;
      FirstHour(r, isEqual, k);
      TailSwitch(r, isEqual, k);
      TailHoursThere(r, k, j);
      NextCursor(r, isEqual || k == 0, r.From(k, 0));
      HoursAre(r.Tail(), isEqual || k == 0, j);
      if r.AllHoursThere(k) {
        ConsHours(r, k, j);
      }
    }
  }

  // ---------------------------------------------------------------- the period

  /** The hours of the period that ends at t. */
  function PeriodOf(ts: TimeSerie, priority: seq<ProviderItem>, t: PTime, hoursBack: int,
                    item: ProviderItem): (r: Reading)
  {
    Reading(ts, priority, item, PeriodWindow(ts, t, hoursBack), PeriodStart(t, hoursBack))
  }

  lemma PeriodIsGiven(ts: TimeSerie, priority: seq<ProviderItem>, t: PTime, hoursBack: int, item: ProviderItem)
    requires IsGiven(item, priority) && t.At?
    ensures PeriodOf(ts, priority, t, hoursBack, item).Given()
  {
    WindowIsFinite(ts, Plus(PeriodStart(t, hoursBack), HOUR), t);
  }

  /** `PRECIP_MEAN` for a given provider: the sum of the means that are stored from the to-time
      before, up to the first hour without one, and with from time equal to to-time from there
      on; nothing when one of these is missing or there is no hour at all. */
  lemma PeriodMeanIs(ts: TimeSerie, priority: seq<ProviderItem>, t: PTime, hoursBack: int, item: ProviderItem, k: nat)
    requires IsGiven(item, priority) && t.At?
    requires PeriodOf(ts, priority, t, hoursBack, item).IsSwitch(k)
    ensures var r := PeriodOf(ts, priority, t, hoursBack, item);
            PeriodMean(ts, priority, t, hoursBack, item.Name(), false)
            == if r.window != [] && r.AllThere(k)
               then MeanResult(Some(Max(0.0, SumOfRain(r.ReadMeans(k)))), PeriodStart(t, hoursBack), item.Name())
               else MeanResult(None, NotADateTime, item.Name())
  {
    PeriodIsGiven(ts, priority, t, hoursBack, item);
    MeansAre(PeriodOf(ts, priority, t, hoursBack, item), false, k);
  }

  /** The hourly values of `PRECIP_MIN_MAX_MEAN` are read from the same from times. */
  lemma PeriodHoursAre(ts: TimeSerie, priority: seq<ProviderItem>, t: PTime, hoursBack: int, item: ProviderItem, k: nat)
    requires IsGiven(item, priority) && t.At?
    requires PeriodOf(ts, priority, t, hoursBack, item).IsSwitch(k)
    ensures var r := PeriodOf(ts, priority, t, hoursBack, item);
            PeriodHours(ts, priority, t, hoursBack, item.Name(), false)
            == (if Plus(PeriodStart(t, hoursBack), HOUR) in ts && r.AllHoursThere(k)
                then Some(r.ReadHours(k)) else None,
                item.Name())
  {
    PeriodIsGiven(ts, priority, t, hoursBack, item);
    HoursAre(PeriodOf(ts, priority, t, hoursBack, item), false, k);
  }

  /** The period in seconds: its values begin with the to-time one hour after its start, if the
      series has that, and end with its own to-time. */
  lemma PeriodIs(ts: TimeSerie, priority: seq<ProviderItem>, seconds: int, hoursBack: int, item: ProviderItem, u: PTime)
    ensures var r := PeriodOf(ts, priority, At(seconds), hoursBack, item);
            var first := seconds - 3600 * hoursBack + 3600;
            && r.start == At(seconds - 3600 * hoursBack)
            && Increasing(r.window)
            && (u in r.window <==> At(first) in ts && u in ts && u.At? && first <= u.seconds <= seconds)
  {
    var first := Plus(PeriodStart(At(seconds), hoursBack), HOUR);
    if first in ts {
      WindowHolds(ts, first, At(seconds), u);
    }
  }

  // ---------------------------------------------------------------- the first hour of all

  /** The provider whose mean is read first when none is given or the search tries hard: the
      given one, else the first of the list, if they have a mean from the to-time before; else
      the first of the list with from time equal to to-time. */
  function Chosen(fs: FromTimeSerie, priority: seq<ProviderItem>, it: PTime, start: PTime,
                  provider: string): (r: Option<string>)
  {
    var early, equal := FirstProvider(fs, MEAN, start, Names(priority)), FirstProvider(fs, MEAN, it, Names(priority));
    if provider != "" && ValueAt(fs, start, provider, MEAN).Some? then Some(provider)
    else if early.Some? then Some(early.value.provider)
    else if equal.Some? then Some(equal.value.provider)
    else None
  }

  lemma SearchFree(fs: FromTimeSerie, priority: seq<ProviderItem>, from: PTime)
    requires from.At?
    ensures Search(fs, MEAN, priority, from, "") == FirstProvider(fs, MEAN, from, Names(priority))
  {
    FirstProviderIs(fs, MEAN, from, Names(priority));
    if from in fs {
      OneFromTime(fs, MEAN, from, Names(priority));
    }
  }

  lemma SearchGiven(fs: FromTimeSerie, priority: seq<ProviderItem>, from: PTime, provider: string)
    requires from.At? && provider != ""
    ensures var v := ValueAt(fs, from, provider, MEAN);
            Search(fs, MEAN, priority, from, provider)
            == if v.Some? then Some(Hit(v.value, from, provider)) else None
  {
    if from in fs {
      OneFromTime(fs, MEAN, from, [provider]);
      SingleProvider(fs, MEAN, from, provider);
    }
  }

  lemma {:induction false} NoNamesakes(fs: FromTimeSerie, priority: seq<ProviderItem>, items: seq<ProviderItem>,
                                       from: PTime, prefix: string)
    requires from.At? && NamesGiven(items)
    requires forall i | 0 <= i < |items| :: ValueAt(fs, from, items[i].Name(), MEAN).None?
    ensures SearchSameName(fs, MEAN, priority, items, prefix, from).None?
  {
    if items == [] {
    } else {
      SearchGiven(fs, priority, from, items[0].Name());
      NoNamesakes(fs, priority, items[1..], from, prefix);
    }
  }

  /** The first search reads what a search for the chosen provider reads. */
  lemma ChosenMean(ts: TimeSerie, priority: seq<ProviderItem>, it: PTime, start: PTime, provider: string, tryHard: bool)
    requires NamesGiven(priority) && start.At? && it.At? && (provider == "" || tryHard)
    ensures var chosen := Chosen(Get(ts, it, map[]), priority, it, start, provider);
            var (v, c) := ReadMean(ts, priority, it, Cursor(start, false, provider, tryHard));
            if chosen.None? then v.None?
            else
              var (w, d) := ReadMean(ts, priority, it, Cursor(start, false, chosen.value, false));
              v.Some? && v == w && c.(tryHard := false) == d
  {
    var fs, names := Get(ts, it, map[]), Names(priority);
    var chosen := Chosen(fs, priority, it, start, provider);
    FirstProviderIs(fs, MEAN, start, names);
    FirstProviderIs(fs, MEAN, it, names);
    SearchFree(fs, priority, start);
    SearchFree(fs, priority, it);
    if provider != "" {
      SearchGiven(fs, priority, start, provider);
    }
    if chosen.Some? {
      ChosenHasName(fs, priority, it, start, provider);
      SearchGiven(fs, priority, start, chosen.value);
      SearchGiven(fs, priority, it, chosen.value);
      if FirstProvider(fs, MEAN, start, names).None? {
        assert forall i | 0 <= i < |priority| :: names[i] == priority[i].Name();
        NoNamesakes(fs, priority, priority, start, Prefix(chosen.value));
      }
    }
  }

  lemma ChosenHasName(fs: FromTimeSerie, priority: seq<ProviderItem>, it: PTime, start: PTime, provider: string)
    requires NamesGiven(priority) && Chosen(fs, priority, it, start, provider).Some?
    ensures Chosen(fs, priority, it, start, provider).value != ""
  {
    FirstProviderIs(fs, MEAN, start, Names(priority));
    FirstProviderIs(fs, MEAN, it, Names(priority));
  }

  /** When no provider is given or it tries hard, `PRECIP_MEAN` is that of the provider that it
      finds in the first hour, and of no other. */
  lemma PeriodMeanChooses(ts: TimeSerie, priority: seq<ProviderItem>, t: PTime, hoursBack: int, provider: string,
                          tryHard: bool)
    requires NamesGiven(priority) && t.At? && (provider == "" || tryHard) && PeriodWindow(ts, t, hoursBack) != []
    ensures var it := PeriodWindow(ts, t, hoursBack)[0];
            var chosen := Chosen(Get(ts, it, map[]), priority, it, PeriodStart(t, hoursBack), provider);
            if chosen.None? then PeriodMean(ts, priority, t, hoursBack, provider, tryHard).sum == None
            else PeriodMean(ts, priority, t, hoursBack, provider, tryHard)
                 == PeriodMean(ts, priority, t, hoursBack, chosen.value, false)
  {
    WindowIsFinite(ts, Plus(PeriodStart(t, hoursBack), HOUR), t);
    ChosenMean(ts, priority, PeriodWindow(ts, t, hoursBack)[0], PeriodStart(t, hoursBack), provider, tryHard);
  }

  lemma RestIgnoresHard(fs: FromTimeSerie, priority: seq<ProviderItem>, mean: real, c: Cursor)
    ensures var (h, c1) := ReadRest(fs, priority, mean, c);
            ReadRest(fs, priority, mean, c.(tryHard := false)) == (h, c1.(tryHard := false))
  {
  }

  /** Only the mean of the first hour is searched for hard. */
  lemma HoursFollow(ts: TimeSerie, priority: seq<ProviderItem>, window: seq<PTime>, c: Cursor, d: Cursor)
    requires window != []
    requires var (v, c1) := ReadMean(ts, priority, window[0], c);
             v.Some? && ReadMean(ts, priority, window[0], d) == (v, c1.(tryHard := false))
    ensures Hours(ts, priority, window, c) == Hours(ts, priority, window, d)
  {
    var (v, c1) := ReadMean(ts, priority, window[0], c);
    RestIgnoresHard(Get(ts, window[0], map[]), priority, v.value, c1);
  }

  /** So it is for the hours of `PRECIP_MIN_MAX_MEAN`. */
  lemma PeriodHoursChoose(ts: TimeSerie, priority: seq<ProviderItem>, t: PTime, hoursBack: int, provider: string,
                          tryHard: bool)
    requires NamesGiven(priority) && t.At? && (provider == "" || tryHard) && PeriodWindow(ts, t, hoursBack) != []
    ensures var it := PeriodWindow(ts, t, hoursBack)[0];
            var chosen := Chosen(Get(ts, it, map[]), priority, it, PeriodStart(t, hoursBack), provider);
            if chosen.None? then PeriodHours(ts, priority, t, hoursBack, provider, tryHard).0 == None
            else PeriodHours(ts, priority, t, hoursBack, provider, tryHard)
                 == PeriodHours(ts, priority, t, hoursBack, chosen.value, false)
  {
    WindowIsFinite(ts, Plus(PeriodStart(t, hoursBack), HOUR), t);
    var window, start := PeriodWindow(ts, t, hoursBack), PeriodStart(t, hoursBack);
    ChosenMean(ts, priority, window[0], start, provider, tryHard);
    var chosen := Chosen(Get(ts, window[0], map[]), priority, window[0], start, provider);
    if chosen.Some? {
      HoursFollow(ts, priority, window, Cursor(start, false, provider, tryHard),
                  Cursor(start, false, chosen.value, false));
    }
  }
}
