/**
 Precipitation of a period as the difference of two accumulated values: `PRECIP_N` as a
 function, and when it adds up over adjacent periods.
 */
module AccumulatedPrecipitation {
  import opened Times
  import opened NestedMaps
  import opened PointData
  import opened Providers
  import opened ValueLookup
  import opened Precipitation
  import opened PrecipitationSeries

  /** The length of a time span in whole hours, without its sign. */
  function HoursBetween(t: PTime, from: PTime): (h: nat)
    requires t.At? && from.At?
    ensures var apart := if from.seconds <= t.seconds then t.seconds - from.seconds else from.seconds - t.seconds;
            h * HOUR <= apart < (h + 1) * HOUR
  {
    (if from.seconds <= t.seconds then t.seconds - from.seconds else from.seconds - t.seconds) / HOUR
  }

  /** Values accumulated up to their own time can be taken back to a time of the series, but
      never to the first one. */
  predicate StartsAt(ts: TimeSerie, backTime: PTime, hoursBack: int) {
    hoursBack >= 0 && backTime in ts && exists u | u in ts :: u.Before(backTime)
  }

  function Difference(now: real, back: Found, backTime: PTime): (r: MeanResult) {
    if back.value.None? then MeanResult(None, NotADateTime, back.provider)
    else MeanResult(Some(Max(0.0, Max(0.0, now) - Max(0.0, back.value.value))), backTime, back.provider)
  }

  /** The rest of `PRECIP_N`, from the point where the accumulated value `now` is known. */
  function Since(ts: TimeSerie, priority: seq<ProviderItem>, t: PTime, hoursBack: int, now: real, from: PTime,
                 provider: string, tryHard: bool): (r: MeanResult)
    requires t.At? && from.At?
  {
    var backTime := PeriodStart(t, hoursBack);
    if from == t then
      if !StartsAt(ts, backTime, hoursBack) then MeanResult(None, NotADateTime, provider)
      else Difference(now,
        GetValueOf(Get(ts, backTime, map[]), ACCUMULATED, priority, NotADateTime, provider, tryHard, false), backTime)
    else if HoursBetween(t, from) == hoursBack then MeanResult(Some(Max(0.0, now)), backTime, provider)
    else if backTime !in ts then MeanResult(None, NotADateTime, provider)
    else Difference(now, GetValueOf(ts[backTime], ACCUMULATED, priority, from, provider, tryHard, false), backTime)
  }

  /** `PRECIP_N`. */
  function PeriodAmount(ts: TimeSerie, priority: seq<ProviderItem>, t: PTime, hoursBack: int, provider: string,
                        tryHard: bool): (r: MeanResult)
    requires t.At?
  {
    var now := GetValueOf(Get(ts, t, map[]), ACCUMULATED, priority, NotADateTime, provider, tryHard, true);
    if now.value.None? || now.fromTime.IsSpecial() then MeanResult(None, NotADateTime, now.provider)
    else Since(ts, priority, t, hoursBack, now.value.value, now.fromTime, now.provider, tryHard)
  }

  // ---------------------------------------------------------------- what is read

  /** The amount, from the values that are read at the end of the period and at its start. */
  predicate IsAmount(ts: TimeSerie, t: PTime, start: PTime, hoursBack: int, now: Found, back: Found, r: Option<real>)
    requires t.At?
  {
    var difference := if back.value.None? || now.value.None? then None
                      else Some(Max(0.0, Max(0.0, now.value.value) - Max(0.0, back.value.value)));
    if now.value.None? || now.fromTime.IsSpecial() then r == None
    else if now.fromTime == t then r == if StartsAt(ts, start, hoursBack) then difference else None
    else if HoursBetween(t, now.fromTime) == hoursBack then r == Some(Max(0.0, now.value.value))
    else r == if start in ts then difference else None
  }

  lemma AmountFollows(ts: TimeSerie, priority: seq<ProviderItem>, t: PTime, start: PTime, hoursBack: int,
                      provider: string, tryHard: bool, now: Found, back: Found)
    requires t.At? && start == PeriodStart(t, hoursBack)
    requires now == GetValueOf(Get(ts, t, map[]), ACCUMULATED, priority, NotADateTime, provider, tryHard, true)
    requires back == GetValueOf(Get(ts, start, map[]), ACCUMULATED, priority,
                                if now.fromTime == t then NotADateTime else now.fromTime, now.provider, tryHard, false)
    ensures var r := PeriodAmount(ts, priority, t, hoursBack, provider, tryHard);
            IsAmount(ts, t, start, hoursBack, now, back, r.sum)
            && r.backTime == if r.sum.Some? then start else NotADateTime
  {
  }

  lemma BackReads(ts: TimeSerie, priority: seq<ProviderItem>, t: PTime, start: PTime, from: PTime, provider: string,
                  tryHard: bool, now: Found)
    requires IsName(provider) && AllNames(priority) && now.value.Some?
    requires IsRead(Get(ts, t, map[]), ACCUMULATED, priority, NotADateTime, provider, tryHard, true, now)
    ensures IsRead(Get(ts, start, map[]), ACCUMULATED, priority, from, now.provider, tryHard, false,
                   GetValueOf(Get(ts, start, map[]), ACCUMULATED, priority, from, now.provider, tryHard, false))
  {
    ReadProvider(Get(ts, t, map[]), ACCUMULATED, priority, NotADateTime, provider, tryHard, true, now);
    GetValueReads(Get(ts, start, map[]), ACCUMULATED, priority, from, now.provider, tryHard, false);
  }

  /** `PRECIP_N` in terms of single values: what is read at the end of the period, and then at
      its start, hoursBack hours earlier, for the provider that was found and at its from time
      unless that is the to-time itself; both times hard if it tries hard. */
  lemma PeriodAmountReads(ts: TimeSerie, priority: seq<ProviderItem>, seconds: int, hoursBack: int, provider: string,
                          tryHard: bool) returns (now: Found, back: Found)
    requires IsName(provider) && AllNames(priority)
    ensures var t, start := At(seconds), At(seconds - 3600 * hoursBack);
            var from := if now.fromTime == t then NotADateTime else now.fromTime;
            && IsRead(Get(ts, t, map[]), ACCUMULATED, priority, NotADateTime, provider, tryHard, true, now)
            && (now.value.Some? ==>
                  IsRead(Get(ts, start, map[]), ACCUMULATED, priority, from, now.provider, tryHard, false, back))
            && var r := PeriodAmount(ts, priority, t, hoursBack, provider, tryHard);
               IsAmount(ts, t, start, hoursBack, now, back, r.sum)
               && r.backTime == if r.sum.Some? then start else NotADateTime
  {
    var t, start := At(seconds), At(seconds - 3600 * hoursBack);
    now := GetValueOf(Get(ts, t, map[]), ACCUMULATED, priority, NotADateTime, provider, tryHard, true);
    var from := if now.fromTime == t then NotADateTime else now.fromTime;
    back := GetValueOf(Get(ts, start, map[]), ACCUMULATED, priority, from, now.provider, tryHard, false);
    GetValueReads(Get(ts, t, map[]), ACCUMULATED, priority, NotADateTime, provider, tryHard, true);
    if now.value.Some? {
      BackReads(ts, priority, t, start, from, provider, tryHard, now);
    }
    AmountFollows(ts, priority, t, start, hoursBack, provider, tryHard, now, back);
  }

  // ---------------------------------------------------------------- one provider

  /** The amount that a provider has accumulated at time t since the time `from`. */
  function Accumulated(ts: TimeSerie, t: PTime, from: PTime, provider: string): (r: Option<real>) {
    ValueAt(Get(ts, t, map[]), from, provider, ACCUMULATED)
  }

  /** Only this provider has accumulated values. */
  ghost predicate OnlyProvider(fs: FromTimeSerie, provider: string) {
    forall f, q :: q != provider ==> ValueAt(fs, f, q, ACCUMULATED).None?
  }

  ghost predicate SingleProviderOnly(ts: TimeSerie, provider: string) {
    forall u | u in ts :: OnlyProvider(ts[u], provider)
  }

  /** The value with the earliest from time. */
  function Oldest(fs: FromTimeSerie, provider: string): (r: Option<Hit>) {
    FirstHit(fs, ACCUMULATED, Ordered(fs.Keys), [provider])
  }

  lemma {:induction false} SameNameMisses(fs: FromTimeSerie, priority: seq<ProviderItem>, items: seq<ProviderItem>,
                                          prefix: string, fromTime: PTime, provider: string)
    requires NamesGiven(items) && provider != "" && OnlyProvider(fs, provider)
    requires Search(fs, ACCUMULATED, priority, fromTime, provider).None?
    ensures SearchSameName(fs, ACCUMULATED, priority, items, prefix, fromTime).None?
  {
    if items == [] {
    } else {
      SearchOne(fs, ACCUMULATED, priority, fromTime, items[0].Name());
      SameNameMisses(fs, priority, items[1..], prefix, fromTime, provider);
    }
  }

  lemma FreeSearchMisses(fs: FromTimeSerie, priority: seq<ProviderItem>, fromTime: PTime, provider: string)
    requires provider != "" && OnlyProvider(fs, provider)
    requires Search(fs, ACCUMULATED, priority, fromTime, provider).None?
    ensures Search(fs, ACCUMULATED, priority, fromTime, "").None?
  {
    SearchOne(fs, ACCUMULATED, priority, fromTime, provider);
    var froms, names := FromsFor(fs, fromTime), Names(priority);
    FirstHitIs(fs, ACCUMULATED, froms, names);
    forall i, j | 0 <= i < |froms| && 0 <= j < |names|
      ensures ValueAt(fs, froms[i], names[j], ACCUMULATED).None?
    {
      assert froms[i] in froms;
    }
  }

  /** With a single provider every search is a search for that provider. */
  lemma OneProvider(fs: FromTimeSerie, priority: seq<ProviderItem>, fromTime: PTime, provider: string, tryHard: bool,
                    cleanFrom: bool)
    requires NamesGiven(priority) && provider != "" && OnlyProvider(fs, provider)
    requires cleanFrom ==> fromTime == NotADateTime
    ensures var h := Search(fs, ACCUMULATED, priority, fromTime, provider);
            var r := GetValueOf(fs, ACCUMULATED, priority, fromTime, provider, tryHard, cleanFrom);
            && r.value == ValueOf(h) && (h.Some? ==> r.fromTime == FromAfter(h, fromTime) && r.provider == provider)
  {
    if Search(fs, ACCUMULATED, priority, fromTime, provider).None? {
      SameNameMisses(fs, priority, priority, Prefix(provider), fromTime, provider);
      FreeSearchMisses(fs, priority, fromTime, provider);
    }
  }

  /** What `PRECIP_N` comes to when there is a single provider. */
  function Amount(ts: TimeSerie, t: PTime, hoursBack: int, provider: string): (r: Option<real>)
    requires t.At?
  {
    var now := Oldest(Get(ts, t, map[]), provider);
    if now.None? || !now.value.from.At? then None
    else AmountSince(ts, t, hoursBack, provider, now.value.value, now.value.from)
  }

  function AmountSince(ts: TimeSerie, t: PTime, hoursBack: int, provider: string, now: real,
                       from: PTime): (r: Option<real>)
    requires t.At? && from.At?
  {
    var backTime := PeriodStart(t, hoursBack);
    if from == t then
      if StartsAt(ts, backTime, hoursBack)
      then Minus(now, ValueOf(Oldest(Get(ts, backTime, map[]), provider)))
      else None
    else if HoursBetween(t, from) == hoursBack then Some(Max(0.0, now))
    else Minus(now, Accumulated(ts, backTime, from, provider))
  }

  function Minus(now: real, back: Option<real>): (r: Option<real>) {
    if back.None? then None else Some(Max(0.0, Max(0.0, now) - Max(0.0, back.value)))
  }

  lemma PrecipNOfOneProvider(ts: TimeSerie, priority: seq<ProviderItem>, t: PTime, hoursBack: int, provider: string,
                             tryHard: bool)
    requires NamesGiven(priority) && provider != "" && t.At?
    requires SingleProviderOnly(ts, provider)
    ensures PeriodAmount(ts, priority, t, hoursBack, provider, tryHard).sum == Amount(ts, t, hoursBack, provider)
  {
    var fs := Get(ts, t, map[]);
    OneProvider(fs, priority, NotADateTime, provider, tryHard, true);
    var now := Oldest(fs, provider);
    if now.Some? && now.value.from.At? {
      SinceOfOneProvider(ts, priority, t, hoursBack, now.value.value, now.value.from, provider, tryHard);
    }
  }

  lemma SinceOfOneProvider(ts: TimeSerie, priority: seq<ProviderItem>, t: PTime, hoursBack: int, now: real, from: PTime,
                           provider: string, tryHard: bool)
    requires NamesGiven(priority) && provider != "" && t.At? && from.At?
    requires SingleProviderOnly(ts, provider)
    ensures Since(ts, priority, t, hoursBack, now, from, provider, tryHard).sum
            == AmountSince(ts, t, hoursBack, provider, now, from)
  {
    var fs := Get(ts, PeriodStart(t, hoursBack), map[]);
    if from == t {
      OneProvider(fs, priority, NotADateTime, provider, tryHard, false);
    } else {
      OneProvider(fs, priority, from, provider, tryHard, false);
      OneFrom(fs, from, provider);
    }
  }

  lemma OneFrom(fs: FromTimeSerie, from: PTime, provider: string)
    requires from.At?
    ensures ValueOf(FirstHit(fs, ACCUMULATED, FromsFor(fs, from), [provider]))
            == ValueAt(fs, from, provider, ACCUMULATED)
  {
    if from in fs {
      OneFromTime(fs, ACCUMULATED, from, [provider]);
      SingleProvider(fs, ACCUMULATED, from, provider);
    }
  }

  // ---------------------------------------------------------------- adjacent periods

  /** Nothing is accumulated from a later time on. The first value of a run may be stored at
      the start of the run itself, and a series may mix values of runs with values that are
      all stored with their own time as from time. */
  ghost predicate FromEarlier(ts: TimeSerie, provider: string) {
    forall t, f :: Accumulated(ts, t, f, provider).Some? ==> t.At? && f.At? && !t.Before(f)
  }

  /** Along one run amounts are not negative and never fall. */
  ghost predicate RunsGrow(ts: TimeSerie, provider: string) {
    forall t, u, f | Accumulated(ts, t, f, provider).Some? && Accumulated(ts, u, f, provider).Some? && !u.Before(t) ::
      0.0 <= Accumulated(ts, t, f, provider).value <= Accumulated(ts, u, f, provider).value
  }

  /** So it is for the values that are stored with their own time. */
  ghost predicate TimesGrow(ts: TimeSerie, provider: string) {
    forall t, u | Accumulated(ts, t, t, provider).Some? && Accumulated(ts, u, u, provider).Some? && !u.Before(t) ::
      0.0 <= Accumulated(ts, t, t, provider).value <= Accumulated(ts, u, u, provider).value
  }

  predicate AllThere(first: Option<real>, second: Option<real>, both: Option<real>) {
    first.Some? && second.Some? && both.Some?
  }

  predicate AddUp(first: Option<real>, second: Option<real>, both: Option<real>)
    requires AllThere(first, second, both)
  {
    first.value + second.value == both.value
  }

  /** The amounts of the last h1 hours, of the h2 hours before, and of all of them exist. */
  predicate AllDefined(ts: TimeSerie, t: PTime, h1: int, h2: int, provider: string)
    requires t.At?
  {
    AllThere(Amount(ts, PeriodStart(t, h1), h2, provider),
             Amount(ts, t, h1, provider),
             Amount(ts, t, h1 + h2, provider))
  }

  predicate AddsUp(ts: TimeSerie, t: PTime, h1: int, h2: int, provider: string)
    requires t.At? && AllDefined(ts, t, h1, h2, provider)
  {
    AddUp(Amount(ts, PeriodStart(t, h1), h2, provider),
          Amount(ts, t, h1, provider),
          Amount(ts, t, h1 + h2, provider))
  }

  /** The start of the run that the search takes at time t, if there is a value. */
  function OldestRun(ts: TimeSerie, t: PTime, provider: string): (f: PTime) {
    var h := Oldest(Get(ts, t, map[]), provider);
    if h.Some? then h.value.from else NotADateTime
  }

  lemma OldestIs(ts: TimeSerie, t: PTime, provider: string)
    requires provider != "" && Oldest(Get(ts, t, map[]), provider).Some?
    ensures Accumulated(ts, t, OldestRun(ts, t, provider), provider)
            == Some(Oldest(Get(ts, t, map[]), provider).value.value)
  {
    SearchOne(Get(ts, t, map[]), ACCUMULATED, [], NotADateTime, provider);
  }

  function RunAmount(now: real, back: Option<real>, whole: bool): (r: Option<real>) {
    if whole then Some(Max(0.0, now)) else Minus(now, back)
  }

  /** `Amount` in terms of an oldest run that started at another time. */
  lemma AmountByRun(ts: TimeSerie, t: PTime, hoursBack: int, provider: string)
    requires t.At? && provider != "" && Amount(ts, t, hoursBack, provider).Some?
    requires OldestRun(ts, t, provider) != t
    ensures var from := OldestRun(ts, t, provider);
            && from.At? && Accumulated(ts, t, from, provider).Some?
            && Amount(ts, t, hoursBack, provider)
            == RunAmount(Accumulated(ts, t, from, provider).value,
                         Accumulated(ts, PeriodStart(t, hoursBack), from, provider),
                         HoursBetween(t, from) == hoursBack)
  {
    OldestIs(ts, t, provider);
  }

  /** `Amount` when the value taken is stored with its own time. */
  lemma AmountByTime(ts: TimeSerie, t: PTime, hoursBack: int, provider: string)
    requires t.At? && provider != "" && Amount(ts, t, hoursBack, provider).Some?
    requires OldestRun(ts, t, provider) == t
    ensures Accumulated(ts, t, t, provider).Some?
    ensures var back := PeriodStart(t, hoursBack);
            && Oldest(Get(ts, back, map[]), provider).Some?
            && Accumulated(ts, back, OldestRun(ts, back, provider), provider).Some?
            && Amount(ts, t, hoursBack, provider)
            == Minus(Accumulated(ts, t, t, provider).value,
                     Accumulated(ts, back, OldestRun(ts, back, provider), provider))
  {
    OldestIs(ts, t, provider);
    OldestIs(ts, PeriodStart(t, hoursBack), provider);
  }

  /** Three amounts of one run, the last two of them possibly counted from its start. */
  lemma RunArithmetic(now: real, middle: real, start: Option<real>, whole: bool)
    requires 0.0 <= middle <= now && (start.Some? ==> 0.0 <= start.value <= middle)
    requires !whole ==> start.Some?
    ensures RunAmount(now, Some(middle), false).value + RunAmount(middle, start, whole).value
            == RunAmount(now, start, whole).value
  {
  }

  lemma OldestIsFirst(ts: TimeSerie, t: PTime, from: PTime, provider: string)
    requires provider != "" && Accumulated(ts, t, from, provider).Some?
    ensures Oldest(Get(ts, t, map[]), provider).Some? && !from.Before(OldestRun(ts, t, provider))
  {
    var fs := Get(ts, t, map[]);
    OrderedIs(fs.Keys);
    FirstOfOrdered(fs, Ordered(fs.Keys), from, provider);
  }

  lemma {:induction false} FirstOfOrdered(fs: FromTimeSerie, froms: seq<PTime>, from: PTime, provider: string)
    requires from in froms && ValueAt(fs, from, provider, ACCUMULATED).Some?
    requires forall i, j | 0 <= i < j < |froms| :: froms[i].Before(froms[j])
    ensures var h := FirstHit(fs, ACCUMULATED, froms, [provider]); h.Some? && !from.Before(h.value.from)
  {
    SingleProvider(fs, ACCUMULATED, froms[0], provider);
    if froms[0] != from {
      assert froms[0].Before(from);
      if ValueAt(fs, froms[0], provider, ACCUMULATED).None? {
        FirstOfOrdered(fs, froms[1..], from, provider);
      }
    }
  }

  /** The run counts from the start in both periods that begin first, or in none of them, and
      not in the last one. */
  predicate CountedAlike(t: PTime, from: PTime, h1: int, h2: int)
    requires t.At? && from.At?
  {
    && HoursBetween(t, from) != h1
    && (HoursBetween(PeriodStart(t, h1), from) == h2 <==> HoursBetween(t, from) == h1 + h2)
  }

  /** Amounts of adjacent periods add up when the end and the middle are read from one run. */
  lemma SameRunAddsUp(ts: TimeSerie, t: PTime, h1: int, h2: int, provider: string)
    requires t.At? && provider != "" && h1 > 0 && h2 > 0
    requires RunsGrow(ts, provider) && AllDefined(ts, t, h1, h2, provider)
    requires var from := OldestRun(ts, t, provider);
             && from != t && from == OldestRun(ts, PeriodStart(t, h1), provider)
             && from.At? && CountedAlike(t, from, h1, h2)
    ensures AddsUp(ts, t, h1, h2, provider)
  {
    var middle, start, from := PeriodStart(t, h1), PeriodStart(t, h1 + h2), OldestRun(ts, t, provider);
    AmountByRun(ts, t, h1, provider);
    assert from != middle;
    AmountByRun(ts, middle, h2, provider);
    AmountByRun(ts, t, h1 + h2, provider);
    assert PeriodStart(middle, h2) == start;
    RunArithmetic(Accumulated(ts, t, from, provider).value, Accumulated(ts, middle, from, provider).value,
                  Accumulated(ts, start, from, provider), HoursBetween(middle, from) == h2);
  }

  /** The run starts in this period, and a value is stored there with its own time, which
      belongs to the run and to the values by time. */
  predicate Tied(ts: TimeSerie, run: PTime, from: PTime, to: PTime, provider: string) {
    run.At? && !run.Before(from) && !to.Before(run) && Accumulated(ts, run, run, provider).Some?
  }

  lemma TiedGrows(ts: TimeSerie, run: PTime, from: PTime, to: PTime, provider: string)
    requires RunsGrow(ts, provider) && TimesGrow(ts, provider) && Tied(ts, run, from, to, provider)
    requires Accumulated(ts, from, run, provider).Some? && Accumulated(ts, to, to, provider).Some?
    ensures 0.0 <= Accumulated(ts, from, run, provider).value <= Accumulated(ts, to, to, provider).value
  {
  }

  /** Amounts of adjacent periods add up when end and middle are read from values that are
      stored with their own time, and so is the start, or it is tied to them. */
  lemma ByTimeAddsUp(ts: TimeSerie, t: PTime, h1: int, h2: int, provider: string)
    requires t.At? && provider != "" && h1 > 0 && h2 > 0
    requires RunsGrow(ts, provider) && TimesGrow(ts, provider) && AllDefined(ts, t, h1, h2, provider)
    requires OldestRun(ts, t, provider) == t && OldestRun(ts, PeriodStart(t, h1), provider) == PeriodStart(t, h1)
    requires var start := PeriodStart(t, h1 + h2);
             Tied(ts, OldestRun(ts, start, provider), start, PeriodStart(t, h1), provider)
    ensures AddsUp(ts, t, h1, h2, provider)
  {
    var middle, start := PeriodStart(t, h1), PeriodStart(t, h1 + h2);
    var run := OldestRun(ts, start, provider);
    assert PeriodStart(middle, h2) == start;
    AmountByTime(ts, t, h1, provider);
    AmountByTime(ts, middle, h2, provider);
    AmountByTime(ts, t, h1 + h2, provider);
    TiedGrows(ts, run, start, middle, provider);
    RunArithmetic(Accumulated(ts, t, t, provider).value, Accumulated(ts, middle, middle, provider).value,
                  Accumulated(ts, start, run, provider), false);
  }

  /** So they do when middle and start are read from one run that is tied to the end. */
  lemma TiedRunAddsUp(ts: TimeSerie, t: PTime, h1: int, h2: int, provider: string)
    requires t.At? && provider != "" && h1 > 0 && h2 > 0
    requires RunsGrow(ts, provider) && TimesGrow(ts, provider) && AllDefined(ts, t, h1, h2, provider)
    requires OldestRun(ts, t, provider) == t && OldestRun(ts, PeriodStart(t, h1), provider) != PeriodStart(t, h1)
    requires var middle, run := PeriodStart(t, h1), OldestRun(ts, PeriodStart(t, h1), provider);
             && run == OldestRun(ts, PeriodStart(t, h1 + h2), provider)
             && Tied(ts, run, middle, t, provider) && HoursBetween(middle, run) != h2
    ensures AddsUp(ts, t, h1, h2, provider)
  {
    var middle, start, run := PeriodStart(t, h1), PeriodStart(t, h1 + h2), OldestRun(ts, PeriodStart(t, h1), provider);
    assert PeriodStart(middle, h2) == start;
    AmountByTime(ts, t, h1, provider);
    AmountByRun(ts, middle, h2, provider);
    AmountByTime(ts, t, h1 + h2, provider);
    TiedGrows(ts, run, middle, t, provider);
    RunArithmetic(Accumulated(ts, t, t, provider).value, Accumulated(ts, middle, run, provider).value,
                  Accumulated(ts, start, run, provider), false);
  }

  // ---------------------------------------------------------------- exactly when

  /** The same values are present; what they are may differ. */
  ghost predicate SameShape(ts: TimeSerie, other: TimeSerie) {
    && ts.Keys == other.Keys
    && (forall t | t in ts :: ts[t].Keys == other[t].Keys)
    && (forall t, f, q :: Accumulated(ts, t, f, q).Some? <==> Accumulated(other, t, f, q).Some?)
  }

  lemma {:induction false} FirstHitShape(fs: FromTimeSerie, other: FromTimeSerie, froms: seq<PTime>, provider: string)
    requires forall f :: ValueAt(fs, f, provider, ACCUMULATED).Some? <==> ValueAt(other, f, provider, ACCUMULATED).Some?
    ensures var h, g := FirstHit(fs, ACCUMULATED, froms, [provider]), FirstHit(other, ACCUMULATED, froms, [provider]);
            h.Some? == g.Some? && (h.Some? ==> h.value.from == g.value.from)
  {
    if froms == [] {
    } else {
      SingleProvider(fs, ACCUMULATED, froms[0], provider);
      SingleProvider(other, ACCUMULATED, froms[0], provider);
      FirstHitShape(fs, other, froms[1..], provider);
    }
  }

  lemma OldestShape(ts: TimeSerie, other: TimeSerie, t: PTime, provider: string)
    requires SameShape(ts, other)
    ensures var h, g := Oldest(Get(ts, t, map[]), provider), Oldest(Get(other, t, map[]), provider);
            h.Some? == g.Some? && (h.Some? ==> h.value.from == g.value.from)
  {
    var fs, gs := Get(ts, t, map[]), Get(other, t, map[]);
    assert fs.Keys == gs.Keys;
    forall f
      ensures ValueAt(fs, f, provider, ACCUMULATED).Some? <==> ValueAt(gs, f, provider, ACCUMULATED).Some?
    {
      assert Accumulated(ts, t, f, provider).Some? <==> Accumulated(other, t, f, provider).Some?;
    }
    FirstHitShape(fs, gs, Ordered(fs.Keys), provider);
  }

  /** Whether an amount exists depends on the shape alone. */
  lemma AmountShape(ts: TimeSerie, other: TimeSerie, t: PTime, hoursBack: int, provider: string)
    requires t.At? && SameShape(ts, other)
    ensures Amount(ts, t, hoursBack, provider).Some? == Amount(other, t, hoursBack, provider).Some?
  {
    OldestShape(ts, other, t, provider);
    OldestShape(ts, other, PeriodStart(t, hoursBack), provider);
    var now := Oldest(Get(ts, t, map[]), provider);
    if now.Some? {
      assert Accumulated(ts, PeriodStart(t, hoursBack), now.value.from, provider).Some?
        <==> Accumulated(other, PeriodStart(t, hoursBack), now.value.from, provider).Some?;
    }
  }

  lemma AllDefinedShape(ts: TimeSerie, other: TimeSerie, t: PTime, h1: int, h2: int, provider: string)
    requires t.At? && SameShape(ts, other) && AllDefined(ts, t, h1, h2, provider)
    ensures AllDefined(other, t, h1, h2, provider)
  {
    AmountShape(ts, other, t, h1, provider);
    AmountShape(ts, other, PeriodStart(t, h1), h2, provider);
    AmountShape(ts, other, t, h1 + h2, provider);
  }

  /** Rain in one run from a time on, and by time from another; the other runs agree with the
      values by time at their start, and have no rain before. */
  datatype Storm = Storm(run: PTime, when: PTime, byTime: PTime) {
    predicate Wet(f: PTime, u: PTime) {
      if f == u then !u.Before(byTime)
      else if f == run then !u.Before(when)
      else !f.Before(byTime) && !u.Before(f)
    }

    function Rain(f: PTime, u: PTime): (r: real) {
      if Wet(f, u) then 1.0 else 0.0
    }

    /** Run and values by time agree at the start of the run. */
    predicate Agrees() {
      run.Before(byTime) <==> run.Before(when)
    }
  }

  function RainAt(pd: PData, f: PTime, u: PTime, storm: Storm): (r: PData) {
    if ACCUMULATED in pd then pd[ACCUMULATED := storm.Rain(f, u)] else pd
  }

  function RainAtRun(ps: ProviderPDataList, f: PTime, u: PTime, storm: Storm): (r: ProviderPDataList) {
    map q | q in ps :: RainAt(ps[q], f, u, storm)
  }

  function RainAtTime(fs: FromTimeSerie, u: PTime, storm: Storm): (r: FromTimeSerie) {
    map f | f in fs :: RainAtRun(fs[f], f, u, storm)
  }

  function RainIn(ts: TimeSerie, storm: Storm): (r: TimeSerie) {
    map u | u in ts :: RainAtTime(ts[u], u, storm)
  }

  lemma RainAtRunIs(ps: ProviderPDataList, f: PTime, u: PTime, storm: Storm, q: string)
    ensures Get(RainAtRun(ps, f, u, storm), q, map[]) == RainAt(Get(ps, q, map[]), f, u, storm)
  {
  }

  lemma RainAtTimeIs(fs: FromTimeSerie, u: PTime, storm: Storm, f: PTime)
    ensures Get(RainAtTime(fs, u, storm), f, map[]) == RainAtRun(Get(fs, f, map[]), f, u, storm)
  {
  }

  lemma RainInIs(ts: TimeSerie, storm: Storm, u: PTime, f: PTime, q: string)
    ensures Accumulated(RainIn(ts, storm), u, f, q)
         == if Accumulated(ts, u, f, q).None? then None else Some(storm.Rain(f, u))
  {
    var fs := Get(ts, u, map[]);
    assert Get(RainIn(ts, storm), u, map[]) == RainAtTime(fs, u, storm);
    RainAtTimeIs(fs, u, storm, f);
    RainAtRunIs(Get(fs, f, map[]), f, u, storm, q);
  }

  /** All amounts of the provider are as the storm says. */
  ghost predicate IsRain(rain: TimeSerie, storm: Storm, provider: string) {
    forall u, f | Accumulated(rain, u, f, provider).Some? :: Accumulated(rain, u, f, provider).value == storm.Rain(f, u)
  }

  lemma RainInShape(ts: TimeSerie, storm: Storm, provider: string)
    ensures SameShape(ts, RainIn(ts, storm)) && IsRain(RainIn(ts, storm), storm, provider)
  {
    forall u, f, q
      ensures Accumulated(ts, u, f, q).Some? <==> Accumulated(RainIn(ts, storm), u, f, q).Some?
    {
      RainInIs(ts, storm, u, f, q);
    }
    forall u, f | Accumulated(RainIn(ts, storm), u, f, provider).Some?
      ensures Accumulated(RainIn(ts, storm), u, f, provider).value == storm.Rain(f, u)
    {
      RainInIs(ts, storm, u, f, provider);
    }
    forall u | u in ts
      ensures ts[u].Keys == RainIn(ts, storm)[u].Keys
    {
    }
  }

  lemma Earlier(t: PTime, u: PTime, v: PTime)
    requires t.Before(u) && !v.Before(u)
    ensures t.Before(v)
  {
  }

  lemma Later(t: PTime, u: PTime, v: PTime)
    requires !u.Before(t) && !t.Before(v)
    ensures !u.Before(v)
  {
  }

  lemma WetByTime(t: PTime, u: PTime, storm: Storm)
    requires !u.Before(t) && storm.Wet(t, t)
    ensures storm.Wet(u, u)
  {
    Later(t, u, storm.byTime);
  }

  /** A run is wet from some time on. */
  lemma WetRun(f: PTime, t: PTime, u: PTime, storm: Storm)
    requires !u.Before(t) && storm.Wet(f, t) && (f == storm.run && (f == t || f == u) ==> storm.Agrees())
    ensures storm.Wet(f, u)
  {
    if f == storm.run {
      Later(t, u, storm.when);
      if u == f {
        Later(t, u, storm.when);
      }
    } else {
      Later(t, u, f);
    }
  }

  lemma RainGrows(rain: TimeSerie, storm: Storm, provider: string)
    requires IsRain(rain, storm, provider)
    requires Accumulated(rain, storm.run, storm.run, provider).Some? ==> storm.Agrees()
    ensures RunsGrow(rain, provider) && TimesGrow(rain, provider)
  {
    forall t, u, f | Accumulated(rain, t, f, provider).Some? && Accumulated(rain, u, f, provider).Some? && !u.Before(t)
      ensures storm.Rain(f, t) <= storm.Rain(f, u)
    {
      if storm.Wet(f, t) {
        WetRun(f, t, u, storm);
      }
    }
    forall t: PTime, u: PTime | !u.Before(t)
      ensures storm.Rain(t, t) <= storm.Rain(u, u)
    {
      if storm.Wet(t, t) {
        WetByTime(t, u, storm);
      }
    }
  }

  /** A series whose amounts do not add up, with the values at the same places. */
  ghost predicate Refutes(ts: TimeSerie, other: TimeSerie, t: PTime, h1: int, h2: int, provider: string)
    requires t.At?
  {
    && SameShape(ts, other) && RunsGrow(other, provider) && TimesGrow(other, provider)
    && AllDefined(other, t, h1, h2, provider) && !AddsUp(other, t, h1, h2, provider)
  }

  lemma SameOldest(ts: TimeSerie, other: TimeSerie, t: PTime, provider: string)
    requires SameShape(ts, other)
    ensures OldestRun(other, t, provider) == OldestRun(ts, t, provider)
  {
    OldestShape(ts, other, t, provider);
  }

  /** The searches at the end, the middle and the start take the same runs. */
  lemma SameRuns(ts: TimeSerie, other: TimeSerie, t: PTime, h1: int, h2: int, provider: string)
    requires t.At? && SameShape(ts, other)
    ensures OldestRun(other, t, provider) == OldestRun(ts, t, provider)
    ensures OldestRun(other, PeriodStart(t, h1), provider) == OldestRun(ts, PeriodStart(t, h1), provider)
    ensures OldestRun(other, PeriodStart(t, h1 + h2), provider) == OldestRun(ts, PeriodStart(t, h1 + h2), provider)
  {
    SameOldest(ts, other, t, provider);
    SameOldest(ts, other, PeriodStart(t, h1), provider);
    SameOldest(ts, other, PeriodStart(t, h1 + h2), provider);
  }

  /** The amounts are the rain of the storm, and the searches at the end, the middle and the
      start take these runs. */
  ghost predicate IsReady(rain: TimeSerie, storm: Storm, t: PTime, h1: int, h2: int, provider: string,
                          end: PTime, run: PTime, early: PTime)
    requires t.At?
  {
    && IsRain(rain, storm, provider) && AllDefined(rain, t, h1, h2, provider)
    && end == OldestRun(rain, t, provider) && run == OldestRun(rain, PeriodStart(t, h1), provider)
    && early == OldestRun(rain, PeriodStart(t, h1 + h2), provider)
  }

  ghost predicate Grows(ts: TimeSerie, rain: TimeSerie, provider: string) {
    SameShape(ts, rain) && RunsGrow(rain, provider) && TimesGrow(rain, provider)
  }

  /** A series in which it rains like that, at the same places. */
  lemma RainPrepared(ts: TimeSerie, storm: Storm, t: PTime, h1: int, h2: int, provider: string)
    returns (rain: TimeSerie)
    requires t.At? && AllDefined(ts, t, h1, h2, provider)
    requires Accumulated(ts, storm.run, storm.run, provider).Some? ==> storm.Agrees()
    ensures Grows(ts, rain, provider)
    ensures IsReady(rain, storm, t, h1, h2, provider, OldestRun(ts, t, provider),
                    OldestRun(ts, PeriodStart(t, h1), provider), OldestRun(ts, PeriodStart(t, h1 + h2), provider))
  {
    rain := RainIn(ts, storm);
    RainInShape(ts, storm, provider);
    RainGrows(rain, storm, provider);
    AllDefinedShape(ts, rain, t, h1, h2, provider);
    SameRuns(ts, rain, t, h1, h2, provider);
  }

  /** The rain that is read from a run: all of it, or the rain of the period. */
  lemma RainByRun(rain: TimeSerie, storm: Storm, t: PTime, hoursBack: int, provider: string, from: PTime)
    requires t.At? && provider != "" && IsRain(rain, storm, provider)
    requires Amount(rain, t, hoursBack, provider).Some? && from == OldestRun(rain, t, provider) && from != t
    ensures from.At?
    ensures Amount(rain, t, hoursBack, provider)
         == Some(if HoursBetween(t, from) == hoursBack then storm.Rain(from, t)
                 else Max(0.0, storm.Rain(from, t) - storm.Rain(from, PeriodStart(t, hoursBack))))
    ensures HoursBetween(t, from) != hoursBack ==> Accumulated(rain, PeriodStart(t, hoursBack), from, provider).Some?
  {
    AmountByRun(rain, t, hoursBack, provider);
  }

  /** The rain at the end less the rain at the start, both as they are read there. */
  lemma RainByTime(rain: TimeSerie, storm: Storm, t: PTime, hoursBack: int, provider: string, from: PTime)
    requires t.At? && provider != "" && IsRain(rain, storm, provider)
    requires Amount(rain, t, hoursBack, provider).Some? && OldestRun(rain, t, provider) == t
    requires from == OldestRun(rain, PeriodStart(t, hoursBack), provider)
    ensures Amount(rain, t, hoursBack, provider)
         == Some(Max(0.0, storm.Rain(t, t) - storm.Rain(from, PeriodStart(t, hoursBack))))
  {
    AmountByTime(rain, t, hoursBack, provider);
  }

  /** The three amounts of adjacent periods. */
  predicate ThreeAmounts(ts: TimeSerie, t: PTime, h1: int, h2: int, provider: string,
                         first: real, second: real, both: real)
    requires t.At?
  {
    && Amount(ts, PeriodStart(t, h1), h2, provider) == Some(first)
    && Amount(ts, t, h1, provider) == Some(second) && Amount(ts, t, h1 + h2, provider) == Some(both)
  }

  lemma DoesNotAddUp(ts: TimeSerie, rain: TimeSerie, t: PTime, h1: int, h2: int, provider: string,
                     first: real, second: real, both: real)
    requires t.At? && Grows(ts, rain, provider) && ThreeAmounts(rain, t, h1, h2, provider, first, second, both)
    requires first + second != both
    ensures Refutes(ts, rain, t, h1, h2, provider)
  {
  }

  lemma StartOfBoth(t: PTime, h1: int, h2: int)
    requires t.At?
    ensures PeriodStart(PeriodStart(t, h1), h2) == PeriodStart(t, h1 + h2)
  {
  }

  lemma NotNegative(ts: TimeSerie, t: PTime, hoursBack: int, provider: string)
    requires t.At? && Amount(ts, t, hoursBack, provider).Some?
    ensures Amount(ts, t, hoursBack, provider).value >= 0.0
  {
  }

  const ALWAYS := NegInfinity
  const NEVER := PosInfinity

  /** The last period counts from the start of the run: let it have rained before all times. */
  lemma WholeLastFails(ts: TimeSerie, t: PTime, h1: int, h2: int, provider: string) returns (rain: TimeSerie)
    requires t.At? && provider != "" && h1 > 0 && h2 > 0 && AllDefined(ts, t, h1, h2, provider)
    requires OldestRun(ts, t, provider) != t && OldestRun(ts, t, provider).At?
    requires HoursBetween(t, OldestRun(ts, t, provider)) == h1
    ensures Refutes(ts, rain, t, h1, h2, provider)
  {
    var end := OldestRun(ts, t, provider);
    var storm := Storm(end, ALWAYS, ALWAYS);
    rain := RainPrepared(ts, storm, t, h1, h2, provider);
    var first := WholeLastAmounts(rain, storm, t, h1, h2, provider, end, OldestRun(ts, PeriodStart(t, h1), provider),
                                  OldestRun(ts, PeriodStart(t, h1 + h2), provider));
    DoesNotAddUp(ts, rain, t, h1, h2, provider, first, 1.0, 0.0);
  }

  lemma WholeLastAmounts(rain: TimeSerie, storm: Storm, t: PTime, h1: int, h2: int, provider: string,
                         end: PTime, run: PTime, early: PTime) returns (first: real)
    requires t.At? && provider != "" && h1 > 0 && h2 > 0
    requires IsReady(rain, storm, t, h1, h2, provider, end, run, early)
    requires end != t && end.At? && HoursBetween(t, end) == h1 && storm == Storm(end, ALWAYS, ALWAYS)
    ensures first >= 0.0 && ThreeAmounts(rain, t, h1, h2, provider, first, 1.0, 0.0)
  {
    RainByRun(rain, storm, t, h1, provider, end);
    RainByRun(rain, storm, t, h1 + h2, provider, end);
    NotNegative(rain, PeriodStart(t, h1), h2, provider);
    first := Amount(rain, PeriodStart(t, h1), h2, provider).value;
  }

  /** Only one of the periods that begin first counts from the start of the run. */
  lemma WholeOnceFails(ts: TimeSerie, t: PTime, h1: int, h2: int, provider: string) returns (rain: TimeSerie)
    requires t.At? && provider != "" && h1 > 0 && h2 > 0 && AllDefined(ts, t, h1, h2, provider)
    requires OldestRun(ts, t, provider) != t && OldestRun(ts, t, provider).At?
    requires OldestRun(ts, PeriodStart(t, h1), provider) == OldestRun(ts, t, provider)
    requires HoursBetween(t, OldestRun(ts, t, provider)) != h1 && !CountedAlike(t, OldestRun(ts, t, provider), h1, h2)
    ensures Refutes(ts, rain, t, h1, h2, provider)
  {
    var end := OldestRun(ts, t, provider);
    var storm := Storm(end, ALWAYS, ALWAYS);
    rain := RainPrepared(ts, storm, t, h1, h2, provider);
    var first, both := WholeOnceAmounts(rain, storm, t, h1, h2, provider, end,
                                        OldestRun(ts, PeriodStart(t, h1 + h2), provider));
    DoesNotAddUp(ts, rain, t, h1, h2, provider, first, 0.0, both);
  }

  lemma WholeOnceAmounts(rain: TimeSerie, storm: Storm, t: PTime, h1: int, h2: int, provider: string,
                         end: PTime, early: PTime) returns (first: real, both: real)
    requires t.At? && provider != "" && h1 > 0 && h2 > 0
    requires IsReady(rain, storm, t, h1, h2, provider, end, end, early)
    requires end != t && end.At? && HoursBetween(t, end) != h1 && !CountedAlike(t, end, h1, h2)
    requires storm == Storm(end, ALWAYS, ALWAYS)
    ensures first != both && ThreeAmounts(rain, t, h1, h2, provider, first, 0.0, both)
  {
    var middle := PeriodStart(t, h1);
    MiddleIsNoRun(t, end, h1);
    RainByRun(rain, storm, t, h1, provider, end);
    RainByRun(rain, storm, middle, h2, provider, end);
    RainByRun(rain, storm, t, h1 + h2, provider, end);
    first := if HoursBetween(middle, end) == h2 then 1.0 else 0.0;
    both := if HoursBetween(t, end) == h1 + h2 then 1.0 else 0.0;
  }

  lemma MiddleIsNoRun(t: PTime, end: PTime, h1: int)
    requires t.At? && end.At? && h1 > 0 && HoursBetween(t, end) != h1
    ensures end != PeriodStart(t, h1)
  {
  }

  /** The end is read by time, and the first period counts from the start of its run: let it
      have rained before all times. */
  lemma WholeFirstFails(ts: TimeSerie, t: PTime, h1: int, h2: int, provider: string) returns (rain: TimeSerie)
    requires t.At? && provider != "" && h1 > 0 && h2 > 0 && AllDefined(ts, t, h1, h2, provider)
    requires OldestRun(ts, t, provider) == t
    requires var middle, run := PeriodStart(t, h1), OldestRun(ts, PeriodStart(t, h1), provider);
             run != middle && run.At? && HoursBetween(middle, run) == h2
    ensures Refutes(ts, rain, t, h1, h2, provider)
  {
    var run, early := OldestRun(ts, PeriodStart(t, h1), provider), OldestRun(ts, PeriodStart(t, h1 + h2), provider);
    var storm := Storm(early, ALWAYS, ALWAYS);
    rain := RainPrepared(ts, storm, t, h1, h2, provider);
    var first := WholeFirstAmounts(rain, storm, t, h1, h2, provider, run, early);
    DoesNotAddUp(ts, rain, t, h1, h2, provider, first, 1.0 - first, 0.0);
  }

  lemma WholeFirstAmounts(rain: TimeSerie, storm: Storm, t: PTime, h1: int, h2: int, provider: string,
                          run: PTime, early: PTime) returns (first: real)
    requires t.At? && provider != "" && h1 > 0 && h2 > 0
    requires IsReady(rain, storm, t, h1, h2, provider, t, run, early) && storm == Storm(early, ALWAYS, ALWAYS)
    requires run != PeriodStart(t, h1) && run.At? && HoursBetween(PeriodStart(t, h1), run) == h2
    ensures ThreeAmounts(rain, t, h1, h2, provider, first, 1.0 - first, 0.0)
  {
    RainByTime(rain, storm, t, h1, provider, run);
    RainByRun(rain, storm, PeriodStart(t, h1), h2, provider, run);
    RainByTime(rain, storm, t, h1 + h2, provider, early);
    first := storm.Rain(run, PeriodStart(t, h1));
  }

  /** End and middle are read from different runs: let it rain in the run of the middle alone,
      in the first period. */
  lemma OtherRunFails(ts: TimeSerie, t: PTime, h1: int, h2: int, provider: string) returns (rain: TimeSerie)
    requires t.At? && provider != "" && h1 > 0 && h2 > 0 && AllDefined(ts, t, h1, h2, provider)
    requires var run, end := OldestRun(ts, PeriodStart(t, h1), provider), OldestRun(ts, t, provider);
             && run != end && run.At? && end.At? && end != t && HoursBetween(t, end) != h1
    ensures Refutes(ts, rain, t, h1, h2, provider)
  {
    var middle, start := PeriodStart(t, h1), PeriodStart(t, h1 + h2);
    var run, end := OldestRun(ts, middle, provider), OldestRun(ts, t, provider);
    var storm := Storm(run, middle, if run.Before(middle) then NEVER else run);
    rain := RainPrepared(ts, storm, t, h1, h2, provider);
    OtherRunAmounts(rain, storm, t, h1, h2, provider, end, run, OldestRun(ts, start, provider));
    DoesNotAddUp(ts, rain, t, h1, h2, provider, 1.0, storm.Rain(end, t), storm.Rain(end, t));
  }

  lemma OtherRunAmounts(rain: TimeSerie, storm: Storm, t: PTime, h1: int, h2: int, provider: string,
                        end: PTime, run: PTime, early: PTime)
    requires t.At? && provider != "" && h1 > 0 && h2 > 0
    requires IsReady(rain, storm, t, h1, h2, provider, end, run, early)
    requires run != end && run.At? && end.At? && end != t && HoursBetween(t, end) != h1
    requires storm == Storm(run, PeriodStart(t, h1), if run.Before(PeriodStart(t, h1)) then NEVER else run)
    ensures ThreeAmounts(rain, t, h1, h2, provider, 1.0, storm.Rain(end, t), storm.Rain(end, t))
  {
    RainByRun(rain, storm, t, h1, provider, end);
    RainByRun(rain, storm, t, h1 + h2, provider, end);
    OldestIsFirst(rain, PeriodStart(t, h1), end, provider);
    MiddleIsNoRun(t, end, h1);
    OtherRunIsDry(storm, t, h1, h2, end);
    StartIsDry(storm, t, h1, h2, end);
    FirstPeriodIsWet(rain, storm, PeriodStart(t, h1), t, h1, h2, provider, early);
  }

  lemma FirstPeriodIsWet(rain: TimeSerie, storm: Storm, middle: PTime, t: PTime, h1: int, h2: int, provider: string,
                         early: PTime)
    requires t.At? && provider != "" && h1 > 0 && h2 > 0 && InFirstPeriod(storm, t, h1) && middle == PeriodStart(t, h1)
    requires IsRain(rain, storm, provider) && Amount(rain, middle, h2, provider).Some?
    requires OldestRun(rain, middle, provider) == storm.run
    requires OldestRun(rain, PeriodStart(t, h1 + h2), provider) == early
    ensures Amount(rain, middle, h2, provider) == Some(1.0)
  {
    StartIsDry(storm, t, h1, h2, storm.run);
    StartIsDry(storm, t, h1, h2, early);
    StartOfBoth(t, h1, h2);
    if storm.run == middle {
      RainByTime(rain, storm, middle, h2, provider, early);
    } else {
      RainByRun(rain, storm, middle, h2, provider, storm.run);
    }
  }

  predicate InFirstPeriod(storm: Storm, t: PTime, h1: int)
    requires t.At?
  {
    && storm.run.At? && storm.when == PeriodStart(t, h1)
    && storm.byTime == if storm.run.Before(storm.when) then NEVER else storm.run
  }

  /** The middle sees no rain in the run of the end. */
  lemma OtherRunIsDry(storm: Storm, t: PTime, h1: int, h2: int, end: PTime)
    requires t.At? && h1 > 0 && h2 > 0 && end.At? && storm.run.Before(end) && end != PeriodStart(t, h1)
    requires InFirstPeriod(storm, t, h1)
    ensures storm.Rain(end, PeriodStart(t, h1)) == 0.0 && storm.Rain(storm.run, PeriodStart(t, h1)) == 1.0
  {
  }

  /** The start sees no rain at all. */
  lemma StartIsDry(storm: Storm, t: PTime, h1: int, h2: int, f: PTime)
    requires t.At? && h1 > 0 && h2 > 0 && InFirstPeriod(storm, t, h1)
    ensures storm.Rain(f, PeriodStart(t, h1 + h2)) == 0.0
  {
  }

  /** The end is read by time, the middle from a run that is not tied to it: let it rain in
      that run alone, in the first period. */
  lemma LooseRunFails(ts: TimeSerie, t: PTime, h1: int, h2: int, provider: string) returns (rain: TimeSerie)
    requires t.At? && provider != "" && h1 > 0 && h2 > 0 && AllDefined(ts, t, h1, h2, provider)
    requires OldestRun(ts, t, provider) == t
    requires var middle, run := PeriodStart(t, h1), OldestRun(ts, PeriodStart(t, h1), provider);
             run != middle && run.At? && HoursBetween(middle, run) != h2 && !Tied(ts, run, middle, t, provider)
    ensures Refutes(ts, rain, t, h1, h2, provider)
  {
    var middle, start := PeriodStart(t, h1), PeriodStart(t, h1 + h2);
    var run := OldestRun(ts, middle, provider);
    var storm := Storm(run, middle, if t.Before(run) then run else NEVER);
    rain := RainPrepared(ts, storm, t, h1, h2, provider);
    LooseRunAmounts(rain, storm, t, h1, h2, provider, run, OldestRun(ts, start, provider));
    DoesNotAddUp(ts, rain, t, h1, h2, provider, 1.0, 0.0, 0.0);
  }

  lemma LooseRunAmounts(rain: TimeSerie, storm: Storm, t: PTime, h1: int, h2: int, provider: string,
                        run: PTime, early: PTime)
    requires t.At? && provider != "" && h1 > 0 && h2 > 0
    requires IsReady(rain, storm, t, h1, h2, provider, t, run, early)
    requires run != PeriodStart(t, h1) && run.At? && HoursBetween(PeriodStart(t, h1), run) != h2
    requires storm == Storm(run, PeriodStart(t, h1), if t.Before(run) then run else NEVER)
    ensures ThreeAmounts(rain, t, h1, h2, provider, 1.0, 0.0, 0.0)
  {
    RainByTime(rain, storm, t, h1, provider, run);
    RainByRun(rain, storm, PeriodStart(t, h1), h2, provider, run);
    RainByTime(rain, storm, t, h1 + h2, provider, early);
    StartOfBoth(t, h1, h2);
    LooseRunRain(storm, t, h1, h2);
  }

  lemma LooseRunRain(storm: Storm, t: PTime, h1: int, h2: int)
    requires t.At? && h1 > 0 && h2 > 0 && storm.run.At? && storm.run != PeriodStart(t, h1)
    requires storm == Storm(storm.run, PeriodStart(t, h1), if t.Before(storm.run) then storm.run else NEVER)
    ensures storm.Rain(t, t) == 0.0
    ensures storm.Rain(storm.run, PeriodStart(t, h1)) == 1.0 && storm.Rain(storm.run, PeriodStart(t, h1 + h2)) == 0.0
  {
  }

  /** The end is read by time, the middle from a run that is tied to it, but the start from a
      still older one: let it have rained in the run of the middle before the start. */
  lemma OlderStartFails(ts: TimeSerie, t: PTime, h1: int, h2: int, provider: string) returns (rain: TimeSerie)
    requires t.At? && provider != "" && h1 > 0 && h2 > 0 && AllDefined(ts, t, h1, h2, provider)
    requires OldestRun(ts, t, provider) == t
    requires var middle, run := PeriodStart(t, h1), OldestRun(ts, PeriodStart(t, h1), provider);
             && run != middle && run.At? && HoursBetween(middle, run) != h2 && Tied(ts, run, middle, t, provider)
             && run != OldestRun(ts, PeriodStart(t, h1 + h2), provider)
    ensures Refutes(ts, rain, t, h1, h2, provider)
  {
    var middle, start := PeriodStart(t, h1), PeriodStart(t, h1 + h2);
    var run := OldestRun(ts, middle, provider);
    var storm := Storm(run, start, run);
    rain := RainPrepared(ts, storm, t, h1, h2, provider);
    OlderStartAmounts(rain, storm, t, h1, h2, provider, run, OldestRun(ts, start, provider));
    DoesNotAddUp(ts, rain, t, h1, h2, provider, 0.0, 0.0, 1.0);
  }

  lemma OlderStartAmounts(rain: TimeSerie, storm: Storm, t: PTime, h1: int, h2: int, provider: string,
                          run: PTime, early: PTime)
    requires t.At? && provider != "" && h1 > 0 && h2 > 0
    requires IsReady(rain, storm, t, h1, h2, provider, t, run, early) && run != early
    requires run.At? && PeriodStart(t, h1).Before(run) && !t.Before(run) && HoursBetween(PeriodStart(t, h1), run) != h2
    requires storm == Storm(run, PeriodStart(t, h1 + h2), run)
    ensures ThreeAmounts(rain, t, h1, h2, provider, 0.0, 0.0, 1.0)
  {
    RainByTime(rain, storm, t, h1, provider, run);
    RainByRun(rain, storm, PeriodStart(t, h1), h2, provider, run);
    RainByTime(rain, storm, t, h1 + h2, provider, early);
    StartOfBoth(t, h1, h2);
    OldestIsFirst(rain, PeriodStart(t, h1 + h2), run, provider);
    OlderStartRain(storm, t, h1, h2, early);
  }

  lemma OlderStartRain(storm: Storm, t: PTime, h1: int, h2: int, early: PTime)
    requires t.At? && h1 > 0 && h2 > 0 && storm == Storm(storm.run, PeriodStart(t, h1 + h2), storm.run)
    requires PeriodStart(t, h1).Before(storm.run) && !t.Before(storm.run) && early.Before(storm.run)
    ensures storm.Rain(t, t) == 1.0 && storm.Rain(storm.run, PeriodStart(t, h1)) == 1.0
    ensures storm.Rain(storm.run, PeriodStart(t, h1 + h2)) == 1.0 && storm.Rain(early, PeriodStart(t, h1 + h2)) == 0.0
  {
  }

  /** End and middle are read by time, the start from a run that is not tied to the middle: let
      it have rained in that run before the start, and by time only after the middle. */
  lemma LooseStartFails(ts: TimeSerie, t: PTime, h1: int, h2: int, provider: string) returns (rain: TimeSerie)
    requires t.At? && provider != "" && h1 > 0 && h2 > 0 && AllDefined(ts, t, h1, h2, provider)
    requires OldestRun(ts, t, provider) == t && OldestRun(ts, PeriodStart(t, h1), provider) == PeriodStart(t, h1)
    requires var start := PeriodStart(t, h1 + h2);
             !Tied(ts, OldestRun(ts, start, provider), start, PeriodStart(t, h1), provider)
    ensures Refutes(ts, rain, t, h1, h2, provider)
  {
    var middle, start := PeriodStart(t, h1), PeriodStart(t, h1 + h2);
    var early := OldestRun(ts, start, provider);
    var storm := Storm(early, start, if middle.Before(early) && early.Before(t) then early else t);
    StartIsStored(ts, t, h1 + h2, provider);
    LooseStartAgrees(ts, storm, t, h1, h2, provider);
    rain := RainPrepared(ts, storm, t, h1, h2, provider);
    LooseStartAmounts(rain, storm, t, h1, h2, provider, early);
    DoesNotAddUp(ts, rain, t, h1, h2, provider, 0.0, 1.0, 0.0);
  }

  predicate AfterMiddle(storm: Storm, t: PTime, h1: int, h2: int)
    requires t.At?
  {
    && storm.when == PeriodStart(t, h1 + h2)
    && storm.byTime == if PeriodStart(t, h1).Before(storm.run) && storm.run.Before(t) then storm.run else t
  }

  lemma LooseStartAgrees(ts: TimeSerie, storm: Storm, t: PTime, h1: int, h2: int, provider: string)
    requires t.At? && h1 > 0 && h2 > 0 && AfterMiddle(storm, t, h1, h2)
    requires !Tied(ts, storm.run, PeriodStart(t, h1 + h2), PeriodStart(t, h1), provider)
    ensures Accumulated(ts, storm.run, storm.run, provider).Some? ==> storm.Agrees()
    ensures Accumulated(ts, PeriodStart(t, h1 + h2), storm.run, provider).Some? ==> storm.run != storm.when
  {
  }

  lemma LooseStartAmounts(rain: TimeSerie, storm: Storm, t: PTime, h1: int, h2: int, provider: string, early: PTime)
    requires t.At? && provider != "" && h1 > 0 && h2 > 0
    requires IsReady(rain, storm, t, h1, h2, provider, t, PeriodStart(t, h1), early)
    requires AfterMiddle(storm, t, h1, h2) && storm.run == early && early != storm.when
    ensures ThreeAmounts(rain, t, h1, h2, provider, 0.0, 1.0, 0.0)
  {
    RainByTime(rain, storm, t, h1, provider, PeriodStart(t, h1));
    RainByTime(rain, storm, PeriodStart(t, h1), h2, provider, early);
    RainByTime(rain, storm, t, h1 + h2, provider, early);
    StartOfBoth(t, h1, h2);
    LooseStartRain(storm, t, h1, h2);
  }

  lemma LooseStartRain(storm: Storm, t: PTime, h1: int, h2: int)
    requires t.At? && h1 > 0 && h2 > 0 && AfterMiddle(storm, t, h1, h2) && storm.run != storm.when
    ensures storm.Rain(t, t) == 1.0 && storm.Rain(PeriodStart(t, h1), PeriodStart(t, h1)) == 0.0
    ensures storm.Rain(storm.run, PeriodStart(t, h1 + h2)) == 1.0
  {
  }

  lemma StartIsStored(ts: TimeSerie, t: PTime, hoursBack: int, provider: string)
    requires t.At? && provider != "" && Amount(ts, t, hoursBack, provider).Some? && OldestRun(ts, t, provider) == t
    ensures var start := PeriodStart(t, hoursBack);
            Accumulated(ts, start, OldestRun(ts, start, provider), provider).Some?
  {
    AmountByTime(ts, t, hoursBack, provider);
  }

  /** Amounts add up whatever they are. */
  ghost predicate AlwaysAddsUp(ts: TimeSerie, t: PTime, h1: int, h2: int, provider: string)
    requires t.At?
  {
    forall other | SameShape(ts, other) && RunsGrow(other, provider) && TimesGrow(other, provider)
                   && AllDefined(other, t, h1, h2, provider) ::
      AddsUp(other, t, h1, h2, provider)
  }

  /** Either the end and the middle are read from one run, which is counted alike; or end,
      middle and start are read from values that are stored with their own time, or tied to
      such values in a way that orders the amounts. */
  predicate ReadAlike(ts: TimeSerie, t: PTime, h1: int, h2: int, provider: string)
    requires t.At?
  {
    var middle, start := PeriodStart(t, h1), PeriodStart(t, h1 + h2);
    var end, run, early := OldestRun(ts, t, provider), OldestRun(ts, middle, provider), OldestRun(ts, start, provider);
    if end != t then end == run && end.At? && CountedAlike(t, end, h1, h2)
    else if run == middle then Tied(ts, early, start, middle, provider)
    else run == early && Tied(ts, run, middle, t, provider) && HoursBetween(middle, run) != h2
  }

  lemma TiedToo(ts: TimeSerie, other: TimeSerie, run: PTime, from: PTime, to: PTime, provider: string)
    requires SameShape(ts, other) && Tied(ts, run, from, to, provider)
    ensures Tied(other, run, from, to, provider)
  {
  }

  lemma ReadAlikeAddsUp(ts: TimeSerie, other: TimeSerie, t: PTime, h1: int, h2: int, provider: string)
    requires t.At? && provider != "" && h1 > 0 && h2 > 0 && ReadAlike(ts, t, h1, h2, provider)
    requires SameShape(ts, other) && RunsGrow(other, provider) && TimesGrow(other, provider)
    requires AllDefined(other, t, h1, h2, provider)
    ensures AddsUp(other, t, h1, h2, provider)
  {
    var middle, start := PeriodStart(t, h1), PeriodStart(t, h1 + h2);
    SameRuns(ts, other, t, h1, h2, provider);
    if OldestRun(ts, t, provider) != t {
      SameRunAddsUp(other, t, h1, h2, provider);
    } else if OldestRun(ts, middle, provider) == middle {
      TiedToo(ts, other, OldestRun(ts, start, provider), start, middle, provider);
      ByTimeAddsUp(other, t, h1, h2, provider);
    } else {
      TiedToo(ts, other, OldestRun(ts, middle, provider), middle, t, provider);
      TiedRunAddsUp(other, t, h1, h2, provider);
    }
  }

  lemma RunsAreTimes(ts: TimeSerie, t: PTime, hoursBack: int, provider: string)
    requires t.At? && provider != "" && Amount(ts, t, hoursBack, provider).Some?
    ensures OldestRun(ts, t, provider).At?
  {
  }

  lemma NotReadAlikeFails(ts: TimeSerie, t: PTime, h1: int, h2: int, provider: string) returns (other: TimeSerie)
    requires t.At? && provider != "" && h1 > 0 && h2 > 0
    requires AllDefined(ts, t, h1, h2, provider) && !ReadAlike(ts, t, h1, h2, provider)
    ensures Refutes(ts, other, t, h1, h2, provider)
  {
    var middle, end, run := PeriodStart(t, h1), OldestRun(ts, t, provider), OldestRun(ts, PeriodStart(t, h1), provider);
    RunsAreTimes(ts, t, h1, provider);
    RunsAreTimes(ts, middle, h2, provider);
    if end != t {
      if HoursBetween(t, end) == h1 {
        other := WholeLastFails(ts, t, h1, h2, provider);
      } else if run == end {
        other := WholeOnceFails(ts, t, h1, h2, provider);
      } else {
        other := OtherRunFails(ts, t, h1, h2, provider);
      }
    } else if run == middle {
      other := LooseStartFails(ts, t, h1, h2, provider);
    } else if HoursBetween(middle, run) == h2 {
      other := WholeFirstFails(ts, t, h1, h2, provider);
    } else if Tied(ts, run, middle, t, provider) {
      other := OlderStartFails(ts, t, h1, h2, provider);
    } else {
      other := LooseRunFails(ts, t, h1, h2, provider);
    }
  }

  /** For every layout: the amounts of adjacent periods add up, whatever has been measured,
      exactly when they are read alike. */
  lemma AddsUpExactly(ts: TimeSerie, t: PTime, h1: int, h2: int, provider: string)
    requires t.At? && provider != "" && h1 > 0 && h2 > 0 && AllDefined(ts, t, h1, h2, provider)
    ensures AlwaysAddsUp(ts, t, h1, h2, provider) <==> ReadAlike(ts, t, h1, h2, provider)
  {
    if ReadAlike(ts, t, h1, h2, provider) {
      forall other | SameShape(ts, other) && RunsGrow(other, provider) && TimesGrow(other, provider)
                     && AllDefined(other, t, h1, h2, provider)
        ensures AddsUp(other, t, h1, h2, provider)
      {
        ReadAlikeAddsUp(ts, other, t, h1, h2, provider);
      }
    } else {
      var other := NotReadAlikeFails(ts, t, h1, h2, provider);
    }
  }

  // ---------------------------------------------------------------- the calls

  predicate CallsDefined(ts: TimeSerie, priority: seq<ProviderItem>, t: PTime, h1: int, h2: int, provider: string,
                         tryHard: bool)
    requires t.At?
  {
    AllThere(PeriodAmount(ts, priority, PeriodStart(t, h1), h2, provider, tryHard).sum,
             PeriodAmount(ts, priority, t, h1, provider, tryHard).sum,
             PeriodAmount(ts, priority, t, h1 + h2, provider, tryHard).sum)
  }

  predicate CallsAddUp(ts: TimeSerie, priority: seq<ProviderItem>, t: PTime, h1: int, h2: int, provider: string,
                       tryHard: bool)
    requires t.At? && CallsDefined(ts, priority, t, h1, h2, provider, tryHard)
  {
    AddUp(PeriodAmount(ts, priority, PeriodStart(t, h1), h2, provider, tryHard).sum,
          PeriodAmount(ts, priority, t, h1, provider, tryHard).sum,
          PeriodAmount(ts, priority, t, h1 + h2, provider, tryHard).sum)
  }

  /** Three calls of `PRECIP_N` add up whatever the amounts are. */
  ghost predicate CallsAlwaysAddUp(ts: TimeSerie, priority: seq<ProviderItem>, t: PTime, h1: int, h2: int,
                                   provider: string, tryHard: bool)
    requires t.At?
  {
    forall other | SameShape(ts, other) && RunsGrow(other, provider) && TimesGrow(other, provider)
                   && CallsDefined(other, priority, t, h1, h2, provider, tryHard) ::
      CallsAddUp(other, priority, t, h1, h2, provider, tryHard)
  }

  lemma SingleShape(ts: TimeSerie, other: TimeSerie, provider: string)
    requires SameShape(ts, other) && SingleProviderOnly(ts, provider)
    ensures SingleProviderOnly(other, provider)
  {
    forall u, f, q | u in other && q != provider
      ensures ValueAt(other[u], f, q, ACCUMULATED).None?
    {
      assert Accumulated(ts, u, f, q).Some? <==> Accumulated(other, u, f, q).Some?;
      assert OnlyProvider(ts[u], provider);
    }
  }

  /** What a call gives, as an amount. */
  lemma CallIs(ts: TimeSerie, priority: seq<ProviderItem>, t: PTime, hoursBack: int, provider: string, tryHard: bool)
    returns (x: Option<real>)
    requires NamesGiven(priority) && t.At? && provider != "" && SingleProviderOnly(ts, provider)
    ensures PeriodAmount(ts, priority, t, hoursBack, provider, tryHard).sum == x
    ensures Amount(ts, t, hoursBack, provider) == x
  {
    PrecipNOfOneProvider(ts, priority, t, hoursBack, provider, tryHard);
    x := Amount(ts, t, hoursBack, provider);
  }

  lemma CallsGive(ts: TimeSerie, priority: seq<ProviderItem>, t: PTime, h1: int, h2: int, provider: string,
                  tryHard: bool, first: Option<real>, second: Option<real>, both: Option<real>)
    requires t.At? && PeriodAmount(ts, priority, PeriodStart(t, h1), h2, provider, tryHard).sum == first
    requires PeriodAmount(ts, priority, t, h1, provider, tryHard).sum == second
    requires PeriodAmount(ts, priority, t, h1 + h2, provider, tryHard).sum == both
    ensures CallsDefined(ts, priority, t, h1, h2, provider, tryHard) == AllThere(first, second, both)
    ensures AllThere(first, second, both) ==>
              CallsAddUp(ts, priority, t, h1, h2, provider, tryHard) == AddUp(first, second, both)
  {
  }

  lemma AmountsGive(ts: TimeSerie, t: PTime, h1: int, h2: int, provider: string,
                    first: Option<real>, second: Option<real>, both: Option<real>)
    requires t.At? && Amount(ts, PeriodStart(t, h1), h2, provider) == first
    requires Amount(ts, t, h1, provider) == second && Amount(ts, t, h1 + h2, provider) == both
    ensures AllDefined(ts, t, h1, h2, provider) == AllThere(first, second, both)
    ensures AllThere(first, second, both) ==> AddsUp(ts, t, h1, h2, provider) == AddUp(first, second, both)
  {
  }

  /** With a single provider, three calls of `PRECIP_N` give values exactly when the amounts
      exist, and add up exactly when those do, whichever branches they take. */
  lemma PrecipNAddsUp(ts: TimeSerie, priority: seq<ProviderItem>, t: PTime, h1: int, h2: int, provider: string,
                      tryHard: bool)
    requires NamesGiven(priority) && t.At? && provider != "" && SingleProviderOnly(ts, provider)
    ensures CallsDefined(ts, priority, t, h1, h2, provider, tryHard) <==> AllDefined(ts, t, h1, h2, provider)
    ensures CallsDefined(ts, priority, t, h1, h2, provider, tryHard) ==>
              (CallsAddUp(ts, priority, t, h1, h2, provider, tryHard) <==> AddsUp(ts, t, h1, h2, provider))
  {
    var first := CallIs(ts, priority, PeriodStart(t, h1), h2, provider, tryHard);
    var second := CallIs(ts, priority, t, h1, provider, tryHard);
    var both := CallIs(ts, priority, t, h1 + h2, provider, tryHard);
    CallsGive(ts, priority, t, h1, h2, provider, tryHard, first, second, both);
    AmountsGive(ts, t, h1, h2, provider, first, second, both);
  }

  /** With a single provider, three calls of `PRECIP_N` for adjacent periods add up, whatever
      has been measured, exactly when the values are read alike. */
  lemma CallsAddUpExactly(ts: TimeSerie, priority: seq<ProviderItem>, t: PTime, h1: int, h2: int, provider: string,
                          tryHard: bool)
    requires NamesGiven(priority) && t.At? && provider != "" && h1 > 0 && h2 > 0
    requires SingleProviderOnly(ts, provider) && CallsDefined(ts, priority, t, h1, h2, provider, tryHard)
    ensures CallsAlwaysAddUp(ts, priority, t, h1, h2, provider, tryHard) <==> ReadAlike(ts, t, h1, h2, provider)
  {
    PrecipNAddsUp(ts, priority, t, h1, h2, provider, tryHard);
    if ReadAlike(ts, t, h1, h2, provider) {
      forall other | SameShape(ts, other) && RunsGrow(other, provider) && TimesGrow(other, provider)
                     && CallsDefined(other, priority, t, h1, h2, provider, tryHard)
        ensures CallsAddUp(other, priority, t, h1, h2, provider, tryHard)
      {
        SingleShape(ts, other, provider);
        PrecipNAddsUp(other, priority, t, h1, h2, provider, tryHard);
        ReadAlikeAddsUp(ts, other, t, h1, h2, provider);
      }
    } else {
      var other := NotReadAlikeFails(ts, t, h1, h2, provider);
      SingleShape(ts, other, provider);
      PrecipNAddsUp(other, priority, t, h1, h2, provider, tryHard);
    }
  }

  // ---------------------------------------------------------------- nothing from a later time on

  /** What is read alike comes down to when nothing is accumulated from a later time on: one
      run, or values that are all stored with their own time. */
  predicate ReadAlikeFromEarlier(ts: TimeSerie, t: PTime, h1: int, h2: int, provider: string)
    requires t.At?
  {
    var middle, start := PeriodStart(t, h1), PeriodStart(t, h1 + h2);
    if OldestRun(ts, t, provider) == t
    then OldestRun(ts, middle, provider) == middle && OldestRun(ts, start, provider) == start
    else OldestRun(ts, t, provider) == OldestRun(ts, middle, provider)
  }

  /** When the end is read from an earlier run, that run reaches back to the start of the
      joined period, and so it is counted alike. */
  lemma RunReachesBack(ts: TimeSerie, t: PTime, h1: int, h2: int, provider: string)
    requires t.At? && provider != "" && h1 > 0 && h2 > 0
    requires FromEarlier(ts, provider) && AllDefined(ts, t, h1, h2, provider) && OldestRun(ts, t, provider) != t
    ensures OldestRun(ts, t, provider).At? && CountedAlike(t, OldestRun(ts, t, provider), h1, h2)
  {
    var from := OldestRun(ts, t, provider);
    AmountByRun(ts, t, h1 + h2, provider);
    assert !t.Before(from);
    if HoursBetween(t, from) != h1 + h2 {
      assert !PeriodStart(t, h1 + h2).Before(from);
    }
    LongSinceStart(t, from, h1, h2);
  }

  lemma LongSinceStart(t: PTime, from: PTime, h1: int, h2: int)
    requires t.At? && from.At? && h1 > 0 && h2 > 0 && from.Before(t)
    requires HoursBetween(t, from) == h1 + h2 || !PeriodStart(t, h1 + h2).Before(from)
    ensures CountedAlike(t, from, h1, h2)
  {
    HoursAdd(t, from, h1);
  }

  lemma HoursAdd(t: PTime, from: PTime, h1: int)
    requires t.At? && from.At? && !PeriodStart(t, h1).Before(from) && h1 > 0
    ensures HoursBetween(t, from) == HoursBetween(PeriodStart(t, h1), from) + h1
  {
  }

  lemma FromEarlierMeans(ts: TimeSerie, t: PTime, h1: int, h2: int, provider: string)
    requires t.At? && provider != "" && h1 > 0 && h2 > 0
    requires FromEarlier(ts, provider) && AllDefined(ts, t, h1, h2, provider)
    ensures ReadAlike(ts, t, h1, h2, provider) <==> ReadAlikeFromEarlier(ts, t, h1, h2, provider)
  {
    var middle, start := PeriodStart(t, h1), PeriodStart(t, h1 + h2);
    var run, early := OldestRun(ts, middle, provider), OldestRun(ts, start, provider);
    if OldestRun(ts, t, provider) != t {
      RunReachesBack(ts, t, h1, h2, provider);
    } else {
      StartIsStored(ts, t, h1, provider);
      StartIsStored(ts, t, h1 + h2, provider);
      assert !middle.Before(run) && !start.Before(early);
    }
  }

  // ---------------------------------------------------------------- an example

  lemma FirstFrom(s: set<PTime>, from: PTime)
    requires from in s && forall f | f in s && f != from :: from.Before(f)
    ensures Ordered(s) != [] && Ordered(s)[0] == from
  {
    LeastIs(s);
  }

  lemma OldestOf(fs: FromTimeSerie, provider: string, from: PTime, v: real)
    requires ValueAt(fs, from, provider, ACCUMULATED) == Some(v)
    requires forall f | f in fs && f != from :: from.Before(f)
    ensures Oldest(fs, provider) == Some(Hit(v, from, provider))
  {
    FirstFrom(fs.Keys, from);
    SingleProvider(fs, ACCUMULATED, from, provider);
  }

  lemma AmountOf(ts: TimeSerie, t: PTime, hoursBack: int, provider: string, from: PTime, now: real, back: real)
    requires t.At? && from.At? && from != t && HoursBetween(t, from) != hoursBack
    requires Oldest(Get(ts, t, map[]), provider) == Some(Hit(now, from, provider))
    requires Accumulated(ts, PeriodStart(t, hoursBack), from, provider) == Some(back)
    ensures Amount(ts, t, hoursBack, provider) == Some(Max(0.0, Max(0.0, now) - Max(0.0, back)))
  {
  }

  function Amounts(values: map<PTime, real>): (r: FromTimeSerie) {
    map f | f in values :: map["P" := map[ACCUMULATED := values[f]]]
  }

  /** Two runs; the older one ends before the last time. */
  function TwoRuns(): (ts: TimeSerie) {
    map[At(HOUR) := Amounts(map[At(-HOUR) := 1.0, At(0) := 0.0]),
        At(2 * HOUR) := Amounts(map[At(-HOUR) := 3.0, At(0) := 1.0]),
        At(3 * HOUR) := Amounts(map[At(0) := 2.0])]
  }

  lemma TwoRunsHolds()
    ensures var ts := TwoRuns();
            && Accumulated(ts, At(2 * HOUR), At(0), "P") == Some(1.0)
            && Accumulated(ts, At(HOUR), At(0), "P") == Some(0.0)
            && Accumulated(ts, At(HOUR), At(-HOUR), "P") == Some(1.0)
            && Oldest(Get(ts, At(3 * HOUR), map[]), "P") == Some(Hit(2.0, At(0), "P"))
            && Oldest(Get(ts, At(2 * HOUR), map[]), "P") == Some(Hit(3.0, At(-HOUR), "P"))
  {
    OldestOf(TwoRuns()[At(3 * HOUR)], "P", At(0), 2.0);
    OldestOf(TwoRuns()[At(2 * HOUR)], "P", At(-HOUR), 3.0);
  }

  lemma TwoRunsAmounts()
    ensures Amount(TwoRuns(), At(2 * HOUR), 1, "P") == Some(2.0)
    ensures Amount(TwoRuns(), At(3 * HOUR), 1, "P") == Some(1.0)
    ensures Amount(TwoRuns(), At(3 * HOUR), 2, "P") == Some(2.0)
  {
    TwoRunsHolds();
    AmountOf(TwoRuns(), At(3 * HOUR), 1, "P", At(0), 2.0, 1.0);
    AmountOf(TwoRuns(), At(2 * HOUR), 1, "P", At(-HOUR), 3.0, 1.0);
    AmountOf(TwoRuns(), At(3 * HOUR), 2, "P", At(0), 2.0, 0.0);
  }

  lemma OnlyP(u: PTime)
    requires u in TwoRuns()
    ensures OnlyProvider(TwoRuns()[u], "P")
  {
  }

  /** The two hours come to 2.0 and 1.0, but both of them to 2.0. */
  lemma TwoRunsDoNotAddUp(tryHard: bool)
    ensures var priority := [ProviderItem("P", "")];
            && PeriodAmount(TwoRuns(), priority, At(2 * HOUR), 1, "P", tryHard).sum == Some(2.0)
            && PeriodAmount(TwoRuns(), priority, At(3 * HOUR), 1, "P", tryHard).sum == Some(1.0)
            && PeriodAmount(TwoRuns(), priority, At(3 * HOUR), 2, "P", tryHard).sum == Some(2.0)
  {
    var priority := [ProviderItem("P", "")];
    TwoRunsAmounts();
    forall u | u in TwoRuns()
      ensures OnlyProvider(TwoRuns()[u], "P")
    {
      OnlyP(u);
    }
    PrecipNOfOneProvider(TwoRuns(), priority, At(2 * HOUR), 1, "P", tryHard);
    PrecipNOfOneProvider(TwoRuns(), priority, At(3 * HOUR), 1, "P", tryHard);
    PrecipNOfOneProvider(TwoRuns(), priority, At(3 * HOUR), 2, "P", tryHard);
  }
}
