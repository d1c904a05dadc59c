/**
 Searching for a value in the data of one to-time, `[fromTime][provider] -> values`. The
 search remembers in the provider and the from time that the caller passes where it found
 the value, so later searches stay with that provider.
 */
module ValueLookup {
  import opened Times
  import opened NestedMaps
  import opened PointData
  import opened Text
  import opened Providers

  // ---------------------------------------------------------------- keys in order

  predicate IsLeast(s: set<PTime>, t: PTime) {
    t in s && forall u | u in s && u != t :: t.Before(u)
  }

  lemma BeforeTransitive(t: PTime, u: PTime, v: PTime)
    requires t.Before(u) && u.Before(v)
    ensures t.Before(v)
  {
  }

  lemma LeastExists(s: set<PTime>)
    requires s != {}
    ensures exists t :: IsLeast(s, t)
  {
    var x :| x in s;
    if s == {x} {
      assert IsLeast(s, x);
    } else {
      var rest := s - {x};
      LeastExists(rest);
      var t :| IsLeast(rest, t);
      if x.Before(t) {
        forall u | u in s && u != x
          ensures x.Before(u)
        {
          if u != t {
            BeforeTransitive(x, t, u);
          }
        }
        assert IsLeast(s, x);
      } else {
        assert IsLeast(s, t);
      }
    }
  }

  lemma LeastUnique(s: set<PTime>, t: PTime, u: PTime)
    requires IsLeast(s, t) && IsLeast(s, u)
    ensures t == u
  {
  }

  function Least(s: set<PTime>): (t: PTime)
    requires s != {}
    ensures t in s
  {
    LeastExists(s);
    assert forall t, u | IsLeast(s, t) && IsLeast(s, u) :: t == u;
    var t :| IsLeast(s, t);
    t
  }

  lemma LeastIs(s: set<PTime>)
    requires s != {}
    ensures IsLeast(s, Least(s))
  {
    LeastExists(s);
  }

  /** The keys of a map in the order in which the iterators of `std::map` visit them. */
  function Ordered(s: set<PTime>): (r: seq<PTime>) {
    if s == {} then []
    else
      var t := Least(s);
      [t] + Ordered(s - {t})
  }

  lemma {:induction false} OrderedHas(s: set<PTime>, t: PTime)
    ensures t in Ordered(s) <==> t in s
  {
    if s == {} {
    } else {
      OrderedHas(s - {Least(s)}, t);
    }
  }

  lemma {:induction false} OrderedIs(s: set<PTime>)
    ensures forall t :: t in Ordered(s) <==> t in s
    ensures forall i, j | 0 <= i < j < |Ordered(s)| :: Ordered(s)[i].Before(Ordered(s)[j])
  {
    if s == {} {
    } else {
      var t := Least(s);
      LeastIs(s);
      var rest := Ordered(s - {t});
      OrderedIs(s - {t});
      assert Ordered(s) == [t] + rest;
      forall u
        ensures u in Ordered(s) <==> u in s
      {
        OrderedHas(s, u);
      }
      forall i, j | 0 <= i < j < |Ordered(s)|
        ensures Ordered(s)[i].Before(Ordered(s)[j])
      {
        assert Ordered(s)[j] == rest[j - 1] && rest[j - 1] in rest;
        assert i > 0 ==> Ordered(s)[i] == rest[i - 1];
      }
    }
  }

  // ---------------------------------------------------------------- the specification

  function ValueAt(fs: FromTimeSerie, from: PTime, provider: string, field: Field): (r: Option<real>) {
    var pd := Get(Get(fs, from, map[]), provider, map[]);
    if field in pd then Some(pd[field]) else None
  }

  datatype Hit = Hit(value: real, from: PTime, provider: string)

  /** The first provider of the list with a value. */
  function FirstProvider(fs: FromTimeSerie, field: Field, from: PTime, providers: seq<string>): (r: Option<Hit>) {
    if providers == [] then None
    else
      var v := ValueAt(fs, from, providers[0], field);
      if v.Some? then Some(Hit(v.value, from, providers[0])) else FirstProvider(fs, field, from, providers[1..])
  }

  lemma {:induction false} FirstProviderIs(fs: FromTimeSerie, field: Field, from: PTime, providers: seq<string>)
    ensures var r := FirstProvider(fs, field, from, providers);
            && (r.None? <==> forall j | 0 <= j < |providers| :: ValueAt(fs, from, providers[j], field).None?)
            && (r.Some? ==> exists j | 0 <= j < |providers| ::
                  && r.value.provider == providers[j] && r.value.from == from
                  && ValueAt(fs, from, providers[j], field) == Some(r.value.value)
                  && forall k | 0 <= k < j :: ValueAt(fs, from, providers[k], field).None?)
  {
    if providers == [] {
    } else {
      FirstProviderIs(fs, field, from, providers[1..]);
      assert providers == [providers[0]] + providers[1..];
    }
  }

  /** The first value in the order of the from times, and for each of the providers. */
  function FirstHit(fs: FromTimeSerie, field: Field, froms: seq<PTime>, providers: seq<string>): (r: Option<Hit>) {
    if froms == [] then None
    else
      var h := FirstProvider(fs, field, froms[0], providers);
      if h.Some? then h else FirstHit(fs, field, froms[1..], providers)
  }

  /** Provider j at from time i has a value, and nothing before it in the search order has. */
  predicate IsFirst(fs: FromTimeSerie, field: Field, froms: seq<PTime>, providers: seq<string>, i: nat, j: nat)
    requires i < |froms| && j < |providers|
  {
    && ValueAt(fs, froms[i], providers[j], field).Some?
    && forall k, l | 0 <= k < |froms| && 0 <= l < |providers| && (k < i || (k == i && l < j)) ::
         ValueAt(fs, froms[k], providers[l], field).None?
  }

  predicate NoValue(fs: FromTimeSerie, field: Field, froms: seq<PTime>, providers: seq<string>) {
    forall i, j | 0 <= i < |froms| && 0 <= j < |providers| :: ValueAt(fs, froms[i], providers[j], field).None?
  }

  /** What being the first hit means. */
  lemma {:induction false} FirstHitIs(fs: FromTimeSerie, field: Field, froms: seq<PTime>, providers: seq<string>)
    ensures var r := FirstHit(fs, field, froms, providers);
            && (r.None? <==> NoValue(fs, field, froms, providers))
            && (r.Some? ==> exists i: nat, j: nat | i < |froms| && j < |providers| ::
                  && IsFirst(fs, field, froms, providers, i, j)
                  && r.value == Hit(ValueAt(fs, froms[i], providers[j], field).value, froms[i], providers[j]))
  {
    if froms == [] {
    } else {
      FirstHitIs(fs, field, froms[1..], providers);
      FirstProviderIs(fs, field, froms[0], providers);
      var h := FirstProvider(fs, field, froms[0], providers);
      var r := FirstHit(fs, field, froms, providers);
      assert forall k | 0 < k < |froms| :: froms[k] == froms[1..][k - 1];
      if h.Some? {
        var j :| 0 <= j < |providers| && r.value.provider == providers[j]
          && ValueAt(fs, froms[0], providers[j], field) == Some(r.value.value)
          && forall k | 0 <= k < j :: ValueAt(fs, froms[0], providers[k], field).None?;
        assert IsFirst(fs, field, froms, providers, 0, j);
      } else if r.Some? {
        var i: nat, j: nat :| i < |froms[1..]| && j < |providers|
          && IsFirst(fs, field, froms[1..], providers, i, j)
          && r.value == Hit(ValueAt(fs, froms[1..][i], providers[j], field).value, froms[1..][i], providers[j]);
        assert IsFirst(fs, field, froms, providers, i + 1, j);
      } else {
        assert NoValue(fs, field, froms[1..], providers);
      }
    }
  }

  function Names(items: seq<ProviderItem>): (r: seq<string>)
    ensures |r| == |items| && forall i | 0 <= i < |items| :: r[i] == items[i].Name()
  {
    seq(|items|, i requires 0 <= i < |items| => items[i].Name())
  }

  /** The from times that a search looks at. */
  function FromsFor(fs: FromTimeSerie, fromTime: PTime): (r: seq<PTime>) {
    if fromTime.IsSpecial() then Ordered(fs.Keys) else if fromTime in fs then [fromTime] else []
  }

  /** The providers that a search looks at. */
  function ProvidersFor(priority: seq<ProviderItem>, provider: string): (r: seq<string>) {
    if provider == "" then Names(priority) else [provider]
  }

  /** `getValueImpl` as a function of the provider and from time passed in. */
  function Search(fs: FromTimeSerie, field: Field, priority: seq<ProviderItem>, fromTime: PTime,
                  provider: string): (r: Option<Hit>) {
    FirstHit(fs, field, FromsFor(fs, fromTime), ProvidersFor(priority, provider))
  }

  // ---------------------------------------------------------------- getValue, as a function

  /** The name of a provider without its place. */
  function Prefix(provider: string): (r: string) {
    var i := IndexOf(provider, '[');
    if i < |provider| then Trim(provider[..i]) else provider
  }

  /** The searches with another placename of the same provider, in priority order. */
  function SearchSameName(fs: FromTimeSerie, field: Field, priority: seq<ProviderItem>, items: seq<ProviderItem>,
                          prefix: string, fromTime: PTime): (r: Option<Hit>)
  {
    if items == [] then None
    else
      var h := Search(fs, field, priority, fromTime, items[0].Name());
      if items[0].provider == prefix && h.Some? then h
      else SearchSameName(fs, field, priority, items[1..], prefix, fromTime)
  }

  /** What `getValue` leaves behind: the value, and the caller's provider and from time. */
  datatype Found = Found(value: Option<real>, fromTime: PTime, provider: string)

  /** The from time after a search: a special one is replaced by where the value was found. */
  function FromAfter(h: Option<Hit>, fromTime: PTime): (r: PTime) {
    if h.Some? && fromTime.IsSpecial() then h.value.from else fromTime
  }

  function ProviderAfter(h: Option<Hit>, provider: string): (r: string) {
    if h.Some? && provider == "" then h.value.provider else provider
  }

  function ValueOf(h: Option<Hit>): (r: Option<real>) {
    if h.Some? then Some(h.value.value) else None
  }

  function GetValueOf(fs: FromTimeSerie, field: Field, priority: seq<ProviderItem>, fromTime: PTime, provider: string,
                      cleanProvider: bool, cleanFromTime: bool): (r: Found)
  {
    var h := Search(fs, field, priority, fromTime, provider);
    if h.Some? then Found(ValueOf(h), FromAfter(h, fromTime), ProviderAfter(h, provider))
    else
      var h2 := if provider != "" && !cleanProvider
                then SearchSameName(fs, field, priority, priority, Prefix(provider), fromTime) else None;
      if h2.Some? then Found(ValueOf(h2), FromAfter(h2, fromTime), provider)
      else if (provider != "" && cleanProvider) || cleanFromTime then
        var provider3 := if cleanProvider then "" else provider;
        var fromTime3 := if cleanFromTime then NotADateTime else fromTime;
        var h3 := Search(fs, field, priority, fromTime3, provider3);
        Found(ValueOf(h3), FromAfter(h3, fromTime3), ProviderAfter(h3, provider3))
      else Found(None, fromTime, provider)
  }

  // ---------------------------------------------------------------- the last used provider

  /** The from time and the provider are given and have an entry, with or without a value. */
  predicate HasCell(fs: FromTimeSerie, fromTime: PTime, provider: string) {
    !fromTime.IsSpecial() && provider != "" && fromTime in fs && provider in fs[fromTime]
  }

  /** An entry without a value is noted as used too, when it is looked up directly. */
  function UsedAfterSearch(fs: FromTimeSerie, field: Field, priority: seq<ProviderItem>, fromTime: PTime,
                           provider: string,
                           last: string): (r: string)
  {
    var h := Search(fs, field, priority, fromTime, provider);
    if h.Some? then h.value.provider else if HasCell(fs, fromTime, provider) then provider else last
  }

  function UsedAfterSameName(fs: FromTimeSerie, field: Field, priority: seq<ProviderItem>, items: seq<ProviderItem>,
                             prefix: string, fromTime: PTime, last: string): (r: string)
    decreases |items|
  {
    if items == [] then last
    else if items[0].provider != prefix then UsedAfterSameName(fs, field, priority, items[1..], prefix, fromTime, last)
    else
      var used := UsedAfterSearch(fs, field, priority, fromTime, items[0].Name(), last);
      if Search(fs, field, priority, fromTime, items[0].Name()).Some? then used
      else UsedAfterSameName(fs, field, priority, items[1..], prefix, fromTime, used)
  }

  function UsedAfter(fs: FromTimeSerie, field: Field, priority: seq<ProviderItem>, fromTime: PTime, provider: string,
                     cleanProvider: bool, cleanFromTime: bool, last: string): (r: string)
  {
    var used := UsedAfterSearch(fs, field, priority, fromTime, provider, last);
    if Search(fs, field, priority, fromTime, provider).Some? then used
    else
      var sameName := provider != "" && !cleanProvider;
      var used2 := if sameName then UsedAfterSameName(fs, field, priority, priority, Prefix(provider), fromTime,
        used) else used;
      if sameName && SearchSameName(fs, field, priority, priority, Prefix(provider), fromTime).Some? then used2
      else if (provider != "" && cleanProvider) || cleanFromTime then
        UsedAfterSearch(fs, field, priority, if cleanFromTime then NotADateTime else fromTime,
                        if cleanProvider then "" else provider, used2)
      else used2
  }

  lemma OneFromTime(fs: FromTimeSerie, field: Field, from: PTime, providers: seq<string>)
    ensures FirstHit(fs, field, [from], providers) == FirstProvider(fs, field, from, providers)
  {
    assert [from][1..] == [];
  }

  lemma SingleProvider(fs: FromTimeSerie, field: Field, from: PTime, provider: string)
    ensures FirstProvider(fs, field, from, [provider])
         == match ValueAt(fs, from, provider, field) case Some(v) => Some(Hit(v, from, provider)) case None => None
  {
    assert [provider][1..] == [];
  }

  // ---------------------------------------------------------------- what callers may rely on

  /** Every item of the priority list has a name. */
  predicate NamesGiven(priority: seq<ProviderItem>) {
    forall i | 0 <= i < |priority| :: priority[i].Name() != ""
  }

  /** The from time of the last search: it may be cleared when nothing was found before. */
  function LastFromTime(fs: FromTimeSerie, field: Field, priority: seq<ProviderItem>, fromTime: PTime,
                        cleanFromTime: bool): (r: PTime) {
    if cleanFromTime && NoValue(fs, field, FromsFor(fs, fromTime), Names(priority)) then NotADateTime else fromTime
  }

  /** With no provider given, the value is the first one in the order of from times and
      priorities, and the caller is told its provider and from time. */
  lemma FreeSearch(fs: FromTimeSerie, field: Field, priority: seq<ProviderItem>, fromTime: PTime, cleanProvider: bool,
                   cleanFromTime: bool)
    ensures var r := GetValueOf(fs, field, priority, fromTime, "", cleanProvider, cleanFromTime);
            var last := LastFromTime(fs, field, priority, fromTime, cleanFromTime);
            var froms, names := FromsFor(fs, last), Names(priority);
            && (r.value.None? <==> NoValue(fs, field, froms, names))
            && (r.value.Some? ==> exists i: nat, j: nat | i < |froms| && j < |names| ::
                  && IsFirst(fs, field, froms, names, i, j)
                  && r == Found(ValueAt(fs, froms[i], names[j], field),
                                if last.IsSpecial() then froms[i] else last, names[j]))
  {
    FirstHitIs(fs, field, FromsFor(fs, fromTime), Names(priority));
    FirstHitIs(fs, field, FromsFor(fs, NotADateTime), Names(priority));
  }

  /** A search for one given provider. */
  lemma SearchOne(fs: FromTimeSerie, field: Field, priority: seq<ProviderItem>, fromTime: PTime, provider: string)
    requires provider != ""
    ensures var h := Search(fs, field, priority, fromTime, provider);
            && (h.None? <==> forall f | f in FromsFor(fs, fromTime) :: ValueAt(fs, f, provider, field).None?)
            && (h.Some? ==> h.value.provider == provider && h.value.from in FromsFor(fs, fromTime)
                            && ValueAt(fs, h.value.from, provider, field) == Some(h.value.value))
  {
    var froms := FromsFor(fs, fromTime);
    FirstHitIs(fs, field, froms, [provider]);
    var h := Search(fs, field, priority, fromTime, provider);
    if h.None? {
      forall f | f in froms
        ensures ValueAt(fs, f, provider, field).None?
      {
        var i :| 0 <= i < |froms| && froms[i] == f;
        assert ValueAt(fs, froms[i], [provider][0], field).None?;
      }
    }
  }

  /** A value found with a provider given and without trying hard comes from a provider of
      the same base name, and the caller's provider stays what it was. */
  lemma SameBaseName(fs: FromTimeSerie, field: Field, priority: seq<ProviderItem>, fromTime: PTime, provider: string,
                     cleanFromTime: bool)
    requires provider != "" && NamesGiven(priority)
    ensures var r := GetValueOf(fs, field, priority, fromTime, provider, false, cleanFromTime);
            && r.provider == provider
            && (r.value.Some? ==> exists q, f ::
                  && (q == provider
                      || exists i | 0 <= i < |priority| ::
                          priority[i].provider == Prefix(provider) && priority[i].Name() == q)
                  && ValueAt(fs, f, q, field) == r.value)
  {
    var r := GetValueOf(fs, field, priority, fromTime, provider, false, cleanFromTime);
    SearchOne(fs, field, priority, fromTime, provider);
    SearchOne(fs, field, priority, NotADateTime, provider);
    SameNameHit(fs, field, priority, priority, Prefix(provider), fromTime);
  }

  lemma {:induction false} SameNameHit(fs: FromTimeSerie, field: Field, priority: seq<ProviderItem>,
                                       items: seq<ProviderItem>,
                                       prefix: string, fromTime: PTime)
    requires NamesGiven(items)
    ensures var h := SearchSameName(fs, field, priority, items, prefix, fromTime);
            h.Some? ==>
              && (exists i | 0 <= i < |items| :: items[i].provider == prefix && items[i].Name() == h.value.provider)
              && ValueAt(fs, h.value.from, h.value.provider, field) == Some(h.value.value)
  {
    if items == [] {
    } else {
      SearchOne(fs, field, priority, fromTime, items[0].Name());
      SameNameHit(fs, field, priority, items[1..], prefix, fromTime);
      assert forall i | 0 <= i < |items[1..]| :: items[1..][i] == items[i + 1];
    }
  }

  /** Item i is the first of its name with a value, and this is the value. */
  predicate IsFirstOfName(fs: FromTimeSerie, field: Field, priority: seq<ProviderItem>, items: seq<ProviderItem>,
                          prefix: string,
                          fromTime: PTime, h: Option<Hit>, i: nat)
  {
    && i < |items| && items[i].provider == prefix && h == Search(fs, field, priority, fromTime, items[i].Name())
    && forall k | 0 <= k < i :: MissesAs(fs, field, priority, items[k], prefix, fromTime)
  }

  /** The search among providers of the same name takes the first of them that has a value. */
  lemma {:induction false} SameNameFirst(fs: FromTimeSerie, field: Field, priority: seq<ProviderItem>,
                                         items: seq<ProviderItem>,
                                         prefix: string, fromTime: PTime)
    ensures var h := SearchSameName(fs, field, priority, items, prefix, fromTime);
            && (h.None? <==> forall i | 0 <= i < |items| :: MissesAs(fs, field, priority, items[i], prefix, fromTime))
            && (h.Some? ==> exists i: nat :: IsFirstOfName(fs, field, priority, items, prefix, fromTime, h, i))
  {
    if items == [] {
    } else {
      var h := SearchSameName(fs, field, priority, items, prefix, fromTime);
      assert forall i | 0 < i < |items| :: items[i] == items[1..][i - 1];
      if !MissesAs(fs, field, priority, items[0], prefix, fromTime) {
        assert IsFirstOfName(fs, field, priority, items, prefix, fromTime, h, 0);
      } else {
        SameNameFirst(fs, field, priority, items[1..], prefix, fromTime);
        if h.Some? {
          var i: nat :| IsFirstOfName(fs, field, priority, items[1..], prefix, fromTime, h, i);
          FirstOfMore(fs, field, priority, items, prefix, fromTime, h, i);
        }
      }
    }
  }

  lemma FirstOfMore(fs: FromTimeSerie, field: Field, priority: seq<ProviderItem>, items: seq<ProviderItem>,
                    prefix: string, fromTime: PTime, h: Option<Hit>, i: nat)
    requires items != [] && MissesAs(fs, field, priority, items[0], prefix, fromTime)
    requires IsFirstOfName(fs, field, priority, items[1..], prefix, fromTime, h, i)
    ensures IsFirstOfName(fs, field, priority, items, prefix, fromTime, h, i + 1)
  {
    assert forall k | 0 < k < |items| :: items[k] == items[1..][k - 1];
  }

  predicate MissesAs(fs: FromTimeSerie, field: Field, priority: seq<ProviderItem>, item: ProviderItem, prefix: string,
                     fromTime: PTime) {
    item.provider == prefix ==> Search(fs, field, priority, fromTime, item.Name()).None?
  }

  // ---------------------------------------------------------------- in terms of single values

  /** A from time that a search with this from time looks at. */
  predicate LooksAt(fs: FromTimeSerie, fromTime: PTime, f: PTime) {
    f in fs && (fromTime.IsSpecial() || f == fromTime)
  }

  /** The provider has a value where the search looks. */
  predicate Has(fs: FromTimeSerie, field: Field, fromTime: PTime, provider: string) {
    exists f | f in fs :: LooksAt(fs, fromTime, f) && ValueAt(fs, f, provider, field).Some?
  }

  /** The earliest from time at which the provider has a value. */
  predicate IsEarliest(fs: FromTimeSerie, field: Field, fromTime: PTime, provider: string, f: PTime) {
    && LooksAt(fs, fromTime, f) && ValueAt(fs, f, provider, field).Some?
    && forall g | g in fs && LooksAt(fs, fromTime, g) && ValueAt(fs, g, provider, field).Some? :: !g.Before(f)
  }

  /** The earliest value of the provider has been found, and a special from time been set. */
  predicate IsFound(fs: FromTimeSerie, field: Field, fromTime: PTime, provider: string, r: Found) {
    exists f | f in fs ::
      && IsEarliest(fs, field, fromTime, provider, f)
      && r.value == ValueAt(fs, f, provider, field) && r.fromTime == if fromTime.IsSpecial() then f else fromTime
  }

  /** Item i is the first of that provider in the list that has a value. */
  predicate IsFirstNamesake(fs: FromTimeSerie, field: Field, fromTime: PTime, priority: seq<ProviderItem>,
                            provider: string, i: nat) {
    && i < |priority| && priority[i].provider == provider && Has(fs, field, fromTime, priority[i].Name())
    && forall k | 0 <= k < i && priority[k].provider == provider :: !Has(fs, field, fromTime, priority[k].Name())
  }

  predicate NamesakesMiss(fs: FromTimeSerie, field: Field, fromTime: PTime, priority: seq<ProviderItem>,
                          provider: string) {
    forall i | 0 <= i < |priority| && priority[i].provider == provider :: !Has(fs, field, fromTime, priority[i].Name())
  }

  lemma FromsForIs(fs: FromTimeSerie, fromTime: PTime)
    ensures forall f :: f in FromsFor(fs, fromTime) <==> LooksAt(fs, fromTime, f)
    ensures forall i, j | 0 <= i < j < |FromsFor(fs, fromTime)| ::
              FromsFor(fs, fromTime)[i].Before(FromsFor(fs, fromTime)[j])
  {
    OrderedIs(fs.Keys);
  }

  /** What a search for one provider finds. */
  lemma SearchMeans(fs: FromTimeSerie, field: Field, priority: seq<ProviderItem>, fromTime: PTime, provider: string)
    requires provider != ""
    ensures var h := Search(fs, field, priority, fromTime, provider);
            && (h.Some? <==> Has(fs, field, fromTime, provider))
            && (h.Some? ==> IsEarliest(fs, field, fromTime, provider, h.value.from)
                            && ValueAt(fs, h.value.from, provider, field) == Some(h.value.value))
  {
    SearchOne(fs, field, priority, fromTime, provider);
    FromsForIs(fs, fromTime);
    var h := Search(fs, field, priority, fromTime, provider);
    if h.Some? {
      SearchIsEarliest(fs, field, priority, fromTime, provider, h.value);
    }
  }

  lemma NoneBefore(fs: FromTimeSerie, field: Field, froms: seq<PTime>, provider: string, i: nat)
    requires i < |froms| && IsFirst(fs, field, froms, [provider], i, 0)
    ensures forall k | 0 <= k < |froms| && ValueAt(fs, froms[k], provider, field).Some? :: k >= i
  {
    assert [provider][0] == provider;
  }

  lemma SearchIsEarliest(fs: FromTimeSerie, field: Field, priority: seq<ProviderItem>, fromTime: PTime,
                         provider: string, h: Hit)
    requires provider != "" && Search(fs, field, priority, fromTime, provider) == Some(h)
    ensures IsEarliest(fs, field, fromTime, provider, h.from)
  {
    var froms := FromsFor(fs, fromTime);
    FromsForIs(fs, fromTime);
    FirstHitIs(fs, field, froms, [provider]);
    var i: nat, j: nat :| i < |froms| && j < 1 && IsFirst(fs, field, froms, [provider], i, j) && h.from == froms[i];
    assert froms[i] in froms && j == 0;
    NoneBefore(fs, field, froms, provider, i);
    forall g | LooksAt(fs, fromTime, g) && ValueAt(fs, g, provider, field).Some?
      ensures !g.Before(froms[i])
    {
      var k :| 0 <= k < |froms| && froms[k] == g;
      assert k == i || froms[i].Before(froms[k]);
    }
  }

  /** The name that the search for namesakes goes by. */
  lemma PrefixOfName(item: ProviderItem)
    requires IsNormal(item)
    ensures Prefix(item.Name()) == item.provider
  {
    DecodeName(item);
    if item.placename == "" {
      IndexOfIs(item.provider, '[');
    } else {
      assert item.Name() == (item.provider + " ") + ['['] + (item.placename + "]");
      IndexOfFirst(item.provider + " ", '[', item.placename + "]");
      assert item.Name()[..|item.provider| + 1] == item.provider + " ";
      assert (item.provider + " ")[..|item.provider|] == item.provider;
    }
  }

  /** The search among the namesakes, in terms of single values. */
  lemma NamesakeMeans(fs: FromTimeSerie, field: Field, priority: seq<ProviderItem>, fromTime: PTime, provider: string)
    returns (i: nat)
    requires NamesGiven(priority)
    ensures var h := SearchSameName(fs, field, priority, priority, provider, fromTime);
            if h.None? then NamesakesMiss(fs, field, fromTime, priority, provider)
            else
              && IsFirstNamesake(fs, field, fromTime, priority, provider, i)
              && IsEarliest(fs, field, fromTime, priority[i].Name(), h.value.from)
              && ValueAt(fs, h.value.from, priority[i].Name(), field) == Some(h.value.value)
  {
    var h := SearchSameName(fs, field, priority, priority, provider, fromTime);
    SameNameFirst(fs, field, priority, priority, provider, fromTime);
    forall k | 0 <= k < |priority|
      ensures MissesAs(fs, field, priority, priority[k], provider, fromTime) <==>
              (priority[k].provider == provider ==> !Has(fs, field, fromTime, priority[k].Name()))
    {
      SearchMeans(fs, field, priority, fromTime, priority[k].Name());
    }
    i := 0;
    if h.Some? {
      i :| IsFirstOfName(fs, field, priority, priority, provider, fromTime, h, i);
      SearchMeans(fs, field, priority, fromTime, priority[i].Name());
    }
  }

  /** What `getValue` finds for a given provider without trying hard: its own value; else that
      of the first provider of the same name in the list, whatever the place; else, with the
      from time cleared, its own at any from time. The caller's provider stays. */
  lemma GivenProvider(fs: FromTimeSerie, field: Field, priority: seq<ProviderItem>, fromTime: PTime, item: ProviderItem,
                      cleanFromTime: bool)
    requires IsNormal(item) && item.Name() != "" && NamesGiven(priority)
    ensures var name := item.Name();
            var r := GetValueOf(fs, field, priority, fromTime, name, false, cleanFromTime);
            && r.provider == name
            && if Has(fs, field, fromTime, name) then IsFound(fs, field, fromTime, name, r)
               else if !NamesakesMiss(fs, field, fromTime, priority, item.provider) then
                 exists i: nat :: IsFirstNamesake(fs, field, fromTime, priority, item.provider, i)
                                  && IsFound(fs, field, fromTime, priority[i].Name(), r)
               else if cleanFromTime && Has(fs, field, NotADateTime, name) then
                 IsFound(fs, field, NotADateTime, name, r)
               else r == Found(None, if cleanFromTime then NotADateTime else fromTime, name)
  {
    SearchMeans(fs, field, priority, fromTime, item.Name());
    SearchMeans(fs, field, priority, NotADateTime, item.Name());
    PrefixOfName(item);
    var i := NamesakeMeans(fs, field, priority, fromTime, item.provider);
  }

  /** So there is no value exactly when none of these has one. */
  lemma GivenProviderMisses(fs: FromTimeSerie, field: Field, priority: seq<ProviderItem>, fromTime: PTime,
                            item: ProviderItem, cleanFromTime: bool)
    requires IsNormal(item) && item.Name() != "" && NamesGiven(priority)
    ensures GetValueOf(fs, field, priority, fromTime, item.Name(), false, cleanFromTime).value.None? <==>
            && !Has(fs, field, fromTime, item.Name())
            && NamesakesMiss(fs, field, fromTime, priority, item.provider)
            && (cleanFromTime ==> !Has(fs, field, NotADateTime, item.Name()))
  {
    GivenProvider(fs, field, priority, fromTime, item, cleanFromTime);
  }

  /** The first value in the order of from times and priorities has been found, or there is none. */
  predicate IsFreeResult(fs: FromTimeSerie, field: Field, priority: seq<ProviderItem>, fromTime: PTime,
                         provider: string, r: Found) {
    var froms, names := FromsFor(fs, fromTime), Names(priority);
    if NoValue(fs, field, froms, names) then r == Found(None, fromTime, provider)
    else
      exists i: nat, j: nat | i < |froms| && j < |names| ::
        && IsFirst(fs, field, froms, names, i, j)
        && r == Found(ValueAt(fs, froms[i], names[j], field),
                      if fromTime.IsSpecial() then froms[i] else fromTime, names[j])
  }

  /** What it finds when it tries hard: the value of the given provider, else the first value
      of all, with the from time cleared if that is allowed. */
  lemma GivenProviderHard(fs: FromTimeSerie, field: Field, priority: seq<ProviderItem>, fromTime: PTime,
                          provider: string, cleanFromTime: bool)
    requires provider != ""
    ensures var r := GetValueOf(fs, field, priority, fromTime, provider, true, cleanFromTime);
            if Has(fs, field, fromTime, provider)
            then IsFound(fs, field, fromTime, provider, r) && r.provider == provider
            else IsFreeResult(fs, field, priority, if cleanFromTime then NotADateTime else fromTime, "", r)
  {
    SearchMeans(fs, field, priority, fromTime, provider);
    FirstHitIs(fs, field, FromsFor(fs, if cleanFromTime then NotADateTime else fromTime), Names(priority));
  }

  /** No provider, or one that its name can be told from. */
  predicate IsName(provider: string) {
    provider == "" || (IsNormal(DecodeItem(provider)) && DecodeItem(provider).Name() == provider)
  }

  predicate AllNames(priority: seq<ProviderItem>) {
    forall i | 0 <= i < |priority| :: IsNormal(priority[i]) && priority[i].Name() != ""
  }

  /** What `getValue` comes to, in terms of single values. */
  predicate IsRead(fs: FromTimeSerie, field: Field, priority: seq<ProviderItem>, fromTime: PTime, provider: string,
                   tryHard: bool, cleanFromTime: bool, r: Found)
  {
    var item := DecodeItem(provider);
    if provider == "" then
      IsFreeResult(fs, field, priority, LastFromTime(fs, field, priority, fromTime, cleanFromTime), "", r)
    else if Has(fs, field, fromTime, provider) then IsFound(fs, field, fromTime, provider, r) && r.provider == provider
    else if tryHard then
      IsFreeResult(fs, field, priority, if cleanFromTime then NotADateTime else fromTime, "", r)
    else if !NamesakesMiss(fs, field, fromTime, priority, item.provider) then
      r.provider == provider && exists i | 0 <= i < |priority| ::
        IsFirstNamesake(fs, field, fromTime, priority, item.provider, i)
        && IsFound(fs, field, fromTime, priority[i].Name(), r)
    else if cleanFromTime && Has(fs, field, NotADateTime, provider) then
      IsFound(fs, field, NotADateTime, provider, r) && r.provider == provider
    else r == Found(None, if cleanFromTime then NotADateTime else fromTime, provider)
  }

  lemma GetValueReads(fs: FromTimeSerie, field: Field, priority: seq<ProviderItem>, fromTime: PTime, provider: string,
                      tryHard: bool, cleanFromTime: bool)
    requires IsName(provider) && NamesGiven(priority)
    ensures IsRead(fs, field, priority, fromTime, provider, tryHard, cleanFromTime,
                   GetValueOf(fs, field, priority, fromTime, provider, tryHard, cleanFromTime))
  {
    if provider == "" {
      FreeSearch(fs, field, priority, fromTime, tryHard, cleanFromTime);
      FreeSearchMisses(fs, field, priority, fromTime, tryHard, cleanFromTime);
    } else if tryHard {
      GivenProviderHard(fs, field, priority, fromTime, provider, cleanFromTime);
    } else {
      GivenProvider(fs, field, priority, fromTime, DecodeItem(provider), cleanFromTime);
    }
  }

  lemma FreeSearchMisses(fs: FromTimeSerie, field: Field, priority: seq<ProviderItem>, fromTime: PTime, tryHard: bool,
                         cleanFromTime: bool)
    ensures var r := GetValueOf(fs, field, priority, fromTime, "", tryHard, cleanFromTime);
            r.value.None? ==> r == Found(None, LastFromTime(fs, field, priority, fromTime, cleanFromTime), "")
  {
    FirstHitIs(fs, field, FromsFor(fs, fromTime), Names(priority));
  }

  /** A provider that has been found can be told from its name. */
  lemma ReadProvider(fs: FromTimeSerie, field: Field, priority: seq<ProviderItem>, fromTime: PTime, provider: string,
                     tryHard: bool, cleanFromTime: bool, r: Found)
    requires IsName(provider) && AllNames(priority)
    requires IsRead(fs, field, priority, fromTime, provider, tryHard, cleanFromTime, r) && r.value.Some?
    ensures IsName(r.provider)
  {
    if r.provider != provider {
      var j :| 0 <= j < |priority| && r.provider == Names(priority)[j];
      DecodeName(priority[j]);
    }
  }

  /** When it tries hard, the search misses only if neither the given provider nor any
      provider of the list has a value. */
  lemma TryingHard(fs: FromTimeSerie, field: Field, priority: seq<ProviderItem>, fromTime: PTime, provider: string,
                   cleanFromTime: bool)
    requires provider != ""
    ensures var last := if cleanFromTime then NotADateTime else fromTime;
            GetValueOf(fs, field, priority, fromTime, provider, true, cleanFromTime).value.None? <==>
            && (forall f | f in FromsFor(fs, fromTime) :: ValueAt(fs, f, provider, field).None?)
            && NoValue(fs, field, FromsFor(fs, last), Names(priority))
  {
    SearchOne(fs, field, priority, fromTime, provider);
    FirstHitIs(fs, field, FromsFor(fs, if cleanFromTime then NotADateTime else fromTime), Names(priority));
  }

  lemma HitHasValue(fs: FromTimeSerie, field: Field, priority: seq<ProviderItem>, fromTime: PTime, provider: string)
    ensures var h := Search(fs, field, priority, fromTime, provider);
            h.Some? ==> ValueAt(fs, h.value.from, h.value.provider, field) == Some(h.value.value)
  {
    FirstHitIs(fs, field, FromsFor(fs, fromTime), ProvidersFor(priority, provider));
  }

  lemma {:induction false} SameNameUsed(fs: FromTimeSerie, field: Field, priority: seq<ProviderItem>,
                                        items: seq<ProviderItem>,
                                        prefix: string, fromTime: PTime, last: string)
    ensures var h := SearchSameName(fs, field, priority, items, prefix, fromTime);
            h.Some? ==>
              && UsedAfterSameName(fs, field, priority, items, prefix, fromTime, last) == h.value.provider
              && ValueAt(fs, h.value.from, h.value.provider, field) == Some(h.value.value)
    decreases |items|
  {
    if items == [] {
    } else {
      HitHasValue(fs, field, priority, fromTime, items[0].Name());
      var used := UsedAfterSearch(fs, field, priority, fromTime, items[0].Name(), last);
      SameNameUsed(fs, field, priority, items[1..], prefix, fromTime,
                   if items[0].provider == prefix then used else last);
    }
  }

  /** After a successful search the last used provider is the one that the value comes from,
      with the given from time f. */
  lemma UsedIsSource(fs: FromTimeSerie, field: Field, priority: seq<ProviderItem>, fromTime: PTime, provider: string,
                     cleanProvider: bool, cleanFromTime: bool, last: string) returns (f: PTime)
    ensures var r := GetValueOf(fs, field, priority, fromTime, provider, cleanProvider, cleanFromTime);
            var used := UsedAfter(fs, field, priority, fromTime, provider, cleanProvider, cleanFromTime, last);
            r.value.Some? ==> ValueAt(fs, f, used, field) == r.value
  {
    var h := Search(fs, field, priority, fromTime, provider);
    var sameName := SearchSameName(fs, field, priority, priority, Prefix(provider), fromTime);
    var from3, provider3 := if cleanFromTime then NotADateTime else fromTime, if cleanProvider then "" else provider;
    var h3 := Search(fs, field, priority, from3, provider3);
    HitHasValue(fs, field, priority, fromTime, provider);
    SameNameUsed(fs, field, priority, priority, Prefix(provider), fromTime,
                 UsedAfterSearch(fs, field, priority, fromTime, provider, last));
    HitHasValue(fs, field, priority, from3, provider3);
    f := if h.Some? then h.value.from
         else if provider != "" && !cleanProvider && sameName.Some? then sameName.value.from
         else if h3.Some? then h3.value.from else fromTime;
  }
}
