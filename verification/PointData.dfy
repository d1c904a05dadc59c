/**
 The forecast data of one request, `[location][toTime][fromTime][provider] -> values`, and
 how the answers of several queries are merged into one.
 */
module PointData {
  import opened Times
  import opened NestedMaps

  type Field = string

  /** The values of one cell. A field that is not in the map holds the missing value FLT_MAX. */
  type PData = map<Field, real>

  type ProviderPDataList = map<string, PData>
  type FromTimeSerie = map<PTime, ProviderPDataList>
  type TimeSerie = map<PTime, FromTimeSerie>

  datatype LocationPoint = LocationPoint(latitude: int, longitude: int)

  type LocationPointData = map<LocationPoint, TimeSerie>

  /** The value of one field of one cell, if there is one. */
  function Lookup(ts: TimeSerie, to: PTime, from: PTime, provider: string, field: Field): (r: Option<real>) {
    var pd := Get(Get(Get(ts, to, map[]), from, map[]), provider, map[]);
    if field in pd then Some(pd[field]) else None
  }

  /** The same in the data of a whole answer, whatever its location is. */
  function LookupAny(data: LocationPointData, to: PTime, from: PTime, provider: string, field: Field): (r: Option<real>)
    requires |data| <= 1
  {
    if data == map[] then None else Lookup(data[TheLocation(data)], to, from, provider, field)
  }

  /** `begin()` of an answer that holds exactly one location. */
  function TheLocation(data: LocationPointData): (loc: LocationPoint)
    requires |data| == 1
    ensures loc in data
    ensures data.Keys == {loc}
  {
    SingletonKey(data);
    var loc :| loc in data.Keys && forall l | l in data.Keys :: l == loc;
    loc
  }

  lemma OneLocationMap(loc: LocationPoint, ts: TimeSerie)
    ensures |map[loc := ts]| == 1
    ensures TheLocation(map[loc := ts]) == loc
  {
    assert map[loc := ts].Keys == {loc};
  }

  lemma SingletonKey(data: LocationPointData)
    requires |data| == 1
    ensures exists loc :: loc in data.Keys && forall l | l in data.Keys :: l == loc
    ensures forall loc | loc in data.Keys :: data.Keys == {loc}
  {
    assert |data.Keys| == 1;
    var loc :| loc in data.Keys;
    assert data.Keys - {loc} == {} by {
      assert |data.Keys - {loc}| == 0;
    }
    forall l | l in data.Keys
      ensures l == loc
    {
      assert l !in data.Keys - {loc};
    }
  }

  // ---------------------------------------------------------------- merging, as functions

  /** `PData::merge`: every value the other record has replaces ours. */
  function MergeCell(mine: PData, other: PData): (r: PData) {
    mine + other
  }

  predicate IsCell(pd: PData) {
    true
  }

  predicate HasProviders(ps: ProviderPDataList) {
    ps != map[]
  }

  predicate HasCells(fs: FromTimeSerie) {
    AnyCounts(fs, HasProviders)
  }

  predicate HasAnyCell(ts: TimeSerie) {
    AnyCounts(ts, HasCells)
  }

  function MergeProviders(a: ProviderPDataList, b: ProviderPDataList): (r: ProviderPDataList) {
    MergeMaps(a, b, IsCell, MergeCell, map[])
  }

  /** Only cells create entries: an empty inner map of `b` leaves no trace. */
  function MergeFrom(a: FromTimeSerie, b: FromTimeSerie): (r: FromTimeSerie) {
    MergeMaps(a, b, HasProviders, MergeProviders, map[])
  }

  function MergeSerie(a: TimeSerie, b: TimeSerie): (r: TimeSerie) {
    MergeMaps(a, b, HasCells, MergeFrom, map[])
  }

  /** The data of the next completed query goes into the location that is already there;
      its own location is used only while there is none. */
  function MergeAnswer(data: LocationPointData, next: LocationPointData): (r: LocationPointData)
    requires |data| <= 1 && |next| <= 1
    ensures |r| <= 1
  {
    if next == map[] then data
    else
      var src := next[TheLocation(next)];
      if data == map[] then
        if HasAnyCell(src) then map[TheLocation(next) := MergeSerie(map[], src)] else data
      else
        map[TheLocation(data) := MergeSerie(data[TheLocation(data)], src)]
  }

  // ---------------------------------------------------------------- laws of merging

  /** `PData::merge` is associative and the all-missing record is its identity. */
  lemma CellLaws()
    ensures Neutral(IsCell, MergeCell, map[])
    ensures forall pd: PData :: MergeCell(map[], pd) == pd
    ensures Associative(MergeCell)
    ensures CountsAdd(IsCell, MergeCell)
  {
    forall u: PData, v: PData, w: PData
      ensures AssociativeAt(MergeCell, u, v, w)
    {
      assert (u + v) + w == u + (v + w);
    }
    forall v: PData
      ensures MergeCell(v, map[]) == v && MergeCell(map[], v) == v
    {
      assert v + map[] == v && map[] + v == v;
    }
  }

  lemma ProviderLaws()
    ensures Neutral(HasProviders, MergeProviders, map[])
    ensures Associative(MergeProviders)
    ensures CountsAdd(HasProviders, MergeProviders)
  {
    CellLaws();
    forall v: ProviderPDataList
      ensures MergeProviders(v, map[]) == v
    {
      MergeNothing(v, map[], IsCell, MergeCell, map[]);
    }
    forall u: ProviderPDataList, v: ProviderPDataList, w: ProviderPDataList
      ensures AssociativeAt(MergeProviders, u, v, w)
    {
      MergeMapsAssociative(u, v, w, IsCell, MergeCell, map[]);
    }
    forall v: ProviderPDataList, w: ProviderPDataList
      ensures HasProviders(MergeProviders(v, w)) <==> HasProviders(v) || HasProviders(w)
    {
      assert MergeProviders(v, w).Keys == v.Keys + w.Keys;
    }
  }

  lemma FromLaws()
    ensures Neutral(HasCells, MergeFrom, map[])
    ensures Associative(MergeFrom)
    ensures CountsAdd(HasCells, MergeFrom)
  {
    ProviderLaws();
    forall v: FromTimeSerie, w: FromTimeSerie | !HasCells(w)
      ensures MergeFrom(v, w) == v
    {
      MergeNothing(v, w, HasProviders, MergeProviders, map[]);
    }
    forall u: FromTimeSerie, v: FromTimeSerie, w: FromTimeSerie
      ensures AssociativeAt(MergeFrom, u, v, w)
    {
      MergeMapsAssociative(u, v, w, HasProviders, MergeProviders, map[]);
    }
    forall v: FromTimeSerie, w: FromTimeSerie
      ensures HasCells(MergeFrom(v, w)) <==> HasCells(v) || HasCells(w)
    {
      AnyCountsAdd(v, w, HasProviders, MergeProviders, map[]);
    }
  }

  /** Whole time series merge associatively too, so completed queries may be grouped in any way. */
  lemma SerieAssociative(a: TimeSerie, b: TimeSerie, c: TimeSerie)
    ensures MergeSerie(MergeSerie(a, b), c) == MergeSerie(a, MergeSerie(b, c))
  {
    FromLaws();
    MergeMapsAssociative(a, b, c, HasCells, MergeFrom, map[]);
  }

  /** The later value wins, a missing one never does. */
  lemma MergedLookup(a: TimeSerie, b: TimeSerie, to: PTime, from: PTime, provider: string, field: Field)
    ensures Lookup(MergeSerie(a, b), to, from, provider, field)
         == if Lookup(b, to, from, provider, field).Some? then Lookup(b, to, from, provider, field)
            else Lookup(a, to, from, provider, field)
  {
    var fa, fb := Get(a, to, map[]), Get(b, to, map[]);
    FromLaws();
    GetMerged(a, b, to, HasCells, MergeFrom, map[]);
    ProviderLaws();
    GetMerged(fa, fb, from, HasProviders, MergeProviders, map[]);
    CellLaws();
    GetMerged(Get(fa, from, map[]), Get(fb, from, map[]), provider, IsCell, MergeCell, map[]);
  }

  // ---------------------------------------------------------------- merging, as loops in place

  method MergeProviderLoop(ps0: ProviderPDataList, src: ProviderPDataList) returns (ps: ProviderPDataList)
    ensures ps == MergeProviders(ps0, src)
  {
    ps := ps0;
    var todo := src.Keys;
    CellLaws();
    assert src - todo == map[];
    MergeNothing(ps0, map[], IsCell, MergeCell, map[]);
    while todo != {}
      invariant todo <= src.Keys
      invariant ps == MergeProviders(ps0, src - todo)
    {
      var p :| p in todo;
      MergeStep(ps0, src, todo, p, IsCell, MergeCell, map[]);
      ps := ps[p := MergeCell(Get(ps, p, map[]), src[p])];
      todo := todo - {p};
    }
    assert src - {} == src;
  }

  method MergeFromLoop(fs0: FromTimeSerie, src: FromTimeSerie) returns (fs: FromTimeSerie)
    ensures fs == MergeFrom(fs0, src)
  {
    fs := fs0;
    var todo := src.Keys;
    ProviderLaws();
    assert src - todo == map[];
    MergeNothing(fs0, map[], HasProviders, MergeProviders, map[]);
    while todo != {}
      invariant todo <= src.Keys
      invariant fs == MergeFrom(fs0, src - todo)
    {
      var f :| f in todo;
      MergeStep(fs0, src, todo, f, HasProviders, MergeProviders, map[]);
      if HasProviders(src[f]) {
        var ps := MergeProviderLoop(Get(fs, f, map[]), src[f]);
        fs := fs[f := ps];
      }
      todo := todo - {f};
    }
    assert src - {} == src;
  }

  method MergeTimeLoop(ts0: TimeSerie, src: TimeSerie) returns (ts: TimeSerie)
    ensures ts == MergeSerie(ts0, src)
  {
    ts := ts0;
    var todo := src.Keys;
    FromLaws();
    assert src - todo == map[];
    MergeNothing(ts0, map[], HasCells, MergeFrom, map[]);
    while todo != {}
      invariant todo <= src.Keys
      invariant ts == MergeSerie(ts0, src - todo)
    {
      var t :| t in todo;
      MergeStep(ts0, src, todo, t, HasCells, MergeFrom, map[]);
      if HasCells(src[t]) {
        var fs := MergeFromLoop(Get(ts, t, map[]), src[t]);
        ts := ts[t := fs];
      }
      todo := todo - {t};
    }
    assert src - {} == src;
  }

  // ---------------------------------------------------------------- removing empty data

  function Same(pd: PData): (r: PData) {
    pd
  }

  /** `PData::count() != 0` */
  predicate HasValues(pd: PData) {
    |pd| != 0
  }

  predicate HasFromTimes(fs: FromTimeSerie) {
    fs != map[]
  }

  predicate HasTimes(ts: TimeSerie) {
    ts != map[]
  }

  function PruneProviders(ps: ProviderPDataList): (r: ProviderPDataList) {
    Prune(ps, Same, HasValues)
  }

  function PruneFrom(fs: FromTimeSerie): (r: FromTimeSerie) {
    Prune(fs, PruneProviders, HasProviders)
  }

  function PruneSerie(ts: TimeSerie): (r: TimeSerie) {
    Prune(ts, PruneFrom, HasFromTimes)
  }

  function PruneAnswer(data: LocationPointData): (r: LocationPointData) {
    Prune(data, PruneSerie, HasTimes)
  }

  lemma ProviderStep(ps: ProviderPDataList, todo: set<string>, p: string)
    requires p in todo && todo <= ps.Keys
    ensures var before := PruneExcept(ps, todo, Same, HasValues);
            && p in before
            && EraseIf(before, p, |before[p]| == 0) == PruneExcept(ps, todo - {p}, Same, HasValues)
  {
    var before := PruneExcept(ps, todo, Same, HasValues);
    PruneStep(ps, todo, p, Same, HasValues);
    assert before[p := Same(ps[p])] == before;
  }

  method EraseProviders(ps0: ProviderPDataList) returns (ps: ProviderPDataList)
    ensures ps == PruneProviders(ps0)
  {
    ps := ps0;
    var todo := ps0.Keys;
    assert PruneExcept(ps0, ps0.Keys, Same, HasValues) == ps0;
    while todo != {}
      invariant todo <= ps0.Keys
      invariant ps == PruneExcept(ps0, todo, Same, HasValues)
    {
      var p :| p in todo;
      ProviderStep(ps0, todo, p);
      ps := EraseIf(ps, p, |ps[p]| == 0);
      todo := todo - {p};
    }
    assert PruneExcept(ps0, {}, Same, HasValues) == Prune(ps0, Same, HasValues);
  }

  method EraseFromTimes(fs0: FromTimeSerie) returns (fs: FromTimeSerie)
    ensures fs == PruneFrom(fs0)
  {
    fs := fs0;
    var todo := fs0.Keys;
    assert PruneExcept(fs0, fs0.Keys, PruneProviders, HasProviders) == fs0;
    while todo != {}
      invariant todo <= fs0.Keys
      invariant fs == PruneExcept(fs0, todo, PruneProviders, HasProviders)
    {
      var f :| f in todo;
      PruneStep(fs0, todo, f, PruneProviders, HasProviders);
      var ps := EraseProviders(fs[f]);
      fs := EraseIf(fs[f := ps], f, ps == map[]);
      todo := todo - {f};
    }
    assert PruneExcept(fs0, {}, PruneProviders, HasProviders) == Prune(fs0, PruneProviders, HasProviders);
  }

  method EraseTimes(ts0: TimeSerie) returns (ts: TimeSerie)
    ensures ts == PruneSerie(ts0)
  {
    ts := ts0;
    var todo := ts0.Keys;
    assert PruneExcept(ts0, ts0.Keys, PruneFrom, HasFromTimes) == ts0;
    while todo != {}
      invariant todo <= ts0.Keys
      invariant ts == PruneExcept(ts0, todo, PruneFrom, HasFromTimes)
    {
      var t :| t in todo;
      PruneStep(ts0, todo, t, PruneFrom, HasFromTimes);
      var fs := EraseFromTimes(ts[t]);
      ts := EraseIf(ts[t := fs], t, fs == map[]);
      todo := todo - {t};
    }
    assert PruneExcept(ts0, {}, PruneFrom, HasFromTimes) == Prune(ts0, PruneFrom, HasFromTimes);
  }

  /** `removeEmptyData` on the data of one query. */
  method RemoveEmptyData(data0: LocationPointData) returns (data: LocationPointData)
    ensures data == PruneAnswer(data0)
  {
    data := data0;
    var todo := data0.Keys;
    assert PruneExcept(data0, data0.Keys, PruneSerie, HasTimes) == data0;
    while todo != {}
      invariant todo <= data0.Keys
      invariant data == PruneExcept(data0, todo, PruneSerie, HasTimes)
    {
      var loc :| loc in todo;
      PruneStep(data0, todo, loc, PruneSerie, HasTimes);
      var ts := EraseTimes(data[loc]);
      data := EraseIf(data[loc := ts], loc, ts == map[]);
      todo := todo - {loc};
    }
    assert PruneExcept(data0, {}, PruneSerie, HasTimes) == Prune(data0, PruneSerie, HasTimes);
  }

  /** No value is lost, and every entry that is left leads to a value. */
  lemma PruneKeepsValues(ts: TimeSerie, to: PTime, from: PTime, provider: string, field: Field)
    ensures Lookup(PruneSerie(ts), to, from, provider, field) == Lookup(ts, to, from, provider, field)
    ensures forall t | t in PruneSerie(ts) :: PruneSerie(ts)[t] != map[]
    ensures to in PruneSerie(ts) && from in PruneSerie(ts)[to] ==> PruneSerie(ts)[to][from] != map[]
    ensures to in PruneSerie(ts) && from in PruneSerie(ts)[to] && provider in PruneSerie(ts)[to][from] ==>
              PruneSerie(ts)[to][from][provider] != map[]
  {
    var fs := Get(ts, to, map[]);
    var ps := Get(fs, from, map[]);
    assert Get(PruneProviders(ps), provider, map[]) == Get(ps, provider, map[]);
    assert Get(Get(PruneFrom(fs), from, map[]), provider, map[]) == Get(ps, provider, map[]);
  }

  lemma PruneAnswerSize(data: LocationPointData)
    requires |data| <= 1
    ensures |PruneAnswer(data)| <= 1
  {
    var r := PruneAnswer(data);
    if data != map[] {
      assert data.Keys == {TheLocation(data)};
      assert r.Keys <= {TheLocation(data)};
      assert |r.Keys| <= |{TheLocation(data)}| by {
        if r.Keys != {} {
          assert r.Keys == {TheLocation(data)};
        }
      }
    } else {
      assert r.Keys == {};
    }
  }
}
