/**
 Decoding the rows of one query, and merging the answers of the completed queries of a
 request that is not a polygon request.
 */
module Answers {
  import opened Times
  import opened NestedMaps
  import opened PointData

  /** What a command holds after its worker has run it. */
  datatype Outcome = Outcome(ok: bool, data: LocationPointData) {
    /** There is data that varies in time, so a `stopIfData` query ends the request. */
    predicate HasForecast() {
      data != map[] && !OnlyConstFieldsOrEmpty(data)
    }
  }

  datatype Query = Query(mustHaveData: bool, stopIfData: bool, outcome: Outcome) {
    /** Decoding gives the data of a query at most one location; see `Decode`. */
    predicate OneLocation() {
      |outcome.data| <= 1
    }

    /** The query makes the whole answer empty. */
    predicate Fails() {
      !outcome.ok || (mustHaveData && outcome.data == map[])
    }

    predicate EndsRequest() {
      stopIfData && outcome.HasForecast()
    }
  }

  predicate OnlyConstFieldsOrEmpty(data: LocationPointData) {
    forall loc | loc in data :: forall t | t in data[loc] ::
      t == CONST_FIELD_TIME && forall f | f in data[loc][t] :: f == CONST_FIELD_TIME
  }

  /** `onlyConstFieldsOrEmpty` on the data of one location. */
  method CheckConstSerie(ts: TimeSerie) returns (onlyConst: bool)
    ensures onlyConst <==> forall t | t in ts :: t == CONST_FIELD_TIME && forall f | f in ts[t] :: f == CONST_FIELD_TIME
  {
    var todo := ts.Keys;
    while todo != {}
      invariant todo <= ts.Keys
      invariant forall t | t in ts && t !in todo ::
                  t == CONST_FIELD_TIME && forall f | f in ts[t] :: f == CONST_FIELD_TIME
    {
      var toTime :| toTime in todo;
      if toTime != CONST_FIELD_TIME {
        return false;
      }
      var fromTimes := ts[toTime].Keys;
      while fromTimes != {}
        invariant fromTimes <= ts[toTime].Keys
        invariant forall f | f in ts[toTime] && f !in fromTimes :: f == CONST_FIELD_TIME
      {
        var fromTime :| fromTime in fromTimes;
        if fromTime != CONST_FIELD_TIME {
          return false;
        }
        fromTimes := fromTimes - {fromTime};
      }
      todo := todo - {toTime};
    }
    return true;
  }

  /** `onlyConstFieldsOrEmpty` on the data of a query. */
  method CheckConstFields(data: LocationPointData) returns (onlyConst: bool)
    ensures onlyConst <==> OnlyConstFieldsOrEmpty(data)
  {
    var todo := data.Keys;
    while todo != {}
      invariant todo <= data.Keys
      invariant forall loc | loc in data && loc !in todo :: forall t | t in data[loc] ::
                  t == CONST_FIELD_TIME && forall f | f in data[loc][t] :: f == CONST_FIELD_TIME
    {
      var loc :| loc in todo;
      var serie := CheckConstSerie(data[loc]);
      if !serie {
        return false;
      }
      todo := todo - {loc};
    }
    return true;
  }

  predicate AllOneLocation(qs: seq<Query>) {
    forall i | 0 <= i < |qs| :: qs[i].OneLocation()
  }

  // ---------------------------------------------------------------- decoding one query

  /** A row of a query result that passed the parameter, provider, data version and point
      filters. A `None` value stands for SQL NULL or the null value of the parameter. */
  datatype Row = Row(point: LocationPoint, to: PTime, from: PTime, provider: string, field: Field,
                     value: Option<real>) {
    predicate IsConstField() {
      to.PosInfinity? && from.NegInfinity?
    }

    function To(): PTime {
      if IsConstField() then CONST_FIELD_TIME else to
    }

    function From(): PTime {
      if IsConstField() then CONST_FIELD_TIME else from
    }
  }

  /** The last value that the rows give a field. */
  function LastRow(rows: seq<Row>, to: PTime, from: PTime, provider: string, field: Field): (r: Option<real>) {
    if rows == [] then None
    else
      var last := rows[|rows| - 1];
      if last.To() == to && last.From() == from && last.provider == provider && last.field == field && last.value.Some?
      then last.value
      else LastRow(rows[..|rows| - 1], to, from, provider, field)
  }

  /** A field that is valid for all times is found under the start of 1970, and any other under
      its own times, and nowhere else. */
  lemma RowIsFound(row: Row, to: PTime, from: PTime)
    ensures LastRow([row], to, from, row.provider, row.field)
         == if row.to == PosInfinity && row.from == NegInfinity
            then (if to == At(0) && from == At(0) then row.value else None)
            else (if to == row.to && from == row.from then row.value else None)
  {
    assert [row][..0] == [];
  }

  function Assign(ts: TimeSerie, row: Row): (r: TimeSerie) {
    var fs := Get(ts, row.To(), map[]);
    var ps := Get(fs, row.From(), map[]);
    var pd := Get(ps, row.provider, map[]);
    var pd' := if row.value.Some? then pd[row.field := row.value.value] else pd;
    ts[row.To() := fs[row.From() := ps[row.provider := pd']]]
  }

  lemma AssignLookup(ts: TimeSerie, row: Row, to: PTime, from: PTime, provider: string, field: Field)
    ensures Lookup(Assign(ts, row), to, from, provider, field)
         == if row.To() == to && row.From() == from && row.provider == provider && row.field == field && row.value.Some?
            then row.value else Lookup(ts, to, from, provider, field)
  {
  }

  /** The data has an entry for this to-time, though perhaps no value. */
  predicate HasTime(data: LocationPointData, t: PTime)
    requires |data| <= 1
  {
    data != map[] && t in data[TheLocation(data)]
  }

  predicate HasTimeRow(rows: seq<Row>, t: PTime) {
    exists i | 0 <= i < |rows| :: rows[i].To() == t
  }

  lemma OneMoreTimeRow(rows: seq<Row>, row: Row, t: PTime)
    ensures HasTimeRow(rows + [row], t) <==> HasTimeRow(rows, t) || row.To() == t
  {
    if HasTimeRow(rows, t) {
      var i :| 0 <= i < |rows| && rows[i].To() == t;
      assert (rows + [row])[i].To() == t;
    }
    assert (rows + [row])[|rows|] == row;
  }

  lemma AssignValues(before: LocationPointData, ts: TimeSerie, data: LocationPointData, rows: seq<Row>, row: Row)
    requires |before| <= 1
    requires forall to, from, provider, field ::
               LookupAny(before, to, from, provider, field) == LastRow(rows, to, from, provider, field)
    requires ts == if before == map[] then map[] else before[TheLocation(before)]
    requires |data| == 1 && data[TheLocation(data)] == Assign(ts, row)
    ensures forall to, from, provider, field ::
              LookupAny(data, to, from, provider, field) == LastRow(rows + [row], to, from, provider, field)
  {
    assert (rows + [row])[..|rows|] == rows;
    forall to, from, provider, field
      ensures LookupAny(data, to, from, provider, field) == LastRow(rows + [row], to, from, provider, field)
    {
      AssignLookup(ts, row, to, from, provider, field);
      assert Lookup(ts, to, from, provider, field) == LookupAny(before, to, from, provider, field);
    }
  }

  lemma AssignTimes(before: LocationPointData, ts: TimeSerie, data: LocationPointData, rows: seq<Row>, row: Row)
    requires |before| <= 1 && forall t :: HasTime(before, t) <==> HasTimeRow(rows, t)
    requires ts == if before == map[] then map[] else before[TheLocation(before)]
    requires |data| == 1 && data[TheLocation(data)] == Assign(ts, row)
    ensures forall t :: HasTime(data, t) <==> HasTimeRow(rows + [row], t)
  {
    forall t
      ensures HasTime(data, t) <==> HasTimeRow(rows + [row], t)
    {
      OneMoreTimeRow(rows, row, t);
      assert HasTime(before, t) <==> t in ts;
    }
  }

  /** `decodePData` for a request that is not a polygon request: a row of another location
      goes to the location that is already there. */
  method Decode(rows: seq<Row>) returns (data: LocationPointData)
    ensures |data| <= 1
    ensures data.Keys == if rows == [] then {} else {rows[0].point}
    ensures forall to, from, provider, field ::
              LookupAny(data, to, from, provider, field) == LastRow(rows, to, from, provider, field)
    ensures forall t :: HasTime(data, t) <==> HasTimeRow(rows, t)
  {
    data := map[];
    for i := 0 to |rows|
      invariant |data| <= 1
      invariant i == 0 ==> data == map[]
      invariant i > 0 ==> data.Keys == {rows[0].point}
      invariant forall to, from, provider, field ::
                  LookupAny(data, to, from, provider, field) == LastRow(rows[..i], to, from, provider, field)
      invariant forall t :: HasTime(data, t) <==> HasTimeRow(rows[..i], t)
    {
      var row := rows[i];
      var loc := row.point;
      ghost var before := data;
      if loc !in data {
        if data != map[] {
          loc := TheLocation(data);
        } else {
          data := data[loc := map[]];
        }
      }
      ghost var ts := data[loc];
      data := data[loc := Assign(data[loc], row)];
      assert data == map[loc := Assign(ts, row)];
      OneLocationMap(loc, Assign(ts, row));
      assert rows[..i + 1] == rows[..i] + [row];
      AssignValues(before, ts, data, rows[..i], row);
      AssignTimes(before, ts, data, rows[..i], row);
    }
    assert rows[..|rows|] == rows;
  }

  // ---------------------------------------------------------------- merging the queries

  /** The merged data of the given queries, in list order, when none of them fails. */
  function FoldAnswers(qs: seq<Query>): (r: LocationPointData)
    requires AllOneLocation(qs)
    ensures |r| <= 1
  {
    if qs == [] then map[]
    else if |qs| == 1 then qs[0].outcome.data
    else MergeAnswer(FoldAnswers(qs[..|qs| - 1]), qs[|qs| - 1].outcome.data)
  }

  function MergedAnswer(qs: seq<Query>): (r: LocationPointData)
    requires AllOneLocation(qs)
    ensures |r| <= 1
  {
    if exists i | 0 <= i < |qs| :: qs[i].Fails() then map[] else FoldAnswers(qs)
  }

  /** The last non-missing value over the queries in list order. */
  function LastValue(qs: seq<Query>, to: PTime, from: PTime, provider: string, field: Field): (r: Option<real>)
    requires AllOneLocation(qs)
  {
    if qs == [] then None
    else
      var v := LookupAny(qs[|qs| - 1].outcome.data, to, from, provider, field);
      if v.Some? then v else LastValue(qs[..|qs| - 1], to, from, provider, field)
  }

  lemma MergeAnswerLookup(data: LocationPointData, next: LocationPointData,
                          to: PTime, from: PTime, provider: string, field: Field)
    requires |data| <= 1 && |next| <= 1
    ensures LookupAny(MergeAnswer(data, next), to, from, provider, field)
         == if LookupAny(next, to, from, provider, field).Some? then LookupAny(next, to, from, provider, field)
            else LookupAny(data, to, from, provider, field)
  {
    if next != map[] {
      var src := next[TheLocation(next)];
      var ts := if data == map[] then map[] else data[TheLocation(data)];
      MergedLookup(ts, src, to, from, provider, field);
      var r := MergeAnswer(data, next);
      if data == map[] && !HasAnyCell(src) {
        FromLaws();
        MergeNothing(ts, src, HasCells, MergeFrom, map[]);
      } else {
        var loc := if data == map[] then TheLocation(next) else TheLocation(data);
        OneLocationMap(loc, MergeSerie(ts, src));
      }
    }
  }

  /** Merging is a fold: each field is its last non-missing value in list order. */
  lemma {:induction false} MergeIsLastValue(qs: seq<Query>, to: PTime, from: PTime, provider: string, field: Field)
    requires AllOneLocation(qs)
    ensures LookupAny(FoldAnswers(qs), to, from, provider, field) == LastValue(qs, to, from, provider, field)
  {
    if |qs| == 1 {
      assert LastValue(qs[..0], to, from, provider, field) == None;
    } else if |qs| > 1 {
      var init := qs[..|qs| - 1];
      MergeIsLastValue(init, to, from, provider, field);
      MergeAnswerLookup(FoldAnswers(init), qs[|qs| - 1].outcome.data, to, from, provider, field);
    }
  }

  /** A query gives the answer its location when none of those before has: the first query by
      having data at all, a later one by having a record. */
  predicate BringsLocation(q: Query, first: bool)
    requires q.OneLocation()
  {
    q.outcome.data != map[] && (first || HasAnyCell(q.outcome.data[TheLocation(q.outcome.data)]))
  }

  predicate NoneBrings(qs: seq<Query>, n: nat)
    requires AllOneLocation(qs) && n <= |qs|
  {
    forall i | 0 <= i < n :: !BringsLocation(qs[i], i == 0)
  }

  lemma MergeAnswerKeys(data: LocationPointData, next: LocationPointData)
    requires |data| <= 1 && |next| <= 1
    ensures MergeAnswer(data, next).Keys ==
            if data == map[] && next != map[] && HasAnyCell(next[TheLocation(next)]) then next.Keys else data.Keys
  {
    if data != map[] {
      assert data.Keys == {TheLocation(data)};
    }
    if next != map[] {
      assert next.Keys == {TheLocation(next)};
    }
  }

  /** The keys after one more query. */
  lemma {:induction false} NextKeys(qs: seq<Query>, q: Query, all: seq<Query>)
    requires all == qs + [q] && AllOneLocation(all) && AllOneLocation(qs) && q.OneLocation()
    ensures FoldAnswers(all).Keys ==
            if FoldAnswers(qs) == map[] && BringsLocation(q, qs == []) then q.outcome.data.Keys
            else FoldAnswers(qs).Keys
  {
    FoldNext(qs, q, all);
    if qs != [] {
      MergeAnswerKeys(FoldAnswers(qs), q.outcome.data);
    }
  }

  /** Where the merged data lies, query by query. */
  function PlaceOf(qs: seq<Query>): (keys: set<LocationPoint>)
    requires AllOneLocation(qs)
  {
    if qs == [] then {}
    else
      var before, last := PlaceOf(qs[..|qs| - 1]), qs[|qs| - 1];
      if before == {} && BringsLocation(last, |qs| == 1) then last.outcome.data.Keys else before
  }

  lemma {:induction false} FoldPlace(qs: seq<Query>)
    requires AllOneLocation(qs)
    ensures FoldAnswers(qs).Keys == PlaceOf(qs)
  {
    if qs == [] {
    } else {
      FoldPlace(qs[..|qs| - 1]);
      NextKeys(qs[..|qs| - 1], qs[|qs| - 1], qs);
    }
  }

  lemma {:induction false} NoPlace(qs: seq<Query>)
    requires AllOneLocation(qs) && NoneBrings(qs, |qs|)
    ensures PlaceOf(qs) == {}
  {
    if qs == [] {
    } else {
      NoPlace(qs[..|qs| - 1]);
    }
  }

  lemma {:induction false} FirstPlace(qs: seq<Query>, i: nat)
    requires AllOneLocation(qs) && i < |qs| && NoneBrings(qs, i) && BringsLocation(qs[i], i == 0)
    ensures PlaceOf(qs) == qs[i].outcome.data.Keys != {}
  {
    var init := qs[..|qs| - 1];
    assert TheLocation(qs[i].outcome.data) in qs[i].outcome.data.Keys;
    if i == |qs| - 1 {
      NoPlace(init);
    } else {
      FirstPlace(init, i);
    }
  }

  /** The merged data lies where the first query lies that brings a location. */
  lemma FoldLocation(qs: seq<Query>, i: nat)
    requires AllOneLocation(qs) && i <= |qs| && NoneBrings(qs, i)
    requires i < |qs| ==> BringsLocation(qs[i], i == 0)
    ensures FoldAnswers(qs).Keys == if i < |qs| then qs[i].outcome.data.Keys else {}
  {
    FoldPlace(qs);
    if i < |qs| {
      FirstPlace(qs, i);
    } else {
      NoPlace(qs);
    }
  }

  /** The location is the one of the first query that brought any; later queries never change it. */
  lemma LocationKept(qs: seq<Query>, k: nat)
    requires AllOneLocation(qs)
    requires k <= |qs|
    requires FoldAnswers(qs[..k]) != map[]
    ensures FoldAnswers(qs).Keys == FoldAnswers(qs[..k]).Keys
    decreases |qs|
  {
    if k == |qs| {
      assert qs[..k] == qs;
    } else {
      var init := qs[..|qs| - 1];
      assert init[..k] == qs[..k];
      LocationKept(init, k);
      var f := FoldAnswers(init);
      assert k > 0;
      assert f.Keys == {TheLocation(f)};
    }
  }

  /** Removing empty entries from any of the operands changes no value of the answer. */
  lemma PrunedOperands(qs: seq<Query>, pruned: seq<Query>, to: PTime, from: PTime, provider: string, field: Field)
    requires AllOneLocation(qs) && |pruned| == |qs|
    requires forall i | 0 <= i < |qs| ::
               pruned[i].outcome.data == qs[i].outcome.data || pruned[i].outcome.data == PruneAnswer(qs[i].outcome.data)
    ensures AllOneLocation(pruned)
    ensures LookupAny(FoldAnswers(pruned), to, from, provider, field)
         == LookupAny(FoldAnswers(qs), to, from, provider, field)
  {
    forall i | 0 <= i < |qs|
      ensures pruned[i].OneLocation()
    {
      assert qs[i].OneLocation();
      PruneAnswerSize(qs[i].outcome.data);
    }
    MergeIsLastValue(qs, to, from, provider, field);
    MergeIsLastValue(pruned, to, from, provider, field);
    PrunedLastValue(qs, pruned, to, from, provider, field);
  }

  lemma {:induction false} PrunedLastValue(qs: seq<Query>, pruned: seq<Query>, to: PTime, from: PTime,
                                           provider: string, field: Field)
    requires AllOneLocation(qs) && AllOneLocation(pruned) && |pruned| == |qs|
    requires forall i | 0 <= i < |qs| ::
               pruned[i].outcome.data == qs[i].outcome.data || pruned[i].outcome.data == PruneAnswer(qs[i].outcome.data)
    ensures LastValue(pruned, to, from, provider, field) == LastValue(qs, to, from, provider, field)
  {
    if qs == [] {
    } else {
      var n := |qs| - 1;
      PrunedLastValue(qs[..n], pruned[..n], to, from, provider, field);
      assert qs[n].OneLocation();
      PrunedLookup(qs[n].outcome.data, to, from, provider, field);
    }
  }

  lemma PrunedLookup(data: LocationPointData, to: PTime, from: PTime, provider: string, field: Field)
    requires |data| <= 1
    ensures |PruneAnswer(data)| <= 1
    ensures LookupAny(PruneAnswer(data), to, from, provider, field) == LookupAny(data, to, from, provider, field)
  {
    PruneAnswerSize(data);
    var r := PruneAnswer(data);
    if data == map[] {
      assert r == map[];
    } else {
      var loc := TheLocation(data);
      var ts := PruneSerie(data[loc]);
      PruneKeepsValues(data[loc], to, from, provider, field);
      OneKeyPrune(data, loc, PruneSerie, HasTimes);
      if ts != map[] {
        OneLocationMap(loc, ts);
      }
    }
  }

  // ---------------------------------------------------------------- mergeData

  /** The flags and the command of one query, as the request manager keeps them. */
  datatype ThreadInfo = ThreadInfo(query: Query, completed: bool)

  /** The completed queries, in list order. */
  function CompletedQueries(infos: seq<ThreadInfo>): (qs: seq<Query>)
    ensures (forall i | 0 <= i < |infos| :: infos[i].query.OneLocation()) ==> AllOneLocation(qs)
  {
    if infos == [] then []
    else
      var rest := CompletedQueries(infos[..|infos| - 1]);
      var last := infos[|infos| - 1];
      if last.completed then rest + [last.query] else rest
  }

  predicate NoneFails(qs: seq<Query>) {
    forall i | 0 <= i < |qs| :: !qs[i].Fails()
  }

  /** `mergeData(false)`. */
  method MergeData(infos: seq<ThreadInfo>) returns (data: LocationPointData)
    requires forall i | 0 <= i < |infos| :: infos[i].query.OneLocation()
    ensures data == MergedAnswer(CompletedQueries(infos))
  {
    data := map[];
    var first := true;
    ghost var qs := [];
    for i := 0 to |infos|
      invariant qs == CompletedQueries(infos[..i])
      invariant AllOneLocation(qs) && NoneFails(qs)
      invariant first <==> qs == []
      invariant data == FoldAnswers(qs)
    {
      CompletedNext(infos, i);
      var info := infos[i];
      if info.completed {
        if info.query.Fails() {
          FailureEmpties(infos, i);
          data := map[];
          return;
        }
        OneMoreLocation(qs, info.query);
        FoldNext(qs, info.query, qs + [info.query]);
        if first {
          data := info.query.outcome.data;
          first := false;
        } else {
          data := MergeLocations(data, info.query.outcome.data);
        }
        qs := qs + [info.query];
      }
    }
    assert infos[..|infos|] == infos;
  }

  lemma CompletedNext(infos: seq<ThreadInfo>, i: nat)
    requires i < |infos|
    ensures CompletedQueries(infos[..i + 1])
         == CompletedQueries(infos[..i]) + if infos[i].completed then [infos[i].query] else []
  {
    assert infos[..i + 1][..i] == infos[..i];
  }

  lemma {:induction false} OneMoreLocation(qs: seq<Query>, q: Query)
    requires AllOneLocation(qs) && q.OneLocation()
    ensures AllOneLocation(qs + [q])
  {
  }

  lemma {:induction false} FoldNext(qs: seq<Query>, q: Query, all: seq<Query>)
    requires all == qs + [q] && AllOneLocation(all) && AllOneLocation(qs) && q.OneLocation()
    ensures FoldAnswers(all) == if qs == [] then q.outcome.data else MergeAnswer(FoldAnswers(qs), q.outcome.data)
  {
    var n := |all| - 1;
    assert all[n] == q && all[..n] == qs;
  }

  /** A completed query that fails makes the whole answer empty. */
  lemma {:induction false} FailureEmpties(infos: seq<ThreadInfo>, i: nat)
    requires forall k | 0 <= k < |infos| :: infos[k].query.OneLocation()
    requires i < |infos| && infos[i].completed && infos[i].query.Fails()
    ensures MergedAnswer(CompletedQueries(infos)) == map[]
  {
    var j := |CompletedQueries(infos[..i])|;
    CompletedNext(infos, i);
    CompletedFrom(infos, i + 1, j);
    assert CompletedQueries(infos)[j].Fails();
  }

  /** What is completed among the first k threads is a prefix of what is completed. */
  lemma {:induction false} CompletedFrom(infos: seq<ThreadInfo>, k: nat, j: nat)
    requires k <= |infos|
    requires j < |CompletedQueries(infos[..k])|
    ensures |CompletedQueries(infos[..k])| <= |CompletedQueries(infos)|
    ensures CompletedQueries(infos)[j] == CompletedQueries(infos[..k])[j]
    decreases |infos|
  {
    if k == |infos| {
      assert infos[..k] == infos;
    } else {
      var init := infos[..|infos| - 1];
      assert init[..k] == infos[..k];
      CompletedFrom(init, k, j);
    }
  }

  /** The loop of `mergeData` over the data of one more query. */
  method MergeLocations(data0: LocationPointData, next: LocationPointData) returns (data: LocationPointData)
    requires |data0| <= 1 && |next| <= 1
    ensures data == MergeAnswer(data0, next)
  {
    data := data0;
    if next == map[] {
      return;
    }
    var src := next[TheLocation(next)];
    if data == map[] {
      if HasAnyCell(src) {
        var ts := MergeTimeLoop(map[], src);
        data := map[TheLocation(next) := ts];
      }
    } else {
      var loc := TheLocation(data);
      var ts := MergeTimeLoop(data[loc], src);
      OneKeyUpdate(data, loc, ts);
      data := data[loc := ts];
    }
  }
}
