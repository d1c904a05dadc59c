/**
 A whole request in terms of the rows that the database returns.

 What a command leaves behind depends on its rows alone, so it may be computed before the
 threads are started.
 */
module RequestRows {
  import opened Times
  import opened PointData
  import opened Answers
  import opened RequestProtocol
  import opened RequestAnswer
  import opened RequestManager
  import ValueLookup

  /** A command, the time that its forecast must reach, the rows that its last attempt gets
      (each attempt starts from nothing), and how many of them it has read when an exception
      ends it, if one does. */
  datatype Command = Command(mustHaveData: bool, stopIfData: bool, minEnd: PTime, rows: seq<Row>,
                             failsAfter: Option<nat>)
  {
    /** The forecast does not reach far enough. */
    predicate TooShort() {
      !minEnd.IsSpecial() && forall i | 0 <= i < |rows| :: rows[i].To().Before(minEnd)
    }

    /** The rows that count. */
    function Kept(): (r: seq<Row>) {
      if TooShort() then [] else rows
    }

    /** With constant fields only, the check of the prognosis length does not end. */
    predicate Hangs() {
      && failsAfter.None? && !minEnd.IsSpecial() && HasTimeRow(rows, CONST_FIELD_TIME)
      && forall i | 0 <= i < |rows| :: !CONST_FIELD_TIME.Before(rows[i].To())
    }

    /** The database has data for it. */
    predicate HasValue() {
      exists i | 0 <= i < |Kept()| :: Kept()[i].value.Some?
    }

    /** The database has data that varies in time for it. */
    predicate HasForecastRow() {
      exists i | 0 <= i < |Kept()| :: Kept()[i].value.Some? && Varies(Kept()[i])
    }

    predicate Spoils() {
      failsAfter.Some? || (mustHaveData && !HasValue())
    }

    predicate Ends() {
      stopIfData && HasForecastRow()
    }
  }

  predicate Varies(row: Row) {
    row.To() != CONST_FIELD_TIME || row.From() != CONST_FIELD_TIME
  }

  // ---------------------------------------------------------------- one command

  /** What a command leaves behind. */
  ghost predicate LeftBy(c: Command, outcome: Outcome) {
    && |outcome.data| <= 1
    && outcome.ok == c.failsAfter.None?
    && (outcome.ok ==>
          && HoldsRows(outcome.data, c.Kept())
          && (outcome.data != map[] <==> c.HasValue())
          && (outcome.HasForecast() <==> c.HasForecastRow())
          && LiesAtFirstRow(outcome.data, c.rows))
  }

  /** Data that is left lies where the first row lies, and holds a record. */
  ghost predicate LiesAtFirstRow(data: LocationPointData, rows: seq<Row>) {
    data != map[] ==> rows != [] && data.Keys == {rows[0].point} && HasAnyCell(data[rows[0].point])
  }

  ghost predicate HoldsRows(data: LocationPointData, rows: seq<Row>)
    requires |data| <= 1
  {
    forall to, from, provider, field ::
      LookupAny(data, to, from, provider, field) == LastRow(rows, to, from, provider, field)
  }

  /** The function object of a worker thread. An exception leaves the data as it is. */
  method RunCommand(c: Command) returns (ended: bool, outcome: Outcome)
    ensures ended <==> !c.Hangs()
    ensures ended ==> LeftBy(c, outcome)
  {
    if c.failsAfter.Some? {
      var n := if c.failsAfter.value < |c.rows| then c.failsAfter.value else |c.rows|;
      var part := Decode(c.rows[..n]);
      return true, Outcome(false, part);
    }
    var decoded := Decode(c.rows);
    outcome := Outcome(true, decoded);
    ended := true;
    if !c.minEnd.IsSpecial() {
      HangsIs(c, decoded);
      var kept;
      ended, kept := ValidatePrognosisLength(decoded, c.minEnd);
      if !ended {
        return;
      }
      outcome := outcome.(data := kept);
    }
    KeptHoldsRows(c, decoded);
    SuccessLeaves(c, outcome.data);
    var data := RemoveEmptyData(outcome.data);
    outcome := outcome.(data := data);
  }

  // ---------------------------------------------------------------- the prognosis length

  /** `rbegin` of a time series. */
  function LastTo(ts: TimeSerie): (t: PTime)
    requires ts != map[]
    ensures t in ts && forall u | u in ts :: !t.Before(u)
  {
    var times := ValueLookup.Ordered(ts.Keys);
    ValueLookup.OrderedIs(ts.Keys);
    assert times != [] by {
      var u :| u in ts;
      assert u in times;
    }
    times[|times| - 1]
  }

  predicate OnlyConst(ts: TimeSerie) {
    ts != map[] && LastTo(ts) == CONST_FIELD_TIME
  }

  predicate Reaches(ts: TimeSerie, minEnd: PTime) {
    ts != map[] && !LastTo(ts).Before(minEnd)
  }

  function Reaching(data: LocationPointData, minEnd: PTime): (r: LocationPointData) {
    map loc | loc in data && Reaches(data[loc], minEnd) :: data[loc]
  }

  function ReachingExcept(data: LocationPointData, todo: set<LocationPoint>, minEnd: PTime): (r: LocationPointData) {
    map loc | loc in data && (loc in todo || Reaches(data[loc], minEnd)) :: data[loc]
  }

  lemma ReachingStep(data: LocationPointData, todo: set<LocationPoint>, loc: LocationPoint, minEnd: PTime)
    requires loc in todo && todo <= data.Keys
    ensures var before := ReachingExcept(data, todo, minEnd);
            && loc in before && before[loc] == data[loc]
            && ReachingExcept(data, todo - {loc}, minEnd)
               == if Reaches(data[loc], minEnd) then before else before - {loc}
  {
  }

  /** `validatePrognosisLength`. A location with constant fields only is looked at again and
      again. */
  method ValidatePrognosisLength(data0: LocationPointData, minEnd: PTime) returns (ended: bool, data: LocationPointData)
    ensures ended <==> forall loc | loc in data0 :: !OnlyConst(data0[loc])
    ensures ended ==> data == Reaching(data0, minEnd)
  {
    data := data0;
    var todo := data0.Keys;
    assert data == ReachingExcept(data0, todo, minEnd);
    while todo != {}
      invariant todo <= data0.Keys
      invariant forall loc | loc in data0 && loc !in todo :: !OnlyConst(data0[loc])
      invariant data == ReachingExcept(data0, todo, minEnd)
    {
      var loc :| loc in todo;
      ReachingStep(data0, todo, loc, minEnd);
      if data[loc] != map[] && LastTo(data[loc]) == CONST_FIELD_TIME {
        return false, data;
      }
      if data[loc] == map[] || LastTo(data[loc]).Before(minEnd) {
        data := data - {loc};
      }
      todo := todo - {loc};
    }
    return true, data;
  }

  ghost predicate SameTimes(data: LocationPointData, rows: seq<Row>)
    requires |data| <= 1
  {
    forall t :: HasTime(data, t) <==> HasTimeRow(rows, t)
  }

  lemma LastToIs(ts: TimeSerie, t: PTime)
    requires ts != map[]
    ensures LastTo(ts) == t <==> t in ts && forall u | u in ts :: !t.Before(u)
  {
  }

  lemma TimesOf(data: LocationPointData, rows: seq<Row>, loc: LocationPoint)
    requires |data| <= 1 && SameTimes(data, rows) && loc in data
    ensures forall t :: t in data[loc] <==> HasTimeRow(rows, t)
  {
    OnlyLocation(data, loc);
    forall t
      ensures t in data[loc] <==> HasTimeRow(rows, t)
    {
      assert HasTime(data, t) <==> t in data[loc];
    }
  }

  lemma RowTimes(rows: seq<Row>, i: nat)
    requires i < |rows|
    ensures HasTimeRow(rows, rows[i].To())
  {
  }

  lemma HangsIs(c: Command, decoded: LocationPointData)
    requires c.failsAfter.None? && !c.minEnd.IsSpecial() && |decoded| <= 1 && SameTimes(decoded, c.rows)
    ensures c.Hangs() <==> exists loc | loc in decoded :: OnlyConst(decoded[loc])
  {
    if c.Hangs() {
      assert HasTime(decoded, CONST_FIELD_TIME);
      var loc := TheLocation(decoded);
      TimesOf(decoded, c.rows, loc);
      LastToIs(decoded[loc], CONST_FIELD_TIME);
      assert OnlyConst(decoded[loc]);
    }
    if loc :| loc in decoded && OnlyConst(decoded[loc]) {
      TimesOf(decoded, c.rows, loc);
      forall i | 0 <= i < |c.rows|
        ensures !CONST_FIELD_TIME.Before(c.rows[i].To())
      {
        RowTimes(c.rows, i);
      }
    }
  }

  lemma EarlierThan(t: PTime, u: PTime, v: PTime)
    requires !t.Before(u) && !u.Before(v)
    ensures !t.Before(v)
  {
  }

  lemma TooShortIs(c: Command, decoded: LocationPointData, loc: LocationPoint)
    requires |decoded| <= 1 && SameTimes(decoded, c.rows) && loc in decoded && !c.minEnd.IsSpecial()
    ensures Reaches(decoded[loc], c.minEnd) <==> !c.TooShort()
  {
    TimesOf(decoded, c.rows, loc);
    if !c.TooShort() {
      var i :| 0 <= i < |c.rows| && !c.rows[i].To().Before(c.minEnd);
      RowTimes(c.rows, i);
      EarlierThan(LastTo(decoded[loc]), c.rows[i].To(), c.minEnd);
    } else if decoded[loc] != map[] {
      assert HasTimeRow(c.rows, LastTo(decoded[loc]));
    }
  }

  /** What is left after the check holds the rows that count. */
  lemma KeptHoldsRows(c: Command, decoded: LocationPointData)
    requires |decoded| <= 1 && HoldsRows(decoded, c.rows) && SameTimes(decoded, c.rows)
    ensures var kept := if c.minEnd.IsSpecial() then decoded else Reaching(decoded, c.minEnd);
            |kept| <= 1 && HoldsRows(kept, c.Kept())
  {
    if !c.minEnd.IsSpecial() {
      forall loc | loc in decoded
        ensures Reaches(decoded[loc], c.minEnd) <==> !c.TooShort()
      {
        TooShortIs(c, decoded, loc);
      }
      if c.TooShort() {
        assert Reaching(decoded, c.minEnd) == map[];
      } else {
        assert Reaching(decoded, c.minEnd) == decoded;
      }
    }
  }

  // ---------------------------------------------------------------- the data and the rows

  lemma PrunedHoldsRows(data: LocationPointData, rows: seq<Row>)
    requires |data| <= 1 && HoldsRows(data, rows)
    ensures |PruneAnswer(data)| <= 1 && HoldsRows(PruneAnswer(data), rows)
  {
    PruneAnswerSize(data);
    forall to, from, provider, field
      ensures LookupAny(PruneAnswer(data), to, from, provider, field) == LastRow(rows, to, from, provider, field)
    {
      PrunedLookup(data, to, from, provider, field);
    }
  }

  /** A row with a value is found again. */
  lemma {:induction false} RowFound(rows: seq<Row>, i: nat)
    requires i < |rows| && rows[i].value.Some?
    ensures LastRow(rows, rows[i].To(), rows[i].From(), rows[i].provider, rows[i].field).Some?
  {
    if i + 1 < |rows| {
      RowFound(rows[..|rows| - 1], i);
    }
  }

  /** A value comes from a row. */
  lemma {:induction false} RowBehind(rows: seq<Row>, to: PTime, from: PTime, provider: string, field: Field)
    returns (i: nat)
    requires LastRow(rows, to, from, provider, field).Some?
    ensures i < |rows| && rows[i].value.Some? && rows[i].To() == to && rows[i].From() == from
  {
    i := |rows| - 1;
    var last := rows[i];
    if !(last.To() == to && last.From() == from && last.provider == provider && last.field == field
      && last.value.Some?) {
      i := RowBehind(rows[..|rows| - 1], to, from, provider, field);
    }
  }

  lemma OnlyLocation(data: LocationPointData, loc: LocationPoint)
    requires |data| <= 1 && loc in data
    ensures |data| == 1 && TheLocation(data) == loc
  {
    assert data.Keys != {};
    assert loc in data.Keys;
  }

  /** Every entry that pruning leaves leads to a value. */
  lemma EntryHasValue(ts: TimeSerie, to: PTime, from: PTime) returns (provider: string, field: Field)
    requires to in PruneSerie(ts) && from in PruneSerie(ts)[to]
    ensures Lookup(PruneSerie(ts), to, from, provider, field).Some?
  {
    PruneKeepsValues(ts, to, from, "", "");
    provider :| provider in PruneSerie(ts)[to][from];
    field := CellHasValue(ts, to, from, provider);
  }

  lemma CellHasValue(ts: TimeSerie, to: PTime, from: PTime, provider: string) returns (field: Field)
    requires to in PruneSerie(ts) && from in PruneSerie(ts)[to] && provider in PruneSerie(ts)[to][from]
    ensures Lookup(PruneSerie(ts), to, from, provider, field).Some?
  {
    PruneKeepsValues(ts, to, from, provider, "");
    field :| field in PruneSerie(ts)[to][from][provider];
  }

  lemma EntryHasRow(data: LocationPointData, rows: seq<Row>, loc: LocationPoint, to: PTime, from: PTime)
    returns (i: nat)
    requires |data| <= 1 && HoldsRows(data, rows)
    requires var pruned := PruneAnswer(data); loc in pruned && to in pruned[loc] && from in pruned[loc][to]
    ensures i < |rows| && rows[i].value.Some? && rows[i].To() == to && rows[i].From() == from
  {
    PrunedHoldsRows(data, rows);
    OnlyLocation(PruneAnswer(data), loc);
    var provider, field := EntryHasValue(data[loc], to, from);
    assert LookupAny(PruneAnswer(data), to, from, provider, field).Some?;
    i := RowBehind(rows, to, from, provider, field);
  }

  lemma FirstEntry(data: LocationPointData, loc: LocationPoint) returns (to: PTime, from: PTime)
    requires loc in PruneAnswer(data)
    ensures to in PruneAnswer(data)[loc] && from in PruneAnswer(data)[loc][to]
  {
    var ts := PruneAnswer(data)[loc];
    to :| to in ts;
    from := FirstFrom(data, loc, to);
  }

  lemma FirstFrom(data: LocationPointData, loc: LocationPoint, to: PTime) returns (from: PTime)
    requires loc in PruneAnswer(data) && to in PruneAnswer(data)[loc]
    ensures from in PruneAnswer(data)[loc][to]
  {
    PruneKeepsValues(data[loc], to, to, "", "");
    from :| from in PruneAnswer(data)[loc][to];
  }

  /** There is data exactly when a row has a value, and it varies in time exactly when such a
      row does. */
  lemma DataOfRows(data: LocationPointData, rows: seq<Row>)
    requires |data| <= 1 && HoldsRows(data, rows)
    ensures PruneAnswer(data) != map[] <==> exists i | 0 <= i < |rows| :: rows[i].value.Some?
    ensures !OnlyConstFieldsOrEmpty(PruneAnswer(data))
            <==> exists i | 0 <= i < |rows| :: rows[i].value.Some? && Varies(rows[i])
  {
    var pruned := PruneAnswer(data);
    PrunedHoldsRows(data, rows);
    if i :| 0 <= i < |rows| && rows[i].value.Some? {
      RowFound(rows, i);
    }
    if i :| 0 <= i < |rows| && rows[i].value.Some? && Varies(rows[i]) {
      RowVaries(pruned, rows, i);
    }
    if loc :| loc in pruned {
      var to, from := FirstEntry(data, loc);
      var i := EntryHasRow(data, rows, loc, to, from);
    }
    if loc, to :| loc in pruned && to in pruned[loc]
                  && !(to == CONST_FIELD_TIME && forall f | f in pruned[loc][to] :: f == CONST_FIELD_TIME) {
      var from := FirstFrom(data, loc, to);
      if to == CONST_FIELD_TIME {
        from :| from in pruned[loc][to] && from != CONST_FIELD_TIME;
      }
      var i := EntryHasRow(data, rows, loc, to, from);
      assert Varies(rows[i]);
    }
  }

  lemma SuccessLeaves(c: Command, kept: LocationPointData)
    requires c.failsAfter.None? && |kept| <= 1 && HoldsRows(kept, c.Kept())
    requires kept.Keys <= if c.rows == [] then {} else {c.rows[0].point}
    ensures LeftBy(c, Outcome(true, PruneAnswer(kept)))
  {
    PrunedHoldsRows(kept, c.Kept());
    DataOfRows(kept, c.Kept());
    PrunedLiesAtFirstRow(kept, c.rows);
  }

  lemma PrunedHasCell(data: LocationPointData, loc: LocationPoint)
    requires loc in PruneAnswer(data)
    ensures HasAnyCell(PruneAnswer(data)[loc])
  {
    var ts := PruneAnswer(data)[loc];
    var to, from := FirstEntry(data, loc);
    PruneKeepsValues(data[loc], to, from, "", "");
    assert HasProviders(ts[to][from]);
    assert HasCells(ts[to]);
  }

  lemma PrunedLiesAt(data: LocationPointData, loc: LocationPoint)
    requires data.Keys <= {loc} && PruneAnswer(data) != map[]
    ensures PruneAnswer(data).Keys == {loc} && HasAnyCell(PruneAnswer(data)[loc])
  {
    var l :| l in PruneAnswer(data).Keys;
    assert l in data.Keys;
    PrunedHasCell(data, loc);
  }

  lemma PrunedLiesAtFirstRow(data: LocationPointData, rows: seq<Row>)
    requires data.Keys <= if rows == [] then {} else {rows[0].point}
    ensures LiesAtFirstRow(PruneAnswer(data), rows)
  {
    if rows == [] {
      assert PruneAnswer(data).Keys == {};
    } else if PruneAnswer(data) != map[] {
      PrunedLiesAt(data, rows[0].point);
    }
  }

  lemma RowVaries(data: LocationPointData, rows: seq<Row>, i: nat)
    requires |data| <= 1 && HoldsRows(data, rows) && i < |rows| && rows[i].value.Some? && Varies(rows[i])
    ensures !OnlyConstFieldsOrEmpty(data)
  {
    RowFound(rows, i);
    var row := rows[i];
    assert LookupAny(data, row.To(), row.From(), row.provider, row.field).Some?;
    var loc := TheLocation(data);
    assert row.To() in data[loc] && row.From() in data[loc][row.To()];
  }

  // ---------------------------------------------------------------- all commands

  /** The commands up to the first that ends the request or is ended by an exception. */
  function Counted(cs: seq<Command>): (n: nat)
    ensures n <= |cs|
  {
    if cs == [] then 0
    else if cs[0].failsAfter.Some? || cs[0].Ends() then 1
    else 1 + Counted(cs[1..])
  }

  /** The rows of all commands, one after the other. */
  function AllRowsOf(cs: seq<Command>): (rows: seq<Row>) {
    if cs == [] then [] else AllRowsOf(cs[..|cs| - 1]) + cs[|cs| - 1].Kept()
  }

  predicate AnySpoils(cs: seq<Command>) {
    exists i | 0 <= i < |cs| :: cs[i].Spoils()
  }

  /** The values of the answer: none when one of the commands spoils it, otherwise as if the
      rows had come in one query. */
  function RowsAnswer(cs: seq<Command>, to: PTime, from: PTime, provider: string, field: Field): (r: Option<real>) {
    var run := cs[..Counted(cs)];
    if AnySpoils(run) then None else LastRow(AllRowsOf(run), to, from, provider, field)
  }

  /** The first command that has a value. */
  function FirstValue(cs: seq<Command>): (i: nat)
    ensures i <= |cs| && (i < |cs| ==> cs[i].HasValue()) && forall k | 0 <= k < i :: !cs[k].HasValue()
  {
    if cs == [] || cs[0].HasValue() then 0 else 1 + FirstValue(cs[1..])
  }

  /** Where the answer lies: at the first row of the first command that has a value. */
  function RowsPlace(cs: seq<Command>): (keys: set<LocationPoint>) {
    var run := cs[..Counted(cs)];
    var i := FirstValue(run);
    if AnySpoils(run) || i == |run| then {} else {run[i].rows[0].point}
  }

  ghost predicate QueryOf(c: Command, q: Query) {
    q.mustHaveData == c.mustHaveData && q.stopIfData == c.stopIfData && LeftBy(c, q.outcome)
  }

  ghost predicate QueriesOf(cs: seq<Command>, qs: seq<Query>) {
    |qs| == |cs| && forall i | 0 <= i < |cs| :: QueryOf(cs[i], qs[i])
  }

  lemma {:induction false} CountedMeans(cs: seq<Command>)
    ensures forall k: nat | k + 1 < Counted(cs) :: cs[k].failsAfter.None? && !cs[k].Ends()
    ensures var n := Counted(cs); n == |cs| || (n > 0 && (cs[n - 1].failsAfter.Some? || cs[n - 1].Ends()))
  {
    if cs != [] && cs[0].failsAfter.None? && !cs[0].Ends() {
      CountedMeans(cs[1..]);
      forall k: nat | k + 1 < Counted(cs)
        ensures cs[k].failsAfter.None? && !cs[k].Ends()
      {
        assert k > 0 ==> cs[k] == cs[1..][k - 1];
      }
    }
  }

  lemma {:induction false} LastRowAppend(a: seq<Row>, b: seq<Row>, to: PTime, from: PTime, provider: string,
                                         field: Field)
    ensures LastRow(a + b, to, from, provider, field)
         == if LastRow(b, to, from, provider, field).Some? then LastRow(b, to, from, provider, field)
            else LastRow(a, to, from, provider, field)
    decreases |b|
  {
    if b == [] {
      assert a + b == a;
    } else {
      assert (a + b)[..|a + b| - 1] == a + b[..|b| - 1];
      LastRowAppend(a, b[..|b| - 1], to, from, provider, field);
    }
  }

  /** The last value over the queries is that of all their rows. */
  lemma {:induction false} LastValueOfRows(cs: seq<Command>, qs: seq<Query>, to: PTime, from: PTime, provider: string,
                                           field: Field)
    requires QueriesOf(cs, qs) && AllOneLocation(qs) && forall i | 0 <= i < |cs| :: cs[i].failsAfter.None?
    ensures LastValue(qs, to, from, provider, field) == LastRow(AllRowsOf(cs), to, from, provider, field)
  {
    if cs == [] {
    } else {
      var n := |cs| - 1;
      LastValueOfRows(cs[..n], qs[..n], to, from, provider, field);
      LastRowAppend(AllRowsOf(cs[..n]), cs[n].Kept(), to, from, provider, field);
      assert QueryOf(cs[n], qs[n]);
    }
  }

  lemma QueryIs(c: Command, q: Query)
    requires QueryOf(c, q)
    ensures c.failsAfter.Some? ==> q.Fails()
    ensures c.failsAfter.None? ==> (q.Fails() <==> c.Spoils()) && (q.EndsRequest() <==> c.Ends())
  {
  }

  /** The queries that are run are the commands that count, unless an exception makes the
      answer empty. */
  lemma QueriesCounted(cs: seq<Command>, qs: seq<Query>)
    requires QueriesOf(cs, qs)
    ensures |QueriesRun(qs)| >= Counted(cs)
    ensures (forall i | 0 <= i < Counted(cs) :: cs[i].failsAfter.None?) ==> |QueriesRun(qs)| == Counted(cs)
  {
    var n := Counted(cs);
    CountedMeans(cs);
    forall k: nat | k + 1 < n
      ensures !Jobs(qs)[k].EndsRequest()
    {
      QueryIs(cs[k], qs[k]);
    }
    if n > 0 {
      RunCountAtLeast(Jobs(qs), n - 1);
      QueryIs(cs[n - 1], qs[n - 1]);
    }
    if n == 0 || cs[n - 1].failsAfter.None? {
      RunCountIs(Jobs(qs), n);
    }
  }

  predicate AnyFails(qs: seq<Query>) {
    exists i | 0 <= i < |qs| :: qs[i].Fails()
  }

  /** The queries that are run spoil the answer exactly when a command that counts does. */
  lemma SpoiledAlike(cs: seq<Command>, qs: seq<Query>)
    requires QueriesOf(cs, qs)
    ensures AnySpoils(cs[..Counted(cs)]) <==> AnyFails(QueriesRun(qs))
    ensures !AnyFails(QueriesRun(qs)) ==> QueriesRun(qs) == qs[..Counted(cs)]
  {
    var n, run := Counted(cs), QueriesRun(qs);
    QueriesCounted(cs, qs);
    if i :| 0 <= i < n && cs[i].Spoils() {
      QueryIs(cs[i], qs[i]);
      assert run[i].Fails() && cs[..n][i].Spoils();
    } else {
      forall i | 0 <= i < |run|
        ensures !run[i].Fails()
      {
        QueryIs(cs[i], qs[i]);
      }
    }
  }

  /** The answer to the queries is the answer of their rows. */
  lemma AnswerOfRows(cs: seq<Command>, qs: seq<Query>, to: PTime, from: PTime, provider: string, field: Field)
    requires QueriesOf(cs, qs) && AllOneLocation(qs)
    ensures LookupAny(Answer(qs), to, from, provider, field) == RowsAnswer(cs, to, from, provider, field)
  {
    AnswerValues(qs, to, from, provider, field);
    SpoiledAlike(cs, qs);
    if !AnyFails(QueriesRun(qs)) {
      RunValues(cs, qs, Counted(cs), to, from, provider, field);
    }
  }

  /** The answer to the queries lies where their rows say. */
  lemma PlaceOfRows(cs: seq<Command>, qs: seq<Query>)
    requires QueriesOf(cs, qs) && AllOneLocation(qs)
    ensures Answer(qs).Keys == RowsPlace(cs)
  {
    SpoiledAlike(cs, qs);
    var run, n := cs[..Counted(cs)], Counted(cs);
    if !AnyFails(QueriesRun(qs)) {
      var i := FirstValue(run);
      NoneSpoils(cs, qs, n);
      FoldLocation(qs[..n], i);
    }
  }

  /** The queries bring locations as the commands have values. */
  lemma NoneSpoils(cs: seq<Command>, qs: seq<Query>, n: nat)
    requires QueriesOf(cs, qs) && AllOneLocation(qs) && n <= |cs| && !AnySpoils(cs[..n])
    ensures AllOneLocation(qs[..n])
    ensures forall i | 0 <= i < n ::
              && (BringsLocation(qs[..n][i], i == 0) <==> cs[..n][i].HasValue())
              && (cs[..n][i].HasValue() ==> qs[..n][i].outcome.data.Keys == {cs[..n][i].rows[0].point})
  {
    forall i | 0 <= i < n
      ensures BringsLocation(qs[i], i == 0) <==> cs[i].HasValue()
      ensures cs[i].HasValue() ==> qs[i].outcome.data.Keys == {cs[i].rows[0].point}
    {
      assert !cs[..n][i].Spoils();
      assert QueryOf(cs[i], qs[i]);
      if cs[i].HasValue() {
        OnlyLocation(qs[i].outcome.data, cs[i].rows[0].point);
      }
    }
  }

  lemma RunValues(cs: seq<Command>, qs: seq<Query>, n: nat, to: PTime, from: PTime, provider: string, field: Field)
    requires QueriesOf(cs, qs) && AllOneLocation(qs) && n <= |cs| && !AnySpoils(cs[..n])
    ensures LastValue(qs[..n], to, from, provider, field) == LastRow(AllRowsOf(cs[..n]), to, from, provider, field)
  {
    forall i | 0 <= i < n
      ensures cs[..n][i].failsAfter.None?
    {
      assert !cs[..n][i].Spoils();
    }
    LastValueOfRows(cs[..n], qs[..n], to, from, provider, field);
  }

  /** A request from its rows to its answer. Whenever it returns data, that has the values
      of `RowsAnswer` and lies at `RowsPlace`; and it returns data when nothing failed and no
      connection was refused for too long. When one of the commands does not end, neither need the request, and
      `None` stands for that. */
  method RequestRows(cs: seq<Command>, nParallel: int, queueAllocated: bool)
    returns (r: Option<RunResult>, data: LocationPointData, ghost replies: seq<Reply>, ghost waits: seq<nat>)
    ensures |data| <= 1
    ensures r.None? <==> exists i | 0 <= i < |cs| :: cs[i].Hangs()
    ensures r == Some(Returned) ==> forall to, from, provider, field ::
              LookupAny(data, to, from, provider, field) == RowsAnswer(cs, to, from, provider, field)
    ensures r == Some(Returned) ==> data.Keys == RowsPlace(cs)
    ensures r.Some? ==> (r.value.Returned? <==> queueAllocated && NoFailure(replies) && InTime(waits))
    ensures queueAllocated && r == Some(ResourceLimit) ==> EndsRefused(replies)
  {
    replies, waits := [], [];
    var queries: seq<Query> := [];
    for i := 0 to |cs|
      invariant QueriesOf(cs[..i], queries)
      invariant forall k | 0 <= k < i :: !cs[k].Hangs()
    {
      var ended, outcome := RunCommand(cs[i]);
      if !ended {
        return None, map[], replies, waits;
      }
      queries := queries + [Query(cs[i].mustHaveData, cs[i].stopIfData, outcome)];
    }
    assert cs[..|cs|] == cs;
    OneLocationEach(cs, queries);
    var result;
    result, data, replies, waits := RequestData(queries, nParallel, queueAllocated);
    r := Some(result);
    if result.Returned? {
      PlaceOfRows(cs, queries);
      forall to, from, provider, field
        ensures LookupAny(data, to, from, provider, field) == RowsAnswer(cs, to, from, provider, field)
      {
        AnswerOfRows(cs, queries, to, from, provider, field);
      }
    } else {
      data := map[];
    }
  }

  lemma OneLocationEach(cs: seq<Command>, qs: seq<Query>)
    requires QueriesOf(cs, qs)
    ensures AllOneLocation(qs)
  {
    forall i | 0 <= i < |qs|
      ensures qs[i].OneLocation()
    {
      assert QueryOf(cs[i], qs[i]);
    }
  }
}
