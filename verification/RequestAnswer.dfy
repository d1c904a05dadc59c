/**
 What a whole request answers, and why its schedule does not matter.
 */
module RequestAnswer {
  import opened Times
  import opened PointData
  import opened Answers
  import opened RequestProtocol

  function Jobs(qs: seq<Query>): (jobs: seq<Job>)
    ensures |jobs| == |qs|
    ensures forall i | 0 <= i < |qs| :: jobs[i] == Job(qs[i].stopIfData, qs[i].outcome.HasForecast())
  {
    seq(|qs|, i requires 0 <= i < |qs| => Job(qs[i].stopIfData, qs[i].outcome.HasForecast()))
  }

  /** The threads as `mergeData` finds them: a command whose result has not been written is
      as it was made. */
  function Infos(qs: seq<Query>, s: State): (infos: seq<ThreadInfo>)
    ensures |infos| == |qs|
  {
    seq(|qs|, i requires 0 <= i < |qs| =>
      ThreadInfo(if i in s.written then qs[i] else qs[i].(outcome := Outcome(true, map[])), i in s.completed))
  }

  /** The queries that are run, and their merged answer, said without any thread. */
  function QueriesRun(qs: seq<Query>): (r: seq<Query>)
    ensures AllOneLocation(qs) ==> AllOneLocation(r)
  {
    qs[..RunCount(Jobs(qs))]
  }

  function Answer(qs: seq<Query>): (r: LocationPointData)
    requires AllOneLocation(qs)
    ensures |r| <= 1
  {
    MergedAnswer(QueriesRun(qs))
  }

  lemma {:induction false} CompletedPrefix(qs: seq<Query>, s: State, n: nat, k: nat)
    requires k <= |qs| && n <= |qs|
    requires s.completed == s.written == Indices(k)
    ensures CompletedQueries(Infos(qs, s)[..n]) == qs[..if n < k then n else k]
  {
    if n == 0 {
    } else {
      CompletedPrefix(qs, s, n - 1, k);
      assert Infos(qs, s)[..n][..n - 1] == Infos(qs, s)[..n - 1];
      if n <= k {
        assert qs[..n] == qs[..n - 1] + [qs[n - 1]];
      }
    }
  }

  /** After a run that returned, the completed queries are `QueriesRun`. */
  lemma CompletedAnswer(qs: seq<Query>, s: State)
    requires s.completed == s.written == Indices(RunCount(Jobs(qs)))
    ensures CompletedQueries(Infos(qs, s)) == QueriesRun(qs)
    ensures AllOneLocation(qs) ==> forall i | 0 <= i < |qs| :: Infos(qs, s)[i].query.OneLocation()
  {
    CompletedPrefix(qs, s, |qs|, RunCount(Jobs(qs)));
    assert Infos(qs, s)[..|qs|] == Infos(qs, s);
  }

  /** Schedule independence: every returning run gives the same answer. */
  lemma ScheduleIndependence(qs: seq<Query>, nParallel: int, r: Run)
    requires AllOneLocation(qs)
    requires IsRun(Config(Jobs(qs), nParallel), r) && r.Last().returned
    ensures CompletedQueries(Infos(qs, r.Last())) == QueriesRun(qs)
    ensures MergedAnswer(CompletedQueries(Infos(qs, r.Last()))) == Answer(qs)
  {
    CompletedIsPrefix(Config(Jobs(qs), nParallel), r);
    CompletedAnswer(qs, r.Last());
  }

  /** The answer in terms of single values: empty when a query that was run fails, and
      otherwise the last value that those queries give, in list order. */
  lemma AnswerValues(qs: seq<Query>, to: PTime, from: PTime, provider: string, field: Field)
    requires AllOneLocation(qs)
    ensures LookupAny(Answer(qs), to, from, provider, field)
         == if exists i | 0 <= i < |QueriesRun(qs)| :: QueriesRun(qs)[i].Fails() then None
            else LastValue(QueriesRun(qs), to, from, provider, field)
  {
    MergeIsLastValue(QueriesRun(qs), to, from, provider, field);
  }

  // ---------------------------------------------------------------- removing empty data

  ghost predicate SameValues(a: LocationPointData, b: LocationPointData)
    requires |a| <= 1 && |b| <= 1
  {
    forall to, from, provider, field ::
      LookupAny(a, to, from, provider, field) == LookupAny(b, to, from, provider, field)
  }

  /** A query from whose data the empty entries have been removed. */
  function PrunedQuery(q: Query): (r: Query) {
    q.(outcome := q.outcome.(data := PruneAnswer(q.outcome.data)))
  }

  /** Removing the empty entries neither takes the last entry from a query that must have
      data, nor the last entry that varies in time from one that may end the request. The
      answer does not depend on the data of a query that failed. */
  predicate Harmless(q: Query) {
    q.outcome.ok ==>
      && (q.mustHaveData && q.outcome.data != map[] ==> PruneAnswer(q.outcome.data) != map[])
      && (q.EndsRequest() ==> PrunedQuery(q).EndsRequest())
  }

  predicate IsPruned(qs: seq<Query>, pruned: seq<Query>) {
    |pruned| == |qs| && forall i | 0 <= i < |qs| :: pruned[i] == qs[i] || pruned[i] == PrunedQuery(qs[i])
  }

  /** Removing entries makes no query succeed and lets none end the request. */
  lemma PruningTakesAway(q: Query)
    ensures q.Fails() ==> PrunedQuery(q).Fails()
    ensures PrunedQuery(q).EndsRequest() ==> q.EndsRequest()
  {
    var data, pruned := q.outcome.data, PruneAnswer(q.outcome.data);
    if data == map[] {
      assert pruned.Keys == {};
    }
    if OnlyConstFieldsOrEmpty(data) {
      forall loc, t, f | loc in pruned && t in pruned[loc]
        ensures t == CONST_FIELD_TIME && (f in pruned[loc][t] ==> f == CONST_FIELD_TIME)
      {
        assert t in data[loc];
      }
    }
  }

  lemma {:induction false} RunCountMeans(jobs: seq<Job>)
    ensures forall k: nat | k + 1 < RunCount(jobs) :: !jobs[k].EndsRequest()
    ensures RunCount(jobs) == |jobs| || (RunCount(jobs) > 0 && jobs[RunCount(jobs) - 1].EndsRequest())
  {
    if jobs != [] && !jobs[0].EndsRequest() {
      RunCountMeans(jobs[1..]);
      forall k: nat | k + 1 < RunCount(jobs)
        ensures !jobs[k].EndsRequest()
      {
        assert k > 0 ==> jobs[k] == jobs[1..][k - 1];
      }
    }
  }

  lemma {:induction false} RunCountAtLeast(jobs: seq<Job>, i: nat)
    requires i < |jobs| && forall k: nat | k < i :: !jobs[k].EndsRequest()
    ensures RunCount(jobs) > i
  {
    if i == 0 {
    } else {
      RunCountAtLeast(jobs[1..], i - 1);
    }
  }

  /** A query that makes the answer empty does so after pruning as well. */
  lemma StillFails(qs: seq<Query>, pruned: seq<Query>, i: nat)
    requires IsPruned(qs, pruned) && i < |QueriesRun(qs)| && QueriesRun(qs)[i].Fails()
    ensures i < |QueriesRun(pruned)| && QueriesRun(pruned)[i].Fails()
  {
    RunCountMeans(Jobs(qs));
    forall k: nat | k < i
      ensures !Jobs(pruned)[k].EndsRequest()
    {
      assert !Jobs(qs)[k].EndsRequest();
      PruningTakesAway(qs[k]);
    }
    RunCountAtLeast(Jobs(pruned), i);
    PruningTakesAway(qs[i]);
  }

  /** When no query that is run fails and only harmless ones are pruned, the same queries are
      run, and none of them fails. */
  lemma SameQueriesRun(qs: seq<Query>, pruned: seq<Query>)
    requires IsPruned(qs, pruned)
    requires forall i | 0 <= i < |qs| :: pruned[i] == qs[i] || Harmless(qs[i])
    requires forall i | 0 <= i < |QueriesRun(qs)| :: !QueriesRun(qs)[i].Fails()
    ensures |QueriesRun(pruned)| == |QueriesRun(qs)|
    ensures forall i | 0 <= i < |QueriesRun(pruned)| :: !QueriesRun(pruned)[i].Fails()
  {
    var n := RunCount(Jobs(qs));
    RunCountMeans(Jobs(qs));
    forall k: nat | k < n
      ensures !pruned[k].Fails() && Jobs(pruned)[k].EndsRequest() == Jobs(qs)[k].EndsRequest()
    {
      assert !QueriesRun(qs)[k].Fails();
      PruningTakesAway(qs[k]);
    }
    RunCountIs(Jobs(pruned), n);
  }

  /** Removing empty entries from any harmless queries changes no value of the answer. */
  lemma PrunedAnswer(qs: seq<Query>, pruned: seq<Query>)
    requires AllOneLocation(qs) && IsPruned(qs, pruned)
    requires forall i | 0 <= i < |qs| :: pruned[i] == qs[i] || Harmless(qs[i])
    ensures AllOneLocation(pruned) && SameValues(Answer(qs), Answer(pruned))
  {
    PrunedSizes(qs, pruned);
    if i :| 0 <= i < |QueriesRun(qs)| && QueriesRun(qs)[i].Fails() {
      StillFails(qs, pruned, i);
    } else {
      SameQueriesRun(qs, pruned);
      forall to, from, provider, field
        ensures LookupAny(Answer(qs), to, from, provider, field) == LookupAny(Answer(pruned), to, from, provider, field)
      {
        PrunedOperands(QueriesRun(qs), QueriesRun(pruned), to, from, provider, field);
      }
    }
  }

  lemma PrunedSizes(qs: seq<Query>, pruned: seq<Query>)
    requires AllOneLocation(qs) && IsPruned(qs, pruned)
    ensures AllOneLocation(pruned)
  {
    forall i | 0 <= i < |pruned|
      ensures pruned[i].OneLocation()
    {
      assert qs[i].OneLocation();
      PruneAnswerSize(qs[i].outcome.data);
    }
  }

  /** It does not matter whether query i is replaced by p. */
  ghost predicate SameWith(qs: seq<Query>, i: nat, p: Query)
    requires AllOneLocation(qs) && i < |qs| && p.OneLocation()
  {
    AllOneLocation(qs[i := p]) && SameValues(Answer(qs), Answer(qs[i := p]))
  }

  /** Removing the empty entries of a query changes no value of any answer in which the query
      may take part, exactly when it is harmless. */
  lemma PruningExactly(q: Query)
    requires q.OneLocation()
    ensures PrunedQuery(q).OneLocation()
    ensures (forall qs, i: nat | AllOneLocation(qs) && i < |qs| && qs[i] == q :: SameWith(qs, i, PrunedQuery(q)))
            <==> Harmless(q)
  {
    PruneAnswerSize(q.outcome.data);
    if Harmless(q) {
      forall qs, i: nat | AllOneLocation(qs) && i < |qs| && qs[i] == q
        ensures SameWith(qs, i, PrunedQuery(q))
      {
        PrunedAnswer(qs, qs[i := PrunedQuery(q)]);
      }
    } else {
      HarmlessMeans(q);
      var qs, i := ReplacingHarms(q, PrunedQuery(q));
    }
  }

  lemma HarmlessMeans(q: Query)
    ensures Harmless(q) <==> q.Fails()
                             || (!PrunedQuery(q).Fails() && (q.EndsRequest() ==> PrunedQuery(q).EndsRequest()))
  {
    PruningTakesAway(q);
  }

  const PLACE := LocationPoint(0, 0)

  /** A query with a single value, other than the given one. */
  lemma OneValue(avoid: Option<real>) returns (x: Query)
    ensures x.OneLocation() && !x.Fails() && !x.EndsRequest()
    ensures LookupAny(x.outcome.data, At(1), At(1), "p", "f").Some?
    ensures LookupAny(x.outcome.data, At(1), At(1), "p", "f") != avoid
  {
    var v := if avoid == Some(1.0) then 2.0 else 1.0;
    var ts: TimeSerie := map[At(1) := map[At(1) := map["p" := map["f" := v]]]];
    OneLocationMap(PLACE, ts);
    x := Query(false, false, Outcome(true, map[PLACE := ts]));
  }

  /** A query list whose answer changes when q is replaced. */
  lemma ReplacingHarms(q: Query, p: Query) returns (qs: seq<Query>, i: nat)
    requires q.OneLocation() && p.OneLocation() && !q.Fails()
    requires p.Fails() || (q.EndsRequest() && !p.EndsRequest())
    ensures AllOneLocation(qs) && i < |qs| && qs[i] == q && !SameWith(qs, i, p)
  {
    var x := OneValue(LookupAny(q.outcome.data, At(1), At(1), "p", "f"));
    if p.Fails() {
      FailingDiffers(x, q, p, At(1), At(1), "p", "f");
      qs, i := [x, q], 1;
    } else {
      EndingDiffers(q, p, x, At(1), At(1), "p", "f");
      qs, i := [q, x], 0;
    }
  }

  /** A query that fails takes the value of the query before it along. */
  lemma FailingDiffers(x: Query, q: Query, p: Query, to: PTime, from: PTime, provider: string, field: Field)
    requires x.OneLocation() && q.OneLocation() && p.OneLocation()
    requires !x.Fails() && !x.EndsRequest() && !q.Fails() && p.Fails()
    requires LookupAny(x.outcome.data, to, from, provider, field).Some?
    ensures AllOneLocation([x, q]) && !SameWith([x, q], 1, p)
  {
    TwoQueries(x, q, to, from, provider, field);
    TwoQueries(x, p, to, from, provider, field);
    DiffersWith([x, q], 1, p, [x, p], to, from, provider, field);
  }

  /** When a query no longer ends the request, the value of the query after it comes in. */
  lemma EndingDiffers(q: Query, p: Query, x: Query, to: PTime, from: PTime, provider: string, field: Field)
    requires q.OneLocation() && p.OneLocation() && x.OneLocation()
    requires !q.Fails() && !p.Fails() && !x.Fails() && q.EndsRequest() && !p.EndsRequest()
    requires LookupAny(x.outcome.data, to, from, provider, field).Some?
    requires LookupAny(x.outcome.data, to, from, provider, field)
             != LookupAny(q.outcome.data, to, from, provider, field)
    ensures AllOneLocation([q, x]) && !SameWith([q, x], 0, p)
  {
    TwoQueries(q, x, to, from, provider, field);
    TwoQueries(p, x, to, from, provider, field);
    DiffersWith([q, x], 0, p, [p, x], to, from, provider, field);
  }

  lemma DiffersWith(qs: seq<Query>, i: nat, p: Query, changed: seq<Query>, to: PTime, from: PTime, provider: string,
                    field: Field)
    requires AllOneLocation(qs) && i < |qs| && p.OneLocation() && changed == qs[i := p] && AllOneLocation(changed)
    requires LookupAny(Answer(qs), to, from, provider, field) != LookupAny(Answer(changed), to, from, provider, field)
    ensures !SameWith(qs, i, p)
  {
  }

  lemma TwoQueriesRun(a: Query, b: Query)
    ensures QueriesRun([a, b]) == if a.EndsRequest() then [a] else [a, b]
  {
    RunCountIs(Jobs([a, b]), if a.EndsRequest() then 1 else 2);
    assert [a, b][..1] == [a] && [a, b][..2] == [a, b];
  }

  lemma LastOfTwo(a: Query, b: Query, to: PTime, from: PTime, provider: string, field: Field)
    requires a.OneLocation() && b.OneLocation()
    ensures LastValue([a], to, from, provider, field) == LookupAny(a.outcome.data, to, from, provider, field)
    ensures var va, vb := LookupAny(a.outcome.data, to, from, provider, field),
                          LookupAny(b.outcome.data, to, from, provider, field);
            LastValue([a, b], to, from, provider, field) == if vb.Some? then vb else va
  {
    assert [a][..0] == [] && [a, b][..1] == [a];
    assert LastValue([], to, from, provider, field) == None;
  }

  /** The answer to a request of two queries. */
  lemma TwoQueries(a: Query, b: Query, to: PTime, from: PTime, provider: string, field: Field)
    requires a.OneLocation() && b.OneLocation()
    ensures var va, vb := LookupAny(a.outcome.data, to, from, provider, field),
                          LookupAny(b.outcome.data, to, from, provider, field);
            LookupAny(Answer([a, b]), to, from, provider, field) ==
            if a.Fails() then None
            else if a.EndsRequest() then va
            else if b.Fails() then None
            else if vb.Some? then vb else va
  {
    AnswerValues([a, b], to, from, provider, field);
    TwoQueriesRun(a, b);
    LastOfTwo(a, b, to, from, provider, field);
    var run := QueriesRun([a, b]);
    assert run[0] == a && (a.EndsRequest() || run[1] == b);
  }
}
