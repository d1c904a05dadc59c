/**
 The batch update of the reference times that are served. What the database answers to each
 request, and when, is part of the input.
 */
module UpdateProviderReftimes {
  import opened Times
  import opened Providers
  import opened NameOrder
  import opened ProviderReftimes

  /** `Failed` is an exception; the rows hold the reference times found, by provider name. */
  datatype Answer = Failed | Rows(rows: map<string, PTime>, now: PTime)

  /** One requested update, and what the database answers if it is asked. */
  datatype Asked = Asked(provider: string, request: ProviderTimes, answer: Answer) {
    predicate FoundNothing() {
      answer.Failed? || answer.rows == map[]
    }
  }

  datatype Outcome = Threw | Returned(refTimes: RefTimes, changed: bool)

  // ---------------------------------------------------------------- one row of an answer

  /** A row that the request is about. */
  predicate IsOwn(provider: string, key: string) {
    DecodeItem(provider).placename == "" || key == DecodeItem(provider).Name()
  }

  /** The entry after a row for its key; `own` says that the request is about that key. */
  function NewEntry(request: ProviderTimes, own: bool, row: PTime, now: PTime,
                    entry: Option<ProviderTimes>): (r: ProviderTimes) {
    var found := ProviderTimes(row, now, false, false, false, false, -1);
    if entry.None? || !own then
      found.(dataversion := request.dataversion, disabled := request.disabled)
    else
      var base := if entry.value.refTime == row then entry.value else found.(disabled := entry.value.disabled);
      base.(dataversion := if request.dataversionRequest then request.dataversion else base.dataversion,
            disabled := if request.disableEnableRequest then request.disabled else base.disabled)
  }

  function EntryOf(m: RefTimes, key: string): (r: Option<ProviderTimes>) {
    if key in m then Some(m[key]) else None
  }

  function AfterRow(m: RefTimes, asked: Asked, key: string): (r: ProviderTimes)
    requires asked.answer.Rows? && key in asked.answer.rows
  {
    NewEntry(asked.request, IsOwn(asked.provider, key), asked.answer.rows[key], asked.answer.now, EntryOf(m, key))
  }

  predicate RowChanges(m: RefTimes, asked: Asked, key: string)
    requires asked.answer.Rows? && key in asked.answer.rows
  {
    key !in m || !IsOwn(asked.provider, key) || AfterRow(m, asked, key) != m[key]
  }

  // ---------------------------------------------------------------- one request

  /** The updates of disable status and data version that need no answer. */
  function AfterFlags(m: RefTimes, provider: string, request: ProviderTimes): (r: RefTimes) {
    var m1 := if request.disableEnableRequest then WithDisabled(m, provider, request.disabled) else m;
    if request.dataversionRequest then WithDataversion(m1, provider, request.dataversion) else m1
  }

  function AfterAnswer(m: RefTimes, asked: Asked): (r: RefTimes)
    requires asked.answer.Rows?
  {
    m + map k | k in asked.answer.rows :: AfterRow(m, asked, k)
  }

  predicate AnswerChanges(m: RefTimes, asked: Asked)
    requires asked.answer.Rows?
  {
    exists k | k in asked.answer.rows :: RowChanges(m, asked, k)
  }

  /** The database is asked when a new reference time is wanted, and also when an update of
      the flags changed something and the provider is not disabled now. */
  predicate Asks(m: RefTimes, asked: Asked) {
    var flags := AfterFlags(m, asked.provider, asked.request);
    asked.request.reftimeUpdateRequest || (flags != m && DisabledIn(flags, asked.provider) != Some(true))
  }

  function Step(m: RefTimes, asked: Asked): (r: Outcome) {
    var flags := if asked.request.reftimeUpdateRequest then m else AfterFlags(m, asked.provider, asked.request);
    if !Asks(m, asked) then Returned(flags, flags != m)
    else if asked.FoundNothing() then Threw
    else Returned(AfterAnswer(flags, asked), flags != m || AnswerChanges(flags, asked))
  }

  /** All requests in turn; the first that throws ends the batch. */
  function Batch(m: RefTimes, requested: seq<Asked>): (r: Outcome)
    decreases |requested|
  {
    if requested == [] then Returned(m, false)
    else
      var first := Step(m, requested[0]);
      if first.Threw? then Threw
      else
        var rest := Batch(first.refTimes, requested[1..]);
        if rest.Threw? then Threw else Returned(rest.refTimes, first.changed || rest.changed)
  }

  // ---------------------------------------------------------------- the methods

  /** The loop over the rows of an answer. */
  method ProcessRows(tmpRefTimes: ProviderRefTimeList, asked: Asked) returns (changed: bool)
    requires asked.answer.Rows?
    modifies tmpRefTimes
    ensures tmpRefTimes.times == AfterAnswer(old(tmpRefTimes.times), asked)
    ensures changed == AnswerChanges(old(tmpRefTimes.times), asked)
  {
    changed := false;
    ghost var before := tmpRefTimes.times;
    var keys := InOrder(asked.answer.rows.Keys);
    Listed(asked.answer.rows.Keys);
    for i := 0 to |keys|
      invariant RowsDone(before, AfterAnswer(before, asked), tmpRefTimes.times, keys[..i])
      invariant changed == AnyChange(before, asked, keys[..i])
    {
      RowPass(before, tmpRefTimes.times, asked, keys, i);
      var changedNow := ProcessRow(tmpRefTimes, asked, keys[i]);
      changed := changed || changedNow;
    }
    assert keys[..|keys|] == keys;
    AllRows(before, tmpRefTimes.times, asked, keys);
  }

  method ProcessRow(tmpRefTimes: ProviderRefTimeList, asked: Asked, k: string) returns (changed: bool)
    requires asked.answer.Rows? && k in asked.answer.rows
    modifies tmpRefTimes
    ensures tmpRefTimes.times == old(tmpRefTimes.times)[k := AfterRow(old(tmpRefTimes.times), asked, k)]
    ensures changed == RowChanges(old(tmpRefTimes.times), asked, k)
  {
    var own := IsOwn(asked.provider, k);
    var entry := EntryOf(tmpRefTimes.times, k);
    var after := ProcessEntry(asked.request, own, asked.answer.rows[k], asked.answer.now, entry);
    changed := entry.None? || !own || after != entry.value;
    tmpRefTimes.times := tmpRefTimes.times[k := after];
  }

  /** What becomes of one entry, field by field. */
  method ProcessEntry(request: ProviderTimes, own: bool, row: PTime, now: PTime, entry: Option<ProviderTimes>)
    returns (r: ProviderTimes)
    ensures r == NewEntry(request, own, row, now, entry)
  {
    r := ProviderTimes(row, now, false, false, false, false, -1);
    if entry.Some? && own {
      if entry.value.refTime == row {
        r := entry.value;
      } else {
        r := r.(disabled := entry.value.disabled);
      }
      if request.dataversionRequest {
        r := r.(dataversion := request.dataversion);
      }
      if request.disableEnableRequest {
        r := r.(disabled := request.disabled);
      }
    } else {
      r := r.(dataversion := request.dataversion, disabled := request.disabled);
    }
  }

  /** One pass of the loop over the requested updates. */
  method ProcessRequest(tmpRefTimes: ProviderRefTimeList, asked: Asked) returns (threw: bool, changed: bool)
    modifies tmpRefTimes
    ensures var s := Step(old(tmpRefTimes.times), asked);
            threw == s.Threw? && (!threw ==> tmpRefTimes.times == s.refTimes && changed == s.changed)
  {
    threw, changed := false, false;
    ghost var before := tmpRefTimes.times;
    if !asked.request.reftimeUpdateRequest {
      changed := ProcessFlags(tmpRefTimes, asked.provider, asked.request);
      var disabled := tmpRefTimes.Disabled(asked.provider);
      if !changed || disabled == Some(true) {
        return;
      }
    }
    if asked.FoundNothing() {
      return true, changed;
    }
    var changedByRows := ProcessRows(tmpRefTimes, asked);
    changed := changed || changedByRows;
  }

  method ProcessFlags(tmpRefTimes: ProviderRefTimeList, provider: string, request: ProviderTimes)
    returns (changed: bool)
    modifies tmpRefTimes
    ensures tmpRefTimes.times == AfterFlags(old(tmpRefTimes.times), provider, request)
    ensures changed <==> tmpRefTimes.times != old(tmpRefTimes.times)
  {
    changed := false;
    ghost var before := tmpRefTimes.times;
    if request.disableEnableRequest {
      var count := tmpRefTimes.UpdateDisableStatus(provider, request.disabled);
      changed := count > 0;
    }
    ghost var between := tmpRefTimes.times;
    if request.dataversionRequest {
      var count := tmpRefTimes.UpdateDataversion(provider, request.dataversion);
      changed := changed || count > 0;
      DataversionOnly(between, provider, request.dataversion);
      if request.disableEnableRequest {
        DisabledStays(before, between, tmpRefTimes.times, provider, request.disabled, request.dataversion);
      }
    }
  }

  /** `updateProviderRefTimes`: works on a copy, which replaces the list only at the end. */
  method UpdateProviderRefTimes(requested: seq<Asked>, refTimes: ProviderRefTimeList)
    returns (threw: bool, changed: bool)
    modifies refTimes
    ensures var b := Batch(old(refTimes.times), requested);
            && threw == b.Threw?
            && (threw ==> refTimes.times == old(refTimes.times))
            && (!threw ==> refTimes.times == b.refTimes && changed == b.changed)
  {
    var tmpRefTimes := new ProviderRefTimeList(refTimes.times);
    threw, changed := false, false;
    for i := 0 to |requested|
      invariant fresh(tmpRefTimes) && refTimes.times == old(refTimes.times)
      invariant Batch(old(refTimes.times), requested)
             == match Batch(tmpRefTimes.times, requested[i..])
                case Threw => Threw
                case Returned(m, c) => Returned(m, changed || c)
    {
      assert requested[i..][1..] == requested[i + 1..];
      var changedNow;
      threw, changedNow := ProcessRequest(tmpRefTimes, requested[i]);
      if threw {
        return;
      }
      changed := changed || changedNow;
    }
    refTimes.times := tmpRefTimes.times;
  }

  // ---------------------------------------------------------------- lemmas for the loops

  ghost predicate RowsDone(before: RefTimes, updated: RefTimes, now: RefTimes, done: seq<string>)
    requires forall k | k in done :: k in updated
  {
    && (forall k :: k in now <==> k in before || k in done)
    && (forall k | k in now :: now[k] == if k in done then updated[k] else before[k])
  }

  lemma RowIsNext(before: RefTimes, updated: RefTimes, now: RefTimes, keys: seq<string>, i: nat)
    requires i < |keys| && Distinct(keys)
    requires forall k | k in keys :: k in updated
    requires RowsDone(before, updated, now, keys[..i])
    ensures EntryOf(now, keys[i]) == EntryOf(before, keys[i])
    ensures forall k :: k in keys[..i + 1] <==> k in keys[..i] || k == keys[i]
    ensures RowsDone(before, updated, now[keys[i] := updated[keys[i]]], keys[..i + 1])
  {
    NotYet(keys, i);
  }

  ghost predicate AnyChange(before: RefTimes, asked: Asked, done: seq<string>)
    requires asked.answer.Rows? && forall k | k in done :: k in asked.answer.rows
  {
    exists k | k in done :: RowChanges(before, asked, k)
  }

  lemma OneMoreRow(before: RefTimes, asked: Asked, keys: seq<string>, i: nat)
    requires asked.answer.Rows? && i < |keys| && forall k | k in keys :: k in asked.answer.rows
    ensures AnyChange(before, asked, keys[..i + 1])
            == (AnyChange(before, asked, keys[..i]) || RowChanges(before, asked, keys[i]))
  {
    assert keys[..i + 1] == keys[..i] + [keys[i]];
    assert keys[i] in keys[..i + 1];
  }

  lemma AllRows(before: RefTimes, now: RefTimes, asked: Asked, keys: seq<string>)
    requires asked.answer.Rows? && forall k :: k in keys <==> k in asked.answer.rows
    requires RowsDone(before, AfterAnswer(before, asked), now, keys)
    ensures now == AfterAnswer(before, asked) && AnyChange(before, asked, keys) == AnswerChanges(before, asked)
  {
  }

  lemma SameEntry(m: RefTimes, n: RefTimes, asked: Asked, k: string)
    requires asked.answer.Rows? && k in asked.answer.rows && EntryOf(m, k) == EntryOf(n, k)
    ensures AfterRow(m, asked, k) == AfterRow(n, asked, k) && RowChanges(m, asked, k) == RowChanges(n, asked, k)
    ensures k in AfterAnswer(m, asked) && AfterAnswer(m, asked)[k] == AfterRow(m, asked, k)
  {
  }

  lemma RowPass(before: RefTimes, now: RefTimes, asked: Asked, keys: seq<string>, i: nat)
    requires asked.answer.Rows? && i < |keys| && Distinct(keys)
    requires forall k | k in keys :: k in asked.answer.rows
    requires RowsDone(before, AfterAnswer(before, asked), now, keys[..i])
    ensures forall k | k in keys[..i + 1] :: k in asked.answer.rows
    ensures RowsDone(before, AfterAnswer(before, asked), now[keys[i] := AfterRow(now, asked, keys[i])], keys[..i + 1])
    ensures AnyChange(before, asked, keys[..i + 1])
            == (AnyChange(before, asked, keys[..i]) || RowChanges(now, asked, keys[i]))
  {
    RowIsNext(before, AfterAnswer(before, asked), now, keys, i);
    SameEntry(before, now, asked, keys[i]);
    OneMoreRow(before, asked, keys, i);
  }

  lemma DataversionOnly(m: RefTimes, provider: string, dataversion: int)
    ensures var n := WithDataversion(m, provider, dataversion);
            n.Keys == m.Keys && forall k | k in m :: n[k].disabled == m[k].disabled
  {
  }

  /** A later change of data versions does not undo a change of the disable status. */
  lemma DisabledStays(before: RefTimes, between: RefTimes, after: RefTimes, provider: string, disabled: bool,
                      dataversion: int)
    requires between == WithDisabled(before, provider, disabled)
    requires after == WithDataversion(between, provider, dataversion)
    ensures between != before ==> after != before
  {
    if between != before {
      var k :| k in before && between[k] != before[k];
      assert between[k].disabled != before[k].disabled && after[k].disabled == between[k].disabled;
    }
  }

  // ---------------------------------------------------------------- what a batch keeps

  /** A batch that reports no change has changed nothing. */
  lemma {:induction false} UnchangedIsIdentical(m: RefTimes, requested: seq<Asked>)
    ensures var b := Batch(m, requested); b.Returned? && !b.changed ==> b.refTimes == m
    decreases |requested|
  {
    if requested == [] {
    } else {
      StepUnchanged(m, requested[0]);
      var first := Step(m, requested[0]);
      if first.Returned? {
        UnchangedIsIdentical(first.refTimes, requested[1..]);
      }
    }
  }

  lemma StepUnchanged(m: RefTimes, asked: Asked)
    ensures var s := Step(m, asked); s.Returned? && !s.changed ==> s.refTimes == m
  {
    var s := Step(m, asked);
    if s.Returned? && !s.changed && Asks(m, asked) {
      assert AfterAnswer(m, asked) == m by {
        forall k | k in asked.answer.rows
          ensures k in m && AfterRow(m, asked, k) == m[k]
        {
          assert !RowChanges(m, asked, k);
        }
      }
    }
  }

  lemma StepKeepsKeys(m: RefTimes, asked: Asked)
    ensures var s := Step(m, asked); s.Returned? ==> m.Keys <= s.refTimes.Keys
  {
  }

  /** No entry is ever removed. */
  lemma {:induction false} KeysKept(m: RefTimes, requested: seq<Asked>)
    ensures var b := Batch(m, requested); b.Returned? ==> m.Keys <= b.refTimes.Keys
    decreases |requested|
  {
    if requested == [] {
    } else {
      StepKeepsKeys(m, requested[0]);
      var first := Step(m, requested[0]);
      if first.Returned? {
        KeysKept(first.refTimes, requested[1..]);
      }
    }
  }

  /** One entry after the updates that need no answer. */
  function Flagged(entry: ProviderTimes, asked: Asked, k: string): (r: ProviderTimes) {
    var request := asked.request;
    if request.reftimeUpdateRequest || !Matches(asked.provider, k) then entry
    else
      entry.(disabled := if request.disableEnableRequest then request.disabled else entry.disabled,
             dataversion := if request.dataversionRequest then request.dataversion else entry.dataversion)
  }

  /** One entry after a request. */
  predicate IsAfter(after: ProviderTimes, before: ProviderTimes, asked: Asked, k: string) {
    || after == Flagged(before, asked, k)
    || (asked.answer.Rows? && k in asked.answer.rows
        && after ==
           NewEntry(asked.request, IsOwn(asked.provider, k), asked.answer.rows[k], asked.answer.now,
                    Some(Flagged(before, asked, k))))
  }

  lemma FlagsEntry(m: RefTimes, asked: Asked, k: string)
    requires k in m && !asked.request.reftimeUpdateRequest
    ensures k in AfterFlags(m, asked.provider, asked.request)
    ensures AfterFlags(m, asked.provider, asked.request)[k] == Flagged(m[k], asked, k)
  {
  }

  lemma StepEntry(m: RefTimes, asked: Asked, k: string)
    requires k in m && Step(m, asked).Returned?
    ensures k in Step(m, asked).refTimes && IsAfter(Step(m, asked).refTimes[k], m[k], asked, k)
  {
    if !asked.request.reftimeUpdateRequest {
      FlagsEntry(m, asked, k);
    }
  }

  /** A request about an entry leaves its updated time alone unless the reference time
      changes, and its disable status unless that was requested. */
  lemma EntryKept(after: ProviderTimes, before: ProviderTimes, asked: Asked, k: string)
    requires IsAfter(after, before, asked, k) && IsOwn(asked.provider, k)
    ensures after.refTime == before.refTime ==> after.updatedTime == before.updatedTime
    ensures !asked.request.disableEnableRequest ==> after.disabled == before.disabled
    ensures !asked.request.dataversionRequest && after.refTime == before.refTime
            ==> after.dataversion == before.dataversion
  {
  }

  lemma StepKeepsEntry(m: RefTimes, asked: Asked, k: string)
    requires k in m && IsOwn(asked.provider, k) && Step(m, asked).Returned?
    ensures k in Step(m, asked).refTimes
    ensures var entry := Step(m, asked).refTimes[k];
            && (entry.refTime == m[k].refTime ==> entry.updatedTime == m[k].updatedTime)
            && (!asked.request.disableEnableRequest ==> entry.disabled == m[k].disabled)
            && (!asked.request.dataversionRequest && entry.refTime == m[k].refTime
              ==> entry.dataversion == m[k].dataversion)
  {
    StepEntry(m, asked, k);
    EntryKept(Step(m, asked).refTimes[k], m[k], asked, k);
  }

  /** Every answer has this reference time for the entry, or does not mention it. */
  predicate SameRefTime(asked: Asked, k: string, refTime: PTime) {
    asked.answer.Rows? && k in asked.answer.rows ==> IsOwn(asked.provider, k) && asked.answer.rows[k] == refTime
  }

  /** Over a whole batch an entry keeps its reference time and updated time when the database
      keeps answering with its reference time. */
  lemma {:induction false} UpdatedTimeKept(m: RefTimes, requested: seq<Asked>, k: string)
    requires k in m && Batch(m, requested).Returned?
    requires forall i | 0 <= i < |requested| :: SameRefTime(requested[i], k, m[k].refTime)
    ensures k in Batch(m, requested).refTimes
    ensures var entry := Batch(m, requested).refTimes[k];
            entry.refTime == m[k].refTime && entry.updatedTime == m[k].updatedTime
    decreases |requested|
  {
    if requested == [] {
    } else {
      StepEntry(m, requested[0], k);
      UpdatedTimeKept(Step(m, requested[0]).refTimes, requested[1..], k);
    }
  }

  /** The request does not ask for the disable status of this entry. */
  predicate LeavesDisabled(asked: Asked, k: string) {
    && (asked.request.disableEnableRequest ==> !Matches(asked.provider, k))
    && (asked.answer.Rows? && k in asked.answer.rows
      ==> IsOwn(asked.provider, k) && !asked.request.disableEnableRequest)
  }

  /** Over a whole batch an entry keeps its disable status when no request asks for it. */
  lemma {:induction false} DisabledKept(m: RefTimes, requested: seq<Asked>, k: string)
    requires k in m && Batch(m, requested).Returned?
    requires forall i | 0 <= i < |requested| :: LeavesDisabled(requested[i], k)
    ensures k in Batch(m, requested).refTimes && Batch(m, requested).refTimes[k].disabled == m[k].disabled
    decreases |requested|
  {
    if requested == [] {
    } else {
      StepEntry(m, requested[0], k);
      DisabledKept(Step(m, requested[0]).refTimes, requested[1..], k);
    }
  }

  // ---------------------------------------------------------------- what the database can answer

  /** The place in a name of a provider. */
  function PlaceIn(provider: string, k: string): (place: string) {
    if |k| > |provider| + 3 then k[|provider| + 2..|k| - 1] else ""
  }

  /** A name of the provider, with or without a place. */
  predicate OfProvider(provider: string, k: string) {
    k == ProviderItem(provider, PlaceIn(provider, k)).Name()
  }

  lemma OfProviderIs(provider: string, k: string)
    ensures OfProvider(provider, k) <==> exists place :: k == ProviderItem(provider, place).Name()
  {
    forall place | k == ProviderItem(provider, place).Name()
      ensures PlaceIn(provider, k) == place
    {
      assert place != "" ==> k[|provider| + 2..|k| - 1] == place;
    }
  }

  /** Names are made from the provider that was asked for. `exact` says that the database
      keeps to the reference time of a request that has one. */
  predicate CanAnswer(asked: Asked, k: string, row: PTime, exact: bool) {
    && OfProvider(DecodeItem(asked.provider).provider, k)
    && (exact && !asked.request.refTime.IsSpecial() ==> row == asked.request.refTime)
  }

  predicate IsPossible(asked: Asked, exact: bool) {
    asked.answer.Rows? ==> forall k | k in asked.answer.rows :: CanAnswer(asked, k, asked.answer.rows[k], exact)
  }

  predicate AllPossible(asked: seq<Asked>, exact: bool) {
    forall i | 0 <= i < |asked| :: IsPossible(asked[i], exact)
  }

  /** The same requests, with other answers of the database. */
  predicate SameRequests(a: seq<Asked>, b: seq<Asked>) {
    |a| == |b| && forall i | 0 <= i < |a| :: a[i].provider == b[i].provider && a[i].request == b[i].request
  }

  /** Answers that the database can give to these requests. */
  predicate CanBecome(asked: seq<Asked>, requests: seq<Asked>, exact: bool) {
    SameRequests(asked, requests) && AllPossible(asked, exact)
  }

  /** A request that the batch comes to. */
  predicate Reaches(m: RefTimes, asked: seq<Asked>, i: nat) {
    i < |asked| && Batch(m, asked[..i]).Returned?
  }

  function MapAt(m: RefTimes, asked: seq<Asked>, i: nat): (r: RefTimes)
    requires Reaches(m, asked, i)
  {
    Batch(m, asked[..i]).refTimes
  }

  /** The batch comes to request i and asks the database for it. */
  predicate AsksAt(m: RefTimes, asked: seq<Asked>, i: nat) {
    Reaches(m, asked, i) && Asks(MapAt(m, asked, i), asked[i])
  }

  lemma {:induction false} BatchAppend(m: RefTimes, a: seq<Asked>, b: seq<Asked>)
    ensures Batch(m, a).Threw? ==> Batch(m, a + b).Threw?
    ensures Batch(m, a).Returned? ==>
              var rest := Batch(Batch(m, a).refTimes, b);
              && Batch(m, a + b).Threw? == rest.Threw?
              && (rest.Returned? ==> Batch(m, a + b).refTimes == rest.refTimes)
    decreases |a|
  {
    if a == [] {
      assert a + b == b;
    } else {
      assert (a + b)[0] == a[0] && (a + b)[1..] == a[1..] + b;
      var first := Step(m, a[0]);
      if first.Returned? {
        BatchAppend(first.refTimes, a[1..], b);
      }
    }
  }

  lemma OneRequest(m: RefTimes, asked: Asked)
    ensures Batch(m, [asked]) == Step(m, asked)
  {
    assert [asked][1..] == [];
  }

  lemma BatchNext(m: RefTimes, asked: seq<Asked>, i: nat)
    requires i < |asked| && Batch(m, asked[..i + 1]).Returned?
    ensures Reaches(m, asked, i)
    ensures var s := Step(MapAt(m, asked, i), asked[i]);
            s.Returned? && Batch(m, asked[..i + 1]).refTimes == s.refTimes
  {
    assert asked[..i + 1] == asked[..i] + [asked[i]];
    BatchAppend(m, asked[..i], [asked[i]]);
    if Batch(m, asked[..i]).Returned? {
      OneRequest(Batch(m, asked[..i]).refTimes, asked[i]);
    }
  }

  /** When the database is not asked only the flags change. */
  lemma NotAsked(m: RefTimes, asked: Asked, k: string)
    requires k in m && !Asks(m, asked)
    ensures Step(m, asked).Returned? && k in Step(m, asked).refTimes
    ensures Step(m, asked).refTimes[k] == Flagged(m[k], asked, k)
  {
    if !asked.request.reftimeUpdateRequest {
      FlagsEntry(m, asked, k);
    }
  }

  // ---------------------------------------------------------------- what a batch takes over

  /** The entry has the reference time of the row; if that is new, it is stamped with the time
      of the answer, and there is a change. */
  predicate IsTakenOver(before: RefTimes, k: string, row: PTime, now: PTime, after: RefTimes, changed: bool) {
    && k in after && after[k].refTime == row
    && (k !in before || before[k].refTime != row ==> after[k].updatedTime == now && changed)
  }

  function FlagsOf(m: RefTimes, asked: Asked): (r: RefTimes) {
    if asked.request.reftimeUpdateRequest then m else AfterFlags(m, asked.provider, asked.request)
  }

  lemma FlagsOfEntry(m: RefTimes, asked: Asked, k: string)
    ensures k in FlagsOf(m, asked) <==> k in m
    ensures k in m ==> FlagsOf(m, asked)[k] == Flagged(m[k], asked, k)
  {
    FlagKeys(m, asked);
    if k in m && !asked.request.reftimeUpdateRequest {
      FlagsEntry(m, asked, k);
    }
  }

  lemma StepRow(m: RefTimes, asked: Asked, k: string)
    requires Asks(m, asked) && Step(m, asked).Returned? && k in asked.answer.rows
    ensures k in Step(m, asked).refTimes && Step(m, asked).refTimes[k] == AfterRow(FlagsOf(m, asked), asked, k)
    ensures RowChanges(FlagsOf(m, asked), asked, k) ==> Step(m, asked).changed
  {
  }

  /** A request that asks and does not throw takes over every row of the answer. */
  lemma StepTakesOver(m: RefTimes, asked: Asked, k: string)
    requires Asks(m, asked) && Step(m, asked).Returned? && k in asked.answer.rows
    ensures IsTakenOver(m, k, asked.answer.rows[k], asked.answer.now, Step(m, asked).refTimes, Step(m, asked).changed)
  {
    StepRow(m, asked, k);
    FlagsOfEntry(m, asked, k);
  }

  /** A row makes a new entry of a key that was absent, or for which the request was not made. */
  lemma StepAdds(m: RefTimes, asked: Asked, k: string)
    requires Asks(m, asked) && Step(m, asked).Returned? && k in asked.answer.rows
    requires k !in m || !IsOwn(asked.provider, k)
    ensures Step(m, asked).changed && k in Step(m, asked).refTimes
    ensures Step(m, asked).refTimes[k]
         == ProviderTimes(asked.answer.rows[k], asked.answer.now, false, false, false,
                          asked.request.disabled, asked.request.dataversion)
  {
    StepRow(m, asked, k);
    FlagsOfEntry(m, asked, k);
  }

  /** A known entry for which the request was made gets the flags that were requested and keeps
      the others, except that a new reference time begins with no data version. */
  lemma StepSets(m: RefTimes, asked: Asked, k: string)
    requires Asks(m, asked) && Step(m, asked).Returned? && k in asked.answer.rows
    requires k in m && IsOwn(asked.provider, k)
    ensures k in Step(m, asked).refTimes
    ensures var entry, request := Step(m, asked).refTimes[k], asked.request;
            var known := m[k].refTime == asked.answer.rows[k];
            && entry.disabled == (if request.disableEnableRequest then request.disabled else m[k].disabled)
            && entry.dataversion == (if request.dataversionRequest then request.dataversion
                                     else if known then m[k].dataversion else -1)
            && (known ==> entry.updatedTime == m[k].updatedTime)
  {
    StepRow(m, asked, k);
    FlagsOfEntry(m, asked, k);
  }

  lemma FlagKeys(m: RefTimes, asked: Asked)
    ensures AfterFlags(m, asked.provider, asked.request).Keys == m.Keys
  {
  }

  /** Entries without a row change by the flags alone, and no others come to be. */
  lemma StepLeaves(m: RefTimes, asked: Asked, k: string)
    requires Step(m, asked).Returned? && (Asks(m, asked) ==> k !in asked.answer.rows)
    ensures k in Step(m, asked).refTimes <==> k in m
    ensures k in m ==>
              var entry, request := Step(m, asked).refTimes[k], asked.request;
              var flagged := !request.reftimeUpdateRequest && Matches(asked.provider, k);
              var disabled := if flagged && request.disableEnableRequest then request.disabled else m[k].disabled;
              var version := if flagged && request.dataversionRequest then request.dataversion else m[k].dataversion;
              entry == m[k].(disabled := disabled, dataversion := version)
  {
    FlagKeys(m, asked);
    if k in m && !asked.request.reftimeUpdateRequest {
      FlagsEntry(m, asked, k);
    }
  }

  /** A flag of the entry would change. */
  predicate ChangesFlag(entry: ProviderTimes, request: ProviderTimes) {
    || (request.disableEnableRequest && entry.disabled != request.disabled)
    || (request.dataversionRequest && entry.dataversion != request.dataversion)
  }

  /** The database is asked for a new reference time, and when a flag of an entry changes of a
      provider that is enabled then: that was enabled, or had been before and was not touched. */
  lemma AsksExactly(m: RefTimes, asked: Asked)
    ensures Asks(m, asked) <==>
            || asked.request.reftimeUpdateRequest
            || ((exists k | k in m :: Matches(asked.provider, k) && ChangesFlag(m[k], asked.request))
                && (if asked.request.disableEnableRequest then !asked.request.disabled
                    else DisabledIn(m, asked.provider) == Some(false)))
  {
    if !asked.request.reftimeUpdateRequest {
      FlagsChange(m, asked);
      FlagKeys(m, asked);
      FlagsDisabled(m, asked);
    }
  }

  lemma FlagsChange(m: RefTimes, asked: Asked)
    requires !asked.request.reftimeUpdateRequest
    ensures AfterFlags(m, asked.provider, asked.request) != m <==>
            exists k | k in m :: Matches(asked.provider, k) && ChangesFlag(m[k], asked.request)
  {
    var flags := AfterFlags(m, asked.provider, asked.request);
    FlagKeys(m, asked);
    forall k | k in m
      ensures flags[k] != m[k] <==> Matches(asked.provider, k) && ChangesFlag(m[k], asked.request)
    {
      FlagsEntry(m, asked, k);
    }
    if flags == m {
    } else {
      var k :| k in m && flags[k] != m[k];
    }
  }

  /** What the provider is asked for afterwards: some entry of it is there if a flag changes. */
  lemma FlagsDisabled(m: RefTimes, asked: Asked)
    requires !asked.request.reftimeUpdateRequest
    ensures (exists k | k in m :: Matches(asked.provider, k) && ChangesFlag(m[k], asked.request)) ==>
              DisabledIn(AfterFlags(m, asked.provider, asked.request), asked.provider)
              == if asked.request.disableEnableRequest then Some(asked.request.disabled)
                 else DisabledIn(m, asked.provider)
    ensures (exists k | k in m :: Matches(asked.provider, k)) ==> DisabledIn(m, asked.provider).Some?
  {
    FlagKeys(m, asked);
    if k :| k in m && Matches(asked.provider, k) {
      InOrderHas(m.Keys, k);
      SomeMatch(InOrder(m.Keys), asked.provider, k);
      var first := FirstMatch(InOrder(m.Keys), asked.provider).value;
      InOrderHas(m.Keys, first);
      FlagsEntry(m, asked, first);
    }
  }

  lemma {:induction false} SomeMatch(keys: seq<string>, provider: string, k: string)
    requires k in keys && Matches(provider, k)
    ensures var f := FirstMatch(keys, provider); f.Some? && Matches(provider, f.value)
  {
    if Matches(provider, keys[0]) {
    } else {
      SomeMatch(keys[1..], provider, k);
    }
  }

  /** A request throws exactly when it asks and finds nothing. */
  lemma StepThrows(m: RefTimes, asked: Asked)
    ensures Step(m, asked).Threw? <==> Asks(m, asked) && (asked.answer.Failed? || asked.answer.rows == map[])
  {
  }

  lemma {:induction false} ChangedAppend(m: RefTimes, a: seq<Asked>, b: seq<Asked>)
    requires Batch(m, a + b).Returned?
    ensures Batch(m, a).Returned? && Batch(Batch(m, a).refTimes, b).Returned?
    ensures Batch(m, a + b).changed == (Batch(m, a).changed || Batch(Batch(m, a).refTimes, b).changed)
    decreases |a|
  {
    if a == [] {
      assert a + b == b;
    } else {
      assert (a + b)[0] == a[0] && (a + b)[1..] == a[1..] + b;
      ChangedAppend(Step(m, a[0]).refTimes, a[1..], b);
    }
  }

  lemma ChangedNext(m: RefTimes, asked: seq<Asked>, i: nat, n: nat)
    requires i + 1 == n <= |asked| && Batch(m, asked[..n]).Returned?
    ensures Reaches(m, asked, i) && Step(MapAt(m, asked, i), asked[i]).Returned?
    ensures Batch(m, asked[..n]).refTimes == Step(MapAt(m, asked, i), asked[i]).refTimes
    ensures Batch(m, asked[..n]).changed == (Batch(m, asked[..i]).changed || Step(MapAt(m, asked, i), asked[i]).changed)
  {
    BatchNext(m, asked, i);
    assert asked[..n] == asked[..i] + [asked[i]];
    ChangedAppend(m, asked[..i], [asked[i]]);
    OneRequest(MapAt(m, asked, i), asked[i]);
  }

  lemma StaysTakenOver(before: RefTimes, k: string, row: PTime, now: PTime, m: RefTimes, changed: bool, asked: Asked)
    requires IsTakenOver(before, k, row, now, m, changed) && Step(m, asked).Returned?
    requires Asks(m, asked) ==> k !in asked.answer.rows
    ensures IsTakenOver(before, k, row, now, Step(m, asked).refTimes, changed || Step(m, asked).changed)
  {
    StepLeaves(m, asked, k);
  }

  /** No request from i on that asks brings a row for the entry. */
  predicate NoRowFrom(m: RefTimes, asked: seq<Asked>, k: string, i: nat) {
    forall j: nat | i <= j < |asked| && AsksAt(m, asked, j) && asked[j].answer.Rows? :: k !in asked[j].answer.rows
  }

  /** Over a whole batch an entry has the reference time of the last answer with a row for it,
      and if that was new when the answer came, its time, and the batch reports a change. */
  lemma {:induction false} BatchTakesOver(m: RefTimes, asked: seq<Asked>, k: string, i: nat, n: nat)
    requires i < n <= |asked| && Batch(m, asked[..n]).Returned? && AsksAt(m, asked, i)
    requires asked[i].answer.Rows? && k in asked[i].answer.rows && NoRowFrom(m, asked, k, i + 1)
    ensures IsTakenOver(MapAt(m, asked, i), k, asked[i].answer.rows[k], asked[i].answer.now,
                        Batch(m, asked[..n]).refTimes, Batch(m, asked[..n]).changed)
    decreases n
  {
    var last := n - 1;
    ChangedNext(m, asked, last, n);
    if i == last {
      StepTakesOver(MapAt(m, asked, i), asked[i], k);
    } else {
      BatchTakesOver(m, asked, k, i, last);
      StepThrows(MapAt(m, asked, last), asked[last]);
      assert Asks(MapAt(m, asked, last), asked[last]) ==> AsksAt(m, asked, last);
      StaysTakenOver(MapAt(m, asked, i), k, asked[i].answer.rows[k], asked[i].answer.now,
                     Batch(m, asked[..last]).refTimes, Batch(m, asked[..last]).changed, asked[last]);
    }
  }

  // ---------------------------------------------------------------- answers that leave an entry alone

  /** Answers that do not mention the entry. */
  predicate ElsewhereOnly(asked: seq<Asked>, k: string) {
    forall i | 0 <= i < |asked| :: !asked[i].FoundNothing() && k !in asked[i].answer.rows
  }

  /** A name of the provider other than k. */
  function OtherName(provider: string, k: string): (r: string)
    ensures r != k && OfProvider(provider, r)
  {
    var named := ProviderItem(provider, "x").Name();
    assert named[|provider| + 2..|named| - 1] == "x";
    if k == provider then named else provider
  }

  /** A time for a row. */
  function RowTime(asked: Asked): (row: PTime) {
    if asked.request.refTime.IsSpecial() then At(0) else asked.request.refTime
  }

  function OneRow(asked: Asked, k: string, row: PTime, now: PTime): (r: Asked)
    ensures r.provider == asked.provider && r.request == asked.request && !r.FoundNothing()
  {
    assert k in map[k := row];
    asked.(answer := Rows(map[k := row], now))
  }

  function Elsewhere(asked: seq<Asked>, k: string): (r: seq<Asked>)
    ensures |r| == |asked|
    ensures forall i | 0 <= i < |asked| ::
              r[i] == OneRow(asked[i], OtherName(DecodeItem(asked[i].provider).provider, k), RowTime(asked[i]), At(0))
  {
    seq(|asked|, i requires 0 <= i < |asked| =>
      OneRow(asked[i], OtherName(DecodeItem(asked[i].provider).provider, k), RowTime(asked[i]), At(0)))
  }

  lemma ElsewhereIs(asked: seq<Asked>, k: string, exact: bool)
    ensures CanBecome(Elsewhere(asked, k), asked, exact) && ElsewhereOnly(Elsewhere(asked, k), k)
  {
  }

  lemma ElsewhereStep(m: RefTimes, asked: Asked, k: string)
    requires k in m && !asked.FoundNothing() && k !in asked.answer.rows
    ensures Step(m, asked).Returned? && k in Step(m, asked).refTimes
    ensures Step(m, asked).refTimes[k] == Flagged(m[k], asked, k)
  {
    StepEntry(m, asked, k);
  }

  /** Request i is answered in another way, and the requests after it with other entries. */
  function Answered(asked: seq<Asked>, i: nat, at: Asked, k: string): (r: seq<Asked>)
    requires i < |asked|
  {
    asked[..i] + ([at] + Elsewhere(asked[i + 1..], k))
  }

  lemma Spliced<T>(a: seq<T>, x: T, b: seq<T>, j: nat)
    requires j < |a| + 1 + |b|
    ensures |a + ([x] + b)| == |a| + 1 + |b|
    ensures (a + ([x] + b))[j] == if j < |a| then a[j] else if j == |a| then x else b[j - |a| - 1]
  {
  }

  lemma ElsewhereAt(asked: seq<Asked>, i: nat, k: string, exact: bool, j: nat)
    requires i < j < |asked|
    ensures var a := Elsewhere(asked[i + 1..], k)[j - i - 1];
            && a.provider == asked[j].provider && a.request == asked[j].request
            && IsPossible(a, exact) && a.answer.Rows? && k !in a.answer.rows
  {
    ElsewhereIs(asked[i + 1..], k, exact);
    assert asked[j] == asked[i + 1..][j - i - 1];
  }

  lemma AnsweredAt(asked: seq<Asked>, i: nat, at: Asked, k: string, j: nat)
    requires i < |asked| && j < |asked|
    ensures |Answered(asked, i, at, k)| == |asked|
    ensures Answered(asked, i, at, k)[j]
            == if j < i then asked[j] else if j == i then at else Elsewhere(asked[i + 1..], k)[j - i - 1]
  {
    Spliced(asked[..i], at, Elsewhere(asked[i + 1..], k), j);
  }

  lemma AnsweredIs(asked: seq<Asked>, i: nat, at: Asked, k: string, exact: bool)
    requires i < |asked| && AllPossible(asked, exact) && IsPossible(at, exact)
    requires at.provider == asked[i].provider && at.request == asked[i].request
    ensures CanBecome(Answered(asked, i, at, k), asked, exact)
  {
    var all := Answered(asked, i, at, k);
    forall j | 0 <= j < |all|
      ensures all[j].provider == asked[j].provider && all[j].request == asked[j].request && IsPossible(all[j], exact)
    {
      AnsweredAt(asked, i, at, k, j);
      if j > i {
        ElsewhereAt(asked, i, k, exact, j);
      }
    }
  }

  lemma AnsweredBatch(m: RefTimes, asked: seq<Asked>, i: nat, at: Asked, k: string)
    requires Reaches(m, asked, i) && Step(MapAt(m, asked, i), at).Returned?
    ensures var rest := Batch(Step(MapAt(m, asked, i), at).refTimes, Elsewhere(asked[i + 1..], k));
            rest.Returned? ==>
              && Batch(m, Answered(asked, i, at, k)).Returned?
              && Batch(m, Answered(asked, i, at, k)).refTimes == rest.refTimes
  {
    var m1, after := MapAt(m, asked, i), Elsewhere(asked[i + 1..], k);
    BatchAppend(m, asked[..i], [at] + after);
    BatchAppend(m1, [at], after);
    OneRequest(m1, at);
  }

  // ---------------------------------------------------------------- exactly when an entry is stamped

  /** Every answer that has a row for the entry has this reference time in it. */
  predicate AnswersWith(asked: seq<Asked>, k: string, refTime: PTime) {
    forall i | 0 <= i < |asked| && asked[i].answer.Rows? && k in asked[i].answer.rows ::
      asked[i].answer.rows[k] == refTime
  }

  /** The request is for another place, and the answer may bring the entry as well. */
  predicate CanStamp(asked: Asked, k: string, refTime: PTime, exact: bool) {
    !IsOwn(asked.provider, k) && CanAnswer(asked, k, refTime, exact)
  }

  /** Whatever the database answers, as long as the reference time of the entry is what it
      was, a batch that does not throw leaves its updated time alone. */
  ghost predicate NeverStamped(m: RefTimes, requests: seq<Asked>, k: string, exact: bool)
    requires k in m
  {
    forall asked: seq<Asked>
      | CanBecome(asked, requests, exact) && AnswersWith(asked, k, m[k].refTime) && Batch(m, asked).Returned? ::
      k in Batch(m, asked).refTimes && Batch(m, asked).refTimes[k].updatedTime == m[k].updatedTime
  }

  /** No request for which the database can be asked can stamp the entry. */
  ghost predicate NoneCanStamp(m: RefTimes, requests: seq<Asked>, k: string, exact: bool)
    requires k in m
  {
    forall asked: seq<Asked>, i: nat
      | CanBecome(asked, requests, exact) && AnswersWith(asked, k, m[k].refTime) && AsksAt(m, asked, i) ::
      !CanStamp(asked[i], k, m[k].refTime, exact)
  }

  /** One request that does not ask, or cannot stamp the entry, keeps its times. */
  lemma TimesKept(m: RefTimes, asked: Asked, k: string, exact: bool)
    requires k in m && Step(m, asked).Returned? && IsPossible(asked, exact)
    requires Asks(m, asked) ==> !CanStamp(asked, k, m[k].refTime, exact)
    requires asked.answer.Rows? && k in asked.answer.rows ==> asked.answer.rows[k] == m[k].refTime
    ensures k in Step(m, asked).refTimes
    ensures Step(m, asked).refTimes[k].refTime == m[k].refTime
    ensures Step(m, asked).refTimes[k].updatedTime == m[k].updatedTime
  {
    if Asks(m, asked) {
      StepEntry(m, asked, k);
    } else {
      NotAsked(m, asked, k);
    }
  }

  lemma {:induction false} NoneStamps(m: RefTimes, asked: seq<Asked>, k: string, exact: bool, i: nat)
    requires k in m && i <= |asked| && Batch(m, asked[..i]).Returned?
    requires AllPossible(asked, exact) && AnswersWith(asked, k, m[k].refTime)
    requires forall j: nat | AsksAt(m, asked, j) :: !CanStamp(asked[j], k, m[k].refTime, exact)
    ensures k in Batch(m, asked[..i]).refTimes
    ensures var entry := Batch(m, asked[..i]).refTimes[k];
            entry.refTime == m[k].refTime && entry.updatedTime == m[k].updatedTime
  {
    if i == 0 {
      assert asked[..0] == [];
    } else {
      BatchNext(m, asked, i - 1);
      NoneStamps(m, asked, k, exact, i - 1);
      assert Asks(MapAt(m, asked, i - 1), asked[i - 1]) ==> AsksAt(m, asked, i - 1);
      TimesKept(MapAt(m, asked, i - 1), asked[i - 1], k, exact);
    }
  }

  lemma {:induction false} ElsewhereKeepsTime(m: RefTimes, asked: seq<Asked>, k: string)
    requires k in m && ElsewhereOnly(asked, k)
    ensures Batch(m, asked).Returned?
    ensures k in Batch(m, asked).refTimes && Batch(m, asked).refTimes[k].updatedTime == m[k].updatedTime
    decreases |asked|
  {
    if asked == [] {
    } else {
      ElsewhereStep(m, asked[0], k);
      ElsewhereKeepsTime(Step(m, asked[0]).refTimes, asked[1..], k);
    }
  }

  lemma StampedByStep(m: RefTimes, asked: Asked, k: string, refTime: PTime, now: PTime)
    requires k in m && Asks(m, asked) && !IsOwn(asked.provider, k)
    ensures var s := Step(m, OneRow(asked, k, refTime, now));
            s.Returned? && k in s.refTimes && s.refTimes[k].updatedTime == now
  {
    var stamping := OneRow(asked, k, refTime, now);
    assert k in stamping.answer.rows;
  }

  lemma AnsweredWith(asked: seq<Asked>, i: nat, k: string, refTime: PTime, now: PTime)
    requires i < |asked| && AnswersWith(asked, k, refTime)
    ensures AnswersWith(Answered(asked, i, OneRow(asked[i], k, refTime, now), k), k, refTime)
  {
    var all := Answered(asked, i, OneRow(asked[i], k, refTime, now), k);
    forall j | 0 <= j < |all|
      ensures all[j].answer.Rows? && k in all[j].answer.rows ==> all[j].answer.rows[k] == refTime
    {
      AnsweredAt(asked, i, OneRow(asked[i], k, refTime, now), k, j);
      if j > i {
        ElsewhereAt(asked, i, k, false, j);
      }
    }
  }

  /** Answers for which a batch stamps the entry anew, when it asks for another place. */
  lemma OtherPlaceStamps(m: RefTimes, asked: seq<Asked>, k: string, exact: bool, i: nat) returns (stamped: seq<Asked>)
    requires k in m && AsksAt(m, asked, i) && CanStamp(asked[i], k, m[k].refTime, exact)
    requires AllPossible(asked, exact) && AnswersWith(asked, k, m[k].refTime)
    ensures CanBecome(stamped, asked, exact) && AnswersWith(stamped, k, m[k].refTime) && Batch(m, stamped).Returned?
    ensures k in Batch(m, stamped).refTimes ==> Batch(m, stamped).refTimes[k].updatedTime != m[k].updatedTime
  {
    var now := Later(m[k].updatedTime);
    var at := OneRow(asked[i], k, m[k].refTime, now);
    stamped := Answered(asked, i, at, k);
    AnsweredIs(asked, i, at, k, exact);
    AnsweredWith(asked, i, k, m[k].refTime, now);
    KeysKept(m, asked[..i]);
    StampedByStep(MapAt(m, asked, i), asked[i], k, m[k].refTime, now);
    ElsewhereIs(asked[i + 1..], k, exact);
    ElsewhereKeepsTime(Step(MapAt(m, asked, i), at).refTimes, Elsewhere(asked[i + 1..], k), k);
    AnsweredBatch(m, asked, i, at, k);
  }

  function Later(t: PTime): (r: PTime)
    ensures r.At? && r != t && (t.At? ==> t.Before(r))
  {
    if t.At? then At(t.seconds + 1) else At(0)
  }

  /** Exactly when a batch can put a new updated time on an entry whose reference time the
      database has not changed: when it can come to ask for another place of its provider. */
  lemma NeverStampedExactly(m: RefTimes, requests: seq<Asked>, k: string, exact: bool)
    requires k in m
    ensures NeverStamped(m, requests, k, exact) <==> NoneCanStamp(m, requests, k, exact)
  {
    if NoneCanStamp(m, requests, k, exact) {
      forall asked: seq<Asked>
        | CanBecome(asked, requests, exact) && AnswersWith(asked, k, m[k].refTime) && Batch(m, asked).Returned?
        ensures k in Batch(m, asked).refTimes && Batch(m, asked).refTimes[k].updatedTime == m[k].updatedTime
      {
        assert asked[..|asked|] == asked;
        NoneStamps(m, asked, k, exact, |asked|);
      }
    } else {
      var asked: seq<Asked>, i: nat
        :| CanBecome(asked, requests, exact) && AnswersWith(asked, k, m[k].refTime) && AsksAt(m, asked, i)
           && CanStamp(asked[i], k, m[k].refTime, exact);
      var stamped := OtherPlaceStamps(m, asked, k, exact, i);
    }
  }

  /** When every request wants a new reference time the guard can be read off beforehand. */
  lemma NeverStampedByUpdates(m: RefTimes, requests: seq<Asked>, k: string, exact: bool)
    requires k in m && forall i | 0 <= i < |requests| :: requests[i].request.reftimeUpdateRequest
    ensures NeverStamped(m, requests, k, exact) <==>
            forall i | 0 <= i < |requests| :: !CanStamp(requests[i], k, m[k].refTime, exact)
  {
    NeverStampedExactly(m, requests, k, exact);
    if NoneCanStamp(m, requests, k, exact) {
      var asked := Elsewhere(requests, k);
      ElsewhereIs(requests, k, exact);
      forall i | 0 <= i < |requests|
        ensures !CanStamp(requests[i], k, m[k].refTime, exact)
      {
        ElsewhereKeepsTime(m, asked[..i], k);
        assert AsksAt(m, asked, i);
      }
    }
  }

  /** So it can for a single request. */
  lemma NeverStampedByOne(m: RefTimes, request: Asked, k: string, exact: bool)
    requires k in m
    ensures NeverStamped(m, [request], k, exact) <==> (Asks(m, request) ==> !CanStamp(request, k, m[k].refTime, exact))
  {
    NeverStampedExactly(m, [request], k, exact);
    var asked := Elsewhere([request], k);
    ElsewhereIs([request], k, exact);
    assert asked[..0] == [] && (AsksAt(m, asked, 0) <==> Asks(m, request));
    if NoneCanStamp(m, [request], k, exact) {
      assert AsksAt(m, asked, 0) ==> !CanStamp(asked[0], k, m[k].refTime, exact);
    }
  }

  // ---------------------------------------------------------------- exactly when an entry is switched

  /** The request can give the entry another disable status than d: without the database, or,
      when it asks, by a row for the entry. */
  predicate CanSwitch(asked: Asked, k: string, d: bool, asks: bool) {
    && asked.request.disabled != d
    && (SetsStatus(asked, k)
        || (asks && OfProvider(DecodeItem(asked.provider).provider, k)
            && (!IsOwn(asked.provider, k) || asked.request.disableEnableRequest)))
  }

  /** The request sets the status of the entry whether the database is asked or not. */
  predicate SetsStatus(asked: Asked, k: string) {
    !asked.request.reftimeUpdateRequest && asked.request.disableEnableRequest && Matches(asked.provider, k)
  }

  predicate SwitchesAt(m: RefTimes, asked: seq<Asked>, k: string, d: bool, i: nat) {
    Reaches(m, asked, i) && CanSwitch(asked[i], k, d, Asks(MapAt(m, asked, i), asked[i]))
  }

  predicate SetsBack(asked: Asked, k: string, d: bool) {
    SetsStatus(asked, k) && asked.request.disabled == d
  }

  /** Whatever the database answers, a batch that does not throw leaves the disable status of
      the entry as it was. */
  ghost predicate NeverSwitched(m: RefTimes, requests: seq<Asked>, k: string, exact: bool)
    requires k in m
  {
    forall asked: seq<Asked> | CanBecome(asked, requests, exact) && Batch(m, asked).Returned? ::
      k in Batch(m, asked).refTimes && Batch(m, asked).refTimes[k].disabled == m[k].disabled
  }

  /** After every request that can switch the entry there is one that sets it back. */
  ghost predicate SwitchesSetBack(m: RefTimes, requests: seq<Asked>, k: string, exact: bool)
    requires k in m
  {
    forall asked: seq<Asked>, i: nat | CanBecome(asked, requests, exact) && SwitchesAt(m, asked, k, m[k].disabled, i) ::
      exists j | i < j < |asked| :: SetsBack(asked[j], k, m[k].disabled)
  }

  lemma StatusAfter(m: RefTimes, asked: Asked, k: string, d: bool, exact: bool)
    requires k in m && Step(m, asked).Returned? && IsPossible(asked, exact)
    ensures k in Step(m, asked).refTimes
    ensures m[k].disabled == d && !CanSwitch(asked, k, d, Asks(m, asked)) ==> Step(m, asked).refTimes[k].disabled == d
    ensures SetsBack(asked, k, d) ==> Step(m, asked).refTimes[k].disabled == d
  {
    if Asks(m, asked) {
      StepEntry(m, asked, k);
    } else {
      NotAsked(m, asked, k);
    }
  }

  /** Request i is the last of the first n that can have switched the entry, and none has set
      it back since. */
  predicate IsLastSwitch(m: RefTimes, asked: seq<Asked>, k: string, d: bool, n: nat, i: nat) {
    && i < n <= |asked| && SwitchesAt(m, asked, k, d, i)
    && forall j | i < j < n :: !SetsBack(asked[j], k, d)
  }

  lemma NextStatus(m: RefTimes, asked: seq<Asked>, k: string, d: bool, exact: bool, n: nat)
    requires n < |asked| && Batch(m, asked[..n + 1]).Returned? && AllPossible(asked, exact)
    requires Reaches(m, asked, n) && k in MapAt(m, asked, n)
    ensures k in Batch(m, asked[..n + 1]).refTimes
    ensures Batch(m, asked[..n + 1]).refTimes[k].disabled != d ==>
              !SetsBack(asked[n], k, d) && (MapAt(m, asked, n)[k].disabled == d ==> SwitchesAt(m, asked, k, d, n))
  {
    BatchNext(m, asked, n);
    StatusAfter(MapAt(m, asked, n), asked[n], k, d, exact);
  }

  lemma StillLast(m: RefTimes, asked: seq<Asked>, k: string, d: bool, n: nat, i: nat)
    requires n < |asked| && !SetsBack(asked[n], k, d)
    requires IsLastSwitch(m, asked, k, d, n, i) || (i == n && SwitchesAt(m, asked, k, d, n))
    ensures IsLastSwitch(m, asked, k, d, n + 1, i)
  {
  }

  /** When the status is another one after n requests, one of them has switched it last. */
  lemma {:induction false} LastSwitch(m: RefTimes, asked: seq<Asked>, k: string, d: bool, exact: bool, n: nat)
    returns (i: nat)
    requires k in m && n <= |asked| && Batch(m, asked[..n]).Returned? && AllPossible(asked, exact)
    requires m[k].disabled == d
    ensures k in Batch(m, asked[..n]).refTimes
    ensures Batch(m, asked[..n]).refTimes[k].disabled != d ==> IsLastSwitch(m, asked, k, d, n, i)
  {
    i := 0;
    if n == 0 {
      assert asked[..0] == [];
    } else {
      BatchNext(m, asked, n - 1);
      i := LastSwitch(m, asked, k, d, exact, n - 1);
      NextStatus(m, asked, k, d, exact, n - 1);
      if MapAt(m, asked, n - 1)[k].disabled == d {
        i := n - 1;
      }
      if Batch(m, asked[..n]).refTimes[k].disabled != d {
        StillLast(m, asked, k, d, n - 1, i);
      }
    }
  }

  lemma {:induction false} ElsewhereStaysSwitched(m: RefTimes, asked: seq<Asked>, k: string, d: bool)
    requires k in m && ElsewhereOnly(asked, k) && m[k].disabled != d
    requires forall j | 0 <= j < |asked| :: !SetsBack(asked[j], k, d)
    ensures Batch(m, asked).Returned?
    ensures k in Batch(m, asked).refTimes && Batch(m, asked).refTimes[k].disabled != d
    decreases |asked|
  {
    if asked == [] {
    } else {
      ElsewhereStep(m, asked[0], k);
      ElsewhereStaysSwitched(Step(m, asked[0]).refTimes, asked[1..], k, d);
    }
  }

  /** The answer that switches the entry: its own row if there can be one. */
  function Switching(asked: Asked, k: string): (r: Asked) {
    var provider := DecodeItem(asked.provider).provider;
    OneRow(asked, if OfProvider(provider, k) then k else OtherName(provider, k), RowTime(asked), At(0))
  }

  lemma SwitchedByStep(m: RefTimes, asked: Asked, k: string, d: bool, exact: bool)
    requires k in m && CanSwitch(asked, k, d, Asks(m, asked))
    ensures IsPossible(Switching(asked, k), exact)
    ensures var s := Step(m, Switching(asked, k));
            s.Returned? && k in s.refTimes && s.refTimes[k].disabled != d
  {
    var at := Switching(asked, k);
    StepEntry(m, at, k);
    if Asks(m, at) {
      assert OfProvider(DecodeItem(asked.provider).provider, k) ==> k in at.answer.rows;
    } else {
      NotAsked(m, at, k);
    }
  }

  lemma SwitchStays(m: RefTimes, asked: seq<Asked>, k: string, exact: bool, i: nat) returns (switched: seq<Asked>)
    requires k in m && AllPossible(asked, exact) && SwitchesAt(m, asked, k, m[k].disabled, i)
    requires forall j | i < j < |asked| :: !SetsBack(asked[j], k, m[k].disabled)
    ensures CanBecome(switched, asked, exact) && Batch(m, switched).Returned?
    ensures k in Batch(m, switched).refTimes ==> Batch(m, switched).refTimes[k].disabled != m[k].disabled
  {
    var at, after := Switching(asked[i], k), Elsewhere(asked[i + 1..], k);
    switched := Answered(asked, i, at, k);
    KeysKept(m, asked[..i]);
    SwitchedByStep(MapAt(m, asked, i), asked[i], k, m[k].disabled, exact);
    AnsweredIs(asked, i, at, k, exact);
    ElsewhereIs(asked[i + 1..], k, exact);
    forall j | 0 <= j < |after|
      ensures !SetsBack(after[j], k, m[k].disabled)
    {
      assert asked[i + 1..][j] == asked[i + 1 + j];
    }
    ElsewhereStaysSwitched(Step(MapAt(m, asked, i), at).refTimes, after, k, m[k].disabled);
    AnsweredBatch(m, asked, i, at, k);
  }

  /** Exactly when a batch can leave an entry with another disable status. */
  lemma NeverSwitchedExactly(m: RefTimes, requests: seq<Asked>, k: string, exact: bool)
    requires k in m
    ensures NeverSwitched(m, requests, k, exact) <==> SwitchesSetBack(m, requests, k, exact)
  {
    if SwitchesSetBack(m, requests, k, exact) {
      forall asked: seq<Asked> | CanBecome(asked, requests, exact) && Batch(m, asked).Returned?
        ensures k in Batch(m, asked).refTimes && Batch(m, asked).refTimes[k].disabled == m[k].disabled
      {
        assert asked[..|asked|] == asked;
        var i := LastSwitch(m, asked, k, m[k].disabled, exact, |asked|);
      }
    } else {
      var asked: seq<Asked>, i: nat
        :| CanBecome(asked, requests, exact) && SwitchesAt(m, asked, k, m[k].disabled, i)
           && !exists j | i < j < |asked| :: SetsBack(asked[j], k, m[k].disabled);
      var switched := SwitchStays(m, asked, k, exact, i);
    }
  }

  /** When every request wants a new reference time the guard can be read off beforehand. */
  lemma NeverSwitchedByUpdates(m: RefTimes, requests: seq<Asked>, k: string, exact: bool)
    requires k in m && forall i | 0 <= i < |requests| :: requests[i].request.reftimeUpdateRequest
    ensures NeverSwitched(m, requests, k, exact) <==>
            forall i | 0 <= i < |requests| :: !CanSwitch(requests[i], k, m[k].disabled, true)
  {
    NeverSwitchedExactly(m, requests, k, exact);
    if SwitchesSetBack(m, requests, k, exact) {
      var asked := Elsewhere(requests, k);
      ElsewhereIs(requests, k, exact);
      forall i | 0 <= i < |requests|
        ensures !CanSwitch(requests[i], k, m[k].disabled, true)
      {
        ElsewhereKeepsTime(m, asked[..i], k);
        assert CanSwitch(requests[i], k, m[k].disabled, true) ==> SwitchesAt(m, asked, k, m[k].disabled, i);
      }
    }
  }

  // ---------------------------------------------------------------- an example

  lemma OtherPlace()
    ensures DecodeItem("P [a]").provider == "P" && !IsOwn("P [a]", "P [b]")
  {
    var item := ProviderItem("P", "a");
    assert item.Name() == "P [a]";
    DecodeName(item);
  }

  lemma OtherPlaceIsOfProvider()
    ensures OfProvider("P", "P [b]")
  {
    assert ProviderItem("P", "b").Name() == "P [b]";
    OfProviderIs("P", "P [b]");
  }

  /** A batch with a request for one place stamps and enables the entry of another place. */
  lemma OtherPlaceIsStamped(request: ProviderTimes)
    requires request == ProviderTimes(At(0), NotADateTime, false, false, true, false, -1)
    ensures Batch(map["P [b]" := ProviderTimes(At(0), At(5), false, false, false, true, 3)],
                  [Asked("P [a]", request, Rows(map["P [b]" := At(0)], At(9)))])
         == Returned(map["P [b]" := ProviderTimes(At(0), At(9), false, false, false, false, -1)], true)
    ensures IsPossible(Asked("P [a]", request, Rows(map["P [b]" := At(0)], At(9))), true)
  {
    var m := map["P [b]" := ProviderTimes(At(0), At(5), false, false, false, true, 3)];
    var asked := Asked("P [a]", request, Rows(map["P [b]" := At(0)], At(9)));
    OneRequest(m, asked);
    OtherPlace();
    OtherPlaceIsOfProvider();
    OneRowStamps(m, asked, "P [b]", At(0), At(9));
  }

  lemma OneRowStamps(m: RefTimes, asked: Asked, k: string, row: PTime, now: PTime)
    requires m.Keys == {k} && asked.request.reftimeUpdateRequest && !IsOwn(asked.provider, k)
    requires asked.answer == Rows(map[k := row], now)
    ensures var request := asked.request;
            var entry := ProviderTimes(row, now, false, false, false, request.disabled, request.dataversion);
            Step(m, asked) == Returned(map[k := entry], true)
  {
    assert k in asked.answer.rows && RowChanges(m, asked, k);
    assert AfterAnswer(m, asked)
        == map[k := ProviderTimes(row, now, false, false, false, asked.request.disabled, asked.request.dataversion)];
  }
}
