/** The reference times that are served, one entry for each provider and place. */
module ProviderReftimes {
  import opened Times
  import opened Providers
  import opened NameOrder

  /** The three request flags only say what a caller asks for. */
  datatype ProviderTimes = ProviderTimes(refTime: PTime, updatedTime: PTime,
                                         disableEnableRequest: bool, dataversionRequest: bool,
                                         reftimeUpdateRequest: bool,
                                         disabled: bool, dataversion: int)

  type RefTimes = map<string, ProviderTimes>

  /** A provider given without a place stands for all its places. */
  predicate Matches(provider: string, key: string) {
    var wanted, item := DecodeItem(provider), DecodeItem(key);
    if wanted.placename != "" then wanted == item else wanted.provider == item.provider
  }

  /** Some entries of a list replaced. */
  function Replaced(m: RefTimes, which: string -> bool, update: ProviderTimes -> ProviderTimes): (r: RefTimes) {
    map k | k in m :: if which(k) then update(m[k]) else m[k]
  }

  function WithDisabled(m: RefTimes, provider: string, disable: bool): (r: RefTimes) {
    Replaced(m, k => Matches(provider, k), (t: ProviderTimes) => t.(disabled := disable))
  }

  function WithDataversion(m: RefTimes, provider: string, dataversion: int): (r: RefTimes) {
    Replaced(m, k => Matches(provider, k), (t: ProviderTimes) => t.(dataversion := dataversion))
  }

  function FirstMatch(keys: seq<string>, provider: string): (r: Option<string>)
    ensures r.Some? ==> r.value in keys
  {
    if keys == [] then None
    else if Matches(provider, keys[0]) then Some(keys[0])
    else FirstMatch(keys[1..], provider)
  }

  /** The disable status of the first matching entry. */
  function DisabledIn(m: RefTimes, provider: string): (r: Option<bool>) {
    var f := FirstMatch(InOrder(m.Keys), provider);
    if f.None? then None
    else
      InOrderHas(m.Keys, f.value);
      Some(m[f.value].disabled)
  }

  /** A provider and place stand for the entry of that name alone, a provider without a
      place for all its places. */
  lemma MatchesExactly(item: ProviderItem, entry: ProviderItem)
    requires IsNormal(item) && IsNormal(entry)
    ensures Matches(item.Name(), entry.Name())
       <==> item == entry || (item.placename == "" && item.provider == entry.provider)
  {
    DecodeName(item);
    DecodeName(entry);
  }

  /** The entries in which two lists differ. */
  ghost function Changed(before: RefTimes, after: RefTimes): (r: set<string>) {
    set k | k in before && k in after && after[k] != before[k]
  }

  class ProviderRefTimeList {
    var times: RefTimes

    constructor (times: RefTimes)
      ensures this.times == times
    {
      this.times := times;
    }

    method UpdateDisableStatus(provider: string, disable: bool) returns (count: nat)
      modifies this
      ensures times == WithDisabled(old(times), provider, disable)
      ensures count == |Changed(old(times), times)|
      ensures count > 0 <==> times != old(times)
    {
      count := UpdateEntries(k => Matches(provider, k), (t: ProviderTimes) => t.(disabled := disable));
    }

    method UpdateDataversion(provider: string, dataversion: int) returns (count: nat)
      modifies this
      ensures times == WithDataversion(old(times), provider, dataversion)
      ensures count == |Changed(old(times), times)|
      ensures count > 0 <==> times != old(times)
    {
      count := UpdateEntries(k => Matches(provider, k), (t: ProviderTimes) => t.(dataversion := dataversion));
    }

    /** The loop that both updates run over the entries. */
    method UpdateEntries(which: string -> bool, update: ProviderTimes -> ProviderTimes) returns (count: nat)
      modifies this
      ensures times == Replaced(old(times), which, update)
      ensures count == |Changed(old(times), times)|
      ensures count > 0 <==> times != old(times)
    {
      var keys := InOrder(times.Keys);
      ghost var before, updated := times, Replaced(times, which, update);
      Listed(times.Keys);
      count := 0;
      for i := 0 to |keys|
        invariant Halfway(before, updated, times, keys[..i])
        invariant count == |Changes(before, updated, keys[..i])|
      {
        var k := keys[i];
        OnePass(before, which, update, times, keys, i);
        if which(k) {
          if update(times[k]) != times[k] {
            times := times[k := update(times[k])];
            count := count + 1;
          }
        }
      }
      assert keys[..|keys|] == keys;
      AllDone(before, updated, times, keys);
    }

    method Disabled(provider: string) returns (r: Option<bool>)
      ensures r == DisabledIn(times, provider)
    {
      var f := FindMatch(InOrder(times.Keys), provider);
      if f.None? {
        return None;
      }
      InOrderHas(times.Keys, f.value);
      r := Some(times[f.value].disabled);
    }
  }

  /** The search loop over the names. */
  method FindMatch(keys: seq<string>, provider: string) returns (f: Option<string>)
    ensures f == FirstMatch(keys, provider)
  {
    for i := 0 to |keys|
      invariant FirstMatch(keys, provider) == FirstMatch(keys[i..], provider)
    {
      assert keys[i..][1..] == keys[i + 1..];
      if Matches(provider, keys[i]) {
        return Some(keys[i]);
      }
    }
    return None;
  }

  // ---------------------------------------------------------------- one pass over the entries

  /** The entries of the keys that are done have their new value, the others their old one. */
  ghost predicate Halfway(before: RefTimes, updated: RefTimes, now: RefTimes, done: seq<string>)
    requires before.Keys == updated.Keys
  {
    now.Keys == before.Keys && forall k | k in now :: now[k] == if k in done then updated[k] else before[k]
  }

  ghost function Changes(before: RefTimes, updated: RefTimes, done: seq<string>): (r: set<string>)
    requires before.Keys == updated.Keys
  {
    set k | k in done && k in before && updated[k] != before[k]
  }

  lemma NotYet(keys: seq<string>, i: nat)
    requires Distinct(keys) && i < |keys|
    ensures keys[i] !in keys[..i]
    ensures forall k :: k in keys[..i + 1] <==> k in keys[..i] || k == keys[i]
  {
    assert keys[..i + 1] == keys[..i] + [keys[i]];
  }

  lemma OneMoreChange(before: RefTimes, updated: RefTimes, keys: seq<string>, i: nat)
    requires before.Keys == updated.Keys && Distinct(keys) && i < |keys| && keys[i] in before
    ensures Changes(before, updated, keys[..i + 1])
         == Changes(before, updated, keys[..i]) + (if updated[keys[i]] != before[keys[i]] then {keys[i]} else {})
    ensures keys[i] !in Changes(before, updated, keys[..i])
  {
    NotYet(keys, i);
  }

  lemma OneMoreDone(before: RefTimes, updated: RefTimes, now: RefTimes, keys: seq<string>, i: nat)
    requires before.Keys == updated.Keys && Distinct(keys) && i < |keys| && keys[i] in before
    requires Halfway(before, updated, now, keys[..i])
    ensures now[keys[i]] == before[keys[i]]
    ensures Halfway(before, updated, now[keys[i] := updated[keys[i]]], keys[..i + 1])
    ensures updated[keys[i]] == before[keys[i]] ==> Halfway(before, updated, now, keys[..i + 1])
  {
    NotYet(keys, i);
  }

  lemma OnePass(before: RefTimes, which: string -> bool, update: ProviderTimes -> ProviderTimes, now: RefTimes,
                keys: seq<string>, i: nat)
    requires Distinct(keys) && i < |keys| && keys[i] in before
    requires Halfway(before, Replaced(before, which, update), now, keys[..i])
    ensures var k, updated := keys[i], Replaced(before, which, update);
            && now[k] == before[k]
            && (if which(k) && update(now[k]) != now[k] then
                  && Halfway(before, updated, now[k := update(now[k])], keys[..i + 1])
                  && |Changes(before, updated, keys[..i + 1])| == |Changes(before, updated, keys[..i])| + 1
                else
                  && Halfway(before, updated, now, keys[..i + 1])
                  && |Changes(before, updated, keys[..i + 1])| == |Changes(before, updated, keys[..i])|)
  {
    var updated := Replaced(before, which, update);
    OneMoreChange(before, updated, keys, i);
    OneMoreDone(before, updated, now, keys, i);
  }

  lemma AllDone(before: RefTimes, updated: RefTimes, now: RefTimes, keys: seq<string>)
    requires before.Keys == updated.Keys && (forall k :: k in keys <==> k in before)
             && Halfway(before, updated, now, keys)
    ensures now == updated
    ensures Changes(before, updated, keys) == Changed(before, now)
    ensures |Changes(before, updated, keys)| > 0 <==> now != before
  {
    if now != before {
      var k :| k in before && now[k] != before[k];
      assert k in Changes(before, updated, keys);
    } else {
      assert Changes(before, updated, keys) == {};
    }
  }
}
