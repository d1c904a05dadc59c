/**
 When a model run is expected next: the sorted list of times of day kept by
 `MetaModelConf`, and the search in it.
 */
module NextRun {
  import opened Times

  datatype SpecType = Undefined | Absolute | RelativeToLoadTime

  predicate StrictlyIncreasing(s: seq<int>) {
    forall i, j | 0 <= i < j < |s| :: s[i] < s[j]
  }

  /** All durations are times of day. */
  predicate TimesOfDay(s: seq<int>) {
    forall i | 0 <= i < |s| :: 0 <= s[i] < DAY
  }

  /** The list says that a run is due at this instant: on some day, at one of the durations
      after midnight. */
  ghost predicate Scheduled(s: seq<int>, t: int) {
    exists i | 0 <= i < |s| :: (t - s[i]) % DAY == 0
  }

  /** The first scheduled instant that is not before `now`. */
  ghost predicate IsNextRun(s: seq<int>, now: int, t: int) {
    Scheduled(s, t) && t >= now && forall u | Scheduled(s, u) && u >= now :: t <= u
  }

  /** What `findNextrun` computes from the list. */
  function NextInstant(s: seq<int>, now: int): (t: int)
    requires s != []
  {
    var i := FirstNotBefore(s, now % DAY);
    if i < |s| then now - now % DAY + s[i] else now - now % DAY + DAY + s[0]
  }

  function FirstNotBefore(s: seq<int>, d: int): (i: nat)
    ensures i <= |s|
    ensures forall k | 0 <= k < i :: s[k] < d
    ensures i < |s| ==> s[i] >= d
  {
    if s == [] || s[0] >= d then 0 else 1 + FirstNotBefore(s[1..], d)
  }

  lemma SameDayOrder(a: int, b: int, c: int, d: int)
    requires 0 <= b < DAY && 0 <= d < DAY
    ensures a < c ==> a * DAY + b < c * DAY + d
  {
  }

  /** With times of day in the list, the search gives the earliest run over all days. */
  lemma NextInstantIsEarliest(s: seq<int>, now: int)
    requires s != [] && StrictlyIncreasing(s) && TimesOfDay(s)
    ensures IsNextRun(s, now, NextInstant(s, now))
  {
    var t := NextInstant(s, now);
    var today := now / DAY;
    var i := FirstNotBefore(s, now % DAY);
    assert now == today * DAY + now % DAY;
    if i < |s| {
      assert t == today * DAY + s[i];
    } else {
      assert t == (today + 1) * DAY + s[0];
    }
    forall u | Scheduled(s, u) && u >= now
      ensures t <= u
    {
      var k :| 0 <= k < |s| && (u - s[k]) % DAY == 0;
      var day := (u - s[k]) / DAY;
      SameDayOrder(day, s[k], today, now % DAY);
      if i < |s| {
        SameDayOrder(today, s[i], day, s[k]);
        assert day == today ==> k >= i;
      } else {
        assert day > today;
        SameDayOrder(today + 1, s[0], day, s[k]);
      }
    }
  }

  // ---------------------------------------------------------------- exactly when

  /** The durations of a day or more in the list add nothing: each repeats one of the times
      of day, and the first of them stands for the first run of the next day, unless the
      last second of the day is in the list so that it is never looked at. */
  predicate LongOnesRepeat(s: seq<int>) {
    forall i {:trigger IsLong(s, i)} | 0 <= i < |s| && IsLong(s, i) ::
      && i > 0
      && s[i] % DAY in s
      && (s[i - 1] < DAY ==> s[i] == s[0] + DAY || s[i - 1] == DAY - 1)
  }

  predicate IsLong(s: seq<int>, i: nat)
    requires i < |s|
  {
    s[i] >= DAY
  }

  /** How many durations are times of day. */
  function ShortOnes(s: seq<int>): (m: nat)
    requires StrictlyIncreasing(s)
    ensures m <= |s|
    ensures forall i | 0 <= i < m :: s[i] < DAY
    ensures forall i | m <= i < |s| :: s[i] >= DAY
  {
    if s == [] || s[0] >= DAY then 0 else 1 + ShortOnes(s[1..])
  }

  /** Exactly when the search gives the earliest run at every moment, for any durations that
      the configuration can hold: `HH:MM` is not limited to 24 hours. */
  lemma EarliestExactly(s: seq<int>)
    requires s != [] && StrictlyIncreasing(s) && forall i | 0 <= i < |s| :: s[i] >= 0
    ensures (forall now: int :: IsNextRun(s, now, NextInstant(s, now))) <==> LongOnesRepeat(s)
  {
    if LongOnesRepeat(s) {
      forall now: int
        ensures IsNextRun(s, now, NextInstant(s, now))
      {
        EarliestWhenRepeating(s, now);
      }
    } else {
      var now := MissedRun(s);
      assert !IsNextRun(s, now, NextInstant(s, now));
    }
  }

  lemma {:induction false} SameFirst(s: seq<int>, d: int)
    requires StrictlyIncreasing(s) && d < DAY
    ensures FirstNotBefore(s, d) == FirstNotBefore(s[..ShortOnes(s)], d)
  {
    if s != [] && s[0] < d {
      SameFirst(s[1..], d);
      assert s[..ShortOnes(s)][1..] == s[1..][..ShortOnes(s[1..])];
    }
  }

  lemma {:induction false} FirstIs(s: seq<int>, d: int, i: nat)
    requires i < |s| && s[i] >= d && forall k | 0 <= k < i :: s[k] < d
    ensures FirstNotBefore(s, d) == i
  {
    if i == 0 {
    } else {
      FirstIs(s[1..], d, i - 1);
    }
  }

  lemma SameInstant(s: seq<int>, now: int)
    requires s != [] && StrictlyIncreasing(s) && (forall i | 0 <= i < |s| :: s[i] >= 0) && LongOnesRepeat(s)
    ensures ShortOnes(s) > 0
    ensures NextInstant(s, now) == NextInstant(s[..ShortOnes(s)], now)
  {
    var m := ShortOnes(s);
    SameFirst(s, now % DAY);
    var i := FirstNotBefore(s, now % DAY);
    if i == m < |s| {
      assert IsLong(s, m);
      assert s[m] >= DAY && s[m - 1] < DAY;
      assert s[m - 1] < now % DAY;
    }
  }

  lemma ShortTwin(s: seq<int>, k: nat) returns (k': nat)
    requires StrictlyIncreasing(s) && LongOnesRepeat(s) && k < |s|
    ensures k' < ShortOnes(s) && (s[k] - s[k']) % DAY == 0
  {
    if s[k] < DAY {
      k' := k;
    } else {
      assert IsLong(s, k);
      k' :| 0 <= k' < |s| && s[k'] == s[k] % DAY;
    }
  }

  lemma ShortWitness(s: seq<int>, t: int, k: nat) returns (k': nat)
    requires StrictlyIncreasing(s) && LongOnesRepeat(s) && k < |s| && (t - s[k]) % DAY == 0
    ensures k' < ShortOnes(s) && (t - s[k']) % DAY == 0
  {
    k' := ShortTwin(s, k);
    SameResidue(t, s[k], s[k']);
  }

  lemma ScheduledInShort(s: seq<int>, t: int)
    requires StrictlyIncreasing(s) && LongOnesRepeat(s) && Scheduled(s, t)
    ensures Scheduled(s[..ShortOnes(s)], t)
  {
    var k :| 0 <= k < |s| && (t - s[k]) % DAY == 0;
    var k' := ShortWitness(s, t, k);
    assert s[..ShortOnes(s)][k'] == s[k'];
  }

  lemma ScheduledInAll(s: seq<int>, m: nat, t: int)
    requires m <= |s| && Scheduled(s[..m], t)
    ensures Scheduled(s, t)
  {
    var k :| 0 <= k < m && (t - s[..m][k]) % DAY == 0;
    assert s[k] == s[..m][k];
  }

  lemma EarliestWhenRepeating(s: seq<int>, now: int)
    requires s != [] && StrictlyIncreasing(s) && (forall i | 0 <= i < |s| :: s[i] >= 0) && LongOnesRepeat(s)
    ensures IsNextRun(s, now, NextInstant(s, now))
  {
    SameInstant(s, now);
    NextInstantIsEarliest(s[..ShortOnes(s)], now);
    forall t
      ensures Scheduled(s, t) <==> Scheduled(s[..ShortOnes(s)], t)
    {
      if Scheduled(s, t) {
        ScheduledInShort(s, t);
      }
      if Scheduled(s[..ShortOnes(s)], t) {
        ScheduledInAll(s, ShortOnes(s), t);
      }
    }
  }

  lemma SameResidue(a: int, b: int, c: int)
    requires (a - b) % DAY == 0 && (b - c) % DAY == 0
    ensures (a - c) % DAY == 0
  {
  }

  /** A moment at which an earlier run is missed. */
  lemma MissedRun(s: seq<int>) returns (now: int)
    requires s != [] && StrictlyIncreasing(s) && (forall i | 0 <= i < |s| :: s[i] >= 0) && !LongOnesRepeat(s)
    ensures !IsNextRun(s, now, NextInstant(s, now))
  {
    var i :| 0 <= i < |s| && IsLong(s, i)
      && !(i > 0 && s[i] % DAY in s && (s[i - 1] < DAY ==> s[i] == s[0] + DAY || s[i - 1] == DAY - 1));
    if s[i] % DAY in s {
      now := MissedNextDay(s, i);
    } else {
      now := MissedLongOne(s, i);
    }
  }

  lemma MissedNextDay(s: seq<int>, i: nat) returns (now: int)
    requires StrictlyIncreasing(s) && (forall k | 0 <= k < |s| :: s[k] >= 0)
    requires 0 < i < |s| && s[i] >= DAY && s[i - 1] < DAY - 1 && s[i] != s[0] + DAY
    requires s[i] % DAY in s
    ensures !IsNextRun(s, now, NextInstant(s, now))
  {
    now := s[i - 1] + 1;
    assert now % DAY == now;
    FirstIs(s, now, i);
    var k :| 0 <= k < |s| && s[k] == s[i] % DAY;
    assert s[0] <= s[k];
    assert s[i] > s[0] + DAY;
    assert (s[0] + DAY - s[0]) % DAY == 0;
    assert Scheduled(s, s[0] + DAY);
  }

  lemma MissedLongOne(s: seq<int>, i: nat) returns (now: int)
    requires s != [] && StrictlyIncreasing(s) && (forall k | 0 <= k < |s| :: s[k] >= 0)
    requires i < |s| && s[i] >= DAY
    requires s[i] % DAY !in s
    ensures !IsNextRun(s, now, NextInstant(s, now))
  {
    now := s[i] % DAY;
    assert (now - s[i]) % DAY == 0;
    assert Scheduled(s, now);
    var j := FirstNotBefore(s, now % DAY);
    assert NextInstant(s, now) > now;
  }

  class MetaModelConf {
    var specType: SpecType
    var nextrun: seq<int>

    ghost predicate Valid()
      reads this
    {
      StrictlyIncreasing(nextrun)
    }

    constructor ()
      ensures Valid() && nextrun == [] && specType == Undefined
    {
      specType, nextrun := Undefined, [];
    }

    /** The list stays sorted and without duplicates; nothing else enters or leaves it. */
    method AddTimeDuration(td: int)
      requires Valid()
      modifies this`nextrun
      ensures Valid()
      ensures forall d :: d in nextrun <==> d in old(nextrun) || d == td
    {
      var it := 0;
      while it < |nextrun| && nextrun[it] < td
        invariant it <= |nextrun|
        invariant forall k | 0 <= k < it :: nextrun[k] < td
      {
        it := it + 1;
      }
      if it < |nextrun| && nextrun[it] == td {
        return;
      }
      ghost var before := nextrun;
      nextrun := nextrun[..it] + [td] + nextrun[it..];
      forall d
        ensures d in nextrun <==> d in before || d == td
      {
        assert before == before[..it] + before[it..];
        assert nextrun[it] == td;
      }
    }

    /** `offset/every`. With `every` 0 the loop adds the offset again and again. */
    method AddEvery(offset: nat, every: nat) returns (ended: bool)
      requires Valid()
      modifies this`nextrun
      ensures Valid()
      ensures ended <==> every > 0 || offset >= DAY
      ensures forall d :: d in nextrun <==> d in old(nextrun) || IsEvery(offset, every, d)
    {
      var i, n := offset, 0;
      EveryBelow(offset, every);
      while i < DAY
        invariant Valid() && i == offset + n * every && n >= 0
        invariant forall d :: d in nextrun <==> d in old(nextrun) || (IsEvery(offset, every, d) && d < i)
        decreases DAY - i
      {
        assert IsEvery(offset, every, i);
        AddTimeDuration(i);
        if every == 0 {
          EveryZero(offset);
          return false;
        }
        NoneBetween(offset, every, n);
        i := i + every;
        n := n + 1;
      }
      return true;
    }

    method FindNextrun(now: int, refTime: PTime) returns (r: PTime)
      ensures nextrun == [] || specType == Undefined ==> r == NotADateTime
      ensures nextrun != [] && specType == Absolute ==> r == At(NextInstant(nextrun, now))
      ensures nextrun != [] && specType == RelativeToLoadTime ==>
                r == if refTime.IsSpecial() then NotADateTime else At(refTime.seconds + nextrun[0])
    {
      var tdNow := now % DAY;
      var midnight := now - tdNow;
      if nextrun == [] {
        return NotADateTime;
      }
      match specType
      case Absolute =>
        var it := 0;
        while it < |nextrun| && nextrun[it] < tdNow
          invariant it <= |nextrun|
          invariant forall k | 0 <= k < it :: nextrun[k] < tdNow
        {
          it := it + 1;
        }
        var first := FirstNotBefore(nextrun, tdNow);
        assert first == it;
        if it == |nextrun| {
          midnight := midnight + DAY;
          it := 0;
        }
        return At(midnight + nextrun[it]);
      case RelativeToLoadTime =>
        if refTime.IsSpecial() {
          return NotADateTime;
        }
        return At(refTime.seconds + nextrun[0]);
      case Undefined =>
        return NotADateTime;
    }
  }

  /** d is one of offset, offset + every, offset + 2 * every, ... within the day. */
  ghost predicate IsEvery(offset: nat, every: nat, d: int) {
    d < DAY && exists n: nat :: d == offset + n * every
  }

  lemma EveryBelow(offset: nat, every: nat)
    ensures forall d :: IsEvery(offset, every, d) ==> d >= offset
  {
    forall d | IsEvery(offset, every, d)
      ensures d >= offset
    {
      var n: nat :| d == offset + n * every;
      assert n * every >= 0;
    }
  }

  lemma EveryZero(offset: nat)
    requires offset < DAY
    ensures forall d :: IsEvery(offset, 0, d) <==> d == offset
  {
    assert offset == offset + 0 * 0;
  }

  lemma NoneBetween(offset: nat, every: nat, n: nat)
    requires every > 0 || offset >= DAY
    ensures forall d :: IsEvery(offset, every, d) && d < offset + (n + 1) * every ==> d <= offset + n * every
  {
    forall d | IsEvery(offset, every, d) && d < offset + (n + 1) * every
      ensures d <= offset + n * every
    {
      var m: nat :| d == offset + m * every;
      if m > n {
        MulMonotone(n + 1, m, every);
      } else {
        MulMonotone(m, n, every);
      }
    }
  }

  lemma MulMonotone(a: nat, b: nat, c: nat)
    requires a <= b
    ensures a * c <= b * c
  {
  }

  /** With an `offset/every` specification the next run is at most offset + every away. */
  lemma EveryIsSoon(s: seq<int>, offset: nat, every: nat, now: int)
    requires every > 0 && offset < DAY
    requires StrictlyIncreasing(s) && forall d :: d in s <==> IsEvery(offset, every, d)
    ensures s != [] && TimesOfDay(s)
    ensures IsNextRun(s, now, NextInstant(s, now))
    ensures NextInstant(s, now) - now <= offset + every
  {
    EveryBelow(offset, every);
    assert IsEvery(offset, every, offset) by {
      assert offset == offset + 0 * every;
    }
    assert offset in s;
    forall i | 0 <= i < |s|
      ensures 0 <= s[i] < DAY
    {
      assert s[i] in s;
    }
    NextInstantIsEarliest(s, now);
    var i := FirstNotBefore(s, now % DAY);
    var k :| 0 <= k < |s| && s[k] == offset;
    assert s[0] in s;
    assert s[0] == offset;
    if 0 < i {
      EveryStep(s, offset, every, i - 1);
    }
  }

  lemma EveryStep(s: seq<int>, offset: nat, every: nat, i: nat)
    requires every > 0 && i < |s|
    requires StrictlyIncreasing(s) && forall d :: d in s <==> IsEvery(offset, every, d)
    ensures if i + 1 < |s| then s[i + 1] <= s[i] + every else s[i] + every >= DAY
  {
    assert s[i] in s;
    var n: nat :| s[i] == offset + n * every;
    assert s[i] + every == offset + (n + 1) * every;
    if i + 1 < |s| {
      assert s[i + 1] in s;
    }
    if s[i] + every < DAY {
      assert IsEvery(offset, every, s[i] + every);
      var k :| 0 <= k < |s| && s[k] == s[i] + every;
      assert k > i;
    }
  }
}
