/**
 Weather symbols of one time span, and the check that keeps thunder consistent between the
 lists of different time spans.
 */
module Symbols {
  import opened Times

  /** A symbol covers the time from `min + 1` hours before its time stamp to `max` hours
      after it. Of the weather symbol itself the kind and the thunder flag matter. */
  datatype Symbol = Symbol(min: int, max: int, time: int, kind: int, thunder: bool, oldThunder: bool) {
    function From(): int {
      time - (min + 1) * HOUR
    }

    function To(): int {
      time + max * HOUR
    }

    /** This symbol covers the whole time that the other one covers. */
    predicate Covers(o: Symbol) {
      From() <= o.From() && To() >= o.To()
    }
  }

  /** The lists are sorted on the from time. */
  predicate Sorted(s: seq<Symbol>) {
    forall i, j | 0 <= i < j < |s| :: s[i].From() <= s[j].From()
  }

  predicate StrictlySorted(s: seq<Symbol>) {
    forall i, j | 0 <= i < j < |s| :: s[i].From() < s[j].From()
  }

  /** All symbols have the same extent; so it is in a list that only `addSymbol` has filled. */
  predicate Uniform(s: seq<Symbol>, min: int, max: int) {
    forall i | 0 <= i < |s| :: s[i].min == min && s[i].max == max
  }

  /** All symbols cover the same number of hours; so it stays when lists are merged. */
  predicate SameSpan(s: seq<Symbol>, hours: int) {
    forall i | 0 <= i < |s| :: s[i].min + s[i].max + 1 == hours
  }

  // ---------------------------------------------------------------- adding

  /** The list with a symbol put before the first one that is not earlier. */
  function Inserted(s: seq<Symbol>, x: Symbol): (r: seq<Symbol>) {
    if s == [] then [x]
    else if s[0].time < x.time then [s[0]] + Inserted(s[1..], x)
    else [x] + s
  }

  lemma {:induction false} InsertedAt(s: seq<Symbol>, x: Symbol, k: nat)
    requires k <= |s|
    requires forall i | 0 <= i < k :: s[i].time < x.time
    requires k < |s| ==> s[k].time >= x.time
    ensures Inserted(s, x) == s[..k] + [x] + s[k..]
  {
    if s != [] && k > 0 {
      InsertedAt(s[1..], x, k - 1);
      assert s[..k] == [s[0]] + s[1..][..k - 1];
      assert s[k..] == s[1..][k - 1..];
    }
  }

  lemma {:induction false} InsertedContents(s: seq<Symbol>, x: Symbol)
    ensures multiset(Inserted(s, x)) == multiset(s) + multiset{x}
    ensures forall y | y in Inserted(s, x) :: y in s || y == x
  {
    if s == [] {
    } else {
      assert s == [s[0]] + s[1..];
      InsertedContents(s[1..], x);
    }
  }

  lemma ConsSorted(x: Symbol, s: seq<Symbol>)
    requires Sorted(s) && forall y | y in s :: x.From() <= y.From()
    ensures Sorted([x] + s)
  {
    var r := [x] + s;
    forall i, j | 0 <= i < j < |r|
      ensures r[i].From() <= r[j].From()
    {
      assert r[j] == s[j - 1] && s[j - 1] in s;
    }
  }

  lemma {:induction false} InsertedSorted(s: seq<Symbol>, x: Symbol)
    requires Sorted(s) && Uniform(s, x.min, x.max)
    ensures Sorted(Inserted(s, x)) && Uniform(Inserted(s, x), x.min, x.max)
  {
    InsertedContents(s, x);
    forall i | 0 <= i < |Inserted(s, x)|
      ensures Inserted(s, x)[i].min == x.min && Inserted(s, x)[i].max == x.max
    {
      assert Inserted(s, x)[i] in Inserted(s, x);
    }
    if s == [] || s[0].time >= x.time {
      ConsSorted(x, s);
    } else {
      InsertedSorted(s[1..], x);
      InsertedContents(s[1..], x);
      ConsSorted(s[0], Inserted(s[1..], x));
    }
  }

  /** What `addSymbol` does to the list: it looks at the last symbol first. */
  function Added(s: seq<Symbol>, x: Symbol): (r: seq<Symbol>) {
    if s != [] && s[|s| - 1].time < x.time then s + [x] else Inserted(s, x)
  }

  lemma AddedSorted(s: seq<Symbol>, x: Symbol)
    requires Sorted(s) && Uniform(s, x.min, x.max)
    ensures Sorted(Added(s, x)) && Uniform(Added(s, x), x.min, x.max)
    ensures multiset(Added(s, x)) == multiset(s) + multiset{x}
  {
    InsertedSorted(s, x);
    InsertedContents(s, x);
    if s != [] && s[|s| - 1].time < x.time {
      forall i | 0 <= i < |s|
        ensures s[i].From() <= s[|s| - 1].From()
      {
      }
    }
  }

  /** The list after adding symbols one after the other. */
  function AddedAll(s: seq<Symbol>, xs: seq<Symbol>): (r: seq<Symbol>) {
    if xs == [] then s else Added(AddedAll(s, xs[..|xs| - 1]), xs[|xs| - 1])
  }

  /** Any sequence of additions to an empty list gives a sorted list of just those symbols. */
  lemma {:induction false} AddedAllSorted(xs: seq<Symbol>, min: int, max: int)
    requires Uniform(xs, min, max)
    ensures Sorted(AddedAll([], xs)) && Uniform(AddedAll([], xs), min, max)
    ensures multiset(AddedAll([], xs)) == multiset(xs)
  {
    if xs == [] {
    } else {
      var n := |xs| - 1;
      AddedAllSorted(xs[..n], min, max);
      AddedSorted(AddedAll([], xs[..n]), xs[n]);
      assert xs == xs[..n] + [xs[n]];
    }
  }

  // ---------------------------------------------------------------- merging

  predicate HasFrom(s: seq<Symbol>, from: int) {
    exists i | 0 <= i < |s| :: s[i].From() == from
  }

  /** The first symbol with the given from time. */
  function FirstFrom(s: seq<Symbol>, from: int): (r: Symbol)
    requires HasFrom(s, from)
    ensures r in s && r.From() == from
  {
    if s[0].From() == from then s[0] else FirstFrom(s[1..], from)
  }

  lemma {:induction false} FirstFromIs(s: seq<Symbol>, i: nat)
    requires i < |s|
    requires forall k | 0 <= k < i :: s[k].From() != s[i].From()
    ensures HasFrom(s, s[i].From()) && FirstFrom(s, s[i].From()) == s[i]
  {
    if i == 0 {
    } else {
      FirstFromIs(s[1..], i - 1);
    }
  }

  /** What merging promises: no two symbols with one from time, every from time of either
      list, and our own first symbol where we have one. */
  ghost predicate IsPrecedenceMerge(r: seq<Symbol>, mine: seq<Symbol>, other: seq<Symbol>) {
    && StrictlySorted(r)
    && (forall from :: HasFrom(r, from) <==> HasFrom(mine, from) || HasFrom(other, from))
    && (forall i | 0 <= i < |r| ::
          r[i] == if HasFrom(mine, r[i].From()) then FirstFrom(mine, r[i].From())
                  else if HasFrom(other, r[i].From()) then FirstFrom(other, r[i].From()) else r[i])
  }

  /** The promise leaves no choice. */
  lemma MergeIsUnique(r1: seq<Symbol>, r2: seq<Symbol>, mine: seq<Symbol>, other: seq<Symbol>)
    requires IsPrecedenceMerge(r1, mine, other) && IsPrecedenceMerge(r2, mine, other)
    ensures r1 == r2
  {
    SameFroms(r1, r2);
    forall i | 0 <= i < |r1|
      ensures r1[i] == r2[i]
    {
      assert HasFrom(r1, r1[i].From());
    }
  }

  lemma {:induction false} SameFroms(r1: seq<Symbol>, r2: seq<Symbol>)
    requires StrictlySorted(r1) && StrictlySorted(r2)
    requires forall from :: HasFrom(r1, from) <==> HasFrom(r2, from)
    ensures |r1| == |r2| && forall i | 0 <= i < |r1| :: r1[i].From() == r2[i].From()
  {
    if r1 == [] || r2 == [] {
      if r1 != [] {
        assert HasFrom(r1, r1[0].From());
      }
      if r2 != [] {
        assert HasFrom(r2, r2[0].From());
      }
    } else {
      assert HasFrom(r1, r1[0].From()) && HasFrom(r2, r2[0].From());
      assert r1[0].From() == r2[0].From();
      forall from
        ensures HasFrom(r1[1..], from) <==> HasFrom(r2[1..], from)
      {
        TailFrom(r1, from);
        TailFrom(r2, from);
      }
      SameFroms(r1[1..], r2[1..]);
      forall i | 0 <= i < |r1|
        ensures r1[i].From() == r2[i].From()
      {
        if i > 0 {
          assert r1[1..][i - 1].From() == r2[1..][i - 1].From();
        }
      }
    }
  }

  lemma TailFrom(r: seq<Symbol>, from: int)
    requires r != [] && StrictlySorted(r)
    ensures HasFrom(r[1..], from) <==> HasFrom(r, from) && from != r[0].From()
  {
    if HasFrom(r, from) && from != r[0].From() {
      var i :| 0 <= i < |r| && r[i].From() == from;
      assert r[1..][i - 1].From() == from;
    }
    if HasFrom(r[1..], from) {
      var i :| 0 <= i < |r[1..]| && r[1..][i].From() == from;
      assert r[i + 1].From() == from;
    }
  }

  /** Merging lists of one time span gives a list of that span, though the symbols may differ
      in how far they reach before and after their time. */
  lemma MergeKeepsSpan(r: seq<Symbol>, mine: seq<Symbol>, other: seq<Symbol>, hours: int)
    requires IsPrecedenceMerge(r, mine, other) && SameSpan(mine, hours) && SameSpan(other, hours)
    ensures Sorted(r) && SameSpan(r, hours)
  {
    forall i | 0 <= i < |r|
      ensures r[i].min + r[i].max + 1 == hours
    {
      assert HasFrom(r, r[i].From());
      assert r[i] in mine || r[i] in other;
    }
  }

  // ---------------------------------------------------------------- thunder

  /** The symbols that cover the given one form runs; the search returns the first run. When
      that run reaches the end of the list and has more than one symbol, its last one is left out. */
  predicate InRange(mine: seq<Symbol>, o: Symbol, i: nat)
    requires i < |mine|
  {
    && mine[i].Covers(o)
    && (forall k, l | 0 <= k < l < i && mine[k].Covers(o) :: mine[l].Covers(o))
    && !LeftOut(mine, o, i)
  }

  predicate LeftOut(mine: seq<Symbol>, o: Symbol, i: nat)
    requires i < |mine|
  {
    i == |mine| - 1 && i > 0 && mine[i - 1].Covers(o)
  }

  /** Some thunder symbol of the other list has symbol i in its range. */
  predicate Touched(mine: seq<Symbol>, other: seq<Symbol>, i: nat)
    requires i < |mine|
  {
    exists j | 0 <= j < |other| :: other[j].thunder && InRange(mine, other[j], i)
  }

  /** The list after the check against the list of the next shorter time span. */
  function ThunderChecked(mine: seq<Symbol>, other: seq<Symbol>): (r: seq<Symbol>)
    ensures |r| == |mine|
  {
    seq(|mine|, i requires 0 <= i < |mine| =>
      mine[i].(oldThunder := mine[i].thunder, thunder := Touched(mine, other, i)))
  }

  lemma CoveringIsContiguous(mine: seq<Symbol>, hours: int, o: Symbol, i: nat)
    requires Sorted(mine) && SameSpan(mine, hours) && i < |mine| && mine[i].Covers(o)
    ensures forall k, l | 0 <= k < l < i && mine[k].Covers(o) :: mine[l].Covers(o)
  {
    assert forall l | 0 <= l < |mine| :: mine[l].To() == mine[l].From() + hours * HOUR;
  }

  /** Exactly when a symbol has thunder after the check: when it covers a thunder symbol of
      the shorter span for which it is not the left-out end of a run. */
  lemma ThunderExactly(mine: seq<Symbol>, hours: int, other: seq<Symbol>, i: nat)
    requires Sorted(mine) && SameSpan(mine, hours) && i < |mine|
    ensures ThunderChecked(mine, other)[i].thunder <==>
            exists j | 0 <= j < |other| :: other[j].thunder && mine[i].Covers(other[j]) && !LeftOut(mine, other[j], i)
  {
    if exists j | 0 <= j < |other| :: other[j].thunder && mine[i].Covers(other[j]) && !LeftOut(mine, other[j], i) {
      var j :| 0 <= j < |other| && other[j].thunder && mine[i].Covers(other[j]) && !LeftOut(mine, other[j], i);
      CoveringIsContiguous(mine, hours, other[j], i);
      assert InRange(mine, other[j], i);
    }
  }

  /** Symbols of the list do not overlap in time. */
  predicate Disjoint(s: seq<Symbol>) {
    forall i, j | 0 <= i < j < |s| :: s[i].To() <= s[j].From()
  }

  /** For lists without overlap the check does what it says: thunder stays on exactly where
      the shorter span has thunder inside. */
  lemma ThunderWithoutOverlap(mine: seq<Symbol>, other: seq<Symbol>, i: nat)
    requires Disjoint(mine) && i < |mine|
    requires forall j | 0 <= j < |other| :: other[j].From() < other[j].To()
    ensures ThunderChecked(mine, other)[i].thunder <==>
            exists j | 0 <= j < |other| :: other[j].thunder && mine[i].Covers(other[j])
  {
    if exists j | 0 <= j < |other| :: other[j].thunder && mine[i].Covers(other[j]) {
      var j :| 0 <= j < |other| && other[j].thunder && mine[i].Covers(other[j]);
      forall k | 0 <= k < i
        ensures !mine[k].Covers(other[j])
      {
        assert mine[k].To() <= mine[i].From();
      }
      assert InRange(mine, other[j], i);
    }
  }

  /** Every symbol covers at least an hour. */
  predicate LastAnHour(s: seq<Symbol>) {
    forall i | 0 <= i < |s| :: s[i].To() - s[i].From() >= HOUR
  }

  predicate HasThunderInside(o: Symbol, other: seq<Symbol>) {
    exists j | 0 <= j < |other| :: other[j].thunder && o.Covers(other[j])
  }

  /** Thunder is on after the check exactly where the shorter span has thunder inside. */
  predicate IsConsistent(mine: seq<Symbol>, other: seq<Symbol>) {
    forall i | 0 <= i < |mine| :: ThunderChecked(mine, other)[i].thunder <==> HasThunderInside(mine[i], other)
  }

  /** The last two symbols of the list have an hour or more in common. */
  predicate OverlapAtEnd(s: seq<Symbol>) {
    |s| >= 2 && s[|s| - 1].From() + HOUR <= s[|s| - 2].To()
  }

  /** For sorted lists of one time span, those that `addSymbol` has filled as well as those
      that come from merging: the check does what it says for every list of the shorter span
      exactly when the last two symbols do not overlap. */
  lemma ConsistentExactly(mine: seq<Symbol>, hours: int)
    requires Sorted(mine) && SameSpan(mine, hours)
    ensures (forall other | LastAnHour(other) :: IsConsistent(mine, other)) <==> !OverlapAtEnd(mine)
  {
    if OverlapAtEnd(mine) {
      var n := |mine| - 1;
      var other := [Symbol(0, 0, mine[n].From() + HOUR, 0, true, false)];
      assert forall i | 0 <= i <= n :: mine[i].To() == mine[i].From() + hours * HOUR;
      assert mine[n - 1].Covers(other[0]) && mine[n].Covers(other[0]);
      assert LeftOut(mine, other[0], n) && HasThunderInside(mine[n], other);
      ThunderExactly(mine, hours, other, n);
      assert LastAnHour(other) && !IsConsistent(mine, other);
    } else {
      forall other | LastAnHour(other)
        ensures IsConsistent(mine, other)
      {
        forall i | 0 <= i < |mine|
          ensures ThunderChecked(mine, other)[i].thunder <==> HasThunderInside(mine[i], other)
        {
          ThunderExactly(mine, hours, other, i);
          assert forall j | 0 <= j < |other| && mine[i].Covers(other[j]) :: !LeftOut(mine, other[j], i);
        }
      }
    }
  }

  /** With overlap it can miss: the last of two six-hour symbols that both cover the only
      thunder hour loses its thunder. */
  lemma ThunderMissedWithOverlap()
    ensures var mine := [Symbol(5, 0, 6 * HOUR, 11, true, false), Symbol(5, 0, 7 * HOUR, 11, true, false)];
            var other := [Symbol(0, 0, 5 * HOUR, 11, true, false)];
            && Sorted(mine) && SameSpan(mine, 6)
            && mine[1].Covers(other[0]) && !ThunderChecked(mine, other)[1].thunder
  {
    var mine := [Symbol(5, 0, 6 * HOUR, 11, true, false), Symbol(5, 0, 7 * HOUR, 11, true, false)];
    var other := [Symbol(0, 0, 5 * HOUR, 11, true, false)];
    assert mine[0].Covers(other[0]);
    assert LeftOut(mine, other[0], 1);
  }

  /** The lists of one provider after the whole check, shortest span first. */
  function Chain(lists: seq<seq<Symbol>>, k: nat): (r: seq<Symbol>)
    requires k < |lists|
    ensures |r| == |lists[k]|
  {
    if k == 0 then lists[0] else ThunderChecked(lists[k], Chain(lists, k - 1))
  }

  /** The check changes nothing but thunder, in every list of the provider, and notes what
      thunder there was before. */
  lemma ChainKeeps(lists: seq<seq<Symbol>>, k: nat, i: nat)
    requires k < |lists| && i < |lists[k]|
    ensures var was, now := lists[k][i], Chain(lists, k)[i];
            && now.time == was.time && now.min == was.min && now.max == was.max && now.kind == was.kind
            && (k == 0 ==> now == was)
            && (k > 0 ==> now.oldThunder == was.thunder)
  {
  }

  /** Every thunder symbol covers a thunder symbol in the list of every shorter span. */
  lemma {:induction false} ThunderAllTheWayDown(lists: seq<seq<Symbol>>, k: nat, l: nat, i: nat)
    requires l < k < |lists| && i < |lists[k]| && Chain(lists, k)[i].thunder
    ensures exists j | 0 <= j < |lists[l]| ::
              Chain(lists, l)[j].thunder && Chain(lists, k)[i].Covers(Chain(lists, l)[j])
    decreases k
  {
    var shorter := Chain(lists, k - 1);
    var j := ThunderBelow(lists[k], shorter, i);
    if l < k - 1 {
      ThunderAllTheWayDown(lists, k - 1, l, j);
      var m :| 0 <= m < |lists[l]| && Chain(lists, l)[m].thunder && shorter[j].Covers(Chain(lists, l)[m]);
      assert Chain(lists, k)[i].Covers(Chain(lists, l)[m]);
    }
  }

  lemma ThunderBelow(mine: seq<Symbol>, shorter: seq<Symbol>, i: nat) returns (j: nat)
    requires i < |mine| && ThunderChecked(mine, shorter)[i].thunder
    ensures j < |shorter| && shorter[j].thunder && ThunderChecked(mine, shorter)[i].Covers(shorter[j])
  {
    j :| j < |shorter| && shorter[j].thunder && InRange(mine, shorter[j], i);
  }

  // ---------------------------------------------------------------- the holder

  class SymbolHolder {
    var symbols: seq<Symbol>
    const min: int
    const max: int

    /** Only `addSymbol` has filled the list. */
    ghost predicate Valid()
      reads this
    {
      Sorted(symbols) && Uniform(symbols, min, max)
    }

    constructor (min: int, max: int)
      ensures Valid() && symbols == [] && this.min == min && this.max == max
    {
      this.min, this.max := min, max;
      symbols := [];
    }

    constructor FromList(min: int, max: int, symbols: seq<Symbol>)
      ensures this.symbols == symbols && this.min == min && this.max == max
    {
      this.min, this.max, this.symbols := min, max, symbols;
    }

    function TimespanInHours(): int {
      max + min + 1
    }

    /** `symbol` is `None` when the number is not a valid weather symbol. */
    method AddSymbol(time: int, symbol: Option<(int, bool)>)
      modifies this
      ensures symbol.None? ==> symbols == old(symbols)
      ensures symbol.Some? ==>
                symbols == Added(old(symbols), Symbol(min, max, time, symbol.value.0, symbol.value.1, false))
      ensures old(Valid()) ==> Valid()
    {
      if symbol.None? {
        return;
      }
      var x := Symbol(min, max, time, symbol.value.0, symbol.value.1, false);
      ghost var before := symbols;
      if symbols == [] {
        symbols := [x];
      } else if symbols[|symbols| - 1].time < time {
        symbols := symbols + [x];
      } else {
        var it := 0;
        while it < |symbols| && symbols[it].time < time
          invariant it <= |symbols|
          invariant forall i | 0 <= i < it :: symbols[i].time < time
        {
          it := it + 1;
        }
        InsertedAt(symbols, x, it);
        symbols := symbols[..it] + [x] + symbols[it..];
      }
      assert symbols == Added(before, x);
      if Sorted(before) && Uniform(before, min, max) {
        AddedSorted(before, x);
      }
    }

    /** The search is given up at the first later symbol; in a sorted list nothing is missed.
        Seconds of the wanted time are dropped. */
    method FindSymbol(fromTime: int) returns (found: bool, symbol: Symbol)
      ensures var wanted := fromTime - fromTime % 60;
              && (found ==> HasFrom(symbols, wanted) && symbol == FirstFrom(symbols, wanted))
              && (Sorted(symbols) ==> (found <==> HasFrom(symbols, wanted)))
    {
      var wanted := fromTime - fromTime % 60;
      found, symbol := false, Symbol(-1, -1, 0, 0, false, false);
      for index := 0 to |symbols|
        invariant forall i | 0 <= i < index :: symbols[i].From() < wanted
        invariant !found
      {
        if symbols[index].From() == wanted {
          FirstFromIs(symbols, index);
          return true, symbols[index];
        } else if symbols[index].From() > wanted {
          return;
        }
      }
    }

    /** The symbols that cover the time between the two given ones, as index range. */
    method FindSymbolsIncludedRange(o: Symbol) returns (begin: nat, end: nat)
      ensures begin <= end <= |symbols|
      ensures forall i: nat | i < |symbols| :: begin <= i < end <==> InRange(symbols, o, i)
    {
      var it := 0;
      while it < |symbols| && !symbols[it].Covers(o)
        invariant it <= |symbols|
        invariant forall i | 0 <= i < it :: !symbols[i].Covers(o)
      {
        it := it + 1;
      }
      if it == |symbols| {
        return |symbols|, |symbols|;
      }
      begin, end := it, it + 1;
      it := it + 1;
      while it < |symbols|
        invariant begin < it <= |symbols|
        invariant forall i | begin <= i < it :: symbols[i].Covers(o)
        invariant end == if it == begin + 1 then it else it - 1
      {
        end := it;
        if !symbols[it].Covers(o) {
          break;
        }
        it := it + 1;
      }
      forall i: nat | i < |symbols|
        ensures begin <= i < end <==> InRange(symbols, o, i)
      {
        if it < |symbols| && i > it {
          assert !symbols[it].Covers(o) && symbols[begin].Covers(o);
        }
      }
    }

    /** Turns thunder off everywhere, then on again in the range of every thunder symbol of
        the other list. */
    method ConsistentCheckThunder(other: SymbolHolder)
      requires other != this
      modifies this
      ensures symbols == if other.TimespanInHours() > TimespanInHours() then old(symbols)
                         else ThunderChecked(old(symbols), other.symbols)
    {
      if other.TimespanInHours() > TimespanInHours() {
        return;
      }
      ghost var before := symbols;
      for it := 0 to |symbols|
        invariant |symbols| == |before|
        invariant forall i | 0 <= i < it :: symbols[i] == before[i].(oldThunder := before[i].thunder, thunder := false)
        invariant forall i | it <= i < |symbols| :: symbols[i] == before[i]
      {
        symbols := symbols[it := symbols[it].(oldThunder := symbols[it].thunder, thunder := false)];
      }
      for it := 0 to |other.symbols|
        invariant |symbols| == |before|
        invariant forall i: nat | i < |symbols| ::
                    symbols[i] == before[i].(oldThunder := before[i].thunder,
                                             thunder := Touched(before, other.symbols[..it], i))
      {
        var o := other.symbols[it];
        TouchedOneMore(before, other.symbols, it);
        if o.thunder {
          var begin, end := FindSymbolsIncludedRange(o);
          SameTimesSameRange(before, symbols, o);
          ghost var off := symbols;
          for itRange := begin to end
            invariant |symbols| == |before|
            invariant forall i: nat | i < |symbols| ::
                        symbols[i] == if begin <= i < itRange then off[i].(thunder := true) else off[i]
          {
            symbols := symbols[itRange := symbols[itRange].(thunder := true)];
          }
        }
      }
      assert other.symbols[..|other.symbols|] == other.symbols;
    }

    /** Null when the time spans differ. */
    method Merge(other: SymbolHolder) returns (r: SymbolHolder?)
      ensures r == null <==> TimespanInHours() != other.TimespanInHours()
      ensures r != null ==> fresh(r) && r.min == min && r.max == max
      ensures r != null && Sorted(symbols) && Sorted(other.symbols) ==>
                IsPrecedenceMerge(r.symbols, symbols, other.symbols)
      ensures r != null && Sorted(symbols) && Sorted(other.symbols)
              && SameSpan(symbols, TimespanInHours()) && SameSpan(other.symbols, TimespanInHours()) ==>
                Sorted(r.symbols) && SameSpan(r.symbols, r.TimespanInHours())
    {
      if TimespanInHours() != other.TimespanInHours() {
        return null;
      }
      var merged := StdMerge(symbols, other.symbols);
      var unique := StdUnique(merged);
      r := new SymbolHolder.FromList(min, max, unique);
      if Sorted(symbols) && Sorted(other.symbols) {
        PrecedenceMerge(symbols, other.symbols);
        if SameSpan(symbols, TimespanInHours()) && SameSpan(other.symbols, TimespanInHours()) {
          MergeKeepsSpan(r.symbols, symbols, other.symbols, TimespanInHours());
        }
      }
    }
  }

  lemma TouchedOneMore(mine: seq<Symbol>, other: seq<Symbol>, it: nat)
    requires it < |other|
    ensures forall i: nat | i < |mine| ::
              Touched(mine, other[..it + 1], i) <==>
              Touched(mine, other[..it], i) || (other[it].thunder && InRange(mine, other[it], i))
  {
    forall i: nat | i < |mine|
      ensures Touched(mine, other[..it + 1], i) <==>
              Touched(mine, other[..it], i) || (other[it].thunder && InRange(mine, other[it], i))
    {
      if Touched(mine, other[..it], i) {
        var j :| 0 <= j < it && other[..it][j].thunder && InRange(mine, other[..it][j], i);
        assert other[..it + 1][j] == other[j];
      }
      if other[it].thunder && InRange(mine, other[it], i) {
        assert other[..it + 1][it] == other[it];
      }
      if Touched(mine, other[..it + 1], i) {
        var j :| 0 <= j < it + 1 && other[..it + 1][j].thunder && InRange(mine, other[..it + 1][j], i);
        assert j < it ==> other[..it][j] == other[j];
      }
    }
  }

  lemma SameTimesSameRange(a: seq<Symbol>, b: seq<Symbol>, o: Symbol)
    requires |a| == |b|
    requires forall i | 0 <= i < |a| :: b[i].min == a[i].min && b[i].max == a[i].max && b[i].time == a[i].time
    ensures forall i: nat | i < |a| :: InRange(a, o, i) <==> InRange(b, o, i)
  {
    assert forall i | 0 <= i < |a| :: a[i].Covers(o) <==> b[i].Covers(o);
  }

  // ---------------------------------------------------------------- std::merge and std::unique

  function MergeLists(a: seq<Symbol>, b: seq<Symbol>): (r: seq<Symbol>) {
    if b == [] then a
    else if a == [] then b
    else if b[0].From() < a[0].From() then [b[0]] + MergeLists(a, b[1..])
    else [a[0]] + MergeLists(a[1..], b)
  }

  /** Of neighbours with one from time the first stays. */
  function DropRepeated(s: seq<Symbol>): (r: seq<Symbol>)
    decreases |s|
  {
    if |s| <= 1 then s
    else if s[0].From() == s[1].From() then DropRepeated([s[0]] + s[2..])
    else [s[0]] + DropRepeated(s[1..])
  }

  method StdMerge(a: seq<Symbol>, b: seq<Symbol>) returns (r: seq<Symbol>)
    ensures r == MergeLists(a, b)
  {
    r := [];
    var i, j := 0, 0;
    while i < |a| && j < |b|
      invariant i <= |a| && j <= |b|
      invariant r + MergeLists(a[i..], b[j..]) == MergeLists(a, b)
      decreases |a| - i + |b| - j
    {
      assert a[i..][1..] == a[i + 1..] && b[j..][1..] == b[j + 1..];
      if b[j].From() < a[i].From() {
        r := r + [b[j]];
        j := j + 1;
      } else {
        r := r + [a[i]];
        i := i + 1;
      }
    }
    r := r + a[i..] + b[j..];
  }

  lemma DropStep(x: Symbol, y: Symbol, rest: seq<Symbol>)
    ensures DropRepeated([x] + ([y] + rest)) ==
            if x.From() == y.From() then DropRepeated([x] + rest) else [x] + DropRepeated([y] + rest)
  {
    var s := [x] + ([y] + rest);
    assert s[1..] == [y] + rest && s[2..] == rest;
  }

  /** One pass of the loop in `StdUnique`. */
  lemma UniqueStep(r: seq<Symbol>, last: Symbol, s: seq<Symbol>, k: nat)
    requires k < |s|
    ensures r + DropRepeated([last] + s[k..])
         == if last.From() != s[k].From() then r + [last] + DropRepeated([s[k]] + s[k + 1..])
            else r + DropRepeated([last] + s[k + 1..])
  {
    assert s[k..] == [s[k]] + s[k + 1..];
    DropStep(last, s[k], s[k + 1..]);
  }

  method StdUnique(s: seq<Symbol>) returns (r: seq<Symbol>)
    ensures r == DropRepeated(s)
  {
    if s == [] {
      return [];
    }
    r := [];
    var last := s[0];
    var k := 1;
    assert [s[0]] + s[1..] == s;
    while k < |s|
      invariant 1 <= k <= |s|
      invariant r + DropRepeated([last] + s[k..]) == DropRepeated(s)
    {
      UniqueStep(r, last, s, k);
      if last.From() != s[k].From() {
        r := r + [last];
        last := s[k];
      }
      k := k + 1;
    }
    r := r + [last];
  }

  lemma ConsFrom(x: Symbol, s: seq<Symbol>, from: int)
    ensures HasFrom([x] + s, from) <==> x.From() == from || HasFrom(s, from)
    ensures HasFrom([x] + s, from) ==>
              FirstFrom([x] + s, from) == if x.From() == from then x else FirstFrom(s, from)
  {
    var r := [x] + s;
    assert r[1..] == s;
    if HasFrom(s, from) {
      var i :| 0 <= i < |s| && s[i].From() == from;
      assert r[i + 1].From() == from;
    }
    if x.From() == from {
      assert r[0].From() == from;
    }
    if HasFrom(r, from) && x.From() != from {
      var i :| 0 <= i < |r| && r[i].From() == from;
      assert s[i - 1].From() == from;
    }
  }

  /** Ours first, and sorted. */
  lemma {:induction false} MergedLists(a: seq<Symbol>, b: seq<Symbol>, from: int)
    requires Sorted(a) && Sorted(b)
    ensures HasFrom(MergeLists(a, b), from) <==> HasFrom(a, from) || HasFrom(b, from)
    ensures HasFrom(a, from) ==> FirstFrom(MergeLists(a, b), from) == FirstFrom(a, from)
    ensures !HasFrom(a, from) && HasFrom(b, from) ==> FirstFrom(MergeLists(a, b), from) == FirstFrom(b, from)
    decreases |a| + |b|
  {
    if a != [] && b != [] {
      assert a == [a[0]] + a[1..] && b == [b[0]] + b[1..];
      if b[0].From() < a[0].From() {
        MergedLists(a, b[1..], from);
        ConsFrom(b[0], b[1..], from);
        ConsFrom(b[0], MergeLists(a, b[1..]), from);
        assert HasFrom(a, from) ==> from != b[0].From();
      } else {
        MergedLists(a[1..], b, from);
        ConsFrom(a[0], a[1..], from);
        ConsFrom(a[0], MergeLists(a[1..], b), from);
      }
    }
  }

  lemma {:induction false} MergedSorted(a: seq<Symbol>, b: seq<Symbol>)
    requires Sorted(a) && Sorted(b)
    ensures Sorted(MergeLists(a, b))
    ensures forall x | x in MergeLists(a, b) :: x in a || x in b
    decreases |a| + |b|
  {
    if a != [] && b != [] {
      var x := if b[0].From() < a[0].From() then b[0] else a[0];
      var rest := if b[0].From() < a[0].From() then MergeLists(a, b[1..]) else MergeLists(a[1..], b);
      if b[0].From() < a[0].From() {
        MergedSorted(a, b[1..]);
      } else {
        MergedSorted(a[1..], b);
      }
      forall y | y in rest
        ensures x.From() <= y.From()
      {
        assert y in a || y in b;
      }
      ConsSorted(x, rest);
    }
  }

  lemma {:induction false} RepeatedDropped(s: seq<Symbol>, from: int)
    requires Sorted(s)
    ensures HasFrom(DropRepeated(s), from) <==> HasFrom(s, from)
    ensures HasFrom(s, from) ==> FirstFrom(DropRepeated(s), from) == FirstFrom(s, from)
    decreases |s|
  {
    if |s| <= 1 {
    } else {
      assert s == [s[0]] + s[1..] && s[1..] == [s[1]] + s[2..];
      ConsFrom(s[0], s[1..], from);
      ConsFrom(s[1], s[2..], from);
      if s[0].From() == s[1].From() {
        RepeatedDropped([s[0]] + s[2..], from);
        ConsFrom(s[0], s[2..], from);
      } else {
        RepeatedDropped(s[1..], from);
        ConsFrom(s[0], DropRepeated(s[1..]), from);
      }
    }
  }

  lemma {:induction false} RepeatedDroppedStrict(s: seq<Symbol>)
    requires Sorted(s)
    ensures StrictlySorted(DropRepeated(s))
    ensures s != [] ==> DropRepeated(s) != [] && DropRepeated(s)[0] == s[0]
    decreases |s|
  {
    if |s| <= 1 {
    } else {
      if s[0].From() == s[1].From() {
        RepeatedDroppedStrict([s[0]] + s[2..]);
      } else {
        RepeatedDroppedStrict(s[1..]);
      }
    }
  }

  lemma PrecedenceMerge(mine: seq<Symbol>, other: seq<Symbol>)
    requires Sorted(mine) && Sorted(other)
    ensures IsPrecedenceMerge(DropRepeated(MergeLists(mine, other)), mine, other)
  {
    var merged := MergeLists(mine, other);
    var r := DropRepeated(merged);
    MergedSorted(mine, other);
    RepeatedDroppedStrict(merged);
    forall from
      ensures HasFrom(r, from) <==> HasFrom(mine, from) || HasFrom(other, from)
      ensures HasFrom(r, from) ==>
                FirstFrom(r, from) == if HasFrom(mine, from) then FirstFrom(mine, from) else FirstFrom(other, from)
    {
      MergedLists(mine, other, from);
      RepeatedDropped(merged, from);
    }
    forall i | 0 <= i < |r|
      ensures HasFrom(r, r[i].From()) && FirstFrom(r, r[i].From()) == r[i]
    {
      FirstFromIs(r, i);
    }
  }

  // ---------------------------------------------------------------- all time spans of a provider

  predicate SortedBySpan(hs: seq<SymbolHolder>) {
    forall i, j | 0 <= i < j < |hs| :: hs[i].TimespanInHours() <= hs[j].TimespanInHours()
  }

  predicate Distinct(hs: seq<SymbolHolder>) {
    forall i, j | 0 <= i < j < |hs| :: hs[i] != hs[j]
  }

  /** The holder goes behind those that are not longer, so that equal spans keep their order. */
  function InsertBySpan(hs: seq<SymbolHolder>, h: SymbolHolder): (r: seq<SymbolHolder>)
    ensures multiset(r) == multiset(hs) + multiset{h} && |r| == |hs| + 1
  {
    if hs == [] then [h]
    else if hs[|hs| - 1].TimespanInHours() <= h.TimespanInHours() then hs + [h]
    else
      assert hs == hs[..|hs| - 1] + [hs[|hs| - 1]];
      InsertBySpan(hs[..|hs| - 1], h) + [hs[|hs| - 1]]
  }

  lemma {:induction false} InsertBySpanSorted(hs: seq<SymbolHolder>, h: SymbolHolder)
    requires SortedBySpan(hs)
    ensures SortedBySpan(InsertBySpan(hs, h))
  {
    if hs != [] && hs[|hs| - 1].TimespanInHours() > h.TimespanInHours() {
      var init, last := hs[..|hs| - 1], hs[|hs| - 1];
      InsertBySpanSorted(init, h);
      var r := InsertBySpan(init, h);
      forall i | 0 <= i < |r|
        ensures r[i].TimespanInHours() <= last.TimespanInHours()
      {
        assert r[i] in multiset(r);
        assert r[i] in init || r[i] == h;
      }
    }
  }

  function SortedHolders(hs: seq<SymbolHolder>): (r: seq<SymbolHolder>)
    ensures multiset(r) == multiset(hs) && |r| == |hs|
  {
    if hs == [] then []
    else
      assert hs == hs[..|hs| - 1] + [hs[|hs| - 1]];
      InsertBySpan(SortedHolders(hs[..|hs| - 1]), hs[|hs| - 1])
  }

  /** `symbols.sort( cmpSymbolHolder )` on the shallow copy. */
  method SortHolders(hs: seq<SymbolHolder>) returns (r: seq<SymbolHolder>)
    ensures r == SortedHolders(hs) && SortedBySpan(r)
  {
    r := [];
    for i := 0 to |hs|
      invariant r == SortedHolders(hs[..i])
    {
      SortNext(hs, i);
      r := InsertBySpan(r, hs[i]);
    }
    assert hs[..|hs|] == hs;
    SortedHoldersIs(hs);
  }

  lemma SortNext(hs: seq<SymbolHolder>, i: nat)
    requires i < |hs|
    ensures SortedHolders(hs[..i + 1]) == InsertBySpan(SortedHolders(hs[..i]), hs[i])
  {
    assert hs[..i + 1][..i] == hs[..i];
  }

  lemma {:induction false} SortedHoldersIs(hs: seq<SymbolHolder>)
    ensures SortedBySpan(SortedHolders(hs))
  {
    if hs == [] {
    } else {
      var n := |hs| - 1;
      SortedHoldersIs(hs[..n]);
      InsertBySpanSorted(SortedHolders(hs[..n]), hs[n]);
    }
  }

  lemma SameMembers(a: seq<SymbolHolder>, b: seq<SymbolHolder>)
    requires multiset(a) == multiset(b)
    ensures forall i | 0 <= i < |b| :: b[i] in a
  {
    forall i | 0 <= i < |b|
      ensures b[i] in a
    {
      assert b[i] in multiset(b);
    }
  }

  lemma DistinctPermutation(a: seq<SymbolHolder>, b: seq<SymbolHolder>)
    requires Distinct(a) && multiset(a) == multiset(b)
    ensures Distinct(b)
  {
    forall h
      ensures multiset(a)[h] <= 1
    {
      DistinctCount(a, h);
    }
    forall i, j | 0 <= i < j < |b|
      ensures b[i] != b[j]
    {
      assert b == b[..i] + [b[i]] + b[i + 1..j] + [b[j]] + b[j + 1..];
      assert multiset(b)[b[i]] <= 1;
    }
  }

  lemma {:induction false} DistinctCount(a: seq<SymbolHolder>, h: SymbolHolder)
    requires Distinct(a)
    ensures multiset(a)[h] <= 1
  {
    if a == [] {
    } else {
      var init, last := a[..|a| - 1], a[|a| - 1];
      DistinctCount(init, h);
      assert a == init + [last];
      if last == h {
        assert h !in init;
      }
    }
  }

  /** The lists of some holders. */
  ghost function Lists(hs: seq<SymbolHolder>): (r: seq<seq<Symbol>>)
    reads hs
    ensures |r| == |hs| && forall i | 0 <= i < |hs| :: r[i] == hs[i].symbols
  {
    seq(|hs|, i requires 0 <= i < |hs| reads hs => hs[i].symbols)
  }

  /** The loop of `checkThunder` over the sorted holders. */
  method CheckChain(symbols: seq<SymbolHolder>, ghost lists: seq<seq<Symbol>>)
    requires Distinct(symbols) && SortedBySpan(symbols) && symbols != []
    requires |lists| == |symbols| && forall k: nat | k < |symbols| :: symbols[k].symbols == lists[k]
    modifies symbols
    ensures forall k: nat | k < |symbols| :: symbols[k].symbols == Chain(lists, k)
  {
    ghost var chain := seq(|lists|, k requires 0 <= k < |lists| => Chain(lists, k));
    var prev := symbols[0];
    for it := 1 to |symbols|
      invariant prev == symbols[it - 1]
      invariant forall k: nat | k < it :: symbols[k].symbols == chain[k]
      invariant forall k: nat | it <= k < |symbols| :: symbols[k].symbols == lists[k]
    {
      CheckNext(symbols[it], prev, lists, it);
      prev := symbols[it];
    }
  }

  method CheckNext(h: SymbolHolder, prev: SymbolHolder, ghost lists: seq<seq<Symbol>>, ghost k: nat)
    requires h != prev && prev.TimespanInHours() <= h.TimespanInHours()
    requires 0 < k < |lists| && h.symbols == lists[k] && prev.symbols == Chain(lists, k - 1)
    modifies h
    ensures h.symbols == Chain(lists, k)
  {
    h.ConsistentCheckThunder(prev);
  }

  /** `checkThunder`: every list is checked against the final list of the next shorter span. */
  method CheckThunder(hs: seq<SymbolHolder>)
    requires Distinct(hs)
    modifies hs
    ensures SortedBySpan(SortedHolders(hs))
    ensures |hs| >= 2 ==>
              forall k: nat | k < |hs| :: SortedHolders(hs)[k].symbols == Chain(old(Lists(SortedHolders(hs))), k)
    ensures |hs| < 2 ==> forall i | 0 <= i < |hs| :: hs[i].symbols == old(hs[i].symbols)
  {
    var symbols := SortHolders(hs);
    DistinctPermutation(hs, symbols);
    SameMembers(hs, symbols);
    if |hs| < 2 {
      return;
    }
    ghost var lists := Lists(symbols);
    CheckChain(symbols, lists);
  }

  /** After `checkThunder`: a thunder symbol of any span covers a thunder symbol of every
      shorter span, down to the shortest. */
  lemma ThunderConsistent(sorted: seq<SymbolHolder>, lists: seq<seq<Symbol>>, k: nat, l: nat, i: nat)
    requires |lists| == |sorted| && forall m: nat | m < |sorted| :: sorted[m].symbols == Chain(lists, m)
    requires l < k < |sorted| && i < |sorted[k].symbols| && sorted[k].symbols[i].thunder
    ensures exists j | 0 <= j < |sorted[l].symbols| ::
              sorted[l].symbols[j].thunder && sorted[k].symbols[i].Covers(sorted[l].symbols[j])
  {
    ThunderAllTheWayDown(lists, k, l, i);
  }
}
