/** The reference times as a text file, one line for each entry. */
module NoteProviderReftime {
  import opened Times
  import opened Text
  import opened NameOrder
  import opened SplitStr
  import opened IsoTime
  import opened ProviderReftimes

  // ---------------------------------------------------------------- numbers

  const INT_MIN := -0x8000_0000
  const INT_MAX := 0x7fff_ffff

  function Decimal(n: nat): (s: string)
    ensures s != "" && AllDigits(s)
  {
    if n < 10 then [Digit(n)] else Decimal(n / 10) + [Digit(n % 10)]
  }

  /** `<<` for an int. */
  function IntText(n: int): (s: string) {
    if n < 0 then "-" + Decimal(-n) else Decimal(n)
  }

  /** `boost::lexical_cast<int>`: an optional sign and digits, within the range of an int. */
  function LexicalCast(s: string): (r: Option<int>) {
    var signed := s != "" && (s[0] == '-' || s[0] == '+');
    var digits := if signed then s[1..] else s;
    if digits == "" || !AllDigits(digits) then None
    else
      var n := if signed && s[0] == '-' then -(Number(digits) as int) else Number(digits);
      if INT_MIN <= n <= INT_MAX then Some(n) else None
  }

  /** Nothing is read but a number of the range, with a sign or without. */
  lemma CastIs(s: string)
    ensures LexicalCast(s).Some? ==>
              && s != "" && AllDigits(s[1..]) && (IsDigit(s[0]) || ((s[0] == '-' || s[0] == '+') && |s| > 1))
              && -2147483648 <= LexicalCast(s).value <= 2147483647
  {
  }

  lemma {:induction false} NumberOfDecimal(n: nat)
    ensures Number(Decimal(n)) == n
  {
    if n >= 10 {
      NumberOfDecimal(n / 10);
      var s := Decimal(n);
      assert s[..|s| - 1] == Decimal(n / 10);
    } else {
      assert [Digit(n)][..0] == "";
    }
  }

  lemma IntReadBack(n: int)
    requires INT_MIN <= n <= INT_MAX
    ensures LexicalCast(IntText(n)) == Some(n)
  {
    var digits := Decimal(if n < 0 then -n else n);
    NumberOfDecimal(if n < 0 then -n else n);
    assert IsDigit(digits[0]);
    if n < 0 {
      assert ("-" + digits)[1..] == digits;
    }
  }

  // ---------------------------------------------------------------- lines

  /** The lines that `getline` reads. */
  function Lines(s: string): (r: seq<string>) {
    if s == "" then []
    else
      var i := IndexOf(s, '\n');
      if i == |s| then [s] else [s[..i]] + Lines(s[i + 1..])
  }

  function Unlines(lines: seq<string>): (r: string) {
    if lines == [] then "" else lines[0] + "\n" + Unlines(lines[1..])
  }

  lemma {:induction false} LinesOfUnlines(lines: seq<string>)
    requires forall i | 0 <= i < |lines| :: '\n' !in lines[i]
    ensures Lines(Unlines(lines)) == lines
  {
    if lines == [] {
    } else {
      var s := Unlines(lines);
      assert s == lines[0] + ['\n'] + Unlines(lines[1..]);
      IndexOfFirst(lines[0], '\n', Unlines(lines[1..]));
      assert s[..|lines[0]|] == lines[0] && s[|lines[0]| + 1..] == Unlines(lines[1..]);
      LinesOfUnlines(lines[1..]);
    }
  }

  // ---------------------------------------------------------------- one entry

  predicate HasText(t: ProviderTimes) {
    HasDate(t.refTime) && HasDate(t.updatedTime)
  }

  function LineFields(name: string, t: ProviderTimes): (r: seq<string>)
    requires HasText(t)
    ensures |r| == 5
  {
    [name, IsoText(t.refTime, true, false), IsoText(t.updatedTime, true, false), IntText(t.dataversion),
     if t.disabled then "true" else "false"]
  }

  function Line(name: string, t: ProviderTimes): (r: string)
    requires HasText(t)
  {
    Join(LineFields(name, t), '|')
  }

  /** The entry that a line holds; `None` when it cannot be read. */
  function LoadLine(line: string, around: Surroundings): (r: Option<(string, ProviderTimes)>) {
    LoadFields(Split(line, '|', '"'), around)
  }

  /** Exactly which lines of plain fields are read: those with two times and a number after the
      name. A fifth field disables the entry if it begins like "true". */
  lemma LoadsExactly(fields: seq<string>, around: Surroundings)
    requires fields != [] && forall i | 0 <= i < |fields| :: IsPlain(fields[i], '|', '"') && IsTrimmed(fields[i])
    ensures LoadLine(Join(fields, '|'), around).Some? <==>
            && |fields| >= 4 && ParseIso(fields[1], around).Some? && ParseIso(fields[2], around).Some?
            && LexicalCast(fields[3]).Some?
    ensures var r := LoadLine(Join(fields, '|'), around);
            r.Some? ==>
              && r.value.0 == fields[0] && Some(r.value.1.refTime) == ParseIso(fields[1], around)
              && Some(r.value.1.updatedTime) == ParseIso(fields[2], around)
              && Some(r.value.1.dataversion) == LexicalCast(fields[3])
              && (r.value.1.disabled <==> |fields| > 4 && (['t'] <= fields[4] || ['T'] <= fields[4]))
  {
    PlainLine(fields, around);
    FieldsLoad(fields, around);
  }

  lemma PlainLine(fields: seq<string>, around: Surroundings)
    requires fields != [] && forall i | 0 <= i < |fields| :: IsPlain(fields[i], '|', '"') && IsTrimmed(fields[i])
    ensures LoadLine(Join(fields, '|'), around) == LoadFields(fields, around)
  {
    SplitJoin(fields, START, '|', '"');
  }

  lemma FieldsLoad(fields: seq<string>, around: Surroundings)
    ensures LoadFields(fields, around).Some? <==>
            && |fields| >= 4 && ParseIso(fields[1], around).Some? && ParseIso(fields[2], around).Some?
            && LexicalCast(fields[3]).Some?
    ensures var r := LoadFields(fields, around);
            r.Some? ==>
              && r.value.0 == fields[0] && Some(r.value.1.refTime) == ParseIso(fields[1], around)
              && Some(r.value.1.updatedTime) == ParseIso(fields[2], around)
              && Some(r.value.1.dataversion) == LexicalCast(fields[3])
              && (r.value.1.disabled <==> |fields| > 4 && (['t'] <= fields[4] || ['T'] <= fields[4]))
  {
  }

  function LoadFields(data: seq<string>, around: Surroundings): (r: Option<(string, ProviderTimes)>) {
    if |data| < 4 then None
    else
      var refTime := ParseIso(data[1], around);
      var updatedTime := ParseIso(data[2], around);
      var dataversion := LexicalCast(data[3]);
      if refTime.None? || updatedTime.None? || dataversion.None? then None
      else
        var disabled := |data| > 4 && data[4] != "" && (data[4][0] == 't' || data[4][0] == 'T');
        Some((data[0],
          ProviderTimes(refTime.value, updatedTime.value, false, false, false, disabled, dataversion.value)))
  }

  // ---------------------------------------------------------------- the whole note

  function LinesOf(m: RefTimes, keys: seq<string>): (r: seq<string>)
    requires forall k | k in keys :: k in m && HasText(m[k])
    ensures |r| == |keys|
  {
    if keys == [] then [] else [Line(keys[0], m[keys[0]])] + LinesOf(m, keys[1..])
  }

  ghost predicate AllHaveText(m: RefTimes) {
    forall k | k in m :: HasText(m[k])
  }

  function NoteText(m: RefTimes): (r: string)
    requires AllHaveText(m)
  {
    Listed(m.Keys);
    Unlines(LinesOf(m, InOrder(m.Keys)))
  }

  /** The lines in turn; a later line for the same name replaces an earlier one. */
  function LoadLines(lines: seq<string>, m: RefTimes, around: Surroundings): (r: Option<RefTimes>)
    decreases |lines|
  {
    if lines == [] then Some(m)
    else
      var e := LoadLine(lines[0], around);
      if e.None? then None else LoadLines(lines[1..], m[e.value.0 := e.value.1], around)
  }

  function LoadText(s: string, around: Surroundings): (r: Option<RefTimes>) {
    LoadLines(Lines(s), map[], around)
  }

  /** `saveNote` */
  method SaveNote(m: RefTimes) returns (out: string)
    requires AllHaveText(m)
    ensures out == NoteText(m)
  {
    out := "";
    var keys := InOrder(m.Keys);
    Listed(m.Keys);
    for i := 0 to |keys|
      invariant out + Unlines(LinesOf(m, keys[i..])) == NoteText(m)
    {
      LineSaved(out, m, keys, i);
      out := out + Line(keys[i], m[keys[i]]) + "\n";
    }
    assert keys[|keys|..] == [];
    assert out + "" == out;
  }

  lemma LineSaved(out: string, m: RefTimes, keys: seq<string>, i: nat)
    requires AllHaveText(m) && i < |keys| && forall k | k in keys :: k in m
    ensures out + Line(keys[i], m[keys[i]]) + "\n" + Unlines(LinesOf(m, keys[i + 1..]))
         == out + Unlines(LinesOf(m, keys[i..]))
  {
    assert keys[i..][0] == keys[i] && keys[i..][1..] == keys[i + 1..];
    LineAppended(out, Line(keys[i], m[keys[i]]), LinesOf(m, keys[i + 1..]));
  }

  lemma LineAppended(out: string, line: string, rest: seq<string>)
    ensures out + Unlines([line] + rest) == out + line + "\n" + Unlines(rest)
  {
    assert ([line] + rest)[1..] == rest;
  }

  /** `loadNote`; `None` stands for the null pointer. */
  method LoadNote(text: string, around: Surroundings) returns (note: Option<RefTimes>)
    ensures note == LoadText(text, around)
  {
    var m: RefTimes := map[];
    var lines := Lines(text);
    for i := 0 to |lines|
      invariant LoadText(text, around) == LoadLines(lines[i..], m, around)
    {
      assert lines[i..][0] == lines[i] && lines[i..][1..] == lines[i + 1..];
      var data := SplitString(lines[i], '|', '"');
      if |data| < 4 {
        return None;
      }
      var refTime := PtimeFromIsoString(data[1], around);
      var updatedTime := PtimeFromIsoString(data[2], around);
      if refTime.None? || updatedTime.None? {
        return None;
      }
      var dataversion := LexicalCast(data[3]);
      if dataversion.None? {
        return None;
      }
      var disabled := false;
      if |data| > 4 {
        if data[4] != "" && (data[4][0] == 't' || data[4][0] == 'T') {
          disabled := true;
        }
      }
      m := m[data[0] := ProviderTimes(refTime.value, updatedTime.value, false, false, false, disabled,
        dataversion.value)];
    }
    assert lines[|lines|..] == [];
    note := Some(m);
  }

  // ---------------------------------------------------------------- loading what was saved

  /** A name that survives in a line. */
  predicate IsPlainName(name: string) {
    IsTrimmed(name) && '|' !in name && '"' !in name && '\n' !in name
  }

  /** The characters that the other fields consist of. */
  predicate IsFieldChar(c: char) {
    IsDigit(c) || c == '-' || c == ':' || 'a' <= c <= 'z' || c == 'T'
  }

  predicate IsFieldText(s: string) {
    forall i | 0 <= i < |s| :: IsFieldChar(s[i])
  }

  lemma FieldTextIsPlain(s: string)
    requires IsFieldText(s)
    ensures IsPlain(s, '|', '"') && IsTrimmed(s) && '\n' !in s
  {
  }

  lemma TimeIsFieldText(t: PTime)
    requires HasDate(t)
    ensures IsFieldText(IsoText(t, true, false))
  {
  }

  lemma IntIsFieldText(n: int)
    ensures IsFieldText(IntText(n))
  {
  }

  /** An entry as it is loaded: the request flags are not saved. */
  function Saved(t: ProviderTimes): (r: ProviderTimes) {
    t.(disableEnableRequest := false, dataversionRequest := false, reftimeUpdateRequest := false)
  }

  predicate TimesKnown(t: ProviderTimes) {
    !t.refTime.NotADateTime? && !t.updatedTime.NotADateTime?
  }

  predicate IsSavable(m: RefTimes) {
    forall k | k in m :: IsPlainName(k) && HasText(m[k]) && INT_MIN <= m[k].dataversion <= INT_MAX
  }

  lemma FieldsArePlain(name: string, t: ProviderTimes)
    requires IsPlainName(name) && HasText(t)
    ensures var fields := LineFields(name, t);
            forall i | 0 <= i < 5 :: IsPlain(fields[i], '|', '"') && IsTrimmed(fields[i]) && '\n' !in fields[i]
  {
    TimeIsFieldText(t.refTime);
    TimeIsFieldText(t.updatedTime);
    IntIsFieldText(t.dataversion);
    forall i | 1 <= i < 5
      ensures IsFieldText(LineFields(name, t)[i])
    {
    }
    forall i | 1 <= i < 5 {
      FieldTextIsPlain(LineFields(name, t)[i]);
    }
  }

  lemma LineLoads(name: string, t: ProviderTimes, around: Surroundings)
    requires IsPlainName(name) && HasText(t) && INT_MIN <= t.dataversion <= INT_MAX
    ensures LoadLine(Line(name, t), around) == if TimesKnown(t) then Some((name, Saved(t))) else None
  {
    var fields := LineFields(name, t);
    FieldsArePlain(name, t);
    SplitJoin(fields, START, '|', '"');
    RoundTrip(t.refTime, true, false, around);
    RoundTrip(t.updatedTime, true, false, around);
    IntReadBack(t.dataversion);
  }

  lemma {:induction false} JoinOneLine(fields: seq<string>)
    requires fields != [] && forall i | 0 <= i < |fields| :: '\n' !in fields[i]
    ensures '\n' !in Join(fields, '|')
  {
    if |fields| <= 1 {
    } else {
      JoinOneLine(fields[1..]);
    }
  }

  lemma {:induction false} LinesAreLines(m: RefTimes, keys: seq<string>)
    requires IsSavable(m) && forall k | k in keys :: k in m
    ensures forall i | 0 <= i < |keys| :: '\n' !in LinesOf(m, keys)[i]
  {
    if keys == [] {
    } else {
      FieldsArePlain(keys[0], m[keys[0]]);
      JoinOneLine(LineFields(keys[0], m[keys[0]]));
      LinesAreLines(m, keys[1..]);
    }
  }

  predicate AllKnown(m: RefTimes, keys: seq<string>)
    requires forall k | k in keys :: k in m
  {
    forall k | k in keys :: TimesKnown(m[k])
  }

  function SavedOf(m: RefTimes, keys: seq<string>): (r: RefTimes)
    requires forall k | k in keys :: k in m
  {
    map k | k in keys :: Saved(m[k])
  }

  lemma OneMoreSaved(m: RefTimes, keys: seq<string>, before: RefTimes)
    requires keys != [] && forall k | k in keys :: k in m
    ensures before[keys[0] := Saved(m[keys[0]])] + SavedOf(m, keys[1..]) == before + SavedOf(m, keys)
    ensures AllKnown(m, keys) <==> TimesKnown(m[keys[0]]) && AllKnown(m, keys[1..])
  {
    assert keys == [keys[0]] + keys[1..];
    assert forall k :: k in keys <==> k == keys[0] || k in keys[1..];
  }

  /** What the lines of some keys add to a map, if all their times are known. */
  lemma {:induction false} LinesLoad(m: RefTimes, keys: seq<string>, before: RefTimes, around: Surroundings)
    requires IsSavable(m) && forall k | k in keys :: k in m
    ensures LoadLines(LinesOf(m, keys), before, around)
         == if AllKnown(m, keys) then Some(before + SavedOf(m, keys)) else None
    decreases |keys|
  {
    if keys != [] {
      LineLoads(keys[0], m[keys[0]], around);
      OneMoreSaved(m, keys, before);
      if TimesKnown(m[keys[0]]) {
        LinesLoad(m, keys[1..], before[keys[0] := Saved(m[keys[0]])], around);
      }
    } else {
      assert before + SavedOf(m, keys) == before;
    }
  }

  /** A saved list is loaded with every name, time, data version and disable status, unless
      one of its times is not-a-date-time: then nothing can be loaded at all. */
  lemma SaveLoad(m: RefTimes, around: Surroundings)
    requires IsSavable(m)
    ensures LoadText(NoteText(m), around)
         == if forall k | k in m :: TimesKnown(m[k]) then Some(map k | k in m :: Saved(m[k])) else None
  {
    var keys := InOrder(m.Keys);
    Listed(m.Keys);
    LinesAreLines(m, keys);
    LinesOfUnlines(LinesOf(m, keys));
    LinesLoad(m, keys, map[], around);
    EverySaved(m, keys);
  }

  lemma EverySaved(m: RefTimes, keys: seq<string>)
    requires forall k :: k in keys <==> k in m
    ensures map[] + SavedOf(m, keys) == map k | k in m :: Saved(m[k])
    ensures AllKnown(m, keys) <==> forall k | k in m :: TimesKnown(m[k])
  {
  }
}
