/** Time stamps as text, in the extended format of ISO 8601: the printer and the parser. */
module IsoTime {
  import opened Times
  import opened Calendar

  // ---------------------------------------------------------------- digits

  predicate IsDigit(c: char) {
    '0' <= c <= '9'
  }

  predicate AllDigits(s: string) {
    forall i | 0 <= i < |s| :: IsDigit(s[i])
  }

  function Digit(n: nat): (c: char)
    requires n < 10
    ensures IsDigit(c) && c as int - '0' as int == n
  {
    ('0' as int + n) as char
  }

  /** `atoi` of digits. */
  function Number(s: string): (n: nat)
    requires AllDigits(s)
  {
    if s == "" then 0 else 10 * Number(s[..|s| - 1]) + (s[|s| - 1] as int - '0' as int)
  }

  /** A number with leading zeros. */
  function Pad(n: nat, width: nat): (s: string)
    ensures |s| == width && AllDigits(s)
  {
    if width == 0 then "" else Pad(n / 10, width - 1) + [Digit(n % 10)]
  }

  function Power(width: nat): (p: nat) {
    if width == 0 then 1 else 10 * Power(width - 1)
  }

  lemma {:induction false} NumberOfPad(n: nat, width: nat)
    requires n < Power(width)
    ensures Number(Pad(n, width)) == n
  {
    if width == 0 {
    } else {
      NumberOfPad(n / 10, width - 1);
      var s := Pad(n, width);
      assert s[..|s| - 1] == Pad(n / 10, width - 1);
    }
  }

  // ---------------------------------------------------------------- the printer

  /** The day of 1970-01-01. */
  const EPOCH := 719162

  lemma EpochDay()
    ensures DayNumber(Date(1970, 1, 1)) == EPOCH
  {
  }

  /** The time of a date and a time of day. */
  function TimeOf(d: Date, seconds: int): (t: PTime)
    requires IsDate(d)
  {
    At((DayNumber(d) - EPOCH) * DAY + seconds)
  }

  function DayOf(seconds: int): (day: int) {
    seconds / DAY + EPOCH
  }

  /** The dates that the calendar of the library has. */
  predicate HasDate(t: PTime) {
    t.At? ==> DaysBeforeYear(1400) <= DayOf(t.seconds) < DaysBeforeYear(10000)
  }

  function DateText(d: Date): (s: string)
    requires IsDate(d)
  {
    Pad(d.year, 4) + "-" + Pad(d.month, 2) + "-" + Pad(d.day, 2)
  }

  function ClockText(seconds: nat): (s: string) {
    Pad(seconds / HOUR, 2) + ":" + Pad(seconds / 60 % 60, 2) + ":" + Pad(seconds % 60, 2)
  }

  /** `isotimeString` */
  function IsoText(t: PTime, useTseparator: bool, markAsZulu: bool): (s: string)
    requires HasDate(t)
  {
    match t
    case NegInfinity => "-infinity"
    case PosInfinity => "infinity"
    case NotADateTime => ""
    case At(seconds) =>
      var text := DateText(DateOf(DayOf(seconds))) + (if useTseparator then "T" else " ") + ClockText(seconds % DAY);
      if markAsZulu then text + "Z" else text
  }

  // ---------------------------------------------------------------- the parser, as functions

  /** `find_first_not_of`; the length stands for `npos`. */
  function SkipFrom(s: string, i: nat, blanks: string): (r: nat)
    requires i <= |s|
    ensures i <= r <= |s|
    decreases |s| - i
  {
    if i < |s| && s[i] in blanks then SkipFrom(s, i + 1, blanks) else i
  }

  /** The number that the next characters hold, if they are digits. */
  function GetInt(s: string, i: nat, chars: nat): (r: Option<nat>)
    requires i <= |s|
    ensures r.Some? ==> i + chars <= |s|
  {
    if i + chars <= |s| && AllDigits(s[i..i + chars]) then Some(Number(s[i..i + chars])) else None
  }

  datatype FieldDef = FieldDef(chars: nat, nextSep: string, mustHaveNext: bool)

  /** Year, month, day, hour, minute, second. */
  function Field(k: nat): (def: FieldDef)
    requires k < 6
  {
    if k == 0 then FieldDef(4, "-", true)
    else if k == 1 then FieldDef(2, "-", true)
    else if k == 2 then FieldDef(2, "T ", false)
    else if k == 5 then FieldDef(2, " ", false)
    else FieldDef(2, ":", false)
  }

  /** The fields from number k on, those that are not given being 0, and where they end. */
  function ReadFields(s: string, i: nat, k: nat): (r: Option<(seq<nat>, nat)>)
    requires i <= |s| && k <= 6
    ensures r.Some? ==> |r.value.0| == 6 - k && r.value.1 <= |s|
    decreases 6 - k, 1
  {
    if k == 6 then Some(([], i))
    else
      var v := GetInt(s, i, Field(k).chars);
      if v.None? then None else Prepend([v.value], FieldsAfter(s, SkipFrom(s, i + Field(k).chars, Field(k).nextSep), k))
  }

  /** The fields after number k. */
  function FieldsAfter(s: string, j: nat, k: nat): (r: Option<(seq<nat>, nat)>)
    requires j <= |s| && k < 6
    ensures r.Some? ==> |r.value.0| == 5 - k && r.value.1 <= |s|
    decreases 6 - k, 0
  {
    if j < |s| then ReadFields(s, j, k + 1)
    else if Field(k).mustHaveNext then None
    else Some((Zeros(5 - k), |s|))
  }

  function Prepend(numbers: seq<nat>, rest: Option<(seq<nat>, nat)>): (r: Option<(seq<nat>, nat)>) {
    if rest.None? then None else Some((numbers + rest.value.0, rest.value.1))
  }

  function Zeros(n: nat): (r: seq<nat>)
    ensures |r| == n && forall i | 0 <= i < n :: r[i] == 0
  {
    if n == 0 then [] else [0] + Zeros(n - 1)
  }

  /** `boost::posix_time::time_duration`: one negative part makes the whole negative. */
  function Duration(h: int, m: int): (seconds: int) {
    if h < 0 || m < 0 then -(Abs(h) * HOUR + Abs(m) * 60) else h * HOUR + m * 60
  }

  function Abs(n: int): (r: nat) {
    if n < 0 then -n else n
  }

  function Signed(minus: bool, n: int): (r: int) {
    if minus then -n else n
  }

  /** The UTC offset at the end of the text. */
  function ReadOffset(s: string, i: nat): (r: Option<int>)
    requires i <= |s|
  {
    if i == |s| then Some(0)
    else if s[i] == '+' || s[i] == '-' then
      if i + 1 == |s| || !IsDigit(s[i + 1]) then None else ReadHourMinute(s, i + 1, s[i] == '-')
    else if IsDigit(s[i]) then ReadHourMinute(s, i, false)
    else Some(0)
  }

  /** The sign goes to the hours alone. */
  function ReadHourMinute(s: string, i: nat, minus: bool): (r: Option<int>)
    requires i <= |s|
  {
    var h := GetInt(s, i, 2);
    if h.None? then None
    else if i + 2 < |s| && IsDigit(s[i + 2]) then
      var m := GetInt(s, i + 2, 2);
      if m.None? then None else Some(Duration(Signed(minus, h.value), m.value))
    else Some(Duration(Signed(minus, h.value), 0))
  }

  predicate IsGregorian(year: int, month: int, day: int) {
    1400 <= year <= 9999 && IsDate(Date(year, month, day))
  }

  /** What the parser cannot know by itself: the time now, and how the older format of
      RFC 1123 is read (not-a-date-time when it is not that format). */
  datatype Surroundings = Surroundings(now: int, rfc1123: string -> PTime)

  function StartOfDay(seconds: int): (r: PTime) {
    At(seconds - seconds % DAY)
  }

  function Assemble(f: seq<nat>, offset: int): (r: Option<PTime>)
    requires |f| == 6
  {
    if !IsGregorian(f[0], f[1], f[2]) then None
    else Some(TimeOf(Date(f[0], f[1], f[2]), f[3] * HOUR + f[4] * 60 + f[5] - offset))
  }

  function ParseNumbers(s: string, i: nat): (r: Option<PTime>)
    requires i <= |s|
  {
    var f := ReadFields(s, i, 0);
    if f.None? then None
    else
      var offset := ReadOffset(s, f.value.1);
      if offset.None? then None else Assemble(f.value.0, offset.value)
  }

  /** `ptimeFromIsoString`; `None` is an exception. */
  function ParseIso(s: string, around: Surroundings): (r: Option<PTime>) {
    if s == "infinity" then Some(PosInfinity)
    else if s == "-infinity" then Some(NegInfinity)
    else if s == "epoch" then Some(TimeOf(Date(1970, 1, 1), 0))
    else if s == "now" then Some(At(around.now))
    else if s == "today" then Some(StartOfDay(around.now))
    else if s == "tomorrow" then Some(StartOfDay(around.now + DAY))
    else if s == "yesterday" then Some(StartOfDay(around.now - DAY))
    else
      var i := SkipFrom(s, 0, " ");
      if i == |s| then None
      else if !IsDigit(s[i]) then
        var t := around.rfc1123(s);
        if t.IsSpecial() then None else Some(t)
      else ParseNumbers(s, i)
  }

  // ---------------------------------------------------------------- the parser, as methods

  method ReadInt(s: string, index0: nat, numberOfChar: nat) returns (r: Option<nat>, index: nat)
    requires index0 <= |s|
    ensures r == GetInt(s, index0, numberOfChar)
    ensures r.Some? ==> index == index0 + numberOfChar
  {
    var buf, nextN := "", 0;
    index := index0;
    while nextN < numberOfChar
      invariant 0 <= nextN <= numberOfChar && index == index0 + nextN <= |s|
      invariant buf == s[index0..index] && AllDigits(buf)
    {
      if index >= |s| {
        return None, index;
      }
      if !IsDigit(s[index]) {
        assert index0 + numberOfChar <= |s| ==> s[index0..index0 + numberOfChar][nextN] == s[index];
        return None, index;
      }
      buf := buf + [s[index]];
      nextN := nextN + 1;
      index := index + 1;
    }
    return Some(Number(buf)), index;
  }

  /** One field and the separators after it. */
  method ReadNumber(s: string, index0: nat, k: nat, ghost numbers: seq<nat>) returns (v: Option<nat>, index: nat)
    requires index0 <= |s| && k < 6
    ensures index <= |s|
    ensures Prepend(numbers, ReadFields(s, index0, k))
         == if v.None? then None else Prepend(numbers + [v.value], FieldsAfter(s, index, k))
  {
    v, index := ReadInt(s, index0, Field(k).chars);
    if v.None? {
      return None, |s|;
    }
    FieldPassed(s, index0, k, numbers, v.value);
    index := SkipFrom(s, index, Field(k).nextSep);
  }

  method ReadNumbers(s: string, i: nat) returns (r: Option<(seq<nat>, nat)>)
    requires i <= |s|
    ensures r == ReadFields(s, i, 0)
  {
    var numbers: seq<nat>, index: nat, k: nat := [], i, 0;
    ghost var all := ReadFields(s, i, 0);
    PrependNothing(all);
    while k < 6
      invariant 0 <= k <= 6 && |numbers| == k && index <= |s|
      invariant all == Prepend(numbers, ReadFields(s, index, k))
      decreases 6 - k
    {
      var v;
      v, index := ReadNumber(s, index, k, numbers);
      if v.None? {
        return None;
      }
      numbers := numbers + [v.value];
      if index == |s| {
        if Field(k).mustHaveNext {
          return None;
        }
        return Prepend(numbers, Some((Zeros(5 - k), |s|)));
      }
      k := k + 1;
    }
    assert numbers + [] == numbers;
    r := Some((numbers, index));
  }

  lemma FieldPassed(s: string, i: nat, k: nat, numbers: seq<nat>, v: nat)
    requires i <= |s| && k < 6 && GetInt(s, i, Field(k).chars) == Some(v)
    ensures Prepend(numbers, ReadFields(s, i, k))
         == Prepend(numbers + [v], FieldsAfter(s, SkipFrom(s, i + Field(k).chars, Field(k).nextSep), k))
  {
    PrependMore(numbers, v, FieldsAfter(s, SkipFrom(s, i + Field(k).chars, Field(k).nextSep), k));
  }

  lemma PrependNothing(rest: Option<(seq<nat>, nat)>)
    ensures Prepend([], rest) == rest
  {
    if rest.Some? {
      assert [] + rest.value.0 == rest.value.0;
    }
  }

  lemma PrependMore(numbers: seq<nat>, v: nat, rest: Option<(seq<nat>, nat)>)
    ensures Prepend(numbers, Prepend([v], rest)) == Prepend(numbers + [v], rest)
  {
    if rest.Some? {
      assert numbers + ([v] + rest.value.0) == numbers + [v] + rest.value.0;
    }
  }

  method PtimeFromIsoString(isoTime: string, around: Surroundings) returns (r: Option<PTime>)
    ensures r == ParseIso(isoTime, around)
  {
    if isoTime == "infinity" { return Some(PosInfinity); }
    if isoTime == "-infinity" { return Some(NegInfinity); }
    if isoTime == "epoch" { return Some(TimeOf(Date(1970, 1, 1), 0)); }
    if isoTime == "now" { return Some(At(around.now)); }
    if isoTime == "today" { return Some(StartOfDay(around.now)); }
    if isoTime == "tomorrow" { return Some(StartOfDay(around.now + DAY)); }
    if isoTime == "yesterday" { return Some(StartOfDay(around.now - DAY)); }
    var i := SkipFrom(isoTime, 0, " ");
    if i == |isoTime| {
      return None;
    }
    if !IsDigit(isoTime[i]) {
      var t := around.rfc1123(isoTime);
      return if t.IsSpecial() then None else Some(t);
    }
    var f := ReadNumbers(isoTime, i);
    if f.None? {
      return None;
    }
    var offset := ReadOffset(isoTime, f.value.1);
    if offset.None? {
      return None;
    }
    r := Assemble(f.value.0, offset.value);
  }

  // ---------------------------------------------------------------- reading back what was printed

  lemma FieldIs(s: string, i: nat, chars: nat, v: nat)
    requires i + chars <= |s| && v < Power(chars) && s[i..i + chars] == Pad(v, chars)
    ensures GetInt(s, i, chars) == Some(v)
  {
    NumberOfPad(v, chars);
  }

  lemma SkipOne(s: string, i: nat, blanks: string)
    requires i + 1 < |s| && s[i] in blanks && s[i + 1] !in blanks
    ensures SkipFrom(s, i, blanks) == i + 1
  {
  }

  /** A field that is followed by one separator and the other fields. */
  lemma FieldRead(s: string, i: nat, k: nat, f: seq<nat>, end: nat)
    requires |f| == 6 && k < 5 && f[k] < Power(Field(k).chars)
    requires var j := i + Field(k).chars;
             && j + 1 < |s| && s[i..j] == Pad(f[k], Field(k).chars) && s[j] in Field(k).nextSep && IsDigit(s[j + 1])
             && ReadFields(s, j + 1, k + 1) == Some((f[k + 1..], end))
    ensures ReadFields(s, i, k) == Some((f[k..], end))
  {
    var j := i + Field(k).chars;
    FieldIs(s, i, Field(k).chars, f[k]);
    SkipOne(s, j, Field(k).nextSep);
    assert [f[k]] + f[k + 1..] == f[k..];
  }

  lemma LastFieldRead(s: string, i: nat, f: seq<nat>)
    requires |f| == 6 && f[5] < Power(2) && i + 2 <= |s| && s[i..i + 2] == Pad(f[5], 2)
    requires i + 2 < |s| ==> s[i + 2] != ' '
    ensures ReadFields(s, i, 5) == Some((f[5..], i + 2))
  {
    FieldIs(s, i, 2, f[5]);
    assert SkipFrom(s, i + 2, " ") == i + 2;
    assert FieldsAfter(s, i + 2, 5) == Some(([], i + 2));
    assert [f[5]] + [] == f[5..];
  }

  /** Where a field of a time stamp starts. */
  function Position(k: nat): (i: nat)
    requires k < 6
  {
    if k == 0 then 0 else 3 * k + 2
  }

  predicate IsField(s: string, v: nat, k: nat)
    requires k < 6
  {
    var i := Position(k);
    var j := i + Field(k).chars;
    && v < Power(Field(k).chars) && j <= |s| && s[i..j] == Pad(v, Field(k).chars)
    && (k < 5 ==> j < |s| && s[j] in Field(k).nextSep)
  }

  /** The six fields of a time stamp, at their places in the text. */
  predicate IsStamp(s: string, f: seq<nat>)
    requires |f| == 6
  {
    && 19 <= |s| && IsField(s, f[0], 0) && IsField(s, f[1], 1) && IsField(s, f[2], 2)
    && IsField(s, f[3], 3) && IsField(s, f[4], 4) && IsField(s, f[5], 5)
  }

  lemma FieldDigit(s: string, v: nat, k: nat)
    requires k < 6 && IsField(s, v, k)
    ensures Position(k) < |s| && IsDigit(s[Position(k)])
  {
    assert s[Position(k)] == s[Position(k)..Position(k) + Field(k).chars][0];
  }

  lemma {:induction false} StampRead(s: string, f: seq<nat>, k: nat)
    requires |f| == 6 && k < 6 && IsStamp(s, f) && (|s| > 19 ==> s[19] != ' ')
    ensures ReadFields(s, Position(k), k) == Some((f[k..], 19))
    decreases 6 - k
  {
    if k == 5 {
      LastFieldRead(s, 17, f);
    } else {
      StampRead(s, f, k + 1);
      StampField(s, f, k);
      StampField(s, f, k + 1);
      NextFieldRead(s, f, k);
    }
  }

  lemma StampField(s: string, f: seq<nat>, k: nat)
    requires |f| == 6 && IsStamp(s, f) && k < 6
    ensures IsField(s, f[k], k)
  {
    assert k == 0 || k == 1 || k == 2 || k == 3 || k == 4 || k == 5;
  }

  lemma NextPosition(k: nat)
    requires k < 5
    ensures Position(k) + Field(k).chars + 1 == Position(k + 1)
  {
  }

  lemma NextFieldRead(s: string, f: seq<nat>, k: nat)
    requires |f| == 6 && k < 5 && |s| >= 19 && IsField(s, f[k], k) && IsField(s, f[k + 1], k + 1)
    requires ReadFields(s, Position(k + 1), k + 1) == Some((f[k + 1..], 19))
    ensures ReadFields(s, Position(k), k) == Some((f[k..], 19))
  {
    FieldDigit(s, f[k + 1], k + 1);
    NextPosition(k);
    FieldRead(s, Position(k), k, f, 19);
  }

  /** The fields of a time. */
  function FieldsOf(seconds: int): (f: seq<nat>)
    requires HasDate(At(seconds))
    ensures |f| == 6
  {
    var d := DateOf(DayOf(seconds));
    var t: nat := seconds % DAY;
    [d.year, d.month, d.day, t / HOUR, t / 60 % 60, t % 60]
  }

  /** The library has the date of every time in its range. */
  lemma DateInRange(seconds: int)
    requires HasDate(At(seconds))
    ensures var d := DateOf(DayOf(seconds)); IsGregorian(d.year, d.month, d.day) && DayNumber(d) == DayOf(seconds)
  {
    var n := DayOf(seconds);
    var d := DateOf(n);
    NumberOfDate(n);
    DayInYear(d);
    if d.year < 1400 {
      YearsGrow(d.year + 1, 1400);
    } else if d.year > 9999 {
      YearsGrow(10000, d.year);
    }
  }

  lemma DateTextParts(d: Date)
    requires IsDate(d)
    ensures var s := DateText(d);
            && |s| == 10 && s[0..4] == Pad(d.year, 4) && s[4] == '-' && s[5..7] == Pad(d.month, 2) && s[7] == '-'
            && s[8..10] == Pad(d.day, 2)
  {
  }

  lemma ClockTextParts(t: nat)
    ensures var s := ClockText(t);
            && |s| == 8 && s[0..2] == Pad(t / HOUR, 2) && s[2] == ':' && s[3..5] == Pad(t / 60 % 60, 2) && s[5] == ':'
            && s[6..8] == Pad(t % 60, 2)
  {
  }

  lemma Slice(s: string, a: string, b: string, c: string, i: nat, j: nat)
    requires s == a + b + c && i <= j <= |b|
    ensures s[|a| + i..|a| + j] == b[i..j]
  {
  }

  lemma StampParts(s: string, date: string, sep: string, clock: string, rest: string)
    requires |date| == 10 && |sep| == 1 && |clock| == 8 && s == date + sep + clock + rest
    ensures |s| == 19 + |rest| && s[19..] == rest && s[4] == date[4] && s[7] == date[7] && s[10] == sep[0]
    ensures s[13] == clock[2] && s[16] == clock[5]
    ensures s[0..4] == date[0..4] && s[5..7] == date[5..7] && s[8..10] == date[8..10]
    ensures s[11..13] == clock[0..2] && s[14..16] == clock[3..5] && s[17..19] == clock[6..8]
  {
    assert s == "" + date + (sep + clock + rest);
    Slice(s, "", date, sep + clock + rest, 0, 4);
    Slice(s, "", date, sep + clock + rest, 5, 7);
    Slice(s, "", date, sep + clock + rest, 8, 10);
    Slice(s, date + sep, clock, rest, 0, 2);
    Slice(s, date + sep, clock, rest, 3, 5);
    Slice(s, date + sep, clock, rest, 6, 8);
  }

  lemma PartsAreStamp(s: string, f: seq<nat>, date: string, sep: string, clock: string, rest: string)
    requires |f| == 6 && f[0] < Power(4) && forall k | 1 <= k < 6 :: f[k] < Power(2)
    requires |date| == 10 && sep in {"T", " "} && |clock| == 8 && s == date + sep + clock + rest
    requires date[0..4] == Pad(f[0], 4) && date[4] == '-' && date[5..7] == Pad(f[1], 2) && date[7] == '-'
             && date[8..10] == Pad(f[2], 2)
    requires clock[0..2] == Pad(f[3], 2) && clock[2] == ':' && clock[3..5] == Pad(f[4], 2) && clock[5] == ':'
             && clock[6..8] == Pad(f[5], 2)
    ensures IsStamp(s, f) && s[19..] == rest
  {
    StampParts(s, date, sep, clock, rest);
  }

  lemma FieldsInRange(seconds: int)
    requires HasDate(At(seconds))
    ensures var f := FieldsOf(seconds); f[0] < Power(4) && forall k | 1 <= k < 6 :: f[k] < Power(2)
  {
    DateInRange(seconds);
    assert Power(2) == 100 && Power(4) == 10000;
  }

  lemma TextIsStamp(seconds: int, useTseparator: bool, rest: string, s: string)
    requires HasDate(At(seconds)) && s == IsoText(At(seconds), useTseparator, false) + rest
    ensures IsStamp(s, FieldsOf(seconds)) && s[19..] == rest
  {
    FieldsInRange(seconds);
    var d := DateOf(DayOf(seconds));
    var t: nat := seconds % DAY;
    DateTextParts(d);
    ClockTextParts(t);
    var sep := if useTseparator then "T" else " ";
    PartsAreStamp(s, FieldsOf(seconds), DateText(d), sep, ClockText(t), rest);
  }

  lemma ClockParts(t: nat)
    requires t < DAY
    ensures t == t / HOUR * HOUR + t / 60 % 60 * 60 + t % 60
  {
  }

  lemma SecondsParts(seconds: int)
    ensures var t: nat := seconds % DAY;
            seconds == (DayOf(seconds) - EPOCH) * DAY + t / HOUR * HOUR + t / 60 % 60 * 60 + t % 60
  {
    ClockParts(seconds % DAY);
  }

  lemma Reassembled(seconds: int, offset: int)
    requires HasDate(At(seconds))
    ensures Assemble(FieldsOf(seconds), offset) == Some(At(seconds - offset))
  {
    DateInRange(seconds);
    SecondsParts(seconds);
    AssembledFrom(FieldsOf(seconds), DateOf(DayOf(seconds)), seconds, offset);
  }

  lemma AssembledFrom(f: seq<nat>, d: Date, seconds: int, offset: int)
    requires |f| == 6 && f[0] == d.year && f[1] == d.month && f[2] == d.day
    requires IsGregorian(d.year, d.month, d.day) && DayNumber(d) == DayOf(seconds)
    requires seconds == (DayOf(seconds) - EPOCH) * DAY + f[3] * HOUR + f[4] * 60 + f[5]
    ensures Assemble(f, offset) == Some(At(seconds - offset))
  {
    assert Date(f[0], f[1], f[2]) == d;
  }

  /** A printed time is read as numbers. */
  lemma ParsedAsNumbers(s: string, f: seq<nat>, around: Surroundings)
    requires |f| == 6 && IsStamp(s, f)
    ensures ParseIso(s, around) == ParseNumbers(s, 0)
  {
    FieldDigit(s, f[0], 0);
    assert s[0] != 'i' && s[0] != '-' && s[0] != 'e' && s[0] != 'n' && s[0] != 't' && s[0] != 'y' && s[0] != ' ';
  }

  lemma StampParsed(s: string, f: seq<nat>, around: Surroundings, offset: int)
    requires |f| == 6 && IsStamp(s, f) && (|s| > 19 ==> s[19] != ' ') && ReadOffset(s, 19) == Some(offset)
    ensures ParseIso(s, around) == Assemble(f, offset)
  {
    ParsedAsNumbers(s, f, around);
    StampRead(s, f, 0);
    assert f[0..] == f;
  }

  lemma RestFollows(s: string, rest: string)
    requires |s| >= 19 && s[19..] == rest
    ensures |s| == 19 + |rest| && (rest != "" ==> s[19] == rest[0])
  {
  }

  lemma TimeParsed(seconds: int, useTseparator: bool, rest: string, s: string, around: Surroundings, offset: int,
                   t: PTime)
    requires t == At(seconds - offset)
    requires HasDate(At(seconds)) && s == IsoText(At(seconds), useTseparator, false) + rest
    requires |s| >= 19 && (rest != "" ==> rest[0] != ' ')
    requires ReadOffset(s, 19) == Some(offset)
    ensures ParseIso(s, around) == Some(t)
  {
    TextIsStamp(seconds, useTseparator, rest, s);
    RestFollows(s, rest);
    StampParsed(s, FieldsOf(seconds), around, offset);
    Reassembled(seconds, offset);
  }

  lemma RestIsLast(seconds: int, useTseparator: bool, rest: string, s: string)
    requires HasDate(At(seconds)) && s == IsoText(At(seconds), useTseparator, false) + rest
    ensures |s| >= 19 && s[19..] == rest
  {
    TextIsStamp(seconds, useTseparator, rest, s);
  }

  lemma NoOffset(s: string, rest: string)
    requires |s| >= 19 && s[19..] == rest && (rest == "" || rest == "Z")
    ensures ReadOffset(s, 19) == Some(0)
  {
    RestFollows(s, rest);
  }

  lemma ZoneMark(seconds: int, useTseparator: bool, markAsZulu: bool)
    requires HasDate(At(seconds))
    ensures IsoText(At(seconds), useTseparator, markAsZulu)
         == IsoText(At(seconds), useTseparator, false) + (if markAsZulu then "Z" else "")
  {
    var text := IsoText(At(seconds), useTseparator, false);
    assert text + "" == text;
  }

  lemma TimeReadBack(seconds: int, useTseparator: bool, markAsZulu: bool, s: string, around: Surroundings)
    requires HasDate(At(seconds)) && s == IsoText(At(seconds), useTseparator, markAsZulu)
    ensures ParseIso(s, around) == Some(At(seconds))
  {
    var rest := if markAsZulu then "Z" else "";
    ZoneMark(seconds, useTseparator, markAsZulu);
    RestIsLast(seconds, useTseparator, rest, s);
    NoOffset(s, rest);
    TimeParsed(seconds, useTseparator, rest, s, around, 0, At(seconds));
  }

  /** Printed times are read back, with either separator and with or without the zone mark;
      not-a-date-time is printed as nothing, and nothing cannot be read. */
  lemma RoundTrip(t: PTime, useTseparator: bool, markAsZulu: bool, around: Surroundings)
    requires HasDate(t)
    ensures ParseIso(IsoText(t, useTseparator, markAsZulu), around) == if t.NotADateTime? then None else Some(t)
  {
    match t
    case At(seconds) => TimeReadBack(seconds, useTseparator, markAsZulu, IsoText(t, useTseparator, markAsZulu), around);
    case _ =>
  }

  /** The keywords for a day: today is the day of the present moment from its start, the others
      are the days before and after. */
  lemma DayKeywords(around: Surroundings) returns (start: int)
    ensures start <= around.now < start + 86400 && start % 86400 == 0
    ensures ParseIso("now", around) == Some(At(around.now))
    ensures ParseIso("today", around) == Some(At(start))
    ensures ParseIso("tomorrow", around) == Some(At(start + 86400))
    ensures ParseIso("yesterday", around) == Some(At(start - 86400))
  {
    start := around.now - around.now % 86400;
    DayStarts(around.now);
  }

  lemma DayStarts(now: int)
    ensures StartOfDay(now + DAY) == At(now - now % DAY + DAY)
    ensures StartOfDay(now - DAY) == At(now - now % DAY - DAY)
    ensures (now - now % DAY) % DAY == 0
  {
  }

  /** The keyword means second 0, the start of 1970-01-01, and is read like that time as text. */
  lemma EpochIs(t: PTime, useTseparator: bool, markAsZulu: bool, around: Surroundings)
    requires t == TimeOf(Date(1970, 1, 1), 0)
    ensures t == At(0) && HasDate(t)
    ensures ParseIso("epoch", around) == ParseIso(IsoText(t, useTseparator, markAsZulu), around) == Some(t)
  {
    EpochDay();
    RoundTrip(t, useTseparator, markAsZulu, around);
  }

  // ---------------------------------------------------------------- times that are cut off

  /** The first n fields of a time stamp, with nothing after them. */
  predicate IsStart(s: string, f: seq<nat>, n: nat)
    requires |f| == 6 && 1 <= n <= 6
  {
    && |s| == Position(n - 1) + Field(n - 1).chars
    && f[n - 1] < Power(Field(n - 1).chars) && s[Position(n - 1)..] == Pad(f[n - 1], Field(n - 1).chars)
    && (forall k: nat | k < n - 1 :: IsField(s, f[k], k))
    && (forall k: nat | n <= k < 6 :: f[k] == 0)
  }

  lemma EndRead(s: string, f: seq<nat>, n: nat)
    requires |f| == 6 && 1 <= n <= 6 && IsStart(s, f, n)
    ensures ReadFields(s, Position(n - 1), n - 1) == if n < 3 then None else Some((f[n - 1..], |s|))
  {
    var k := n - 1;
    var i := Position(k);
    assert s[i..i + Field(k).chars] == s[i..];
    FieldIs(s, i, Field(k).chars, f[k]);
    assert SkipFrom(s, |s|, Field(k).nextSep) == |s|;
    assert Field(k).mustHaveNext <==> n < 3;
    if n >= 3 {
      assert [f[k]] + Zeros(5 - k) == f[k..];
    }
  }

  lemma LastDigit(s: string, f: seq<nat>, n: nat, k: nat)
    requires |f| == 6 && 1 <= n <= 6 && IsStart(s, f, n) && k < n
    ensures Position(k) < |s| && IsDigit(s[Position(k)])
  {
    if k == n - 1 {
      assert s[Position(k)] == s[Position(k)..][0];
    } else {
      FieldDigit(s, f[k], k);
    }
  }

  lemma {:induction false} StartRead(s: string, f: seq<nat>, n: nat, k: nat)
    requires |f| == 6 && 1 <= n <= 6 && IsStart(s, f, n) && k < n
    ensures ReadFields(s, Position(k), k) == if n < 3 then None else Some((f[k..], |s|))
    decreases n - k
  {
    if k == n - 1 {
      EndRead(s, f, n);
    } else {
      StartRead(s, f, n, k + 1);
      NextStartRead(s, f, n, k);
    }
  }

  lemma NextStartRead(s: string, f: seq<nat>, n: nat, k: nat)
    requires |f| == 6 && 1 <= n <= 6 && IsStart(s, f, n) && k + 1 < n
    requires ReadFields(s, Position(k + 1), k + 1) == if n < 3 then None else Some((f[k + 1..], |s|))
    ensures ReadFields(s, Position(k), k) == if n < 3 then None else Some((f[k..], |s|))
  {
    LastDigit(s, f, n, k + 1);
    NextPosition(k);
    assert IsField(s, f[k], k);
    if n >= 3 {
      FieldRead(s, Position(k), k, f, |s|);
    } else {
      FieldReadNone(s, Position(k), k, f[k]);
    }
  }

  /** A field before fields that cannot be read. */
  lemma FieldReadNone(s: string, i: nat, k: nat, v: nat)
    requires k < 5 && v < Power(Field(k).chars)
    requires var j := i + Field(k).chars;
             && j + 1 < |s| && s[i..j] == Pad(v, Field(k).chars) && s[j] in Field(k).nextSep && IsDigit(s[j + 1])
             && ReadFields(s, j + 1, k + 1) == None
    ensures ReadFields(s, i, k) == None
  {
    FieldIs(s, i, Field(k).chars, v);
    SkipOne(s, i + Field(k).chars, Field(k).nextSep);
  }

  lemma DigitsParsed(s: string, around: Surroundings)
    requires s != "" && IsDigit(s[0])
    ensures ParseIso(s, around) == ParseNumbers(s, 0)
  {
    assert s[0] != 'i' && s[0] != '-' && s[0] != 'e' && s[0] != 'n' && s[0] != 't' && s[0] != 'y' && s[0] != ' ';
  }

  lemma StartParsed(s: string, f: seq<nat>, n: nat, around: Surroundings)
    requires |f| == 6 && 1 <= n <= 6 && IsStart(s, f, n)
    ensures ParseIso(s, around) == if n < 3 then None else Assemble(f, 0)
  {
    LastDigit(s, f, n, 0);
    DigitsParsed(s, around);
    StartRead(s, f, n, 0);
    assert f[0..] == f;
  }

  /** The fields of a time of which only the first n count. */
  function FirstFields(f: seq<nat>, n: nat): (r: seq<nat>)
    requires |f| == 6 && n <= 6
    ensures |r| == 6 && forall k | 0 <= k < 6 :: r[k] == if k < n then f[k] else 0
  {
    f[..n] + Zeros(6 - n)
  }

  lemma StampStart(s: string, f: seq<nat>, n: nat)
    requires |f| == 6 && 1 <= n <= 6 && IsStamp(s, f)
    ensures Position(n - 1) + Field(n - 1).chars <= |s|
    ensures IsStart(s[..Position(n - 1) + Field(n - 1).chars], FirstFields(f, n), n)
  {
    StampField(s, f, n - 1);
    var start := s[..Position(n - 1) + Field(n - 1).chars];
    assert start[Position(n - 1)..] == s[Position(n - 1)..Position(n - 1) + Field(n - 1).chars];
    forall k: nat | k < n - 1
      ensures IsField(start, f[k], k)
    {
      StampField(s, f, k);
      FieldInside(k, n - 1);
      assert start[Position(k)..Position(k) + Field(k).chars] == s[Position(k)..Position(k) + Field(k).chars];
    }
  }

  lemma FieldInside(k: nat, n: nat)
    requires k < n < 6
    ensures Position(k) + Field(k).chars < Position(n)
  {
  }

  /** How far back a time is set that is given up to its day, hour, minute or second. */
  function Unit(n: nat): (seconds: nat) {
    if n == 3 then DAY else if n == 4 then HOUR else if n == 5 then 60 else 1
  }

  lemma DayParts(x: int, a: int, r: int)
    requires x == 86400 * a + r && 0 <= r < 86400
    ensures x / DAY == a && x % DAY == r
  {
  }

  lemma HourParts(x: int, a: int, r: int)
    requires x == 3600 * a + r && 0 <= r < 3600
    ensures x / HOUR == a && x % HOUR == r
  {
  }

  lemma MinuteParts(x: int, a: int, r: int)
    requires x == 60 * a + r && 0 <= r < 60
    ensures x / 60 == a && x % 60 == r
  {
  }

  /** Hours, minutes and seconds of a time of day. */
  lemma ClockIs(t: int, h: int, m: int, s: int)
    requires t == 3600 * h + 60 * m + s && 0 <= h && 0 <= m < 60 && 0 <= s < 60
    ensures t / HOUR == h && t / 60 % 60 == m && t % 60 == s
  {
    HourParts(t, h, 60 * m + s);
    MinuteParts(t, 60 * h + m, s);
    MinuteParts(60 * h + m, h, m);
  }

  predicate IsMoment(seconds: int, day: int, h: int, m: int, s: int) {
    && seconds == 86400 * day + 3600 * h + 60 * m + s
    && 0 <= h < 24 && 0 <= m < 60 && 0 <= s < 60
  }

  lemma MomentIs(seconds: int, day: int, h: int, m: int, s: int)
    requires IsMoment(seconds, day, h, m, s)
    ensures DayOf(seconds) == day + EPOCH
    ensures var t := seconds % DAY; t / HOUR == h && t / 60 % 60 == m && t % 60 == s
    ensures seconds % DAY == 3600 * h + 60 * m + s && seconds % HOUR == 60 * m + s && seconds % 60 == s
  {
    DayParts(seconds, day, 3600 * h + 60 * m + s);
    HourParts(seconds, 24 * day + h, 60 * m + s);
    MinuteParts(seconds, 1440 * day + 60 * h + m, s);
    ClockIs(3600 * h + 60 * m + s, h, m, s);
  }

  lemma MomentOf(seconds: int) returns (day: int, h: int, m: int, s: int)
    ensures IsMoment(seconds, day, h, m, s)
  {
    day := seconds / 86400;
    var t := seconds - 86400 * day;
    h := t / 3600;
    var r := t - 3600 * h;
    m := r / 60;
    s := r - 60 * m;
  }

  lemma CutSeconds(seconds: int, n: nat)
    requires 3 <= n <= 6
    ensures DayOf(seconds - seconds % Unit(n)) == DayOf(seconds)
    ensures var t, u := seconds % DAY, (seconds - seconds % Unit(n)) % DAY;
            && u / HOUR == (if n < 4 then 0 else t / HOUR)
            && u / 60 % 60 == (if n < 5 then 0 else t / 60 % 60)
            && u % 60 == (if n < 6 then 0 else t % 60)
  {
    var day, h, m, s := MomentOf(seconds);
    MomentIs(seconds, day, h, m, s);
    if n == 3 {
      MomentIs(seconds - seconds % DAY, day, 0, 0, 0);
    } else if n == 4 {
      MomentIs(seconds - seconds % HOUR, day, h, 0, 0);
    } else if n == 5 {
      MomentIs(seconds - seconds % 60, day, h, m, 0);
    } else {
      assert seconds % 1 == 0;
    }
  }

  /** A printed time of which the last parts are cut off is read as the start of that day,
      hour or minute; a year or month alone is not read. */
  lemma CutOff(seconds: int, useTseparator: bool, n: nat, around: Surroundings)
    requires HasDate(At(seconds)) && 1 <= n <= 6
    ensures var s := IsoText(At(seconds), useTseparator, false);
            && Position(n - 1) + Field(n - 1).chars <= |s|
            && ParseIso(s[..Position(n - 1) + Field(n - 1).chars], around)
               == if n < 3 then None else Some(At(seconds - seconds % Unit(n)))
  {
    var s, f := IsoText(At(seconds), useTseparator, false), FieldsOf(seconds);
    assert s + "" == s;
    TextIsStamp(seconds, useTseparator, "", s);
    StampStart(s, f, n);
    StartParsed(s[..Position(n - 1) + Field(n - 1).chars], FirstFields(f, n), n, around);
    if n >= 3 {
      CutAssembled(seconds, n);
    }
  }

  lemma CutAssembled(seconds: int, n: nat)
    requires HasDate(At(seconds)) && 3 <= n <= 6
    ensures Assemble(FirstFields(FieldsOf(seconds), n), 0) == Some(At(seconds - seconds % Unit(n)))
  {
    var cut := seconds - seconds % Unit(n);
    CutSeconds(seconds, n);
    assert FirstFields(FieldsOf(seconds), n) == FieldsOf(cut);
    Reassembled(cut, 0);
  }

  /** The UTC offset after a time: its sign, hours and minutes. */
  function OffsetText(minus: bool, hours: nat, minutes: nat): (s: string) {
    (if minus then "-" else "+") + Pad(hours, 2) + Pad(minutes, 2)
  }

  lemma OffsetRead(s: string, minus: bool, hours: nat, minutes: nat)
    requires |s| >= 19 && hours < 100 && minutes < 100 && s[19..] == OffsetText(minus, hours, minutes)
    ensures ReadOffset(s, 19) == Some(Duration(Signed(minus, hours), minutes))
  {
    var o := OffsetText(minus, hours, minutes);
    assert |s| == 24 && Power(2) == 100;
    assert s[19] == o[0] && s[20] == o[1] && s[22] == o[3];
    assert s[20..22] == o[1..3] == Pad(hours, 2);
    assert s[22..24] == o[3..5] == Pad(minutes, 2);
    NumberOfPad(hours, 2);
    NumberOfPad(minutes, 2);
    assert o[1] == Pad(hours, 2)[0] && o[3] == Pad(minutes, 2)[0];
  }

  lemma DurationIs(seconds: int, minus: bool, hours: nat, minutes: nat)
    ensures Some(At(seconds - Duration(Signed(minus, hours), minutes)))
         == Some(At(seconds - Signed(minus, hours * HOUR + minutes * 60)))
       <==> !(minus && hours == 0 && minutes > 0)
  {
  }

  lemma OffsetParsed(seconds: int, minus: bool, hours: nat, minutes: nat, s: string, around: Surroundings, t: PTime)
    requires HasDate(At(seconds)) && hours < 100 && minutes < 100
    requires s == IsoText(At(seconds), true, false) + OffsetText(minus, hours, minutes)
    requires t == At(seconds - Duration(Signed(minus, hours), minutes))
    ensures ParseIso(s, around) == Some(t)
  {
    var rest := OffsetText(minus, hours, minutes);
    RestIsLast(seconds, true, rest, s);
    OffsetRead(s, minus, hours, minutes);
    TimeParsed(seconds, true, rest, s, around, Duration(Signed(minus, hours), minutes), t);
  }

  lemma HoursRead(s: string, minus: bool, hours: nat)
    requires |s| >= 19 && hours < 100 && s[19..] == (if minus then "-" else "+") + Pad(hours, 2)
    ensures ReadOffset(s, 19) == Some(Duration(Signed(minus, hours), 0))
  {
    var o := (if minus then "-" else "+") + Pad(hours, 2);
    assert |s| == 22 && Power(2) == 100;
    assert s[19] == o[0] && s[20] == o[1];
    assert s[20..22] == o[1..3] == Pad(hours, 2);
    NumberOfPad(hours, 2);
    assert o[1] == Pad(hours, 2)[0];
  }

  /** An offset of whole hours may be given without minutes, and is always read right. */
  lemma HoursExactly(seconds: int, minus: bool, hours: nat, rest: string, s: string, around: Surroundings, t: PTime)
    requires HasDate(At(seconds)) && hours < 100 && rest == (if minus then "-" else "+") + Pad(hours, 2)
    requires s == IsoText(At(seconds), true, false) + rest && t == At(seconds - Signed(minus, hours * HOUR))
    ensures ParseIso(s, around) == Some(t)
  {
    RestIsLast(seconds, true, rest, s);
    HoursRead(s, minus, hours);
    DurationIs(seconds, minus, hours, 0);
    TimeParsed(seconds, true, rest, s, around, Duration(Signed(minus, hours), 0), t);
  }

  /** A local time with its UTC offset is read as the time that it denotes, except that a
      negative offset of less than an hour is taken for a positive one. */
  lemma OffsetExactly(seconds: int, minus: bool, hours: nat, minutes: nat, around: Surroundings)
    requires HasDate(At(seconds)) && hours < 100 && minutes < 100
    ensures ParseIso(IsoText(At(seconds), true, false) + OffsetText(minus, hours, minutes), around)
            == Some(At(seconds - Signed(minus, hours * HOUR + minutes * 60)))
       <==> !(minus && hours == 0 && minutes > 0)
  {
    OffsetParsed(seconds, minus, hours, minutes,
                 IsoText(At(seconds), true, false) + OffsetText(minus, hours, minutes), around,
                 At(seconds - Duration(Signed(minus, hours), minutes)));
    DurationIs(seconds, minus, hours, minutes);
  }
}
