/** Splitting a line at a separator; text between two protector characters is not split. */
module SplitStr {
  import opened Text

  /** What the scan remembers: the character before, and whether it is inside a string. */
  datatype Scan = Scan(ch: char, inString: bool)

  const START := Scan('\0', false)

  predicate Toggles(st: Scan, c: char, protector: char) {
    c == protector && st.ch != '\\'
  }

  function Next(st: Scan, c: char, protector: char): (r: Scan) {
    Scan(c, if Toggles(st, c, protector) then !st.inString else st.inString)
  }

  predicate Separates(st: Scan, c: char, sep: char, protector: char) {
    c == sep && !st.inString && !Toggles(st, c, protector)
  }

  /** How often the rest of a line is split. */
  function Separators(s: string, st: Scan, sep: char, protector: char): (n: nat) {
    if s == "" then 0
    else
      (if Separates(st, s[0], sep, protector) then 1 else 0)
      + Separators(s[1..], Next(st, s[0], protector), sep, protector)
  }

  /** The elements of the rest of a line; `elem` is what the current one holds already. */
  function Elements(s: string, st: Scan, elem: string, sep: char, protector: char): (r: seq<string>) {
    if s == "" then [Trim(elem)]
    else
      var next := Next(st, s[0], protector);
      if Separates(st, s[0], sep, protector) then [Trim(elem)] + Elements(s[1..], next, "", sep, protector)
      else Elements(s[1..], next, elem + [s[0]], sep, protector)
  }

  function Split(s: string, sep: char, protector: char): (r: seq<string>) {
    Elements(s, START, "", sep, protector)
  }

  /** One element more than there are separators, so the vector of that size holds them all. */
  lemma {:induction false} ElementsCount(s: string, st: Scan, elem: string, sep: char, protector: char)
    ensures |Elements(s, st, elem, sep, protector)| == Separators(s, st, sep, protector) + 1
  {
    if s == "" {
    } else {
      var next := Next(st, s[0], protector);
      ElementsCount(s[1..], next, if Separates(st, s[0], sep, protector) then "" else elem + [s[0]], sep, protector);
    }
  }

  /** `count` */
  method Count(str: string, sep: char, protector: char) returns (cnt: nat)
    ensures cnt == Separators(str, START, sep, protector)
  {
    var ch, inString := '\0', false;
    cnt := 0;
    for i := 0 to |str|
      invariant Separators(str, START, sep, protector) == cnt + Separators(str[i..], Scan(ch, inString), sep, protector)
    {
      assert str[i..][0] == str[i] && str[i..][1..] == str[i + 1..];
      if str[i] == protector && ch != '\\' {
        inString := !inString;
      } else if str[i] == sep && !inString {
        cnt := cnt + 1;
      }
      ch := str[i];
    }
  }

  /** `splitstr` */
  method SplitString(str: string, sep: char, protector: char) returns (r: seq<string>)
    ensures r == Split(str, sep, protector)
  {
    var n := Count(str, sep, protector);
    var data := new string[n + 1](_ => "");
    var ch, inString, elem, i := '\0', false, "", 0;
    ghost var all := Split(str, sep, protector);
    assert data[..0] + all == all && str[0..] == str;
    for k := 0 to |str|
      invariant 0 <= i && i + Separators(str[k..], Scan(ch, inString), sep, protector) == n
      invariant all == data[..i] + Elements(str[k..], Scan(ch, inString), elem, sep, protector)
    {
      var c := str[k];
      assert str[k..][0] == c && str[k..][1..] == str[k + 1..];
      ghost var rest := Elements(str[k + 1..], Next(Scan(ch, inString), c, protector), "", sep, protector);
      if c == protector && ch != '\\' {
        elem := elem + [c];
        ch := c;
        inString := !inString;
      } else {
        ch := c;
        if inString || c != sep {
          elem := elem + [c];
        } else {
          ElementPlaced(data[..i], Trim(elem), rest);
          data[i] := Trim(elem);
          i := i + 1;
          elem := "";
        }
      }
    }
    data[i] := Trim(elem);
    assert data[..i] + [data[i]] == data[..];
    r := data[..];
  }

  lemma ElementPlaced(before: seq<string>, elem: string, rest: seq<string>)
    ensures before + ([elem] + rest) == before + [elem] + rest
  {
  }

  // ---------------------------------------------------------------- splitting what was joined

  /** Text in which nothing separates or protects. */
  predicate IsPlain(s: string, sep: char, protector: char) {
    sep !in s && protector !in s
  }

  function Join(fields: seq<string>, sep: char): (r: string)
    requires fields != []
  {
    if |fields| == 1 then fields[0] else fields[0] + [sep] + Join(fields[1..], sep)
  }

  lemma {:induction false} PlainIsTaken(s: string, rest: string, st: Scan, elem: string, sep: char, protector: char)
    requires IsPlain(s, sep, protector) && !st.inString
    ensures var ch := if s == "" then st.ch else s[|s| - 1];
            Elements(s + rest, st, elem, sep, protector) == Elements(rest, Scan(ch, false), elem + s, sep, protector)
  {
    if s == "" {
      assert s + rest == rest && elem + s == elem;
    } else {
      assert (s + rest)[0] == s[0] && (s + rest)[1..] == s[1..] + rest;
      assert elem + [s[0]] + s[1..] == elem + s;
      assert s[0] in s && forall c | c in s[1..] :: c in s;
      PlainIsTaken(s[1..], rest, Next(st, s[0], protector), elem + [s[0]], sep, protector);
    }
  }

  /** Splitting gives back the fields that were joined. */
  lemma {:induction false} SplitJoin(fields: seq<string>, st: Scan, sep: char, protector: char)
    requires fields != [] && sep != protector && !st.inString
    requires forall i | 0 <= i < |fields| :: IsPlain(fields[i], sep, protector) && IsTrimmed(fields[i])
    ensures Elements(Join(fields, sep), st, "", sep, protector) == fields
  {
    var first := fields[0];
    assert "" + first == first;
    if |fields| == 1 {
      assert first + "" == first;
      PlainIsTaken(first, "", st, "", sep, protector);
    } else {
      var rest := Join(fields[1..], sep);
      assert Join(fields, sep) == first + ([sep] + rest);
      PlainIsTaken(first, [sep] + rest, st, "", sep, protector);
      var ch := if first == "" then st.ch else first[|first| - 1];
      assert ([sep] + rest)[1..] == rest;
      SplitJoin(fields[1..], Next(Scan(ch, false), sep, protector), sep, protector);
    }
  }

  // ---------------------------------------------------------------- protected text

  /** A field with a part between protectors, in which separators do not count. */
  datatype Protected = Protected(before: string, quoted: string, after: string) {
    function Text(protector: char): (r: string) {
      before + ([protector] + (quoted + ([protector] + after)))
    }

    /** Neither protector is escaped, and nothing outside of them separates or protects. */
    predicate IsProtected(sep: char, protector: char) {
      && IsPlain(before, sep, protector) && IsPlain(after, sep, protector) && protector !in quoted
      && (before != "" ==> before[|before| - 1] != '\\')
      && (quoted != "" ==> quoted[|quoted| - 1] != '\\')
    }
  }

  lemma {:induction false} QuotedIsTaken(s: string, rest: string, st: Scan, elem: string, sep: char, protector: char)
    requires protector !in s && st.inString
    ensures var ch := if s == "" then st.ch else s[|s| - 1];
            Elements(s + rest, st, elem, sep, protector) == Elements(rest, Scan(ch, true), elem + s, sep, protector)
  {
    if s == "" {
      assert s + rest == rest && elem + s == elem;
    } else {
      assert (s + rest)[0] == s[0] && (s + rest)[1..] == s[1..] + rest;
      assert elem + [s[0]] + s[1..] == elem + s;
      assert s[0] in s && forall c | c in s[1..] :: c in s;
      QuotedIsTaken(s[1..], rest, Next(st, s[0], protector), elem + [s[0]], sep, protector);
    }
  }

  lemma ProtectorIsTaken(rest: string, st: Scan, elem: string, sep: char, protector: char)
    requires st.ch != '\\'
    ensures Elements([protector] + rest, st, elem, sep, protector)
         == Elements(rest, Scan(protector, !st.inString), elem + [protector], sep, protector)
  {
    assert ([protector] + rest)[1..] == rest;
  }

  /** A protected field is taken as a whole, separators and all. */
  lemma FieldIsTaken(f: Protected, rest: string, st: Scan, elem: string, sep: char, protector: char) returns (ch: char)
    requires f.IsProtected(sep, protector) && !st.inString && st.ch != '\\' && protector != '\\'
    ensures Elements(f.Text(protector) + rest, st, elem, sep, protector)
         == Elements(rest, Scan(ch, false), elem + f.Text(protector), sep, protector)
    ensures ch == if f.after == "" then protector else f.after[|f.after| - 1]
  {
    var closing := [protector] + (f.after + rest);
    var opening := [protector] + (f.quoted + closing);
    assert f.Text(protector) + rest == f.before + opening;
    PlainIsTaken(f.before, opening, st, elem, sep, protector);
    var ch1 := if f.before == "" then st.ch else f.before[|f.before| - 1];
    ProtectorIsTaken(f.quoted + closing, Scan(ch1, false), elem + f.before, sep, protector);
    var e1 := elem + f.before + [protector];
    QuotedIsTaken(f.quoted, closing, Scan(protector, true), e1, sep, protector);
    var ch2 := if f.quoted == "" then protector else f.quoted[|f.quoted| - 1];
    ProtectorIsTaken(f.after + rest, Scan(ch2, true), e1 + f.quoted, sep, protector);
    var e2 := e1 + f.quoted + [protector];
    PlainIsTaken(f.after, rest, Scan(protector, false), e2, sep, protector);
    ch := if f.after == "" then protector else f.after[|f.after| - 1];
    assert e2 + f.after == elem + f.Text(protector);
  }

  function Texts(fields: seq<Protected>, protector: char): (r: seq<string>)
    ensures |r| == |fields| && forall i | 0 <= i < |fields| :: r[i] == fields[i].Text(protector)
  {
    seq(|fields|, i requires 0 <= i < |fields| => fields[i].Text(protector))
  }

  lemma LastField(f: Protected, st: Scan, sep: char, protector: char)
    requires f.IsProtected(sep, protector) && IsTrimmed(f.Text(protector))
    requires !st.inString && st.ch != '\\' && protector != '\\'
    ensures Elements(f.Text(protector), st, "", sep, protector) == [f.Text(protector)]
  {
    var text := f.Text(protector);
    assert text + "" == text && "" + text == text;
    var ch := FieldIsTaken(f, "", st, "", sep, protector);
    TrimmedStays(text);
  }

  lemma FieldThenSeparator(f: Protected, rest: string, st: Scan, sep: char, protector: char)
    requires f.IsProtected(sep, protector) && IsTrimmed(f.Text(protector)) && sep != protector
    requires !st.inString && st.ch != '\\' && protector != '\\'
    ensures Elements(f.Text(protector) + ([sep] + rest), st, "", sep, protector)
         == [f.Text(protector)] + Elements(rest, Scan(sep, false), "", sep, protector)
  {
    var text := f.Text(protector);
    assert "" + text == text;
    var ch := FieldIsTaken(f, [sep] + rest, st, "", sep, protector);
    assert ([sep] + rest)[1..] == rest;
    TrimmedStays(text);
  }

  /** Splitting gives back protected fields that were joined. */
  lemma {:induction false} SplitJoinProtected(fields: seq<Protected>, st: Scan, sep: char, protector: char)
    requires fields != [] && sep != protector && sep != '\\' && protector != '\\' && !st.inString && st.ch != '\\'
    requires forall i | 0 <= i < |fields| ::
               fields[i].IsProtected(sep, protector) && IsTrimmed(fields[i].Text(protector))
    ensures Elements(Join(Texts(fields, protector), sep), st, "", sep, protector) == Texts(fields, protector)
  {
    var texts := Texts(fields, protector);
    if |fields| == 1 {
      LastField(fields[0], st, sep, protector);
    } else {
      var rest := Texts(fields[1..], protector);
      assert texts[1..] == rest;
      JoinMore(texts, sep);
      FieldThenSeparator(fields[0], Join(rest, sep), st, sep, protector);
      SplitJoinProtected(fields[1..], Scan(sep, false), sep, protector);
      assert texts == [texts[0]] + rest;
    }
  }

  lemma JoinMore(fields: seq<string>, sep: char)
    requires |fields| > 1
    ensures Join(fields, sep) == fields[0] + ([sep] + Join(fields[1..], sep))
  {
  }

  lemma TrimmedStays(s: string)
    requires IsTrimmed(s)
    ensures Trim(s) == s
  {
  }
}
