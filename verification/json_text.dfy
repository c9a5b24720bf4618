/**
 String escaping in both directions: the bridge's `escape` and `parse_json_string_at`, and the robot's
 own `esc` and the string loop of its extractor. Legality is that of RFC 8259, section 7.
 */
module JsonText {
  import opened Wrappers

  const QUOTE := "\""
  const CONTROL_END := ' ' // U+0020

  predicate IsControl(c: char) {
    c < CONTROL_END
  }

  predicate ShortControl(c: char) {
    c == '\n' || c == '\r' || c == '\t'
  }

  // ----- the bridge's printer -----

  const HEX := "0123456789abcdef"

  /** The two low digits of %04x for a control character. */
  function Hex2(c: char): (s: string)
    requires IsControl(c)
    ensures |s| == 2
  {
    [HEX[c as int / 16], HEX[c as int % 16]]
  }

  function EscapeChar(c: char): string {
    if c == '"' then "\\\""
    else if c == '\\' then "\\\\"
    else if c == '\n' then "\\n"
    else if c == '\r' then "\\r"
    else if c == '\t' then "\\t"
    else if IsControl(c) then "\\u00" + Hex2(c)
    else [c]
  }

  function Escape(s: string): string {
    if s == "" then "" else EscapeChar(s[0]) + Escape(s[1..])
  }

  lemma {:induction false} EscapeSnoc(s: string, c: char)
    ensures Escape(s + [c]) == Escape(s) + EscapeChar(c)
  {
    if s == "" {
      assert [c][1..] == "";
      assert s + [c] == [c];
      assert EscapeChar(c) + "" == EscapeChar(c);
    } else {
      assert (s + [c])[1..] == s[1..] + [c];
      EscapeSnoc(s[1..], c);
      assert EscapeChar(s[0]) + (Escape(s[1..]) + EscapeChar(c)) == EscapeChar(s[0]) + Escape(s[1..]) + EscapeChar(c);
    }
  }

  method EscapeString(s: string) returns (out: string)
    ensures out == Escape(s)
  {
    out := "";
    for i := 0 to |s|
      invariant out == Escape(s[..i])
    {
      var c := s[i];
      assert s[..i + 1] == s[..i] + [c];
      EscapeSnoc(s[..i], c);
      match c {
        case '"' => out := out + "\\\"";
        case '\\' => out := out + "\\\\";
        case '\n' => out := out + "\\n";
        case '\r' => out := out + "\\r";
        case '\t' => out := out + "\\t";
        case _ =>
          if c < CONTROL_END {
            out := out + "\\u00" + Hex2(c);
          } else {
            out := out + [c];
          }
      }
    }
    assert s[..|s|] == s;
  }

  // ----- the bridge's parser -----

  function UnescapeChar(e: char): char {
    if e == 'n' then '\n' else if e == 't' then '\t' else if e == 'r' then '\r' else e
  }

  function Cons(c: char, r: Option<string>): Option<string> {
    if r.None? then None else Some([c] + r.value)
  }

  /** The string that ends at the first unescaped quote of t; None when there is none. */
  function Unquote(t: string): Option<string>
    decreases |t|
  {
    if t == "" then None
    else if t[0] == '\\' then (if |t| < 2 then None else Cons(UnescapeChar(t[1]), Unquote(t[2..])))
    else if t[0] == '"' then Some("")
    else Cons(t[0], Unquote(t[1..]))
  }

  function ParseStringAt(s: string, i: nat): Option<string> {
    if i >= |s| || s[i] != '"' then None else Unquote(s[i + 1..])
  }

  function Prepend(p: string, r: Option<string>): Option<string> {
    if r.None? then None else Some(p + r.value)
  }

  lemma PrependCons(p: string, c: char, r: Option<string>)
    ensures Prepend(p, Cons(c, r)) == Prepend(p + [c], r)
  {
    if r.Some? {
      assert p + ([c] + r.value) == p + [c] + r.value;
    }
  }

  lemma PrependNothing(r: Option<string>)
    ensures Prepend("", r) == r
  {
    if r.Some? {
      assert "" + r.value == r.value;
    }
  }

  method ParseJsonStringAt(s: string, at: nat) returns (ok: bool, out: string)
    ensures ok == ParseStringAt(s, at).Some?
    ensures ok ==> ParseStringAt(s, at) == Some(out)
  {
    out := "";
    if at >= |s| || s[at] != '"' {
      return false, out;
    }
    var i := at + 1;
    PrependNothing(Unquote(s[i..]));
    while i < |s|
      invariant at + 1 <= i <= |s|
      invariant ParseStringAt(s, at) == Prepend(out, Unquote(s[i..]))
    {
      var c := s[i];
      var t := s[i..];
      if c == '\\' {
        if i + 1 >= |s| {
          return false, out;
        }
        var e := s[i + 1];
        assert t[2..] == s[i + 2..];
        PrependCons(out, UnescapeChar(e), Unquote(t[2..]));
        match e {
          case 'n' => out := out + ['\n'];
          case 't' => out := out + ['\t'];
          case 'r' => out := out + ['\r'];
          case _ => out := out + [e];
        }
        i := i + 2;
        continue;
      }
      if c == '"' {
        assert out + "" == out;
        return true, out;
      }
      assert t[1..] == s[i + 1..];
      PrependCons(out, c, Unquote(t[1..]));
      out := out + [c];
      i := i + 1;
    }
    return false, out;
  }

  // ----- the bridge's round trip -----

  /** What comes back: characters escaped as \u00XX lose their meaning and come back as five letters. */
  function Returned(c: char): string {
    if IsControl(c) && !ShortControl(c) then "u00" + Hex2(c) else [c]
  }

  function ReturnedAll(s: string): string {
    if s == "" then "" else Returned(s[0]) + ReturnedAll(s[1..])
  }

  lemma HexPlain(c: char)
    requires IsControl(c)
    ensures forall i :: 0 <= i < 2 ==> Hex2(c)[i] != '\\' && Hex2(c)[i] != '"' && Hex2(c)[i] >= CONTROL_END
  {
  }

  lemma {:induction false} UnquotePlain(p: string, t: string)
    requires forall i :: 0 <= i < |p| ==> p[i] != '\\' && p[i] != '"'
    ensures Unquote(p + t) == Prepend(p, Unquote(t))
  {
    if p == "" {
      assert p + t == t;
      if Unquote(t).Some? {
        assert "" + Unquote(t).value == Unquote(t).value;
      }
    } else {
      assert (p + t)[1..] == p[1..] + t;
      UnquotePlain(p[1..], t);
      if Unquote(t).Some? {
        assert [p[0]] + (p[1..] + Unquote(t).value) == p + Unquote(t).value;
      }
    }
  }

  lemma UnquoteControl(c: char, t: string)
    requires IsControl(c) && !ShortControl(c)
    ensures Unquote(EscapeChar(c) + t) == Prepend(Returned(c), Unquote(t))
  {
    HexPlain(c);
    var p := "00" + Hex2(c);
    assert EscapeChar(c) == ['\\', 'u'] + p;
    UnquoteEscaped('u', p + t);
    Regroup(['\\', 'u'], p, t);
    assert forall i :: 0 <= i < |p| ==> p[i] != '\\' && p[i] != '"';
    UnquotePlain(p, t);
    PrependFront('u', p, Unquote(t));
    assert ['u'] + p == Returned(c);
  }

  lemma UnquoteEscaped(e: char, t: string)
    ensures Unquote(['\\', e] + t) == Cons(UnescapeChar(e), Unquote(t))
  {
    assert (['\\', e] + t)[2..] == t;
  }

  lemma PrependFront(c: char, p: string, r: Option<string>)
    ensures Cons(c, Prepend(p, r)) == Prepend([c] + p, r)
  {
    if r.Some? {
      assert [c] + (p + r.value) == [c] + p + r.value;
    }
  }

  lemma UnquoteTwo(c: char, t: string)
    requires |EscapeChar(c)| == 2
    ensures Unquote(EscapeChar(c) + t) == Cons(c, Unquote(t))
  {
    var w := EscapeChar(c) + t;
    assert w[0] == '\\' && w[1] == EscapeChar(c)[1] && w[2..] == t;
  }

  lemma UnquoteOne(c: char, t: string)
    requires |EscapeChar(c)| == 1
    ensures Unquote(EscapeChar(c) + t) == Cons(c, Unquote(t))
  {
    var w := EscapeChar(c) + t;
    assert w[0] == c && w[1..] == t;
  }

  lemma UnquoteChar(c: char, t: string)
    ensures Unquote(EscapeChar(c) + t) == Prepend(Returned(c), Unquote(t))
  {
    if IsControl(c) && !ShortControl(c) {
      UnquoteControl(c, t);
    } else if |EscapeChar(c)| == 2 {
      UnquoteTwo(c, t);
    } else {
      UnquoteOne(c, t);
    }
  }

  lemma {:induction false} UnquoteEscape(s: string, rest: string)
    ensures Unquote(Escape(s) + QUOTE + rest) == Some(ReturnedAll(s))
  {
    if s == "" {
      assert Escape(s) + QUOTE + rest == QUOTE + rest;
    } else {
      var t := Escape(s[1..]) + QUOTE + rest;
      assert Escape(s) + QUOTE + rest == EscapeChar(s[0]) + t;
      UnquoteEscape(s[1..], rest);
      UnquoteChar(s[0], t);
    }
  }

  predicate OnlyShortControls(s: string) {
    forall i :: 0 <= i < |s| && IsControl(s[i]) ==> ShortControl(s[i])
  }

  lemma {:induction false} ReturnedIff(s: string)
    ensures |ReturnedAll(s)| >= |s|
    ensures ReturnedAll(s) == s <==> OnlyShortControls(s)
  {
    if s == "" {
    } else {
      ReturnedIff(s[1..]);
      assert s == [s[0]] + s[1..];
      assert forall i :: 1 <= i < |s| ==> s[i] == s[1..][i - 1];
      if IsControl(s[0]) && !ShortControl(s[0]) {
        assert |ReturnedAll(s)| > |s|;
      } else {
        assert ReturnedAll(s)[1..] == ReturnedAll(s[1..]);
        SplitControls(s);
      }
    }
  }

  lemma SplitControls(s: string)
    requires s != "" && (IsControl(s[0]) ==> ShortControl(s[0]))
    ensures OnlyShortControls(s) <==> OnlyShortControls(s[1..])
  {
    if OnlyShortControls(s[1..]) {
      forall i | 0 <= i < |s| && IsControl(s[i]) ensures ShortControl(s[i]) {
        if i > 0 {
          assert s[i] == s[1..][i - 1];
        }
      }
    }
  }

  /** Printing and parsing give the string back exactly when its only control characters are newline,
      carriage return and tab. */
  lemma BridgeRoundTripIff(s: string, rest: string)
    ensures ParseStringAt(QUOTE + Escape(s) + QUOTE + rest, 0) == Some(s) <==> OnlyShortControls(s)
  {
    UnquoteEscape(s, rest);
    ReturnedIff(s);
    BehindQuote(Escape(s), rest);
  }

  lemma BehindQuote(e: string, rest: string)
    ensures var t := QUOTE + e + QUOTE + rest; ParseStringAt(t, 0) == Unquote(e + QUOTE + rest)
  {
    assert (QUOTE + e + QUOTE + rest)[1..] == e + QUOTE + rest;
  }

  // ----- legality -----

  predicate HexDigit(c: char) {
    '0' <= c <= '9' || 'a' <= c <= 'f' || 'A' <= c <= 'F'
  }

  /** The inside of a string of RFC 8259, section 7. */
  predicate LegalBody(t: string)
    decreases |t|
  {
    if t == "" then true
    else if t[0] == '\\' then
      && |t| >= 2
      && if t[1] == 'u' then |t| >= 6 && (forall i :: 2 <= i < 6 ==> HexDigit(t[i])) && LegalBody(t[6..])
         else t[1] in "\"\\/bfnrt" && LegalBody(t[2..])
    else t[0] != '"' && !IsControl(t[0]) && LegalBody(t[1..])
  }

  lemma HexLegal(c: char)
    requires IsControl(c)
    ensures HexDigit(Hex2(c)[0]) && HexDigit(Hex2(c)[1])
  {
    HexChar(c as int / 16);
    HexChar(c as int % 16);
  }

  lemma HexChar(d: nat)
    requires d < 16
    ensures HexDigit(HEX[d])
  {
  }

  lemma EscapeCharLegal(c: char, t: string)
    requires LegalBody(t)
    ensures LegalBody(EscapeChar(c) + t)
  {
    var e := EscapeChar(c);
    if IsControl(c) && !ShortControl(c) {
      HexLegal(c);
      assert (e + t)[6..] == t;
      assert (e + t)[4] == Hex2(c)[0] && (e + t)[5] == Hex2(c)[1];
    } else if |e| == 2 {
      assert (e + t)[2..] == t;
    } else {
      assert (e + t)[1..] == t;
    }
  }

  /** The bridge prints legal JSON for every string. */
  lemma {:induction false} EscapeLegal(s: string)
    ensures LegalBody(Escape(s))
  {
    if s == "" {
    } else {
      EscapeLegal(s[1..]);
      EscapeCharLegal(s[0], Escape(s[1..]));
    }
  }

  // ----- the robot's pair -----

  function EscChar(c: char): string {
    if c == '"' || c == '\\' then ['\\', c] else [c]
  }

  function Esc(s: string): string {
    if s == "" then "" else EscChar(s[0]) + Esc(s[1..])
  }

  lemma {:induction false} EscSnoc(s: string, c: char)
    ensures Esc(s + [c]) == Esc(s) + EscChar(c)
  {
    if s == "" {
      assert s + [c] == [c] && [c][1..] == "";
      assert EscChar(c) + "" == EscChar(c);
    } else {
      assert (s + [c])[1..] == s[1..] + [c];
      EscSnoc(s[1..], c);
      Regroup(EscChar(s[0]), Esc(s[1..]), EscChar(c));
    }
  }

  method EscString(s: string) returns (out: string)
    ensures out == Esc(s)
  {
    out := "";
    for i := 0 to |s|
      invariant out == Esc(s[..i])
    {
      var c := s[i];
      assert s[..i + 1] == s[..i] + [c];
      EscSnoc(s[..i], c);
      if c == '"' || c == '\\' {
        out := out + ['\\'];
      }
      out := out + [c];
    }
    assert s[..|s|] == s;
  }

  /** The robot's reader: up to the next unescaped quote, or to the end of the text. */
  function ReadBody(t: string): string
    decreases |t|
  {
    if t == "" || t[0] == '"' then ""
    else if t[0] == '\\' && |t| > 1 then [t[1]] + ReadBody(t[2..])
    else [t[0]] + ReadBody(t[1..])
  }

  lemma Regroup(a: string, b: string, c: string)
    ensures a + (b + c) == a + b + c
  {
  }

  lemma ReadTwo(t: string)
    requires |t| > 1 && t[0] == '\\'
    ensures ReadBody(t) == [t[1]] + ReadBody(t[2..])
  {
  }

  lemma ReadOne(t: string)
    requires t != "" && t[0] != '"' && !(t[0] == '\\' && |t| > 1)
    ensures ReadBody(t) == [t[0]] + ReadBody(t[1..])
  {
  }

  method ReadString(obj: string, at: nat) returns (out: string)
    requires at <= |obj|
    ensures out == ReadBody(obj[at..])
  {
    out := "";
    var i := at;
    ghost var answer := ReadBody(obj[at..]);
    while i < |obj| && obj[i] != '"'
      invariant at <= i <= |obj|
      invariant out + ReadBody(obj[i..]) == answer
    {
      if obj[i] == '\\' && i + 1 < |obj| {
        ReadTwo(obj[i..]);
        assert obj[i..][2..] == obj[i + 2..];
        Regroup(out, [obj[i + 1]], ReadBody(obj[i + 2..]));
        out := out + [obj[i + 1]];
        i := i + 2;
      } else {
        ReadOne(obj[i..]);
        assert obj[i..][1..] == obj[i + 1..];
        Regroup(out, [obj[i]], ReadBody(obj[i + 1..]));
        out := out + [obj[i]];
        i := i + 1;
      }
    }
    assert out + "" == out;
  }

  /** The robot reads back every string it prints. */
  lemma {:induction false} RobotRoundTrip(s: string, rest: string)
    ensures ReadBody(Esc(s) + QUOTE + rest) == s
  {
    if s == "" {
      assert Esc(s) + QUOTE + rest == QUOTE + rest;
    } else {
      var t := Esc(s[1..]) + QUOTE + rest;
      var e := EscChar(s[0]);
      assert Esc(s) + QUOTE + rest == e + t;
      RobotRoundTrip(s[1..], rest);
      assert (e + t)[|e|..] == t;
    }
  }

  predicate NoControls(s: string) {
    forall i :: 0 <= i < |s| ==> !IsControl(s[i])
  }

  lemma NoControlsTail(s: string)
    requires s != ""
    ensures NoControls(s) <==> !IsControl(s[0]) && NoControls(s[1..])
  {
    if NoControls(s[1..]) && !IsControl(s[0]) {
      forall i | 0 <= i < |s| ensures !IsControl(s[i]) {
        if i > 0 {
          assert s[i] == s[1..][i - 1];
        }
      }
    }
  }

  /** The robot's output is legal JSON exactly for strings without control characters. */
  lemma {:induction false} EscLegalIff(s: string)
    ensures LegalBody(Esc(s)) <==> NoControls(s)
  {
    if s == "" {
    } else {
      EscLegalIff(s[1..]);
      NoControlsTail(s);
      var e, t := EscChar(s[0]), Esc(s[1..]);
      assert (e + t)[|e|..] == t;
      if |e| == 2 {
        assert (e + t)[0] == '\\' && (e + t)[1] == s[0];
      }
    }
  }

  lemma ReadControl(c: char, t: string)
    requires IsControl(c)
    ensures var r := ReadBody(EscapeChar(c) + t); r != "" && r[0] != c
  {
    var w := EscapeChar(c) + t;
    assert w[0] == '\\' && w[1] == EscapeChar(c)[1];
  }

  lemma ReadPlain(c: char, t: string)
    requires !IsControl(c)
    ensures ReadBody(EscapeChar(c) + t) == [c] + ReadBody(t)
  {
    var e := EscapeChar(c);
    var w := e + t;
    assert w[|e|..] == t && w[0] == e[0];
    if |e| == 2 {
      assert w[1] == c;
    }
  }

  /** The robot reads what the bridge printed exactly when there are no control characters at all:
      it takes the letter of an escape for the character. */
  lemma {:induction false} BridgeToRobotIff(s: string, rest: string)
    ensures ReadBody(Escape(s) + QUOTE + rest) == s <==> NoControls(s)
  {
    if s == "" {
      assert Escape(s) + QUOTE + rest == QUOTE + rest;
    } else {
      var t := Escape(s[1..]) + QUOTE + rest;
      assert Escape(s) + QUOTE + rest == EscapeChar(s[0]) + t;
      NoControlsTail(s);
      BridgeToRobotIff(s[1..], rest);
      if IsControl(s[0]) {
        ReadControl(s[0], t);
      } else {
        ReadPlain(s[0], t);
        SameHead(s, ReadBody(t));
      }
    }
  }

  lemma SameHead(s: string, r: string)
    requires s != ""
    ensures [s[0]] + r == s <==> r == s[1..]
  {
    assert s == [s[0]] + s[1..];
    assert ([s[0]] + r)[1..] == r;
  }

  // ----- what a string body denotes -----

  function HexValue(c: char): nat
    requires HexDigit(c)
  {
    if '0' <= c <= '9' then c as int - '0' as int
    else if 'a' <= c <= 'f' then c as int - 'a' as int + 10
    else c as int - 'A' as int + 10
  }

  /** The character behind a backslash, by section 7 of RFC 8259. */
  function Escaped(e: char): Option<char> {
    if e == '"' || e == '\\' || e == '/' then Some(e)
    else if e == 'b' then Some(8 as char)
    else if e == 'f' then Some(12 as char)
    else if e == 'n' then Some(10 as char)
    else if e == 'r' then Some(13 as char)
    else if e == 't' then Some(9 as char)
    else None
  }

  /** The string that the inside of a JSON string denotes, by section 7 of RFC 8259; None for an illegal one, and
      for \u escapes beyond U+00FF. */
  function Denotes(t: string): Option<string>
    decreases |t|
  {
    if t == "" then Some("")
    else if t[0] == '\\' then
      if |t| < 2 then None
      else if t[1] == 'u' then
        if |t| >= 6 && t[2] == '0' && t[3] == '0' && HexDigit(t[4]) && HexDigit(t[5])
        then Cons((16 * HexValue(t[4]) + HexValue(t[5])) as char, Denotes(t[6..]))
        else None
      else if Escaped(t[1]).None? then None
      else Cons(Escaped(t[1]).value, Denotes(t[2..]))
    else if t[0] == '"' || IsControl(t[0]) then None
    else Cons(t[0], Denotes(t[1..]))
  }

  lemma HexMeans(c: char)
    requires IsControl(c)
    ensures HexDigit(Hex2(c)[0]) && HexDigit(Hex2(c)[1])
    ensures 16 * HexValue(Hex2(c)[0]) + HexValue(Hex2(c)[1]) == c as int
  {
    HexDigitMeans(c as int / 16);
    HexDigitMeans(c as int % 16);
  }

  lemma HexDigitMeans(d: nat)
    requires d < 16
    ensures HexDigit(HEX[d]) && HexValue(HEX[d]) == d
  {
  }

  lemma EscapeCharDenotes(c: char, t: string)
    ensures Denotes(EscapeChar(c) + t) == Cons(c, Denotes(t))
  {
    var w := EscapeChar(c) + t;
    if IsControl(c) && !ShortControl(c) {
      HexMeans(c);
      assert w[4] == Hex2(c)[0] && w[5] == Hex2(c)[1] && w[6..] == t;
    } else if |EscapeChar(c)| == 2 {
      assert w[1] == EscapeChar(c)[1] && w[2..] == t;
    } else {
      assert w[1..] == t;
    }
  }

  /** What the bridge prints denotes the string it was given, for every string. */
  lemma {:induction false} EscapeDenotes(s: string)
    ensures Denotes(Escape(s)) == Some(s)
  {
    if s == "" {
    } else {
      EscapeDenotes(s[1..]);
      EscapeCharDenotes(s[0], Escape(s[1..]));
      assert [s[0]] + s[1..] == s;
    }
  }

  lemma EscCharDenotes(c: char, t: string)
    ensures Denotes(EscChar(c) + t) == if IsControl(c) then None else Cons(c, Denotes(t))
  {
    var w := EscChar(c) + t;
    if |EscChar(c)| == 2 {
      assert w[1] == c && w[2..] == t;
    } else {
      assert w[1..] == t;
    }
  }

  /** What the robot prints denotes the string it was given exactly when that has no control character. */
  lemma {:induction false} EscDenotesIff(s: string)
    ensures Denotes(Esc(s)) == if NoControls(s) then Some(s) else None
  {
    if s == "" {
    } else {
      EscDenotesIff(s[1..]);
      EscCharDenotes(s[0], Esc(s[1..]));
      NoControlsTail(s);
      assert [s[0]] + s[1..] == s;
    }
  }
}
