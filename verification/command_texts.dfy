/**
 The goto as a text, from the console's payload through the bridge's envelope to the command the robot reads: when every
 key finds its own value, and when a task id gets in the way.
 */
module CommandTexts {
  import opened Wrappers
  import opened Decimals
  import opened JsonText
  import opened Envelope
  import opened RobotState
  import opened RobotText

  // ----- texts as pieces between quotes -----

  /** The pieces, with a quote between each two. */
  function Weave(segs: seq<string>): string
    requires segs != []
  {
    if |segs| == 1 then segs[0] else segs[0] + (QUOTE + Weave(segs[1..]))
  }

  predicate NoQuote(s: string) {
    forall i :: 0 <= i < |s| ==> s[i] != '"'
  }

  predicate AllNoQuote(segs: seq<string>) {
    forall i :: 0 <= i < |segs| ==> NoQuote(segs[i])
  }

  /** Where the quote before piece j stands. */
  function Position(segs: seq<string>, j: nat): nat
    requires 1 <= j < |segs|
  {
    |segs[0]| + if j == 1 then 0 else 1 + Position(segs[1..], j - 1)
  }

  /** Behind the quote before piece j come that piece and the rest. */
  lemma {:induction false} WeaveSplits(segs: seq<string>, j: nat)
    requires 1 <= j < |segs|
    ensures Position(segs, j) < |Weave(segs)| && Weave(segs)[Position(segs, j)] == '"'
    ensures Weave(segs)[Position(segs, j) + 1..] == Weave(segs[j..])
  {
    var t, h := Weave(segs), |segs[0]|;
    assert t[h] == '"' && t[h + 1..] == Weave(segs[1..]);
    if j == 1 {
    } else {
      WeaveSplits(segs[1..], j - 1);
      var p := Position(segs[1..], j - 1);
      assert segs[1..][j - 1..] == segs[j..];
      assert t[h + 1 + p] == t[h + 1..][p];
      assert t[h + 1..][p + 1..] == t[h + 2 + p..];
    }
  }

  /** A quoted key stands where a piece equals it. */
  lemma KeyMatches(t: string, key: string, p: nat, rest: string)
    requires p < |t| && t[p] == '"' && t[p + 1..] == key + (QUOTE + rest)
    ensures MatchAt(t, Needle(key), p) && t[p + |key| + 2..] == rest
  {
    var u := t[p + 1..];
    assert t[p..] == QUOTE + u;
    assert QUOTE + (key + (QUOTE + rest)) == Needle(key) + rest;
    assert t[p..] == Needle(key) + rest;
    assert t[p..][..|key| + 2] == Needle(key);
  }

  /** And nowhere else. */
  lemma KeyMisses(t: string, key: string, p: nat, seg: string, rest: string)
    requires p < |t| && t[p] == '"' && t[p + 1..] == seg + (QUOTE + rest)
    requires NoQuote(seg) && NoQuote(key) && seg != key
    ensures !MatchAt(t, Needle(key), p)
  {
    if MatchAt(t, Needle(key), p) {
      MatchMeans(t, key, p);
      SamePiece(seg, key, t[p + 1..]);
    }
  }

  lemma MatchMeans(t: string, key: string, p: nat)
    requires MatchAt(t, Needle(key), p)
    ensures var u := t[p + 1..]; |key| < |u| && u[..|key|] == key && u[|key|] == '"'
  {
    var u := t[p + 1..];
    assert t[p..p + |key| + 2] == Needle(key);
    assert forall i :: 0 <= i < |key| + 2 ==> t[p + i] == Needle(key)[i];
    assert forall i :: 0 <= i <= |key| ==> u[i] == Needle(key)[i + 1];
  }

  /** Two texts without quotes that both end at the first quote of u are the same. */
  lemma SamePiece(seg: string, key: string, u: string)
    requires NoQuote(seg) && NoQuote(key) && |seg| < |u| && |key| < |u|
    requires u[..|seg|] == seg && u[|seg|] == '"' && u[..|key|] == key && u[|key|] == '"'
    ensures seg == key
  {
    if |seg| < |key| {
      NoQuoteIn(key, u, |seg|);
    } else if |key| < |seg| {
      NoQuoteIn(seg, u, |key|);
    }
  }

  lemma NoQuoteIn(key: string, u: string, i: nat)
    requires NoQuote(key) && i < |key| <= |u| && u[..|key|] == key
    ensures u[i] != '"'
  {
    assert key[i] == u[i];
  }

  lemma MatchStarts(t: string, key: string, i: nat)
    requires MatchAt(t, Needle(key), i)
    ensures t[i] == '"'
  {
    assert t[i..i + |Needle(key)|][0] == '"';
  }

  lemma MatchShifts(t: string, key: string, h: nat, i: nat)
    requires h < i && h < |t| && MatchAt(t, Needle(key), i)
    ensures MatchAt(t[h + 1..], Needle(key), i - h - 1)
  {
    var u := t[h + 1..];
    assert u[i - h - 1..i - h - 1 + |Needle(key)|] == t[i..i + |Needle(key)|];
  }

  /** Before piece j no quoted key is found if no earlier piece between quotes is the key. */
  lemma {:induction false} NoneBefore(segs: seq<string>, key: string, j: nat, i: nat)
    requires 1 <= j < |segs| && AllNoQuote(segs) && NoQuote(key) && i < Position(segs, j)
    requires forall l :: 1 <= l < j ==> segs[l] != key
    ensures !MatchAt(Weave(segs), Needle(key), i)
  {
    var t, h := Weave(segs), |segs[0]|;
    if i < h {
      assert t[i] == segs[0][i];
      if MatchAt(t, Needle(key), i) {
        MatchStarts(t, key, i);
      }
    } else if i == h {
      assert t[h + 1..] == Weave(segs[1..]) && segs[1..][0] == segs[1];
      KeyMisses(t, key, h, segs[1], Weave(segs[1..][1..]));
    } else {
      var u := Weave(segs[1..]);
      assert t[h + 1..] == u;
      NoneBefore(segs[1..], key, j - 1, i - h - 1);
      if MatchAt(t, Needle(key), i) {
        MatchShifts(t, key, h, i);
      }
    }
  }

  /** So the first piece equal to the key is where its value is looked for, right behind the colon. */
  lemma ValueBehind(segs: seq<string>, key: string, j: nat)
    requires 1 <= j && j + 1 < |segs| && AllNoQuote(segs) && NoQuote(key)
    requires segs[j] == key && forall l :: 1 <= l < j ==> segs[l] != key
    requires |segs[j + 1]| > 0 && segs[j + 1][0] == ':'
    requires var after := Weave(segs[j + 1..]); |after| > 1 && !Blank(after[1])
    ensures var t, v := Weave(segs), Position(segs, j) + |key| + 3;
            ValueStart(t, key) == v < |t| && t[v..] == Weave(segs[j + 1..])[1..]
  {
    var t, p := Weave(segs), Position(segs, j);
    var rest := Weave(segs[j..][1..]);
    WeaveSplits(segs, j);
    assert segs[j..][1..] == segs[j + 1..] && segs[j..][0] == key;
    KeyMatches(t, key, p, rest);
    forall i: nat | i < p ensures !MatchAt(t, Needle(key), i) {
      NoneBefore(segs, key, j, i);
    }
    FindIs(t, Needle(key), 0, p);
    ColonStarts(segs[j + 1..]);
    ValueFrom(t, key, p, rest);
  }

  lemma ColonStarts(segs: seq<string>)
    requires segs != [] && |segs[0]| > 0
    ensures |Weave(segs)| > 0 && Weave(segs)[0] == segs[0][0]
  {
  }

  lemma ValueFrom(t: string, key: string, p: nat, rest: string)
    requires Find(t, Needle(key), 0) == p && p + |key| + 2 <= |t| && t[p + |key| + 2..] == rest
    requires |rest| > 1 && rest[0] == ':' && !Blank(rest[1])
    ensures ValueStart(t, key) == p + |key| + 3 < |t| && t[p + |key| + 3..] == rest[1..]
  {
    var c := p + |key| + 2;
    SuffixAt(t, c, rest);
    FindIs(t, ":", c, c);
    StartIs(t, key, p, c);
  }

  lemma SuffixAt(t: string, c: nat, rest: string)
    requires c <= |t| && t[c..] == rest && |rest| > 1 && rest[0] == ':'
    ensures |t| > c + 1 && t[c + 1] == rest[1] && t[c + 1..] == rest[1..] && MatchAt(t, ":", c)
  {
    assert t[c] == rest[0];
    assert t[c..c + 1] == ":";
  }

  // ----- weaves within weaves -----

  lemma {:induction false} WeaveFrom(a: string, segs: seq<string>)
    requires segs != []
    ensures a + Weave(segs) == Weave([a + segs[0]] + segs[1..])
  {
    if |segs| == 1 {
    } else {
      assert ([a + segs[0]] + segs[1..])[1..] == segs[1..];
      assert a + (segs[0] + (QUOTE + Weave(segs[1..]))) == (a + segs[0]) + (QUOTE + Weave(segs[1..]));
    }
  }

  lemma {:induction false} WeaveTo(segs: seq<string>, z: string)
    requires segs != []
    ensures Weave(segs) + z == Weave(segs[..|segs| - 1] + [segs[|segs| - 1] + z])
  {
    var w := segs[..|segs| - 1] + [segs[|segs| - 1] + z];
    if |segs| == 1 {
    } else {
      WeaveTo(segs[1..], z);
      assert w[1..] == segs[1..][..|segs| - 2] + [segs[|segs| - 1] + z];
      assert (segs[0] + (QUOTE + Weave(segs[1..]))) + z == segs[0] + (QUOTE + (Weave(segs[1..]) + z));
    }
  }

  lemma {:induction false} WeaveNests(before: seq<string>, segs: seq<string>)
    requires segs != []
    ensures Weave(before + [Weave(segs)]) == Weave(before + segs)
  {
    if before == [] {
      assert before + [Weave(segs)] == [Weave(segs)] && before + segs == segs;
    } else {
      WeaveNests(before[1..], segs);
      assert (before + [Weave(segs)])[1..] == before[1..] + [Weave(segs)];
      assert (before + segs)[1..] == before[1..] + segs;
    }
  }

  // ----- the goto -----

  /** The payload the console sends for a goto, with its quotes between the pieces: its keys in alphabetical order. */
  function GotoPieces(id: string, x: string, y: string): seq<string> {
    ["{", "task_id", ":", id, ",", "timeout_s", ":30,", "type", ":", "goto", ",", "x", ":" + x + ",",
     "y", ":" + y + "}"]
  }

  function Head(n: nat, cmd: string): seq<string> {
    ["{", "seq", ":" + Decimal(n) + ",", "cmd", ":", cmd, ",", "payload"]
  }

  /** The whole message. */
  function MessagePieces(n: nat, id: string, x: string, y: string): seq<string> {
    Head(n, "CMD_TASK") + [":{", "task_id", ":", id, ",", "timeout_s", ":30,", "type", ":", "goto", ",",
                           "x", ":" + x + ",", "y", ":" + y + "}}"]
  }

  lemma WeaveCons(a: string, segs: seq<string>)
    requires segs != []
    ensures Weave([a] + segs) == a + (QUOTE + Weave(segs))
  {
    assert ([a] + segs)[1..] == segs;
  }

  lemma PayloadJoins(payload: string)
    ensures ",\"payload\":" + payload + "}" == Weave([",", "payload", ":" + payload + "}"])
  {
    var z := ":" + payload + "}";
    WeaveCons("payload", [z]);
    WeaveCons(",", ["payload", z]);
    assert [","] + ["payload", z] == [",", "payload", z] && ["payload"] + [z] == ["payload", z];
    assert ",\"payload\":" == "," + (QUOTE + ("payload" + (QUOTE + ":")));
    assert ",\"payload\":" + payload + "}" == "," + (QUOTE + ("payload" + (QUOTE + z)));
  }

  lemma CmdJoins(cmd: string, segs: seq<string>)
    requires segs != []
    ensures "\"cmd\":\"" + (cmd + (QUOTE + Weave(segs))) == QUOTE + Weave(["cmd", ":", cmd] + segs)
  {
    var w := cmd + (QUOTE + Weave(segs));
    WeaveCons(cmd, segs);
    WeaveCons(":", [cmd] + segs);
    WeaveCons("cmd", [":"] + ([cmd] + segs));
    assert ["cmd"] + ([":"] + ([cmd] + segs)) == ["cmd", ":", cmd] + segs;
    assert "\"cmd\":\"" == QUOTE + ("cmd" + (QUOTE + (":" + QUOTE)));
    assert "\"cmd\":\"" + w == QUOTE + ("cmd" + (QUOTE + (":" + (QUOTE + w))));
  }

  lemma OpeningJoins(n: nat, segs: seq<string>)
    requires segs != []
    ensures Opening(n) + (QUOTE + Weave(segs)) == Weave(["{", "seq", ":" + Decimal(n) + ","] + segs)
  {
    var d := ":" + Decimal(n) + ",";
    WeaveCons(d, segs);
    WeaveCons("seq", [d] + segs);
    WeaveCons("{", ["seq"] + ([d] + segs));
    assert ["{"] + (["seq"] + ([d] + segs)) == ["{", "seq", d] + segs;
    assert SEQ_OPEN == "{" + (QUOTE + ("seq" + (QUOTE + ":")));
    assert Opening(n) == "{" + (QUOTE + ("seq" + (QUOTE + d)));
    assert Opening(n) + (QUOTE + Weave(segs)) == "{" + (QUOTE + ("seq" + (QUOTE + (d + (QUOTE + Weave(segs))))));
  }

  predicate Plain(s: string) {
    forall i :: 0 <= i < |s| ==> s[i] != '"' && s[i] != '\\' && !IsControl(s[i])
  }

  lemma {:induction false} PlainEscape(s: string)
    requires Plain(s)
    ensures Escape(s) == s
  {
    if s == "" {
    } else {
      PlainEscape(s[1..]);
      assert EscapeChar(s[0]) == [s[0]] && [s[0]] + s[1..] == s;
    }
  }

  lemma TailIs(cmd: string, payload: string)
    requires payload != "" && Escape(cmd) == cmd
    ensures CommandTail(cmd, payload) == "\"cmd\":\"" + (cmd + (QUOTE + (",\"payload\":" + payload + "}")))
  {
  }

  lemma HeadPieces(n: nat, cmd: string, z: string)
    ensures ["{", "seq", ":" + Decimal(n) + ","] + (["cmd", ":", cmd] + [",", "payload", z]) == Head(n, cmd) + [z]
  {
  }

  /** The bridge's envelope, in pieces. */
  lemma EnvelopeIs(n: nat, cmd: string, payload: string)
    requires payload != "" && Plain(cmd)
    ensures CommandText(n, cmd, payload) == Weave(Head(n, cmd) + [":" + payload + "}"])
  {
    var segs := [",", "payload", ":" + payload + "}"];
    PlainEscape(cmd);
    TailIs(cmd, payload);
    PayloadJoins(payload);
    CmdJoins(cmd, segs);
    OpeningJoins(n, ["cmd", ":", cmd] + segs);
    HeadPieces(n, cmd, ":" + payload + "}");
  }

  /** A colon before the payload and a brace behind it. */
  function Braced(g: seq<string>): seq<string>
    requires |g| >= 2
  {
    [":" + g[0]] + g[1..|g| - 1] + [g[|g| - 1] + "}"]
  }

  lemma BracedIs(g: seq<string>)
    requires |g| >= 2
    ensures ":" + Weave(g) + "}" == Weave(Braced(g))
  {
    var g1 := [":" + g[0]] + g[1..];
    WeaveFrom(":", g);
    WeaveTo(g1, "}");
    BracedPieces(g, g1);
  }

  lemma BracedPieces(g: seq<string>, g1: seq<string>)
    requires |g| >= 2 && g1 == [":" + g[0]] + g[1..]
    ensures |g1| == |g| && g1[..|g1| - 1] + [g1[|g1| - 1] + "}"] == Braced(g)
  {
    assert g1[|g1| - 1] == g[|g| - 1];
    assert g1[..|g1| - 1] == [":" + g[0]] + g[1..|g| - 1];
  }

  lemma PiecesAre(n: nat, id: string, x: string, y: string)
    ensures Head(n, "CMD_TASK") + Braced(GotoPieces(id, x, y)) == MessagePieces(n, id, x, y)
  {
    assert ":" + y + "}" + "}" == ":" + y + "}}";
    assert ":" + "{" == ":{";
  }

  /** So the whole message falls into pieces, whatever the payload. */
  lemma MessageIs(n: nat, cmd: string, g: seq<string>)
    requires |g| >= 2 && g[0] != "" && Plain(cmd)
    ensures CommandText(n, cmd, Weave(g)) == Weave(Head(n, cmd) + Braced(g))
  {
    ColonStarts(g);
    EnvelopeIs(n, cmd, Weave(g));
    BracedIs(g);
    WeaveNests(Head(n, cmd), Braced(g));
  }

  lemma GotoMessage(n: nat, id: string, x: string, y: string)
    ensures CommandText(n, "CMD_TASK", Weave(GotoPieces(id, x, y))) == Weave(MessagePieces(n, id, x, y))
  {
    MessageIs(n, "CMD_TASK", GotoPieces(id, x, y));
    PiecesAre(n, id, x, y);
  }

  // ----- printed numbers -----

  /** A number as printed: a sign, whole digits, and digits behind a point if there are any. */
  datatype Printed = Printed(minus: bool, whole: nat, part: string)

  function TextOf(p: Printed): string {
    (if p.minus then "-" else "") + (Decimal(p.whole) + (if p.part == "" then "" else "." + p.part))
  }

  function ValueOf(p: Printed): real
    requires AllDigits(p.part)
  {
    DecimalDigits(p.whole);
    if p.minus then -Joined(Decimal(p.whole), p.part) else Joined(Decimal(p.whole), p.part)
  }

  lemma TextFirst(p: Printed)
    ensures TextOf(p) != "" && (TextOf(p)[0] == '-' || IsDigit(TextOf(p)[0]))
    ensures AllDigits(p.part) ==> NoQuote(TextOf(p))
  {
    DecimalDigits(p.whole);
  }

  lemma PlainText(p: Printed, t: string)
    requires !p.minus
    ensures TextOf(p) + t == Decimal(p.whole) + PartText(p.part, t)
  {
    assert "" + (Decimal(p.whole) + PartText(p.part, t)) == Decimal(p.whole) + PartText(p.part, t);
  }

  lemma MinusText(p: Printed, t: string)
    requires p.minus
    ensures var x := TextOf(p) + t; x != "" && x[0] == '-' && x[1..] == Decimal(p.whole) + PartText(p.part, t)
  {
    assert TextOf(p) + t == "-" + (Decimal(p.whole) + PartText(p.part, t));
  }

  lemma ValueIs(p: Printed)
    requires AllDigits(p.part)
    ensures AllDigits(Decimal(p.whole))
    ensures Some(ValueOf(p)) == if p.minus then Negated(Some(Joined(Decimal(p.whole), p.part)))
                                else Some(Joined(Decimal(p.whole), p.part))
  {
    DecimalDigits(p.whole);
  }

  lemma PrintedReadBack(p: Printed, x: string, t: string)
    requires AllDigits(p.part) && EndsNumber(t) && x == TextOf(p) + t
    ensures ReadNumber(x) == Some(ValueOf(p))
  {
    ValueIs(p);
    if p.minus {
      MinusText(p, t);
      NegativeReadBack(x, p.whole, p.part, t);
    } else {
      PlainText(p, t);
      NumberReadBack(p.whole, p.part, t);
    }
  }

  // ----- reading the pieces -----

  predicate NoEscape(s: string) {
    forall i :: 0 <= i < |s| ==> s[i] != '"' && s[i] != '\\'
  }

  lemma {:induction false} ReadPlainBody(s: string, rest: string)
    requires NoEscape(s)
    ensures ReadBody(s + (QUOTE + rest)) == s
  {
    var t := s + (QUOTE + rest);
    if s == "" {
      assert t == QUOTE + rest && t[0] == '"';
    } else {
      ReadPlainBody(s[1..], rest);
      assert t[0] == s[0] && t[1..] == s[1..] + (QUOTE + rest);
      assert [s[0]] + s[1..] == s;
    }
  }

  /** A key whose value is a plain string. */
  lemma StringAt(segs: seq<string>, key: string, j: nat)
    requires 1 <= j && j + 3 < |segs| && AllNoQuote(segs) && NoQuote(key)
    requires segs[j] == key && forall l :: 1 <= l < j ==> segs[l] != key
    requires segs[j + 1] == ":" && NoEscape(segs[j + 2])
    ensures ExtractString(Weave(segs), key) == Some(segs[j + 2])
  {
    ColonThenQuote(segs, j);
    ValueBehind(segs, key, j);
    StringFrom(Weave(segs), key, ValueStart(Weave(segs), key), segs[j + 2], Weave(segs[j + 3..]));
  }

  lemma ColonThenQuote(segs: seq<string>, j: nat)
    requires j + 3 < |segs| && segs[j + 1] == ":"
    ensures var w := Weave(segs[j + 1..]);
            && |w| > 1 && w[0] == ':' && w[1] == '"'
            && w[1..] == QUOTE + (segs[j + 2] + (QUOTE + Weave(segs[j + 3..])))
  {
    assert segs[j + 1..] == [segs[j + 1]] + segs[j + 2..] && segs[j + 2..] == [segs[j + 2]] + segs[j + 3..];
    WeaveCons(segs[j + 1], segs[j + 2..]);
    WeaveCons(segs[j + 2], segs[j + 3..]);
    assert Weave(segs[j + 1..]) == ":" + (QUOTE + (segs[j + 2] + (QUOTE + Weave(segs[j + 3..]))));
  }

  lemma StringFrom(t: string, key: string, v: nat, value: string, rest: string)
    requires ValueStart(t, key) == v < |t| && t[v..] == QUOTE + (value + (QUOTE + rest)) && NoEscape(value)
    ensures ExtractString(t, key) == Some(value)
  {
    assert t[v] == t[v..][0] && t[v + 1..] == t[v..][1..];
    ReadPlainBody(value, rest);
    ExtractAt(t, key, v, value + (QUOTE + rest));
  }

  /** A key whose value is a number, with what comes behind it. */
  lemma NumberAt(segs: seq<string>, key: string, j: nat, p: Printed, t: string)
    requires 1 <= j && j + 1 < |segs| && AllNoQuote(segs) && NoQuote(key)
    requires segs[j] == key && forall l :: 1 <= l < j ==> segs[l] != key
    requires AllDigits(p.part) && EndsNumber(t) && Weave(segs[j + 1..]) == ":" + (TextOf(p) + t)
    requires |segs[j + 1]| > 0
    ensures ExtractNumber(Weave(segs), key) == Some(ValueOf(p))
  {
    var after := Weave(segs[j + 1..]);
    TextFirst(p);
    assert after[0] == ':' && after[1..] == TextOf(p) + t;
    assert after[1] == TextOf(p)[0];
    ColonStarts(segs[j + 1..]);
    ValueBehind(segs, key, j);
    PrintedReadBack(p, TextOf(p) + t, t);
    NumberFrom(Weave(segs), key, ValueStart(Weave(segs), key), TextOf(p) + t, ValueOf(p));
  }

  lemma NumberFrom(t: string, key: string, v: nat, x: string, value: real)
    requires ValueStart(t, key) == v < |t| && t[v..] == x && ReadNumber(x) == Some(value)
    ensures ExtractNumber(t, key) == Some(value)
  {
  }

  // ----- reading a goto -----

  predicate GoodText(id: string, px: Printed, py: Printed) {
    NoEscape(id) && AllDigits(px.part) && AllDigits(py.part)
  }

  lemma MessageHasNoQuote(n: nat, id: string, px: Printed, py: Printed)
    requires GoodText(id, px, py)
    ensures AllNoQuote(MessagePieces(n, id, TextOf(px), TextOf(py)))
  {
    DecimalDigits(n);
    TextFirst(px);
    TextFirst(py);
    var segs := MessagePieces(n, id, TextOf(px), TextOf(py));
    assert NoQuote(segs[2]) && NoQuote(segs[20]) && NoQuote(segs[22]) && NoQuote(segs[11]);
  }

  /** None of the pieces up to k is the key, but perhaps the task id. */
  predicate NotBefore(segs: seq<string>, key: string, k: nat)
    requires k <= |segs|
  {
    forall l :: 1 <= l < k && l != 11 ==> segs[l] != key
  }

  lemma KeysApart(n: nat, id: string, x: string, y: string)
    ensures var segs := MessagePieces(n, id, x, y);
            && |segs| == 23 && segs[9] == "task_id" && segs[10] == ":" && segs[11] == id && segs[15] == "type"
            && segs[16] == ":" && segs[17] == "goto" && segs[19] == "x" && segs[20] == ":" + x + "," && segs[21] == "y"
            && segs[22] == ":" + y + "}}"
            && NotBefore(segs, "task_id", 9) && NotBefore(segs, "type", 15) && NotBefore(segs, "x", 19)
            && NotBefore(segs, "y", 21)
  {
    var segs := MessagePieces(n, id, x, y);
    assert segs[2][0] == ':' && segs[20][0] == ':';
  }

  lemma ReadsId(n: nat, id: string, px: Printed, py: Printed)
    requires GoodText(id, px, py)
    ensures StringOr(Weave(MessagePieces(n, id, TextOf(px), TextOf(py))), "task_id", "") == id
  {
    MessageHasNoQuote(n, id, px, py);
    KeysApart(n, id, TextOf(px), TextOf(py));
    StringAt(MessagePieces(n, id, TextOf(px), TextOf(py)), "task_id", 9);
  }

  lemma ReadsType(n: nat, id: string, px: Printed, py: Printed)
    requires GoodText(id, px, py) && id != "type"
    ensures StringOr(Weave(MessagePieces(n, id, TextOf(px), TextOf(py))), "type", "") == "goto"
  {
    MessageHasNoQuote(n, id, px, py);
    KeysApart(n, id, TextOf(px), TextOf(py));
    StringAt(MessagePieces(n, id, TextOf(px), TextOf(py)), "type", 15);
  }

  lemma ReadsX(n: nat, id: string, px: Printed, py: Printed)
    requires GoodText(id, px, py) && id != "x"
    ensures ExtractNumber(Weave(MessagePieces(n, id, TextOf(px), TextOf(py))), "x") == Some(ValueOf(px))
  {
    var segs := MessagePieces(n, id, TextOf(px), TextOf(py));
    MessageHasNoQuote(n, id, px, py);
    KeysApart(n, id, TextOf(px), TextOf(py));
    var t := "," + (QUOTE + Weave(segs[21..]));
    assert segs[20..] == [segs[20]] + segs[21..];
    WeaveCons(segs[20], segs[21..]);
    assert Weave(segs[20..]) == ":" + (TextOf(px) + t);
    NumberAt(segs, "x", 19, px, t);
  }

  lemma ReadsY(n: nat, id: string, px: Printed, py: Printed)
    requires GoodText(id, px, py) && id != "y"
    ensures ExtractNumber(Weave(MessagePieces(n, id, TextOf(px), TextOf(py))), "y") == Some(ValueOf(py))
  {
    var segs := MessagePieces(n, id, TextOf(px), TextOf(py));
    MessageHasNoQuote(n, id, px, py);
    KeysApart(n, id, TextOf(px), TextOf(py));
    assert segs[22..] == [segs[22]];
    assert Weave(segs[22..]) == ":" + (TextOf(py) + "}}");
    NumberAt(segs, "y", 21, py, "}}");
  }

  // ----- a task id that is a key -----

  /** Between the task id and the value of the next key. */
  function UpTo(key: string): string {
    "," + (QUOTE + (key + (QUOTE + ":")))
  }

  /** What comes behind the task id. */
  lemma BehindId(segs: seq<string>, next: string, value: string)
    requires |segs| > 15 && segs[12] == "," && segs[13] == next && segs[14] == ":" + value
    ensures Weave(segs[12..]) == UpTo(next) + (value + (QUOTE + Weave(segs[15..])))
  {
    var w := Weave(segs[15..]);
    assert segs[12..] == [segs[12]] + segs[13..] && segs[13..] == [segs[13]] + segs[14..];
    assert segs[14..] == [segs[14]] + segs[15..];
    WeaveCons(segs[12], segs[13..]);
    WeaveCons(segs[13], segs[14..]);
    WeaveCons(segs[14], segs[15..]);
    assert "," + (QUOTE + (next + (QUOTE + (":" + value + (QUOTE + w))))) == UpTo(next) + (value + (QUOTE + w));
  }

  predicate NoColon(s: string) {
    forall i :: 0 <= i < |s| ==> s[i] != ':'
  }

  lemma ColonFar(t: string, c: nat, next: string, rest: string)
    requires c <= |t| && t[c..] == UpTo(next) + rest && NoColon(next)
    ensures Find(t, ":", c) == c + |next| + 3 && |t| >= c + |next| + 4 && t[c + |next| + 4..] == rest
  {
    var b, k := UpTo(next), |next| + 3;
    assert |b| == k + 1 && b[k] == ':';
    forall i: nat | c <= i < c + k ensures !MatchAt(t, ":", i) {
      assert t[i] == t[c..][i - c] == b[i - c];
      assert t[i..i + 1][0] == t[i];
    }
    assert t[c + k] == t[c..][k];
    assert t[c + k..c + k + 1] == ":";
    FindIs(t, ":", c, c + k);
  }

  /** A key that equals the task id is found there, and gets what comes behind the next colon. */
  lemma IdInTheWay(segs: seq<string>, key: string, next: string, value: string)
    requires |segs| > 15 && AllNoQuote(segs) && NoQuote(key) && NoColon(next)
    requires segs[11] == key && forall l :: 1 <= l < 11 ==> segs[l] != key
    requires segs[12] == "," && segs[13] == next && segs[14] == ":" + value && (value != "" ==> !Blank(value[0]))
    ensures var t, v := Weave(segs), ValueStart(Weave(segs), key);
            0 <= v < |t| && t[v..] == value + (QUOTE + Weave(segs[15..]))
  {
    var t, p := Weave(segs), Position(segs, 11);
    WeaveSplits(segs, 11);
    assert segs[11..] == [segs[11]] + segs[12..];
    WeaveCons(segs[11], segs[12..]);
    KeyMatches(t, key, p, Weave(segs[12..]));
    forall i: nat | i < p ensures !MatchAt(t, Needle(key), i) {
      NoneBefore(segs, key, 11, i);
    }
    FindIs(t, Needle(key), 0, p);
    BehindId(segs, next, value);
    FarValue(t, key, p, p + |key| + 2, next, value + (QUOTE + Weave(segs[15..])));
  }

  lemma FarValue(t: string, key: string, p: nat, c: nat, next: string, rest: string)
    requires Find(t, Needle(key), 0) == p && p + |key| + 2 == c <= |t| && t[c..] == UpTo(next) + rest
    requires rest != "" && !Blank(rest[0]) && NoColon(next)
    ensures ValueStart(t, key) == c + |next| + 4 < |t| && t[c + |next| + 4..] == rest
  {
    ColonFar(t, c, next, rest);
    ValueBehindColon(t, key, p, c, c + |next| + 3, rest);
  }

  lemma ValueBehindColon(t: string, key: string, p: nat, b: nat, c: nat, rest: string)
    requires Find(t, Needle(key), 0) == p && b == p + |key| + 2 && Find(t, ":", b) == c
    requires c + 1 <= |t| && t[c + 1..] == rest && rest != "" && !Blank(rest[0])
    ensures ValueStart(t, key) == c + 1 < |t|
  {
    SuffixStarts(t, c + 1, rest);
    StartIs(t, key, p, c);
  }

  lemma SuffixStarts(t: string, v: nat, rest: string)
    requires v <= |t| && t[v..] == rest && rest != ""
    ensures v < |t| && t[v] == rest[0]
  {
  }

  lemma TimeoutInTheWay(n: nat, id: string, px: Printed, py: Printed, key: string)
    requires GoodText(id, px, py) && id == key && (key == "type" || key == "x" || key == "y")
    ensures var segs := MessagePieces(n, id, TextOf(px), TextOf(py));
            var t, v := Weave(segs), ValueStart(Weave(segs), key);
            0 <= v < |t| && t[v..] == "30," + (QUOTE + Weave(segs[15..]))
  {
    var segs := MessagePieces(n, id, TextOf(px), TextOf(py));
    MessageHasNoQuote(n, id, px, py);
    KeysApart(n, id, TextOf(px), TextOf(py));
    assert ":30," == ":" + "30,";
    IdInTheWay(segs, key, "timeout_s", "30,");
  }

  lemma StartIs(t: string, key: string, k: nat, c: nat)
    requires Find(t, Needle(key), 0) == k && Find(t, ":", k + |key| + 2) == c
    requires c + 1 < |t| && !Blank(t[c + 1])
    ensures ValueStart(t, key) == c + 1
  {
    NoSkip(t, c + 1);
  }

  lemma NoSkip(t: string, i: nat)
    requires i < |t| && !Blank(t[i])
    ensures SkipBlanks(t, i) == i
  {
  }

  lemma ReadsTimeout(n: nat, id: string, px: Printed, py: Printed, key: string)
    requires GoodText(id, px, py) && id == key && (key == "x" || key == "y")
    ensures ExtractNumber(Weave(MessagePieces(n, id, TextOf(px), TextOf(py))), key) == Some(30.0)
  {
    var segs := MessagePieces(n, id, TextOf(px), TextOf(py));
    var rest := "," + (QUOTE + Weave(segs[15..]));
    TimeoutInTheWay(n, id, px, py, key);
    assert "30," + (QUOTE + Weave(segs[15..])) == "30" + rest;
    Thirty(rest);
    NumberFrom(Weave(segs), key, ValueStart(Weave(segs), key), "30" + rest, 30.0);
  }

  lemma Thirty(rest: string)
    requires EndsNumber(rest)
    ensures ReadNumber("30" + rest) == Some(30.0)
  {
    ThirtyPrinted();
    WholeNumberReadBack(30, rest);
  }

  lemma ThirtyPrinted()
    ensures Decimal(30) == "30"
  {
    assert Decimal(3) == "3";
  }

  lemma MissesType(n: nat, id: string, px: Printed, py: Printed)
    requires GoodText(id, px, py) && id == "type"
    ensures StringOr(Weave(MessagePieces(n, id, TextOf(px), TextOf(py))), "type", "") == ""
  {
    TimeoutInTheWay(n, id, px, py, "type");
    var segs := MessagePieces(n, id, TextOf(px), TextOf(py));
    NoStringThere(Weave(segs), "type", ValueStart(Weave(segs), "type"), "30," + (QUOTE + Weave(segs[15..])));
  }

  lemma NoStringThere(t: string, key: string, v: nat, rest: string)
    requires ValueStart(t, key) == v < |t| && t[v..] == rest && rest != "" && rest[0] != '"'
    ensures ExtractString(t, key) == None
  {
    assert t[v] == t[v..][0];
  }

  /**
   From the console's goto to the robot's: the robot reads the task id and both coordinates of the payload, whatever
   they are, exactly when the id is not itself the word type, nor x or y unless that coordinate happens to be
   the timeout of 30. For an id that is a key is found first.
   */
  lemma GotoReadBackIff(n: nat, id: string, px: Printed, py: Printed)
    requires GoodText(id, px, py)
    ensures var data := CommandText(n, "CMD_TASK", Weave(GotoPieces(id, TextOf(px), TextOf(py))));
            CommandOf(data, "CMD_TASK") == GotoCmd(id, Some(ValueOf(px)), Some(ValueOf(py))) <==>
              && id != "type" && (id == "x" ==> ValueOf(px) == 30.0) && (id == "y" ==> ValueOf(py) == 30.0)
  {
    var data := CommandText(n, "CMD_TASK", Weave(GotoPieces(id, TextOf(px), TextOf(py))));
    GotoMessage(n, id, TextOf(px), TextOf(py));
    ReadsId(n, id, px, py);
    if id == "type" {
      MissesType(n, id, px, py);
    } else {
      ReadsType(n, id, px, py);
    }
    CoordinatesRead(n, id, px, py);
    TaskFrom(data, id, if id == "type" then "" else "goto", if id == "x" then 30.0 else ValueOf(px),
             if id == "y" then 30.0 else ValueOf(py));
  }

  /** What the robot makes of a task message with these keys. */
  lemma TaskFrom(data: string, id: string, kind: string, x: real, y: real)
    requires StringOr(data, "task_id", "") == id && StringOr(data, "type", "") == kind
    requires ExtractNumber(data, "x") == Some(x) && ExtractNumber(data, "y") == Some(y)
    requires kind == "" || kind == "goto"
    ensures CommandOf(data, "CMD_TASK") == if kind == "goto" then GotoCmd(id, Some(x), Some(y)) else OtherTaskCmd(id)
  {
    TaskCommand(data);
    KindDecides(kind, id, Some(x), Some(y));
  }

  lemma TaskCommand(data: string)
    ensures CommandOf(data, "CMD_TASK") == TaskOf(data)
  {
  }

  lemma KindDecides(kind: string, id: string, x: Option<real>, y: Option<real>)
    ensures kind == "goto" ==> TaskFor(kind, id, x, y) == GotoCmd(id, x, y)
    ensures kind == "" ==> TaskFor(kind, id, x, y) == OtherTaskCmd(id)
  {
  }

  lemma CoordinatesRead(n: nat, id: string, px: Printed, py: Printed)
    requires GoodText(id, px, py)
    ensures var data := Weave(MessagePieces(n, id, TextOf(px), TextOf(py)));
            && ExtractNumber(data, "x") == Some(if id == "x" then 30.0 else ValueOf(px))
            && ExtractNumber(data, "y") == Some(if id == "y" then 30.0 else ValueOf(py))
  {
    if id == "x" {
      ReadsTimeout(n, id, px, py, "x");
    } else {
      ReadsX(n, id, px, py);
    }
    if id == "y" {
      ReadsTimeout(n, id, px, py, "y");
    } else {
      ReadsY(n, id, px, py);
    }
  }

  // ----- the other commands -----

  /** A task without coordinates. */
  function VerbPieces(id: string, kind: string): seq<string> {
    ["{", "task_id", ":", id, ",", "type", ":", kind, "}"]
  }

  function VerbMessage(n: nat, id: string, kind: string): seq<string> {
    Head(n, "CMD_TASK") + [":{", "task_id", ":", id, ",", "type", ":", kind, "}}"]
  }

  lemma VerbBraced(id: string, kind: string)
    ensures Braced(VerbPieces(id, kind)) == [":{", "task_id", ":", id, ",", "type", ":", kind, "}}"]
  {
    Doubled();
  }

  lemma Doubled()
    ensures ":" + "{" == ":{" && "}" + "}" == "}}"
  {
  }

  lemma VerbMessageIs(n: nat, id: string, kind: string)
    ensures CommandText(n, "CMD_TASK", Weave(VerbPieces(id, kind))) == Weave(VerbMessage(n, id, kind))
  {
    MessageIs(n, "CMD_TASK", VerbPieces(id, kind));
    VerbBraced(id, kind);
  }

  lemma VerbKeys(n: nat, id: string, kind: string)
    requires NoEscape(id) && NoEscape(kind)
    ensures var segs := VerbMessage(n, id, kind);
            && AllNoQuote(segs) && |segs| == 17 && segs[9] == "task_id" && segs[10] == ":" && segs[11] == id
            && segs[12] == "," && segs[13] == "type" && segs[14] == ":" && segs[15] == kind
            && NotBefore(segs, "task_id", 9) && NotBefore(segs, "type", 13)
  {
    DecimalDigits(n);
    var segs := VerbMessage(n, id, kind);
    assert NoQuote(segs[2]) && NoQuote(segs[11]) && NoQuote(segs[15]);
    assert segs[2][0] == ':';
  }

  lemma VerbType(n: nat, id: string, kind: string)
    requires NoEscape(id) && NoEscape(kind)
    ensures StringOr(Weave(VerbMessage(n, id, kind)), "type", "") == kind
  {
    var segs := VerbMessage(n, id, kind);
    var t := Weave(segs);
    VerbKeys(n, id, kind);
    if id == "type" {
      assert ":" == ":" + "";
      IdInTheWay(segs, "type", "type", "");
      assert segs[15..] == [segs[15]] + segs[16..];
      WeaveCons(segs[15], segs[16..]);
      assert "" + (QUOTE + Weave(segs[15..])) == QUOTE + (kind + (QUOTE + Weave(segs[16..])));
      StringFrom(t, "type", ValueStart(t, "type"), kind, Weave(segs[16..]));
    } else {
      StringAt(segs, "type", 13);
    }
  }

  /** A pause, cancel or resume reaches the robot as what it is, under any task id, the word type included. */
  lemma VerbReadBack(n: nat, id: string, kind: string)
    requires NoEscape(id) && NoEscape(kind) && kind != "goto"
    ensures CommandOf(CommandText(n, "CMD_TASK", Weave(VerbPieces(id, kind))), "CMD_TASK") ==
            match kind
            case "pause" => PauseCmd(id)
            case "cancel" => CancelCmd
            case "resume" => ResumeCmd(id)
            case _ => OtherTaskCmd(id)
  {
    VerbMessageIs(n, id, kind);
    VerbId(n, id, kind);
    VerbType(n, id, kind);
    VerbFrom(Weave(VerbMessage(n, id, kind)), id, kind);
  }

  lemma VerbId(n: nat, id: string, kind: string)
    requires NoEscape(id) && NoEscape(kind)
    ensures StringOr(Weave(VerbMessage(n, id, kind)), "task_id", "") == id
  {
    VerbKeys(n, id, kind);
    StringAt(VerbMessage(n, id, kind), "task_id", 9);
  }

  lemma VerbFrom(data: string, id: string, kind: string)
    requires StringOr(data, "task_id", "") == id && StringOr(data, "type", "") == kind && kind != "goto"
    ensures CommandOf(data, "CMD_TASK") ==
            match kind
            case "pause" => PauseCmd(id)
            case "cancel" => CancelCmd
            case "resume" => ResumeCmd(id)
            case _ => OtherTaskCmd(id)
  {
    TaskCommand(data);
    TaskVerbs(id, ExtractNumber(data, "x"), ExtractNumber(data, "y"), kind);
  }

  /** A payload with one key and a text, and one with one key and a bare word. */
  function TextPieces(key: string, value: string): seq<string> {
    ["{", key, ":", value, "}"]
  }

  function WordPieces(key: string, word: string): seq<string> {
    ["{", key, ":" + word + "}"]
  }

  lemma OneKey(n: nat, cmd: string, key: string, rest: seq<string>)
    requires NoQuote(cmd) && NoQuote(key) && AllNoQuote(rest) && key !in Head(n, cmd) && key != ":{"
    ensures var segs := Head(n, cmd) + ([":{", key] + rest);
            AllNoQuote(segs) && segs[9] == key && segs[10..] == rest && forall l :: 1 <= l < 9 ==> segs[l] != key
  {
    DecimalDigits(n);
    var segs := Head(n, cmd) + ([":{", key] + rest);
    assert NoQuote(segs[2]);
    forall i | 10 <= i < |segs| ensures NoQuote(segs[i]) {
      assert segs[i] == rest[i - 10];
    }
    forall l | 1 <= l < 8 ensures segs[l] != key {
      assert segs[l] == Head(n, cmd)[l];
    }
  }

  lemma TextBraced(key: string, value: string)
    ensures Braced(TextPieces(key, value)) == [":{", key] + [":", value, "}}"]
  {
    Doubled();
  }

  lemma WordBraced(key: string, word: string)
    ensures Braced(WordPieces(key, word)) == [":{", key] + [":" + word + "}}"]
  {
    Doubled();
    assert (":" + word + "}") + "}" == ":" + word + "}}";
  }

  /** The robot reads the text. */
  lemma TextReadBack(n: nat, cmd: string, key: string, value: string)
    requires Plain(cmd) && NoQuote(key) && NoEscape(value) && key !in Head(n, cmd) && key != ":{"
    ensures ExtractString(CommandText(n, cmd, Weave(TextPieces(key, value))), key) == Some(value)
  {
    MessageIs(n, cmd, TextPieces(key, value));
    TextBraced(key, value);
    OneKey(n, cmd, key, [":", value, "}}"]);
    TextIn(Head(n, cmd) + ([":{", key] + [":", value, "}}"]), key, value);
  }

  lemma TextIn(segs: seq<string>, key: string, value: string)
    requires AllNoQuote(segs) && NoQuote(key) && NoEscape(value) && |segs| == 13 && segs[9] == key
    requires segs[10..] == [":", value, "}}"] && forall l :: 1 <= l < 9 ==> segs[l] != key
    ensures ExtractString(Weave(segs), key) == Some(value)
  {
    assert segs[10] == segs[10..][0] && segs[11] == segs[10..][1];
    StringAt(segs, key, 9);
  }

  function BoolWord(yes: bool): string {
    if yes then "true" else "false"
  }

  /** The robot reads true and false. */
  lemma BoolReadBack(n: nat, cmd: string, key: string, yes: bool)
    requires Plain(cmd) && NoQuote(key) && key !in Head(n, cmd) && key != ":{"
    ensures ExtractBool(CommandText(n, cmd, Weave(WordPieces(key, BoolWord(yes)))), key) == Some(yes)
  {
    var last := ":" + BoolWord(yes) + "}}";
    MessageIs(n, cmd, WordPieces(key, BoolWord(yes)));
    WordBraced(key, BoolWord(yes));
    OneKey(n, cmd, key, [last]);
    WordIn(Head(n, cmd) + ([":{", key] + [last]), key, yes);
  }

  lemma WordIn(segs: seq<string>, key: string, yes: bool)
    requires AllNoQuote(segs) && NoQuote(key) && |segs| == 11 && segs[9] == key
    requires segs[10..] == [":" + BoolWord(yes) + "}}"] && forall l :: 1 <= l < 9 ==> segs[l] != key
    ensures ExtractBool(Weave(segs), key) == Some(yes)
  {
    var after := ":" + BoolWord(yes) + "}}";
    assert segs[10] == segs[10..][0] && Weave(segs[10..]) == after;
    WordBehindColon(after, yes);
    ValueBehind(segs, key, 9);
    WordAt(Weave(segs), key, ValueStart(Weave(segs), key), BoolWord(yes) + "}}", yes);
  }

  lemma WordBehindColon(after: string, yes: bool)
    requires after == ":" + BoolWord(yes) + "}}"
    ensures |after| > 1 && after[0] == ':' && !Blank(after[1]) && after[1..] == BoolWord(yes) + "}}"
  {
  }

  lemma WordAt(t: string, key: string, v: nat, rest: string, yes: bool)
    requires ValueStart(t, key) == v < |t| && t[v..] == rest && rest == BoolWord(yes) + "}}"
    ensures ExtractBool(t, key) == Some(yes)
  {
    var word := BoolWord(yes);
    assert rest[..|word|] == word;
    assert t[v..v + |word|] == rest[..|word|];
    if !yes {
      SuffixStarts(t, v, rest);
      FirstOff(t, "true", v);
    }
  }

  lemma FirstOff(t: string, needle: string, v: nat)
    requires v < |t| && needle != "" && t[v] != needle[0]
    ensures !MatchAt(t, needle, v)
  {
    if v + |needle| <= |t| {
      assert t[v..v + |needle|][0] == t[v];
    }
  }

  /** A confirmed reset is read as one, and an unconfirmed one as that. */
  lemma ResetReadBack(n: nat, yes: bool)
    ensures var data := CommandText(n, "CMD_RESET", Weave(WordPieces("confirm", if yes then "true" else "false")));
            CommandOf(data, "CMD_RESET") == ResetCmd(yes)
  {
    NotInHead(n, "CMD_RESET", "confirm");
    BoolReadBack(n, "CMD_RESET", "confirm", yes);
    CommandNames(CommandText(n, "CMD_RESET", Weave(WordPieces("confirm", BoolWord(yes)))));
  }

  /** And a mode as the mode it names, if it names one. */
  lemma ModeReadBack(n: nat, name: string)
    requires NoEscape(name)
    ensures CommandOf(CommandText(n, "CMD_MODE", Weave(TextPieces("mode", name))), "CMD_MODE") ==
            ModeCmd(match name
                    case "TELEOP" => Some(Teleop)
                    case "AUTO" => Some(Auto)
                    case "REMOTE" => Some(Remote)
                    case _ => None)
  {
    NotInHead(n, "CMD_MODE", "mode");
    TextReadBack(n, "CMD_MODE", "mode", name);
    ModeFrom(CommandText(n, "CMD_MODE", Weave(TextPieces("mode", name))), name);
  }

  lemma ModeFrom(data: string, name: string)
    requires ExtractString(data, "mode") == Some(name)
    ensures CommandOf(data, "CMD_MODE") ==
            ModeCmd(match name
                    case "TELEOP" => Some(Teleop)
                    case "AUTO" => Some(Auto)
                    case "REMOTE" => Some(Remote)
                    case _ => None)
  {
    CommandNames(data);
  }

  lemma NotInHead(n: nat, cmd: string, key: string)
    requires (cmd == "CMD_RESET" && key == "confirm") || (cmd == "CMD_MODE" && key == "mode")
    ensures key !in Head(n, cmd)
  {
    assert (":" + Decimal(n) + ",")[0] == ':';
  }
}
